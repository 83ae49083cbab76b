/** The per-user data directory of tinyxdg.py and of class `xdg` in utils.py (the
    two are the same code): the base directory is `$XDG_DATA_HOME` when that is set
    and non-empty, `~/.local/share` otherwise, and `save_data_path(resource)` joins
    the base with the resource name and creates the directory, treating "already a
    directory" as success.

    The environment value and the home directory are parameters (the source reads
    them once, at import). The filesystem is a class holding the set of directory
    paths and the set of other existing paths; whether the operating system refuses
    to create a directory is a parameter. */
module Xdg {
  import opened Basics
  import opened PosixPath

  // ---------------------------------------------------------------------------
  // The base directory

  /** `os.environ.get('XDG_DATA_HOME') or os.path.join(home, '.local', 'share')`:
      the value of the variable when it is set and non-empty, used as it is. */
  function DataHome(env: Option<string>, home: string): (r: string)
    ensures r != ""
    ensures env.Some? && env.value != "" ==> r == env.value
  {
    if env.Some? && env.value != "" then env.value
    else
      var fallback := Join(home, [".local", "share"]);
      assert fallback != "" by {
        if home != "" && !EndsWithSep(home) { LocalShareUnder(home); } else { LocalShareDirectlyUnder(home); }
      }
      fallback
  }

  /** With the variable unset or empty, the base is `.local/share` under the home
      directory, with exactly one separator between them. */
  lemma DataHomeFallback(env: Option<string>, home: string)
    requires env.None? || env.value == ""
    ensures home != "" && !EndsWithSep(home) ==> DataHome(env, home) == home + "/.local/share"
    ensures home == "" || EndsWithSep(home) ==> DataHome(env, home) == home + ".local/share"
  {
    if home != "" && !EndsWithSep(home) { LocalShareUnder(home); } else { LocalShareDirectlyUnder(home); }
  }

  /** A set, non-empty value is the base exactly, whatever it is. */
  lemma DataHomeFromEnvironment(value: string, home: string)
    requires value != ""
    ensures DataHome(Some(value), home) == value
  {
  }

  /** As written, a relative value such as `eggs` is used verbatim: nothing checks
      that it is absolute. */
  lemma RelativeValueKept(home: string)
    ensures DataHome(Some("eggs"), home) == "eggs"
    ensures DataHomeAbsolute(Some("eggs"), home) != "eggs"
  {
    var r := DataHomeAbsolute(Some("eggs"), home);
    assert IsAbsolute(r) || r[|r| - 5..] == "share";
  }

  /** The base directory as the XDG Base Directory Specification defines it, which
      also ignores a value that is not an absolute path. */
  function DataHomeAbsolute(env: Option<string>, home: string): (r: string)
    ensures env.Some? && IsAbsolute(env.value) ==> r == env.value
    ensures !(env.Some? && IsAbsolute(env.value)) ==> r == Join(home, [".local", "share"])
    ensures IsAbsolute(home) ==> IsAbsolute(r)
  {
    if env.Some? && IsAbsolute(env.value) then env.value
    else
      var fallback := Join(home, [".local", "share"]);
      assert IsAbsolute(home) ==> IsAbsolute(fallback) by {
        if IsAbsolute(home) {
          if EndsWithSep(home) { LocalShareDirectlyUnder(home); } else { LocalShareUnder(home); }
        }
      }
      fallback
  }

  /** Under the corrected rule, unset, empty and relative values all give the same
      base, and an absolute value is the base exactly. */
  lemma RelativeValueIgnored(value: string, home: string)
    ensures !IsAbsolute(value) ==> DataHomeAbsolute(Some(value), home) == DataHomeAbsolute(None, home)
    ensures IsAbsolute(value) ==> DataHomeAbsolute(Some(value), home) == value
    ensures DataHomeAbsolute(Some(""), home) == DataHome(None, home)
  {
  }

  // ---------------------------------------------------------------------------
  // The filesystem

  /** Why `os.makedirs` raised: the path already exists, or the system refused
      (permissions, a parent that is not a directory, a read-only filesystem). */
  datatype OsError = FileExists | Refused

  /** The paths that are directories and the paths that exist as something else. */
  datatype FsState = FsState(dirs: set<string>, others: set<string>)

  predicate Consistent(st: FsState) {
    st.dirs !! st.others
  }

  /** A filesystem state after an operation, with what the operation gave back. */
  datatype After<R> = After(fs: FsState, out: R)

  /** `os.makedirs(path)`: raises FileExists when something is already there,
      raises Refused when the system says no, and otherwise creates the directory. */
  function MakeDirsStep(st: FsState, path: string, refused: bool): (a: After<Option<OsError>>)
    requires Consistent(st)
    ensures Consistent(a.fs)
    ensures a.out.None? <==> path !in st.dirs && path !in st.others && !refused
    ensures a.out == Some(FileExists) <==> path in st.dirs || path in st.others
    ensures a.fs.others == st.others
    ensures a.fs.dirs == if a.out.None? then st.dirs + {path} else st.dirs
  {
    if path in st.dirs || path in st.others then After(st, Some(FileExists))
    else if refused then After(st, Some(Refused))
    else After(FsState(st.dirs + {path}, st.others), None)
  }

  /** `save_data_path(resource)` on a state: the path is `join(base, resource)`. A
      returned path is a directory afterwards; the error from `makedirs` escapes
      exactly when the path is not a directory, which happens when it was none
      before and either something else is there or the system refused. */
  function SaveDataPathStep(st: FsState, base: string, resource: string, refused: bool): (a: After<Result<string, OsError>>)
    requires Consistent(st)
    ensures Consistent(a.fs)
    ensures a.out.Success? ==> a.out.value == Join(base, [resource]) && a.out.value in a.fs.dirs
    ensures a.out.Failure? <==>
      Join(base, [resource]) !in st.dirs && (Join(base, [resource]) in st.others || refused)
    ensures a.out.Failure? ==>
      a.out.error == if Join(base, [resource]) in st.others then FileExists else Refused
    ensures a.fs.others == st.others
    ensures a.fs.dirs == if a.out.Success? then st.dirs + {Join(base, [resource])} else st.dirs
  {
    var path := Join(base, [resource]);
    var made := MakeDirsStep(st, path, refused);
    if made.out.Some? && path !in made.fs.dirs then After(made.fs, Failure(made.out.value))
    else After(made.fs, Success(path))
  }

  /** Calling `save_data_path` again with the same resource after it returned gives
      the same path, succeeds whatever the system would say, and changes nothing. */
  lemma {:induction false} SaveDataPathIdempotent(st: FsState, base: string, resource: string, refused1: bool, refused2: bool)
    requires Consistent(st)
    requires SaveDataPathStep(st, base, resource, refused1).out.Success?
    ensures var first := SaveDataPathStep(st, base, resource, refused1);
      SaveDataPathStep(first.fs, base, resource, refused2) == After(first.fs, first.out)
  {
  }

  /** A resource name that is absolute is the returned path itself; a relative one
      is put under the base with one separator. */
  lemma SaveDataPathUnderBase(base: string, resource: string)
    ensures IsAbsolute(resource) ==> Join(base, [resource]) == resource
    ensures !IsAbsolute(resource) && base != "" && !EndsWithSep(base) ==>
      Join(base, [resource]) == base + "/" + resource
  {
    if IsAbsolute(resource) { JoinAbsolute(base, resource); } else { JoinRelative(base, resource); }
  }

  /** The filesystem the two operations act on. */
  class FileSystem {
    var dirs: set<string>
    var others: set<string>

    ghost predicate Valid()
      reads this
    {
      dirs !! others
    }

    function State(): FsState
      reads this
    {
      FsState(dirs, others)
    }

    constructor (dirs0: set<string>, others0: set<string>)
      requires dirs0 !! others0
      ensures Valid() && State() == FsState(dirs0, others0)
    {
      dirs, others := dirs0, others0;
    }

    /** `os.path.isdir(path)`: a path that is a directory is not also something else. */
    predicate IsDir(path: string)
      requires Valid()
      reads this
      ensures IsDir(path) ==> path !in others
    {
      path in dirs
    }

    /** `os.makedirs(path, 0700)`; `refused` is the system's answer should it have
        to create the directory. Returns the error raised, if any. */
    method MakeDirs(path: string, refused: bool) returns (err: Option<OsError>)
      requires Valid()
      modifies this
      ensures Valid()
      ensures After(State(), err) == MakeDirsStep(old(State()), path, refused)
    {
      if path in dirs || path in others {
        err := Some(FileExists);
      } else if refused {
        err := Some(Refused);
      } else {
        dirs := dirs + {path};
        err := None;
      }
    }
  }

  /** `save_data_path(resource)` with `base` the module's `xdg_data_home`: create the
      directory, swallow the error when the path is a directory after all, and
      return the path; otherwise the error escapes. */
  method SaveDataPath(fs: FileSystem, base: string, resource: string, refused: bool)
    returns (r: Result<string, OsError>)
    requires fs.Valid()
    modifies fs
    ensures fs.Valid()
    ensures After(fs.State(), r) == SaveDataPathStep(old(fs.State()), base, resource, refused)
  {
    var path := Join(base, [resource]);
    var err := fs.MakeDirs(path, refused);
    if err.Some? && !fs.IsDir(path) {
      r := Failure(err.value);
    } else {
      r := Success(path);
    }
  }
}
