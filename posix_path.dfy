/** POSIX `os.path.join`, which both copies of the data-directory code call:
    parts are added left to right; an absolute part discards everything before it,
    and a separator is inserted only when the path so far is non-empty and does not
    already end in one. */
module PosixPath {

  predicate IsAbsolute(p: string) {
    |p| > 0 && p[0] == '/'
  }

  predicate EndsWithSep(p: string) {
    |p| > 0 && p[|p| - 1] == '/'
  }

  /** The separator a relative part needs after `path`: none when the path is
      empty or already ends in one. */
  function SepAfter(path: string): string {
    if path == "" || EndsWithSep(path) then "" else "/"
  }

  /** Adds one part to a path: an absolute part replaces it, a relative part is
      appended after the separator the path lacks. */
  function JoinStep(path: string, b: string): string {
    if IsAbsolute(b) then b
    else if path == "" || EndsWithSep(path) then path + b
    else path + "/" + b
  }

  /** `os.path.join(a, *parts)`. The result is an absolute path exactly when the
      first argument or one of the parts is. */
  function Join(a: string, parts: seq<string>): (r: string)
    ensures IsAbsolute(r) <==> IsAbsolute(a) || exists k | 0 <= k < |parts| :: IsAbsolute(parts[k])
    decreases |parts|
  {
    if parts == [] then a
    else
      var next := JoinStep(a, parts[0]);
      assert IsAbsolute(next) <==> IsAbsolute(a) || IsAbsolute(parts[0]) by {
        if !IsAbsolute(parts[0]) && a != "" {
          assert next[0] == a[0];
        }
      }
      assert (exists k | 0 <= k < |parts| :: IsAbsolute(parts[k])) <==>
        IsAbsolute(parts[0]) || exists k | 0 <= k < |parts[1..]| :: IsAbsolute(parts[1..][k]) by {
        if k :| 0 <= k < |parts| && IsAbsolute(parts[k]) {
          if k > 0 { assert parts[1..][k - 1] == parts[k]; }
        }
        if k :| 0 <= k < |parts[1..]| && IsAbsolute(parts[1..][k]) {
          assert parts[k + 1] == parts[1..][k];
        }
      }
      Join(next, parts[1..])
  }

  /** Joining a list of parts in two pieces: join the first piece, then join the
      second onto the result. */
  lemma {:induction false} JoinAppend(a: string, p: seq<string>, q: seq<string>)
    ensures Join(a, p + q) == Join(Join(a, p), q)
    decreases |p|
  {
    if p == [] {
      assert p + q == q;
    } else {
      assert (p + q)[1..] == p[1..] + q;
      JoinAppend(JoinStep(a, p[0]), p[1..], q);
    }
  }

  /** Everything before an absolute part is discarded: the join restarts there. */
  lemma {:induction false} JoinRestartsAtAbsolute(a: string, parts: seq<string>, k: nat)
    requires k < |parts| && IsAbsolute(parts[k])
    ensures Join(a, parts) == Join(parts[k], parts[k + 1..])
  {
    var before, at := parts[..k], parts[k..k + 1];
    assert parts == before + at + parts[k + 1..];
    JoinAppend(a, before + at, parts[k + 1..]);
    JoinAppend(a, before, at);
    assert Join(Join(a, before), at) == Join(JoinStep(Join(a, before), parts[k]), []);
  }

  /** Joining one relative part onto a non-empty path without a trailing separator
      inserts exactly one separator; onto an empty path or one ending in `/`, none. */
  lemma JoinRelative(a: string, b: string)
    requires !IsAbsolute(b)
    ensures Join(a, [b]) == a + SepAfter(a) + b
  {
    assert Join(a, [b]) == Join(JoinStep(a, b), []);
  }

  /** An absolute part replaces whatever came before it. */
  lemma JoinAbsolute(a: string, b: string)
    requires IsAbsolute(b)
    ensures Join(a, [b]) == b
  {
    assert Join(a, [b]) == Join(JoinStep(a, b), []);
  }

  /** Joining two parts is joining the first, then the second. */
  lemma JoinTwo(a: string, b: string, c: string)
    ensures Join(a, [b, c]) == Join(Join(a, [b]), [c])
  {
    assert [b, c][1..] == [c];
    assert Join(a, [b]) == Join(JoinStep(a, b), []);
  }

  /** A path that ends in `.local` is non-empty and has no trailing separator. */
  lemma EndsInLocal(p: string, q: string)
    requires q == p + ".local"
    ensures q != "" && !EndsWithSep(q)
  {
    assert q[|q| - 1] == 'l';
  }

  /** One relative part onto a non-empty path without a trailing separator. */
  lemma JoinWithSep(a: string, b: string)
    requires a != "" && !EndsWithSep(a) && !IsAbsolute(b)
    ensures Join(a, [b]) == a + "/" + b
  {
    JoinRelative(a, b);
  }

  /** One relative part onto an empty path or one ending in `/`. */
  lemma JoinWithoutSep(a: string, b: string)
    requires a == "" || EndsWithSep(a)
    requires !IsAbsolute(b)
    ensures Join(a, [b]) == a + b
  {
    JoinRelative(a, b);
    assert a + "" == a;
  }

  /** The fallback data home `os.path.join(home, '.local', 'share')` under a home
      without a trailing separator. */
  lemma LocalShareUnder(home: string)
    requires home != "" && !EndsWithSep(home)
    ensures Join(home, [".local", "share"]) == home + "/.local/share"
  {
    var mid := home + "/" + ".local";
    calc {
      Join(home, [".local", "share"]);
    == { JoinTwo(home, ".local", "share"); }
      Join(Join(home, [".local"]), ["share"]);
    == { JoinWithSep(home, ".local"); }
      Join(mid, ["share"]);
    == { EndsInLocal(home + "/", mid); JoinWithSep(mid, "share"); }
      mid + "/" + "share";
    == { assert ".local" + "/" + "share" == ".local/share"; }
      home + "/.local/share";
    }
  }

  /** The same under an empty home or one that already ends in `/`: no separator
      is doubled. */
  lemma LocalShareDirectlyUnder(home: string)
    requires home == "" || EndsWithSep(home)
    ensures Join(home, [".local", "share"]) == home + ".local/share"
  {
    var mid := home + ".local";
    calc {
      Join(home, [".local", "share"]);
    == { JoinTwo(home, ".local", "share"); }
      Join(Join(home, [".local"]), ["share"]);
    == { JoinWithoutSep(home, ".local"); }
      Join(mid, ["share"]);
    == { EndsInLocal(home, mid); JoinWithSep(mid, "share"); }
      mid + "/" + "share";
    == { assert ".local" + "/" + "share" == ".local/share"; }
      home + ".local/share";
    }
  }
}
