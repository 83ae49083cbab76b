# sinntp host splitting and data directory, in Dafny

This project models two small pieces of sinntp, a command-line NNTP client.

The first is `split_host` in utils.py. It turns a server string typed by the
user (`news.example.org`, `news.example.org:119`, `[2001:db8::1]:119`) into a
`(host, port)` pair. It does this with one regular expression that has three
ordered alternatives: a bracketed literal, a colon-free host, and the whole
string. An optional `:digits` suffix follows each of them.

The second is the per-user data directory. tinyxdg.py has it as module-level
`xdg_data_home` and `save_data_path`. utils.py has the same code again, as
class `xdg`. The base directory is `$XDG_DATA_HOME` when that is set and
non-empty, and `~/.local/share` otherwise. `save_data_path(resource)` joins the
base with the resource name, creates the directory, and treats "it is already a
directory" as success.

Modules:

- `Basics` (basics.dfy): `Option` and `Result`.
- `Decimal` (decimal.dfy): ASCII digit strings, Python's `int()` on them
  (`DecimalValue`) and `str()` on naturals (`DecimalString`).
- `HostPort` (split_host.dfy): the regular expression two ways.
  - `Matches(s, p)` says declaratively when a parse `p` (alternative, host
    length, port present) matches `s`.
  - `TriedBefore` is the order in which a backtracking engine tries parses:
    alternatives in order, greedy host longest first, the optional port group
    before its absence.
  - `FirstParse` applies three deterministic rules. `FirstParseIsFirstMatch`
    proves it returns the first match in that order.
  - `MatchGroups`, `PyOr` and `SplitHost` follow `split_host` line by line.
- `HostPortProperties` and `HostPortExamples` (split_host_properties.dfy): what
  `split_host` does on each input form, and the cases of tests.py.
- `PosixPath` (posix_path.dfy): POSIX `os.path.join`.
- `Xdg` (xdg.dfy): the base directory, and `save_data_path` over a class
  `FileSystem` holding the set of directories and the set of other existing
  paths. Each state-changing method is proved equal to a function on
  filesystem states (`MakeDirsStep`, `SaveDataPathStep`). The properties are
  proved about those functions.

Where the code and the documented intent differ, the model follows the code:

- `split_host("")` returns `("", default_port)`; the empty string is not rejected.
- A parsed port has no upper bound (`host:99999` gives 99999).
- `"[a]:x"` and `"[a:b]:c:d"` are not rejected. They come back whole as the host.
- `":42"` is all host, because the colon-free alternative needs at least one
  character.
- A relative `XDG_DATA_HOME` is used as it is (see Findings).

## Model

| member | source | states |
|---|---|---|
| HostPort.FirstParse | utils.py:18-21 | the rule-based parse of a newline-free string is a match of the pattern: the pattern matches every such string |
| HostPort.BracketMatchIsRuleA | utils.py:19 | any match by the bracket alternative is exactly the one the bracket rule finds, so the bracket alternative admits at most one parse |
| HostPort.PlainMatchIsRuleB | utils.py:19 | any match by the colon-free alternative is the one the plain rule finds, so that alternative admits at most one parse (host up to the first colon, the rest `:digits`) |
| HostPort.FirstParseIsFirstMatch | utils.py:19-24 | every other match of the pattern comes later in the engine's backtracking order, so the rules return the match `re.match` returns |
| HostPort.BracketRule | utils.py:19 | rule A (`[`, a bracket-free host up to the first `]`, then nothing or `:digits`) only ever yields a match of the bracket alternative |
| HostPort.PlainRule | utils.py:19 | rule B (the text up to the first `:` with only digits after it, or a colon-free string) only ever yields a match of the colon-free alternative |
| HostPort.IndexOf | utils.py:19 | the first position of a character, or none exactly when it does not occur |
| HostPort.MatchGroups | utils.py:24-26 | the four groups of the match: a port group is one or more digits; at most one of the first two host groups is set, and a set one is non-empty; some host group is always set, so the `assert` never fires |
| HostPort.PyOr | utils.py:27 | Python's `a or b` on None or strings: one of the two, truthy exactly when either is, and `a` whenever `a` is truthy |
| HostPort.SplitHost | utils.py:23-32 | the host is empty exactly when the input is; a port that differs from the default was parsed and is a natural number |
| HostPortProperties.SplitHostReadsFirstParse | utils.py:26-31 | the host is the text the taken alternative captured, and the port is the default or the value of the captured digits |
| HostPortProperties.WholeTakesEverything | utils.py:19 | when the third alternative is taken, it takes the whole string and no port |
| HostPortProperties.BareHost | utils.py:19-29 | a non-empty colon-free input not of the form `[x]` comes back unchanged with the default port |
| HostPortProperties.NoBracketMatch | utils.py:19 | in `h:digits` with a colon-free `h` not of the form `[x]`, the bracket alternative cannot match |
| HostPortProperties.HostWithDigits | utils.py:19-31 | `h + ":" + d` with such an `h` and digits `d` gives `(h, int(d))` |
| HostPortProperties.HostPortRoundTrip | utils.py:19-31 | formatting `h + ":" + str(n)` and splitting gives back `(h, n)` for every natural `n` |
| HostPortProperties.LeadingZerosDropped | utils.py:31 | `h:0d` and `h:d` split to the same pair |
| HostPortProperties.BracketedMatches | utils.py:19 | `[h]` plus a port tail matches the bracket alternative when `h` is non-empty and bracket-free |
| HostPortProperties.BracketedHost | utils.py:19-29 | `[h]` with a non-empty bracket-free `h` (colons allowed) gives `(h, default_port)` |
| HostPortProperties.BracketedHostWithDigits | utils.py:19-31 | `[h]:d` gives `(h, int(d))`: the bracket alternative wins over the whole-string one |
| HostPortProperties.SplitHostOfBracketedPort | utils.py:26-31 | when the bracket alternative takes a port, the host is the text inside the brackets and the port the value of the digits after `]:` |
| HostPortProperties.BracketedRoundTrip | utils.py:19-31 | formatting `"[" + h + "]:" + str(n)` and splitting gives back `(h, n)` |
| HostPortProperties.UnbracketedColonsStayWhole | utils.py:19-29 | a string not starting with `[` with two or more colons never has a port split off; all of it is the host |
| HostPortProperties.NoPortSuffixStaysWhole | utils.py:19-29 | a string not starting with `[` whose first colon is at the start, or is not followed by digits alone, comes back whole with the default port |
| HostPortProperties.RejectedByRulesStaysWhole | utils.py:19-29 | whatever neither the bracket rule nor the plain rule accepts comes back whole as the host with the default port |
| HostPortProperties.BracketedMatchRebuilds | utils.py:19 | a bracket-alternative match is `[`, the host, `]` and the port tail |
| HostPortProperties.UnbracketedMatchRebuilds | utils.py:19 | a match of the other two alternatives is the host and the port tail |
| HostPortProperties.SplitHostRebuilds | utils.py:19-31 | without a port group the port is the default and the input is the host or `[host]`; with one, the port is the digits' value and the input is `host:digits` or `[host]:digits` |
| HostPortProperties.EmptyInput | utils.py:19-27 | the empty string is accepted and gives `("", default_port)` |
| HostPortExamples.DomainCase | tests.py:25-29 | `news.icm.edu.pl` with default 119 gives `("news.icm.edu.pl", 119)` |
| HostPortExamples.DomainAndPortCase | tests.py:31-35 | `news.icm.edu.pl:42` gives `("news.icm.edu.pl", 42)` |
| HostPortExamples.Ipv4Case | tests.py:37-41 | `213.135.51.10` gives `("213.135.51.10", 119)` |
| HostPortExamples.Ipv4AndPortCase | tests.py:43-47 | `213.135.51.10:42` gives `("213.135.51.10", 42)` |
| HostPortExamples.Ipv6Case | tests.py:49-53 | `2001:4de0:1::1:1` comes back whole with port 119 |
| HostPortExamples.Ipv6InBracketsCase | tests.py:55-59 | `[2001:4de0:1::1:1]` gives the address inside the brackets and 119 |
| HostPortExamples.Ipv6AndPortCase | tests.py:61-65 | `[2001:4de0:1::1:1]:42` gives the address and 42 |
| HostPortExamples.LargePortCase | utils.py:31 | `news.icm.edu.pl:99999` gives port 99999: no range check |
| HostPortExamples.UnsplitColonCases | utils.py:19 | `a:b` and `:42` come back whole with the default port |
| HostPortExamples.BadBracketTailCase | utils.py:19 | `[a]:x` comes back whole with the default port |
| HostPortExamples.BadBracketColonsCase | utils.py:19 | `[a:b]:c:d` comes back whole with the default port |
| HostPortExamples.BracketPriorityCase | utils.py:19 | `[x]:42` gives host `x` and port 42, not host `[x]` |
| Decimal.DigitValue | utils.py:31 | the value of an ASCII digit is below ten; `DigitChar` is its inverse |
| Decimal.DigitChar | utils.py:31 | the digit character for a value below ten, inverse of the digit's value |
| Decimal.DecimalValue | utils.py:31 | `int()` of a digit string is below ten to the power of its length; `DecimalString` and `CanonicalDigits` make it the inverse of `str()` on digit strings without leading zeros |
| Decimal.DecimalString | utils.py:31 | `str(n)` is one or more digits with no leading zero (unless it is `0`), and `int()` of it is `n` |
| Decimal.LeadingZeroIgnored | utils.py:31 | a leading zero does not change the value `int()` gives |
| Decimal.CanonicalDigits | utils.py:31 | a digit string without a leading zero is what `str()` writes for its value |
| Decimal.LeadingDigitBound | utils.py:31 | a digit string with a non-zero first digit has a positive value |
| PosixPath.Join | tinyxdg.py:21-24 | `os.path.join(a, *parts)` gives an absolute path exactly when `a` or one of the parts is absolute |
| PosixPath.JoinAppend | tinyxdg.py:21-24 | joining `p + q` is joining `p` and then joining `q` onto the result, for all lists of parts |
| PosixPath.JoinRestartsAtAbsolute | tinyxdg.py:24 | everything before an absolute part is discarded: the join restarts at that part |
| PosixPath.JoinRelative | tinyxdg.py:24 | `join(a, b)` for a relative `b` is `a`, the separator `a` lacks, and `b` |
| PosixPath.JoinAbsolute | tinyxdg.py:24 | `join(a, b)` for an absolute `b` is `b` |
| PosixPath.JoinTwo | tinyxdg.py:21 | joining two parts is joining the first and then the second |
| PosixPath.JoinWithSep | tinyxdg.py:24 | a relative part onto a non-empty path without a trailing `/` gets exactly one separator |
| PosixPath.JoinWithoutSep | tinyxdg.py:24 | a relative part onto an empty path or one ending in `/` gets none |
| PosixPath.LocalShareUnder | tinyxdg.py:21 | `join(home, ".local", "share")` is `home + "/.local/share"` for a non-empty home without a trailing `/` |
| PosixPath.LocalShareDirectlyUnder | tinyxdg.py:21 | it is `home + ".local/share"` for an empty home or one ending in `/` |
| Xdg.DataHome | tinyxdg.py:21 | the base is never empty, and it is the variable's value whenever that is set and non-empty |
| Xdg.DataHomeFallback | utils.py:40 | with the variable unset or empty, the base is `.local/share` under the home directory with exactly one separator |
| Xdg.DataHomeFromEnvironment | utils.py:40 | a set, non-empty value is the base exactly, whatever it is |
| Xdg.RelativeValueKept | tinyxdg.py:21 | as written, `XDG_DATA_HOME=eggs` gives the base `eggs`; the corrected rule does not |
| Xdg.DataHomeAbsolute | tinyxdg.py:21 | corrected rule: an absolute value is the base; anything else gives the `.local/share` fallback; an absolute home gives an absolute base |
| Xdg.RelativeValueIgnored | tinyxdg.py:21 | under the corrected rule a relative or empty value gives the same base as an unset one |
| Xdg.MakeDirsStep | tinyxdg.py:26 | `makedirs` succeeds exactly when nothing is at the path and the system agrees; it raises "exists" exactly when something is there; only a success adds the directory |
| Xdg.SaveDataPathStep | utils.py:43-50 | a returned path is `join(base, resource)` and is a directory afterwards; an error escapes exactly when the path was not a directory and something else was there or the system refused; only a success can add a directory |
| Xdg.SaveDataPathIdempotent | tinyxdg.py:23-30 | after a call that returned, calling again with the same resource returns the same path, whatever the system would answer, and changes nothing |
| Xdg.SaveDataPathUnderBase | tinyxdg.py:24 | an absolute resource is the returned path itself; a relative one goes under the base with one separator |
| Xdg.FileSystem.IsDir | tinyxdg.py:28 | `os.path.isdir(path)`: a path it reports as a directory is not also another kind of file |
| Xdg.FileSystem.MakeDirs | tinyxdg.py:26 | the method's new state and error are those of `MakeDirsStep` on the old state |
| Xdg.SaveDataPath | tinyxdg.py:23-30 | the method's new state and result are those of `SaveDataPathStep` on the old state |

## Left out

- Python regular-expression newline behaviour: `.` does not match a newline,
  `[^:]` does, and `$` also matches before a final newline. `SplitHost` and the
  regex model require a newline-free input instead.
- IPv6 syntax inside brackets is not validated, as in the source.
- Port range checks and rejection of empty hosts are not modelled, because the
  source has neither.
- `os.makedirs` creating missing parent directories is not modelled. The model
  creates only the final directory. A parent that cannot be created is one of
  the reasons the system may refuse.
- Xdg.SaveDataPathStep: paths are compared as strings. There is no
  normalisation of a trailing `/`, `//`, `.` or `..`, and no symbolic links, so
  `x/` and `x` are different paths in the model although `os.path.isdir` treats
  them as the same directory. The filesystem also cannot change between the
  failed `makedirs` and the `isdir` check, so the race that check guards against
  is not modelled.
- The `0700` permission mode is not modelled: the model has no permissions.
- The ways `os.makedirs` can fail besides "already exists" (permissions, a
  read-only filesystem, a missing parent) are one abstract outcome, chosen by
  the `refused` parameter.
- The environment variable and `os.path.expanduser('~')` are read once, at
  import. Here they are parameters of `DataHome`. `SaveDataPath` takes the base
  as a parameter.
- Class `xdg` in utils.py:34-50 is the same code as tinyxdg.py:21-30. It is
  modelled once, by `Xdg`.
- plugins.py (header stripping, MIME conversion, debug printing) is not part of
  this model.
- `join_lines` is not part of this model. It is defined in none of the source
  files modelled here.

## Findings

| source | as written | input that shows it | evidently intended | confidence | as-written member | corrected member |
|---|---|---|---|---|---|---|
| tinyxdg.py:21 | any set, non-empty `XDG_DATA_HOME` is the base, relative or not | `XDG_DATA_HOME=eggs` gives the base `eggs` | a value that is not an absolute path is ignored, as tests.py:90-92 expects and the XDG Base Directory Specification requires | high, not executed | Xdg.RelativeValueKept | Xdg.DataHomeAbsolute |
