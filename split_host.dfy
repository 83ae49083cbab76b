/** `split_host` of utils.py: a server string typed by the user becomes a host and
    a port. The source runs one regular expression with three ordered alternatives,

      ^ (?: \[ ( [^\[\]]+ ) \] | ( [^:]+ ) | ( .* ) ) (?: : ([0-9]+) )? $

    and takes the first match Python's backtracking engine finds. This module states
    that pattern twice: `Matches` lists every way it can match a string and
    `TriedBefore` is the order the engine tries them in; `FirstParse` is the same
    pattern as three deterministic rules. `FirstParseIsFirstMatch` proves the rules
    pick the match the engine returns. Inputs are newline-free throughout. */
module HostPort {
  import opened Basics
  import opened Decimal

  predicate NoNewline(s: string) {
    '\n' !in s
  }

  /** Index of the first occurrence of `c` in `s`, if any. */
  function IndexOf(s: string, c: char): (r: Option<nat>)
    ensures r.None? <==> c !in s
    ensures r.Some? ==> r.value < |s| && s[r.value] == c && c !in s[..r.value]
  {
    if s == [] then None
    else if s[0] == c then Some(0)
    else match IndexOf(s[1..], c)
      case None => None
      case Some(i) =>
        assert s[..i + 1] == [s[0]] + s[1..][..i];
        Some(i + 1)
  }

  // ---------------------------------------------------------------------------
  // The pattern, declaratively

  /** The three alternatives of the pattern, in the order they are written. */
  datatype Alternative = Bracketed | Plain | Whole

  /** One way the pattern can match a whole string: the alternative taken, how many
      characters its host group captured, and whether the optional `:port` group
      took part. */
  datatype Parse = Parse(alt: Alternative, hostLen: nat, hasPort: bool)

  /** Index where the host group starts (after `[` in the bracket alternative). */
  function HostStart(p: Parse): nat {
    if p.alt == Bracketed then 1 else 0
  }

  /** Index where the optional `:port` group would start. */
  function TailStart(p: Parse): nat {
    if p.alt == Bracketed then p.hostLen + 2 else p.hostLen
  }

  /** What follows the alternation: `(?: : ([0-9]+) )? $`, anchored at the end. */
  predicate PortTail(t: string, hasPort: bool) {
    if hasPort then |t| >= 2 && t[0] == ':' && IsDigits(t[1..]) else t == []
  }

  /** The pattern matches the whole of `s` by the choices recorded in `p`. */
  predicate Matches(s: string, p: Parse) {
    && TailStart(p) <= |s|
    && PortTail(s[TailStart(p)..], p.hasPort)
    && match p.alt
       case Bracketed =>
         && p.hostLen >= 1
         && s[0] == '['
         && s[p.hostLen + 1] == ']'
         && forall i | 1 <= i <= p.hostLen :: s[i] != '[' && s[i] != ']'
       case Plain =>
         && p.hostLen >= 1
         && forall i | 0 <= i < p.hostLen :: s[i] != ':'
       case Whole =>
         forall i | 0 <= i < p.hostLen :: s[i] != '\n'
  }

  function Rank(a: Alternative): nat {
    match a
    case Bracketed => 0
    case Plain => 1
    case Whole => 2
  }

  /** The backtracking engine tries `p` before `q`: an earlier alternative first,
      then a longer greedy host group, then the optional port group present before
      absent. The digit count is fixed by the end anchor. */
  predicate TriedBefore(p: Parse, q: Parse) {
    || Rank(p.alt) < Rank(q.alt)
    || (p.alt == q.alt && p.hostLen > q.hostLen)
    || (p.alt == q.alt && p.hostLen == q.hostLen && p.hasPort && !q.hasPort)
  }

  // ---------------------------------------------------------------------------
  // The pattern as three ordered rules

  /** Rule A: `[`, a non-empty host free of `[` up to the first `]`, then nothing
      or `:` and digits. */
  function BracketRule(s: string): (r: Option<Parse>)
    ensures r.Some? ==> r.value.alt == Bracketed && Matches(s, r.value)
  {
    if |s| == 0 || s[0] != '[' then None
    else match IndexOf(s, ']')
      case None => None
      case Some(j) =>
        if j >= 2 && '[' !in s[1..j] && (j + 1 == |s| || (s[j + 1] == ':' && IsDigits(s[j + 2..])))
        then
          var p := Parse(Bracketed, j - 1, j + 1 < |s|);
          assert forall i | 1 <= i <= p.hostLen :: s[i] != '[' && s[i] != ']' by {
            forall i | 1 <= i <= p.hostLen ensures s[i] != '[' && s[i] != ']' {
              assert s[i] == s[..j][i] == s[1..j][i - 1];
            }
          }
          assert p.hasPort ==> s[TailStart(p)..][1..] == s[j + 2..];
          Some(p)
        else None
  }

  /** Rule B: a non-empty string without `:`, or a non-empty host before the first
      `:` followed by digits only. */
  function PlainRule(s: string): (r: Option<Parse>)
    ensures r.Some? ==> r.value.alt == Plain && Matches(s, r.value)
  {
    match IndexOf(s, ':')
    case None =>
      if s == [] then None
      else
        assert forall i | 0 <= i < |s| :: s[i] != ':' by {
          forall i | 0 <= i < |s| ensures s[i] != ':' { assert s[i] in s; }
        }
        Some(Parse(Plain, |s|, false))
    case Some(i) =>
      if i > 0 && IsDigits(s[i + 1..]) then
        assert forall k | 0 <= k < i :: s[k] != ':' by {
          forall k | 0 <= k < i ensures s[k] != ':' { assert s[k] == s[..i][k]; }
        }
        assert s[i..][1..] == s[i + 1..];
        Some(Parse(Plain, i, true))
      else None
  }

  /** Rule A, else rule B, else rule C: the whole string is the host. */
  function FirstParse(s: string): (p: Parse)
    requires NoNewline(s)
    ensures Matches(s, p)
  {
    match BracketRule(s)
    case Some(p) => p
    case None =>
      match PlainRule(s)
      case Some(p) => p
      case None =>
        var p := Parse(Whole, |s|, false);
        assert forall i | 0 <= i < |s| :: s[i] != '\n' by {
          forall i | 0 <= i < |s| ensures s[i] != '\n' { assert s[i] in s; }
        }
        p
  }

  // ---------------------------------------------------------------------------
  // The rules select the match the engine returns

  /** Every bracket-alternative match is the one rule A finds. */
  lemma BracketMatchIsRuleA(s: string, q: Parse)
    requires Matches(s, q) && q.alt == Bracketed
    ensures BracketRule(s) == Some(q)
  {
    var j := q.hostLen + 1;
    assert forall i | 0 <= i < j :: s[i] != ']' by {
      forall i | 0 <= i < j ensures s[i] != ']' {
        if i > 0 { assert 1 <= i <= q.hostLen; }
      }
    }
    assert ']' !in s[..j] by {
      forall i | 0 <= i < j ensures s[..j][i] != ']' { assert s[..j][i] == s[i]; }
    }
    assert IndexOf(s, ']') == Some(j) by {
      assert s[j] in s;
      assert s[..IndexOf(s, ']').value + 1][j] == s[j];
    }
    assert '[' !in s[1..j] by {
      forall i | 0 <= i < j - 1 ensures s[1..j][i] != '[' { assert s[1..j][i] == s[i + 1]; }
    }
    if q.hasPort {
      assert s[q.hostLen + 2..][1..] == s[j + 2..];
    }
  }

  /** The plain alternative admits at most one match, and it is the one rule B
      finds: rule B applies whenever some plain match exists. */
  lemma PlainMatchIsRuleB(s: string, q: Parse)
    requires Matches(s, q) && q.alt == Plain
    ensures PlainRule(s).Some?
    ensures PlainRule(s).value == q
  {
    if q.hasPort {
      assert s[q.hostLen] == ':' && s[q.hostLen] in s;
      assert s[q.hostLen..][1..] == s[q.hostLen + 1..];
    } else {
      assert s[..q.hostLen] == s;
    }
  }

  /** The first match the backtracking engine reaches is the one the rules compute:
      it matches, and it is tried before every other match of the pattern. */
  lemma FirstParseIsFirstMatch(s: string, q: Parse)
    requires NoNewline(s)
    requires Matches(s, q)
    ensures q == FirstParse(s) || TriedBefore(FirstParse(s), q)
  {
    var p := FirstParse(s);
    match q.alt
    case Bracketed =>
      BracketMatchIsRuleA(s, q);
    case Plain =>
      PlainMatchIsRuleB(s, q);
      if BracketRule(s).None? {
        assert p == q;
      }
    case Whole =>
      if BracketRule(s).None? && PlainRule(s).None? {
        assert p == Parse(Whole, |s|, false);
        if q.hostLen == |s| {
          assert !q.hasPort;
        }
      }
  }

  // ---------------------------------------------------------------------------
  // match.groups() and split_host

  /** `match.groups()`: the three host groups and the port group; a group that did
      not take part is None. */
  datatype Groups = Groups(host1: Option<string>, host2: Option<string>, host3: Option<string>, port: Option<string>)

  /** The groups of the match the engine returns. */
  function MatchGroups(s: string): (g: Groups)
    requires NoNewline(s)
    ensures g.port.Some? ==> IsDigits(g.port.value)
    ensures g.host1.Some? ==> g.host1.value != "" && g.host2.None? && g.host3.None?
    ensures g.host2.Some? ==> g.host2.value != "" && g.host1.None? && g.host3.None?
    ensures g.host1.Some? || g.host2.Some? || g.host3.Some?
  {
    var p := FirstParse(s);
    var host := s[HostStart(p)..HostStart(p) + p.hostLen];
    var port := if p.hasPort then Some(s[TailStart(p) + 1..]) else None;
    assert p.hasPort ==> s[TailStart(p) + 1..] == s[TailStart(p)..][1..];
    match p.alt
    case Bracketed => Groups(Some(host), None, None, port)
    case Plain => Groups(None, Some(host), None, port)
    case Whole => Groups(None, None, Some(host), port)
  }

  /** Python's truth value of None or a string: present and non-empty. */
  predicate Truthy(a: Option<string>) {
    a.Some? && a.value != ""
  }

  /** Python's `a or b` on values that are None or a string: one of the two, truthy
      exactly when either is, and `a` itself whenever `a` is truthy. */
  function PyOr(a: Option<string>, b: Option<string>): (r: Option<string>)
    ensures r == a || r == b
    ensures Truthy(r) <==> Truthy(a) || Truthy(b)
    ensures Truthy(a) ==> r == a
  {
    if Truthy(a) then a else b
  }

  /** The value returned by `split_host`: a host and a port, where the port is an
      integer or `default_port` (None when the caller gave none). */
  datatype HostPort = HostPort(host: string, port: Option<int>)

  /** `split_host(s, default_port)` for a newline-free `s`. Total: the third
      alternative matches anything, so the source's assertion never fails. */
  function SplitHost(s: string, defaultPort: Option<int>): (r: HostPort)
    requires NoNewline(s)
    ensures r.host == "" <==> s == ""
    ensures r.port != defaultPort ==> r.port.Some? && r.port.value >= 0
  {
    var g := MatchGroups(s);
    var host := PyOr(PyOr(g.host1, g.host2), g.host3);
    var port := if g.port.None? then defaultPort else Some(DecimalValue(g.port.value) as int);
    assert host.Some?;
    ghost var p := FirstParse(s);
    assert host.value == s[HostStart(p)..HostStart(p) + p.hostLen];
    HostPort(host.value, port)
  }
}
