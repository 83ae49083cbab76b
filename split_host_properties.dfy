/** What `split_host` promises, stated over its input forms: bare hosts, `host:port`,
    bracketed literals with and without a port, and the fallback that keeps the
    whole string as the host. Each is proved from the backtracking order
    (`FirstParseIsFirstMatch`), not from the rules' text. */
module HostPortProperties {
  import opened Basics
  import opened Decimal
  import opened HostPort

  /** The host and port `split_host` reads off the match the engine returns. */
  lemma SplitHostReadsFirstParse(s: string, dp: Option<int>)
    requires NoNewline(s)
    ensures var p := FirstParse(s);
      && HostStart(p) + p.hostLen <= |s|
      && (p.hasPort ==> IsDigits(s[TailStart(p) + 1..]))
      && SplitHost(s, dp) == HostPort(
           s[HostStart(p)..HostStart(p) + p.hostLen],
           if p.hasPort then Some(DecimalValue(s[TailStart(p) + 1..]) as int) else dp)
  {
    var p := FirstParse(s);
    assert p.hasPort ==> s[TailStart(p) + 1..] == s[TailStart(p)..][1..];
  }

  /** The string `[x]` with `x` non-empty and free of brackets: what rule A takes whole. */
  predicate BracketShape(h: string) {
    && |h| >= 3
    && h[0] == '['
    && h[|h| - 1] == ']'
    && forall i | 1 <= i < |h| - 1 :: h[i] != '[' && h[i] != ']'
  }

  /** Python's `s.count(':') >= 2`, witnessed by two positions. */
  predicate TwoColonsAt(s: string, i: nat, j: nat) {
    i < j < |s| && s[i] == ':' && s[j] == ':'
  }

  /** The whole-string parse of the third alternative always matches: the pattern
      matches every newline-free string. */
  lemma WholeAlwaysMatches(s: string)
    requires NoNewline(s)
    ensures Matches(s, Parse(Whole, |s|, false))
  {
    assert forall i | 0 <= i < |s| :: s[i] != '\n' by {
      forall i | 0 <= i < |s| ensures s[i] != '\n' { assert s[i] in s; }
    }
  }

  /** When the third alternative is the one taken, it takes the whole string and no port. */
  lemma {:induction false} WholeTakesEverything(s: string)
    requires NoNewline(s)
    requires FirstParse(s).alt == Whole
    ensures FirstParse(s) == Parse(Whole, |s|, false)
  {
    WholeAlwaysMatches(s);
    FirstParseIsFirstMatch(s, Parse(Whole, |s|, false));
  }

  /** A non-empty, colon-free string that is not `[x]` comes back unchanged with
      the default port. */
  lemma {:induction false} BareHost(h: string, dp: Option<int>)
    requires NoNewline(h) && h != "" && ':' !in h
    requires !BracketShape(h)
    ensures SplitHost(h, dp) == HostPort(h, dp)
  {
    var q := Parse(Plain, |h|, false);
    assert Matches(h, q) by {
      forall i | 0 <= i < |h| ensures h[i] != ':' { assert h[i] in h; }
    }
    FirstParseIsFirstMatch(h, q);
    var p := FirstParse(h);
    if p.alt == Bracketed {
      if !p.hasPort {
        assert BracketShape(h);
      }
      assert false;
    }
    SplitHostReadsFirstParse(h, dp);
  }

  /** Text without a newline, a colon, and digits: still without a newline. */
  lemma HostColonDigitsNoNewline(h: string, d: string)
    requires NoNewline(h) && IsDigits(d)
    ensures NoNewline(h + ":" + d)
  {
    var s := h + ":" + d;
    forall k | 0 <= k < |s| ensures s[k] != '\n' {
      if k < |h| { assert s[k] == h[k] && h[k] in h; }
      else if k > |h| { assert s[k] == d[k - |h| - 1] && IsDigit(d[k - |h| - 1]); }
    }
  }

  /** In `h:digits` with a colon-free `h` that is not `[x]`, the bracket
      alternative cannot match. */
  lemma {:induction false} NoBracketMatch(h: string, d: string, p: Parse)
    requires ':' !in h && !BracketShape(h) && IsDigits(d)
    requires Matches(h + ":" + d, p)
    ensures p.alt != Bracketed
  {
    var s := h + ":" + d;
    if p.alt == Bracketed {
      if p.hasPort && TailStart(p) == |h| {
        // the closing bracket is the last character of h
        assert BracketShape(h) by {
          forall i | 1 <= i < |h| - 1 ensures h[i] != '[' && h[i] != ']' { assert h[i] == s[i]; }
        }
      }
      assert false;
    }
  }

  /** A non-empty, colon-free host that is not `[x]`, a colon and one or more digits:
      the host and the digits' value. */
  lemma {:induction false} HostWithDigits(h: string, d: string, dp: Option<int>)
    requires NoNewline(h) && h != "" && ':' !in h
    requires !BracketShape(h)
    requires IsDigits(d)
    ensures NoNewline(h + ":" + d)
    ensures SplitHost(h + ":" + d, dp) == HostPort(h, Some(DecimalValue(d)))
  {
    var s := h + ":" + d;
    HostColonDigitsNoNewline(h, d);
    var q := Parse(Plain, |h|, true);
    assert Matches(s, q) by {
      assert s[|h|..][1..] == d;
      forall i | 0 <= i < |h| ensures s[i] != ':' { assert s[i] == h[i] && h[i] in h; }
    }
    PlainMatchIsRuleB(s, q);
    if BracketRule(s).Some? {
      NoBracketMatch(h, d, BracketRule(s).value);
    }
    assert FirstParse(s) == q;
    SplitHostReadsFirstParse(s, dp);
    assert s[..|h|] == h && s[|h| + 1..] == d;
  }

  /** Round trip with formatting `h + ":" + str(n)`: every natural number comes back
      as the port, with no upper bound. */
  lemma HostPortRoundTrip(h: string, n: nat, dp: Option<int>)
    requires NoNewline(h) && h != "" && ':' !in h
    requires !BracketShape(h)
    ensures NoNewline(h + ":" + DecimalString(n))
    ensures SplitHost(h + ":" + DecimalString(n), dp) == HostPort(h, Some(n))
  {
    HostWithDigits(h, DecimalString(n), dp);
  }

  /** Leading zeros of the port are dropped: `h:007` and `h:7` give the same result. */
  lemma LeadingZerosDropped(h: string, d: string, dp: Option<int>)
    requires NoNewline(h) && h != "" && ':' !in h
    requires !BracketShape(h)
    requires IsDigits(d)
    ensures NoNewline(h + ":0" + d) && NoNewline(h + ":" + d)
    ensures SplitHost(h + ":0" + d, dp) == SplitHost(h + ":" + d, dp)
  {
    LeadingZeroIgnored(d);
    assert h + ":0" + d == h + ":" + ("0" + d);
    HostWithDigits(h, "0" + d, dp);
    HostWithDigits(h, d, dp);
  }

  /** `[h]` followed by a port tail matches the bracket alternative when `h` is
      non-empty and free of brackets, and has no newline when `h` has none. */
  lemma BracketedMatches(h: string, tail: string, hasPort: bool)
    requires NoNewline(h) && h != "" && '[' !in h && ']' !in h
    requires '\n' !in tail
    requires PortTail(tail, hasPort)
    ensures NoNewline("[" + h + "]" + tail)
    ensures Matches("[" + h + "]" + tail, Parse(Bracketed, |h|, hasPort))
  {
    var s := "[" + h + "]" + tail;
    forall k | 0 <= k < |s| ensures s[k] != '\n' {
      if 0 < k <= |h| { assert s[k] == h[k - 1] && h[k - 1] in h; }
      else if k > |h| + 1 { assert s[k] == tail[k - |h| - 2] && tail[k - |h| - 2] in tail; }
    }
    assert s[|h| + 2..] == tail;
    forall i | 1 <= i <= |h| ensures s[i] != '[' && s[i] != ']' {
      assert s[i] == h[i - 1] && h[i - 1] in h;
    }
  }

  /** A bracketed host: the text between the brackets, colons allowed, with the
      default port. */
  lemma {:induction false} BracketedHost(h: string, dp: Option<int>)
    requires NoNewline(h) && h != "" && '[' !in h && ']' !in h
    ensures NoNewline("[" + h + "]")
    ensures SplitHost("[" + h + "]", dp) == HostPort(h, dp)
  {
    var s := "[" + h + "]";
    assert s == s + "";
    BracketedMatches(h, "", false);
    BracketMatchIsRuleA(s, Parse(Bracketed, |h|, false));
    SplitHostReadsFirstParse(s, dp);
    assert s[1..|h| + 1] == h;
  }

  /** A bracketed host, a colon and digits: the text between the brackets and the
      digits' value. The bracket rule wins, so `[x]:42` gives host `x`. */
  lemma {:induction false} BracketedHostWithDigits(h: string, d: string, dp: Option<int>)
    requires NoNewline(h) && h != "" && '[' !in h && ']' !in h
    requires IsDigits(d)
    ensures NoNewline("[" + h + "]:" + d)
    ensures SplitHost("[" + h + "]:" + d, dp) == HostPort(h, Some(DecimalValue(d)))
  {
    var tail := ":" + d;
    var s := "[" + h + "]" + tail;
    assert s == "[" + h + "]:" + d;
    assert '\n' !in tail && tail[1..] == d by {
      forall k | 0 <= k < |tail| ensures tail[k] != '\n' { if k > 0 { assert IsDigit(d[k - 1]); } }
    }
    var q := Parse(Bracketed, |h|, true);
    BracketedMatches(h, tail, true);
    BracketMatchIsRuleA(s, q);
    SplitHostOfBracketedPort(s, |h|, dp);
    BracketedPortSlices(h, d);
  }

  /** `split_host` on a string whose match takes the bracket alternative with a port. */
  lemma SplitHostOfBracketedPort(s: string, n: nat, dp: Option<int>)
    requires NoNewline(s)
    requires FirstParse(s) == Parse(Bracketed, n, true)
    ensures n + 3 <= |s| && IsDigits(s[n + 3..])
    ensures SplitHost(s, dp) == HostPort(s[1..n + 1], Some(DecimalValue(s[n + 3..]) as int))
  {
    SplitHostReadsFirstParse(s, dp);
  }

  /** Where the host and the digits sit in `[h]:d`. */
  lemma BracketedPortSlices(h: string, d: string)
    ensures var s := "[" + h + "]:" + d; s[1..|h| + 1] == h && s[|h| + 3..] == d
  {
  }

  /** Round trip with formatting `"[" + h + "]:" + str(n)`. */
  lemma BracketedRoundTrip(h: string, n: nat, dp: Option<int>)
    requires NoNewline(h) && h != "" && '[' !in h && ']' !in h
    ensures NoNewline("[" + h + "]:" + DecimalString(n))
    ensures SplitHost("[" + h + "]:" + DecimalString(n), dp) == HostPort(h, Some(n))
  {
    BracketedHostWithDigits(h, DecimalString(n), dp);
  }

  /** A string that does not start with `[` and holds two or more colons (a raw
      IPv6 literal) never has a port split off: all of it is the host. */
  lemma {:induction false} UnbracketedColonsStayWhole(s: string, i: nat, j: nat, dp: Option<int>)
    requires NoNewline(s)
    requires TwoColonsAt(s, i, j)
    requires s[0] != '['
    ensures SplitHost(s, dp) == HostPort(s, dp)
  {
    var p := FirstParse(s);
    if p.alt == Plain {
      assert false;
    }
    WholeTakesEverything(s);
    SplitHostReadsFirstParse(s, dp);
  }

  /** A string that does not start with `[`, where the first colon is the first
      character or is followed by something other than digits alone: no port is
      split off and all of it is the host (`a:b`, `:42`). */
  lemma {:induction false} NoPortSuffixStaysWhole(s: string, i: nat, dp: Option<int>)
    requires NoNewline(s)
    requires i < |s| && s[i] == ':' && ':' !in s[..i]
    requires s[0] != '['
    requires i == 0 || !IsDigits(s[i + 1..])
    ensures SplitHost(s, dp) == HostPort(s, dp)
  {
    var p := FirstParse(s);
    if p.alt == Plain {
      assert false;
    }
    WholeTakesEverything(s);
    SplitHostReadsFirstParse(s, dp);
  }

  /** Whatever neither the bracket rule nor the plain rule accepts comes back whole
      as the host, with the default port: `split_host` rejects nothing. */
  lemma RejectedByRulesStaysWhole(s: string, dp: Option<int>)
    requires NoNewline(s)
    requires BracketRule(s).None? && PlainRule(s).None?
    ensures SplitHost(s, dp) == HostPort(s, dp)
  {
    WholeTakesEverything(s);
    SplitHostReadsFirstParse(s, dp);
  }

  /** The text a match's host group captured. */
  function HostText(s: string, p: Parse): string
    requires TailStart(p) <= |s|
  {
    s[HostStart(p)..HostStart(p) + p.hostLen]
  }

  /** A bracket-alternative match spans `[`, the host, `]` and the port tail. */
  lemma BracketedMatchRebuilds(s: string, p: Parse)
    requires p.alt == Bracketed && TailStart(p) <= |s|
    requires s[0] == '[' && s[p.hostLen + 1] == ']'
    requires PortTail(s[TailStart(p)..], p.hasPort)
    ensures !p.hasPort ==> s == "[" + HostText(s, p) + "]"
    ensures p.hasPort ==> s == "[" + HostText(s, p) + "]:" + s[TailStart(p) + 1..]
  {
    var t := TailStart(p);
    assert s == s[..1] + HostText(s, p) + s[t - 1..t] + s[t..];
    assert s[..1] == "[" && s[t - 1..t] == "]";
    if p.hasPort {
      assert s[t..] == s[t..t + 1] + s[t + 1..];
      assert s[t..t + 1] == ":";
    }
  }

  /** A match of the other two alternatives spans the host and the port tail. */
  lemma UnbracketedMatchRebuilds(s: string, p: Parse)
    requires p.alt != Bracketed && TailStart(p) <= |s|
    requires PortTail(s[TailStart(p)..], p.hasPort)
    ensures !p.hasPort ==> s == HostText(s, p)
    ensures p.hasPort ==> s == HostText(s, p) + ":" + s[TailStart(p) + 1..]
  {
    var t := TailStart(p);
    assert s == HostText(s, p) + s[t..];
    if p.hasPort {
      assert s[t..] == s[t..t + 1] + s[t + 1..];
      assert s[t..t + 1] == ":";
    }
  }

  /** Input rebuilt from the result. Without a port group the input is the host or
      the host in brackets, and the port is the default. With one, the input is
      `host:digits` or `[host]:digits`, and the port is the digits' value. */
  lemma SplitHostRebuilds(s: string, dp: Option<int>)
    requires NoNewline(s)
    ensures var r := SplitHost(s, dp);
      match MatchGroups(s).port
      case None => r.port == dp && (s == r.host || s == "[" + r.host + "]")
      case Some(d) =>
        && IsDigits(d)
        && r.port == Some(DecimalValue(d))
        && (s == r.host + ":" + d || s == "[" + r.host + "]:" + d)
  {
    var p := FirstParse(s);
    SplitHostReadsFirstParse(s, dp);
    assert MatchGroups(s).port == if p.hasPort then Some(s[TailStart(p) + 1..]) else None;
    if p.alt == Bracketed {
      BracketedMatchRebuilds(s, p);
    } else {
      UnbracketedMatchRebuilds(s, p);
    }
  }

  /** The empty string is not rejected: empty host, default port. */
  lemma EmptyInput(dp: Option<int>)
    ensures SplitHost("", dp) == HostPort("", dp)
  {
    WholeAlwaysMatches("");
    FirstParseIsFirstMatch("", Parse(Whole, 0, false));
    SplitHostReadsFirstParse("", dp);
  }
}

/** The cases of tests.py:23-65 and the fallback examples, each derived from the
    general lemmas above. */
module HostPortExamples {
  import opened Basics
  import opened Decimal
  import opened HostPort
  import opened HostPortProperties

  /** A domain name alone keeps the default port (tests.py:25-29). */
  lemma DomainCase()
    ensures SplitHost("news.icm.edu.pl", Some(119)) == HostPort("news.icm.edu.pl", Some(119))
  {
    BareHost("news.icm.edu.pl", Some(119));
  }

  /** An IPv4 address alone keeps the default port (tests.py:37-41). */
  lemma Ipv4Case()
    ensures SplitHost("213.135.51.10", Some(119)) == HostPort("213.135.51.10", Some(119))
  {
    BareHost("213.135.51.10", Some(119));
  }

  /** A domain name with a port (tests.py:31-35). */
  lemma DomainAndPortCase()
    ensures SplitHost("news.icm.edu.pl:42", Some(119)) == HostPort("news.icm.edu.pl", Some(42))
  {
    assert "news.icm.edu.pl" + ":" + "42" == "news.icm.edu.pl:42";
    HostWithDigits("news.icm.edu.pl", "42", Some(119));
  }

  /** An IPv4 address with a port (tests.py:43-47). */
  lemma Ipv4AndPortCase()
    ensures SplitHost("213.135.51.10:42", Some(119)) == HostPort("213.135.51.10", Some(42))
  {
    assert "213.135.51.10" + ":" + "42" == "213.135.51.10:42";
    HostWithDigits("213.135.51.10", "42", Some(119));
  }

  /** A raw IPv6 literal is all host (tests.py:49-53). */
  lemma Ipv6Case()
    ensures SplitHost("2001:4de0:1::1:1", Some(119)) == HostPort("2001:4de0:1::1:1", Some(119))
  {
    UnbracketedColonsStayWhole("2001:4de0:1::1:1", 4, 9, Some(119));
  }

  /** A bracketed IPv6 literal, then the same with a port (tests.py:55-65). */
  lemma Ipv6InBracketsCase()
    ensures SplitHost("[2001:4de0:1::1:1]", Some(119)) == HostPort("2001:4de0:1::1:1", Some(119))
  {
    assert "[" + "2001:4de0:1::1:1" + "]" == "[2001:4de0:1::1:1]";
    BracketedHost("2001:4de0:1::1:1", Some(119));
  }

  lemma Ipv6AndPortCase()
    ensures SplitHost("[2001:4de0:1::1:1]:42", Some(119)) == HostPort("2001:4de0:1::1:1", Some(42))
  {
    assert "[" + "2001:4de0:1::1:1" + "]:" + "42" == "[2001:4de0:1::1:1]:42";
    BracketedHostWithDigits("2001:4de0:1::1:1", "42", Some(119));
  }

  /** A port above 65535 is accepted: there is no range check. */
  lemma LargePortCase()
    ensures SplitHost("news.icm.edu.pl:99999", None) == HostPort("news.icm.edu.pl", Some(99999))
  {
    assert "news.icm.edu.pl" + ":" + "99999" == "news.icm.edu.pl:99999";
    LargePortValue();
    HostWithDigits("news.icm.edu.pl", "99999", None);
  }

  lemma LargePortValue()
    ensures DecimalValue("99999") == 99999
  {
    assert "99999"[..4] == "9999" && "9999"[..3] == "999" && "999"[..2] == "99" && "99"[..1] == "9" && "9"[..0] == "";
  }

  /** A colon with no digits-only port after it: the whole string is the host. */
  lemma UnsplitColonCases()
    ensures SplitHost("a:b", None) == HostPort("a:b", None)
    ensures SplitHost(":42", None) == HostPort(":42", None)
  {
    assert "a:b"[..1] == "a" && "a:b"[2..][0] == 'b';
    NoPortSuffixStaysWhole("a:b", 1, None);
    assert ":42"[..0] == "";
    NoPortSuffixStaysWhole(":42", 0, None);
  }

  /** A bracketed host followed by something other than `:digits` is not split:
      the brackets stay in the host. */
  lemma BadBracketTailCase()
    ensures SplitHost("[a]:x", None) == HostPort("[a]:x", None)
  {
    BadBracketTailNotBracketed();
    BadBracketTailNotPlain();
    BadBracketTailNoNewline();
    RejectedByRulesStaysWhole("[a]:x", None);
  }

  lemma BadBracketTailNoNewline()
    ensures NoNewline("[a]:x")
  {
  }

  /** In `[a]:x` the closing bracket is followed by a colon and a non-digit. */
  lemma BadBracketTailNotBracketed()
    ensures BracketRule("[a]:x").None?
  {
    var s := "[a]:x";
    assert IndexOf(s, ']') == Some(2) by { assert s[..2] == "[a"; }
    assert !IsDigits(s[4..]) by { assert s[4..][0] == 'x'; }
  }

  /** In `[a]:x` the text after the first colon is not all digits. */
  lemma BadBracketTailNotPlain()
    ensures PlainRule("[a]:x").None?
  {
    var s := "[a]:x";
    assert IndexOf(s, ':') == Some(3) by { assert s[..3] == "[a]"; }
    assert !IsDigits(s[4..]) by { assert s[4..][0] == 'x'; }
  }

  lemma BadBracketColonsCase()
    ensures SplitHost("[a:b]:c:d", None) == HostPort("[a:b]:c:d", None)
  {
    BadBracketColonsNotBracketed();
    BadBracketColonsNotPlain();
    BadBracketColonsNoNewline();
    RejectedByRulesStaysWhole("[a:b]:c:d", None);
  }

  lemma BadBracketColonsNoNewline()
    ensures NoNewline("[a:b]:c:d")
  {
  }

  /** In `[a:b]:c:d` the closing bracket is followed by more than a port. */
  lemma BadBracketColonsNotBracketed()
    ensures BracketRule("[a:b]:c:d").None?
  {
    var s := "[a:b]:c:d";
    assert IndexOf(s, ']') == Some(4) by { assert s[..4] == "[a:b"; }
    assert !IsDigits(s[6..]) by { assert s[6..][0] == 'c'; }
  }

  /** In `[a:b]:c:d` the text after the first colon is not all digits. */
  lemma BadBracketColonsNotPlain()
    ensures PlainRule("[a:b]:c:d").None?
  {
    var s := "[a:b]:c:d";
    assert IndexOf(s, ':') == Some(2) by { assert s[..2] == "[a"; }
    assert !IsDigits(s[3..]) by { assert s[3..][0] == 'b'; }
  }

  /** The bracket rule wins over the plain rule: `[x]:42` gives host `x`, not `[x]`. */
  lemma BracketPriorityCase()
    ensures SplitHost("[x]:42", None) == HostPort("x", Some(42))
  {
    assert "[" + "x" + "]:" + "42" == "[x]:42";
    BracketedHostWithDigits("x", "42", None);
  }
}
