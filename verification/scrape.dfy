/** The regular expressions the strategies use to find things in CLI output. All have
    the shape of a literal lead followed by one or more characters of a class, and are
    used without the global flag: `match` and `test` look for the leftmost position
    where the pattern matches, and the greedy repetition then takes the longest run. */
module Scrape {
  import opened Wrappers
  import opened Text

  /** The repeated character class: "not whitespace and not one of `extra`" (a
      negated class `[^\s...]`), "not one of `excluded`" (`[^...]`), or the decimal
      digits `\d`. */
  datatype CharClass = NotSpaceNor(extra: set<char>) | NoneOf(excluded: set<char>) | Digit

  datatype Pattern = Pattern(lead: string, body: CharClass)

  predicate InClass(k: CharClass, c: char) {
    match k
    case NotSpaceNor(extra) => !IsSpace(c) && c !in extra
    case NoneOf(excluded) => c !in excluded
    case Digit => IsDigit(c)
  }

  /** `/https:\/\/claude\.ai\/oauth[^\s"'>)]+/` */
  const ClaudeAuthUrl := Pattern("https://claude.ai/oauth", NotSpaceNor({'"', '\'', '>', ')'}))

  /** `/https:\/\/accounts\.google\.com[^\s"'>]+/` */
  const GoogleAuthUrl := Pattern("https://accounts.google.com", NotSpaceNor({'"', '\'', '>'}))

  /** `/https:\/\/[^\s"'>]+/`, the Codex device-login URL. */
  const AnyHttpsUrl := Pattern("https://", NotSpaceNor({'"', '\'', '>'}))

  /** `/redirect_uri=http%3A%2F%2Flocalhost%3A(\d+)/`: the captured group is the body. */
  const CallbackPortPattern := Pattern("redirect_uri=http%3A%2F%2Flocalhost%3A", Digit)

  /** The pattern matches at index `i`: the lead is there and one class character follows. */
  predicate MatchesAt(p: Pattern, s: string, i: nat) {
    i + |p.lead| < |s| && s[i..i + |p.lead|] == p.lead && InClass(p.body, s[i + |p.lead|])
  }

  /** Length of the run of class characters starting at index `j` (greedy repetition). */
  function Run(k: CharClass, s: string, j: nat): (n: nat)
    requires j <= |s|
    ensures j + n <= |s|
    ensures forall m :: j <= m < j + n ==> InClass(k, s[m])
    ensures j + n == |s| || !InClass(k, s[j + n])
    decreases |s| - j
  {
    if j == |s| || !InClass(k, s[j]) then 0 else 1 + Run(k, s, j + 1)
  }

  /** The leftmost index at or after `from` where the pattern matches. */
  function Leftmost(p: Pattern, s: string, from: nat): (r: Option<nat>)
    requires from <= |s|
    ensures r.Some? ==> from <= r.value < |s| && MatchesAt(p, s, r.value)
    ensures forall j :: from <= j <= |s| && (r.None? || j < r.value) ==> !MatchesAt(p, s, j)
    decreases |s| - from
  {
    if MatchesAt(p, s, from) then Some(from)
    else if from == |s| then None
    else Leftmost(p, s, from + 1)
  }

  /** The text the pattern matches at index `i`: the lead and the whole run after it. */
  function MatchText(p: Pattern, s: string, i: nat): (m: string)
    requires MatchesAt(p, s, i)
    ensures StartsWith(m, p.lead) && |m| > |p.lead|
    ensures forall k :: |p.lead| <= k < |m| ==> InClass(p.body, m[k])
    ensures OccursAt(s, m, i)
    ensures i + |m| == |s| || !InClass(p.body, s[i + |m|])
  {
    var n := Run(p.body, s, i + |p.lead|);
    var m := s[i..i + |p.lead| + n];
    assert m[..|p.lead|] == s[i..i + |p.lead|];
    m
  }

  /** `s.match(pattern)?.[0]`: the first match, if any. */
  function Find(p: Pattern, s: string): (r: Option<string>)
    ensures r.None? <==> forall j :: 0 <= j <= |s| ==> !MatchesAt(p, s, j)
    ensures r.Some? ==> StartsWith(r.value, p.lead) && |r.value| > |p.lead|
    ensures r.Some? ==> forall k :: |p.lead| <= k < |r.value| ==> InClass(p.body, r.value[k])
  {
    match Leftmost(p, s, 0)
    case None => None
    case Some(i) => Some(MatchText(p, s, i))
  }

  /** `pattern.test(s)`. */
  predicate Test(p: Pattern, s: string) {
    Find(p, s).Some?
  }

  lemma {:induction false} RunOfBody(k: CharClass, s: string, j: nat, n: nat)
    requires j + n <= |s|
    requires forall m :: j <= m < j + n ==> InClass(k, s[m])
    requires j + n == |s| || !InClass(k, s[j + n])
    ensures Run(k, s, j) == n
    decreases n
  {
    if n > 0 {
      RunOfBody(k, s, j + 1, n - 1);
    }
  }

  /** Output that begins with a complete match, ended by the end of the output or by a
      character outside the class, yields exactly that match. */
  lemma FindAtFront(p: Pattern, body: string, t: string)
    requires |body| > 0 && forall k :: 0 <= k < |body| ==> InClass(p.body, body[k])
    requires |t| == 0 || !InClass(p.body, t[0])
    ensures Find(p, p.lead + body + t) == Some(p.lead + body)
  {
    var s := p.lead + body + t;
    var l := |p.lead|;
    assert s[..l] == p.lead;
    assert s[l] == body[0];
    assert MatchesAt(p, s, 0);
    forall m | l <= m < l + |body| ensures InClass(p.body, s[m]) {
      assert s[m] == body[m - l];
    }
    if |t| > 0 {
      assert s[l + |body|] == t[0];
    }
    RunOfBody(p.body, s, l, |body|);
    assert s[0..l + |body|] == p.lead + body;
  }

  /** A match found in some output is still found once more output is appended, so a
      test on accumulated output stays true. */
  lemma TestPersists(p: Pattern, a: string, b: string)
    requires Test(p, a)
    ensures Test(p, a + b)
  {
    var i := Leftmost(p, a, 0).value;
    var l := |p.lead|;
    assert (a + b)[i..i + l] == a[i..i + l];
    assert (a + b)[i + l] == a[i + l];
    assert MatchesAt(p, a + b, i);
  }

  /** Output whose first match follows a prefix holding no first character of the
      lead yields that match. */
  lemma FindAfter(p: Pattern, pre: string, body: string, t: string)
    requires |p.lead| > 0 && forall j :: 0 <= j < |pre| ==> pre[j] != p.lead[0]
    requires |body| > 0 && forall k :: 0 <= k < |body| ==> InClass(p.body, body[k])
    requires |t| == 0 || !InClass(p.body, t[0])
    ensures Find(p, pre + (p.lead + body) + t) == Some(p.lead + body)
  {
    var w := p.lead + body;
    var s := pre + w + t;
    var l := |p.lead|;
    var i := |pre|;
    assert s[i..i + |w|] == w;
    assert w[..l] == p.lead;
    assert s[i..i + l] == p.lead;
    assert s[i + l] == body[0];
    forall j | 0 <= j < i ensures !MatchesAt(p, s, j) {
      if j + l <= |s| {
        assert s[j..j + l][0] == pre[j];
      }
    }
    forall m | i + l <= m < i + |w| ensures InClass(p.body, s[m]) {
      assert s[m] == body[m - i - l];
    }
    if |t| > 0 {
      assert s[i + |w|] == t[0];
    }
    FindAt(p, s, i);
    RunOfBody(p.body, s, i + l, |body|);
    assert MatchText(p, s, i) == s[i..i + |w|];
  }

  /** Characters of a match are characters of the searched text. */
  lemma FindInText(p: Pattern, text: string)
    requires Find(p, text).Some?
    ensures forall ch :: ch in Find(p, text).value ==> ch in text
  {
    var i := Leftmost(p, text, 0).value;
    var m := MatchText(p, text, i);
    forall ch | ch in m ensures ch in text {
      var k :| 0 <= k < |m| && m[k] == ch;
      assert text[i + k] == ch;
    }
  }

  /** A match at index `i` with none before it is the match `match` returns. */
  lemma FindAt(p: Pattern, s: string, i: nat)
    requires MatchesAt(p, s, i)
    requires forall j :: 0 <= j < i ==> !MatchesAt(p, s, j)
    ensures Find(p, s) == Some(MatchText(p, s, i))
  {
    assert Leftmost(p, s, 0) == Some(i);
  }

  /** `parseInt` of the port captured from a login URL, if the URL carries one. */
  function CallbackPort(url: string): (r: Option<nat>)
  {
    match Find(CallbackPortPattern, url)
    case None => None
    case Some(m) => Some(ParseDecimal(m[|CallbackPortPattern.lead|..]))
  }

  /** A redirect address carrying a port, followed by a non-digit or the end of the URL,
      gives that port back. */
  lemma CallbackPortOf(port: nat, t: string)
    requires |t| == 0 || !IsDigit(t[0])
    ensures CallbackPort(CallbackPortPattern.lead + NatToString(port) + t) == Some(port)
  {
    var digits := NatToString(port);
    FindAtFront(CallbackPortPattern, digits, t);
    var m := CallbackPortPattern.lead + digits;
    assert m[|CallbackPortPattern.lead|..] == digits;
    ParseNatToString(port);
  }
}
