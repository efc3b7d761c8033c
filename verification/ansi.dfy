/** Removal of terminal escape sequences from CLI output, as the Claude strategy does
    with a global regular-expression replace before looking for its login URL. Two
    forms are removed: a control sequence (ESC `[`, parameter characters `0-9` and `;`,
    then one final letter; a subset of section 5.4 of ECMA-48) and an operating-system
    command (ESC `]`, anything up to the first BEL). A global replace scans left to
    right, removes each match and resumes after it; where no match starts, the
    character is kept. */
module Ansi {
  import opened Wrappers

  const Esc: char := '\U{1B}'
  const Bel: char := '\U{07}'

  predicate IsParam(c: char) {
    ('0' <= c <= '9') || c == ';'
  }

  predicate IsLetter(c: char) {
    ('a' <= c <= 'z') || ('A' <= c <= 'Z')
  }

  predicate AllParams(s: string) {
    forall k :: 0 <= k < |s| ==> IsParam(s[k])
  }

  /** Length of the run of parameter characters at the front of `s`. */
  function ParamRun(s: string): (n: nat)
    ensures n <= |s| && AllParams(s[..n])
    ensures n == |s| || !IsParam(s[n])
  {
    if |s| == 0 || !IsParam(s[0]) then 0
    else
      var n := 1 + ParamRun(s[1..]);
      assert s[..n] == [s[0]] + s[1..][..n - 1];
      n
  }

  /** Length of the text before the first BEL of `s`, if `s` has one. */
  function BelIndex(s: string): (r: Option<nat>)
    ensures r.Some? ==> r.value < |s| && s[r.value] == Bel && Bel !in s[..r.value]
    ensures r.None? ==> Bel !in s
  {
    if |s| == 0 then None
    else if s[0] == Bel then Some(0)
    else
      match BelIndex(s[1..])
      case None => None
      case Some(i) =>
        assert s[..i + 1] == [s[0]] + s[1..][..i];
        Some(i + 1)
  }

  /** The length of the escape sequence the pattern matches at the front of `s`. */
  function MatchLength(s: string): (r: Option<nat>)
    ensures r.Some? ==> 3 <= r.value <= |s|
  {
    if |s| < 2 || s[0] != Esc then None
    else if s[1] == '[' then
      var n := ParamRun(s[2..]);
      if 2 + n < |s| && IsLetter(s[2 + n]) then Some(3 + n) else None
    else if s[1] == ']' then
      match BelIndex(s[2..])
      case Some(i) => Some(3 + i)
      case None => None
    else None
  }

  /** `text.replace(ANSI_REGEX, '')`. */
  function Strip(s: string): (r: string)
    ensures |r| <= |s|
    ensures forall c :: c in r ==> c in s
    decreases |s|
  {
    if |s| == 0 then ""
    else
      match MatchLength(s)
      case Some(n) => Strip(s[n..])
      case None =>
        var t := Strip(s[1..]);
        assert forall c :: c in t ==> c in s[1..];
        [s[0]] + t
  }

  /** Text without an escape character passes through in front of whatever follows. */
  lemma {:induction false} StripPlainPrefix(a: string, t: string)
    requires Esc !in a
    ensures Strip(a + t) == a + Strip(t)
    decreases |a|
  {
    if |a| > 0 {
      var s := a + t;
      assert s[1..] == a[1..] + t;
      assert s[0] != Esc by { assert s[0] == a[0] && a[0] in a; }
      assert MatchLength(s) == None;
      assert Strip(s) == [a[0]] + Strip(a[1..] + t);
      StripPlainPrefix(a[1..], t);
      assert [a[0]] + (a[1..] + Strip(t)) == a + Strip(t);
    } else {
      assert a + t == t;
    }
  }

  /** Output without an escape character is left as it is. */
  lemma StripPlain(s: string)
    requires Esc !in s
    ensures Strip(s) == s
  {
    StripPlainPrefix(s, "");
    assert s + "" == s;
  }

  /** A complete control sequence at the front is removed. */
  lemma StripCsi(params: string, final: char, t: string)
    requires AllParams(params) && IsLetter(final)
    ensures Strip([Esc, '['] + params + [final] + t) == Strip(t)
  {
    var s := [Esc, '['] + params + [final] + t;
    assert s[2..] == params + ([final] + t);
    ParamRunOf(params, [final] + t);
    assert s[2 + |params|] == final;
    assert s[3 + |params|..] == t;
  }

  /** Text without escape characters between two control sequences comes out bare. */
  lemma StripAround(p1: string, f1: char, x: string, p2: string, f2: char)
    requires AllParams(p1) && IsLetter(f1) && AllParams(p2) && IsLetter(f2)
    requires Esc !in x
    ensures Strip([Esc, '['] + p1 + [f1] + x + [Esc, '['] + p2 + [f2]) == x
  {
    var head := [Esc, '['] + p1 + [f1];
    var tail := [Esc, '['] + p2 + [f2];
    var whole := [Esc, '['] + p1 + [f1] + x + [Esc, '['] + p2 + [f2];
    assert whole == head + (x + tail);
    StripCsi(p1, f1, x + tail);
    assert Strip(whole) == Strip(x + tail);
    StripPlainPrefix(x, tail);
    StripCsi(p2, f2, "");
    assert tail + "" == tail;
    assert Strip(tail) == "";
    assert Strip(whole) == x + "";
  }

  lemma {:induction false} ParamRunOf(params: string, t: string)
    requires AllParams(params)
    requires |t| == 0 || !IsParam(t[0])
    ensures ParamRun(params + t) == |params|
    decreases |params|
  {
    if |params| > 0 {
      assert (params + t)[1..] == params[1..] + t;
      ParamRunOf(params[1..], t);
    } else {
      assert params + t == t;
    }
  }

  /** A complete operating-system command at the front is removed. */
  lemma StripOsc(body: string, t: string)
    requires Bel !in body
    ensures Strip([Esc, ']'] + body + [Bel] + t) == Strip(t)
  {
    var s := [Esc, ']'] + body + [Bel] + t;
    assert s[2..] == body + ([Bel] + t);
    BelIndexOf(body, [Bel] + t);
    assert s[3 + |body|..] == t;
  }

  lemma {:induction false} BelIndexOf(body: string, t: string)
    requires Bel !in body
    requires |t| > 0 && t[0] == Bel
    ensures BelIndex(body + t) == Some(|body|)
    decreases |body|
  {
    if |body| > 0 {
      assert (body + t)[1..] == body[1..] + t;
      assert body[0] in body;
      BelIndexOf(body[1..], t);
    } else {
      assert body + t == t;
    }
  }

  /** The replacement is a single pass: removing one sequence can bring a new one
      together, so stripping stripped text can remove more. */
  lemma StripNotIdempotent()
    ensures Strip([Esc, '[', Esc, '[', '0', 'm', 'm']) == [Esc, '[', 'm']
    ensures Strip([Esc, '[', 'm']) == ""
  {
    var s := [Esc, '[', Esc, '[', '0', 'm', 'm'];
    assert s[2..][0] == Esc;
    assert MatchLength(s) == None;
    assert MatchLength(s[1..]) == None;
    assert s[2..][2..] == ['0', 'm', 'm'];
    assert ParamRun(['m', 'm']) == 0;
    assert ParamRun(['0', 'm', 'm']) == 1;
    assert MatchLength(s[2..]) == Some(4);
    assert s[2..][4..] == ['m'];
    assert Strip(['m']) == ['m'];
    assert Strip(s[2..]) == ['m'];
    var u := [Esc, '[', 'm'];
    assert u[2..] == ['m'];
    assert MatchLength(u) == Some(3);
  }
}
