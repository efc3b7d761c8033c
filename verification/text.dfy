/** String operations the program takes from JavaScript's standard library:
    `trim`, blank tests, `startsWith`/`endsWith`/`includes`, `split`/`join`,
    decimal rendering of numbers and `parseInt` of a run of digits. */
module Text {

  /** The characters of ECMA-262's WhiteSpace and LineTerminator productions: the
      set matched by a regular expression's `\s` and removed by `String.prototype.trim`. */
  predicate IsSpace(c: char) {
    || c == '\t' || c == '\n' || c == '\U{B}' || c == '\U{C}' || c == '\r' || c == ' '
    || c == '\U{A0}' || c == '\U{1680}' || ('\U{2000}' <= c <= '\U{200A}')
    || c == '\U{2028}' || c == '\U{2029}' || c == '\U{202F}' || c == '\U{205F}'
    || c == '\U{3000}' || c == '\U{FEFF}'
  }

  /** Every character is whitespace; `s.trim()` is then the falsy empty string. */
  predicate IsBlank(s: string) {
    forall k :: 0 <= k < |s| ==> IsSpace(s[k])
  }

  /** Neither end is whitespace. */
  predicate IsTrimmed(s: string) {
    |s| == 0 || (!IsSpace(s[0]) && !IsSpace(s[|s| - 1]))
  }

  /** Drops leading whitespace: the result is a suffix of `s` after a blank prefix. */
  function TrimStart(s: string): (r: string)
    ensures |r| <= |s| && r == s[|s| - |r|..]
    ensures IsBlank(s[..|s| - |r|])
    ensures |r| == 0 || !IsSpace(r[0])
  {
    if |s| > 0 && IsSpace(s[0]) then
      var r := TrimStart(s[1..]);
      assert s[1..][..|s| - 1 - |r|] == s[1..|s| - |r|];
      r
    else s
  }

  /** Drops trailing whitespace: the result is a prefix of `s` before a blank suffix. */
  function TrimEnd(s: string): (r: string)
    ensures |r| <= |s| && r == s[..|r|]
    ensures IsBlank(s[|r|..])
    ensures |r| == 0 || !IsSpace(r[|r| - 1])
  {
    if |s| > 0 && IsSpace(s[|s| - 1]) then
      var r := TrimEnd(s[..|s| - 1]);
      assert s[..|s| - 1][|r|..] == s[|r|..|s| - 1];
      r
    else s
  }

  /** `String.prototype.trim`. */
  function Trim(s: string): (r: string)
    ensures IsTrimmed(r)
    ensures |r| <= |s|
    ensures r == "" <==> IsBlank(s)
  {
    var t := TrimStart(s);
    var r := TrimEnd(t);
    TrimBlankIff(s, t, r);
    r
  }

  lemma TrimBlankIff(s: string, t: string, r: string)
    requires |t| <= |s| && t == s[|s| - |t|..] && IsBlank(s[..|s| - |t|])
    requires |t| == 0 || !IsSpace(t[0])
    requires |r| <= |t| && r == t[..|r|] && IsBlank(t[|r|..])
    requires |r| == 0 || !IsSpace(r[|r| - 1])
    ensures IsTrimmed(r) && |r| <= |s|
    ensures r == "" <==> IsBlank(s)
  {
    assert |r| > 0 ==> r[0] == t[0];
    var n := |s| - |t|;
    if r == "" {
      assert t == "" by { assert t[|r|..] == t; }
      assert s[..n] == s;
    } else {
      assert !IsSpace(s[n]) by { assert t[0] == r[0] && s[n] == t[0]; }
    }
  }

  lemma BlankConcat(a: string, b: string)
    requires IsBlank(a) && IsBlank(b)
    ensures IsBlank(a + b)
  {
    forall k | 0 <= k < |a + b| ensures IsSpace((a + b)[k]) {
      if k < |a| { assert (a + b)[k] == a[k]; } else { assert (a + b)[k] == b[k - |a|]; }
    }
  }

  lemma {:induction false} TrimStartOfBlankPrefix(a: string, t: string)
    requires IsBlank(a)
    requires |t| == 0 || !IsSpace(t[0])
    ensures TrimStart(a + t) == t
    decreases |a|
  {
    if |a| > 0 {
      assert (a + t)[1..] == a[1..] + t;
      TrimStartOfBlankPrefix(a[1..], t);
    }
  }

  lemma {:induction false} TrimEndOfBlankSuffix(t: string, b: string)
    requires IsBlank(b)
    requires |t| == 0 || !IsSpace(t[|t| - 1])
    ensures TrimEnd(t + b) == t
    decreases |b|
  {
    if |b| > 0 {
      assert (t + b)[..|t + b| - 1] == t + b[..|b| - 1];
      TrimEndOfBlankSuffix(t, b[..|b| - 1]);
    }
  }

  /** The reference characterisation of `trim`: a trimmed core surrounded by whitespace
      on both sides trims to exactly that core. */
  lemma {:induction false} TrimOfPadded(a: string, core: string, b: string)
    requires IsBlank(a) && IsBlank(b) && IsTrimmed(core)
    ensures Trim(a + core + b) == core
  {
    if |core| == 0 {
      assert a + core + b == a + b;
      assert IsBlank(a + b);
    } else {
      assert a + core + b == a + (core + b);
      TrimStartOfBlankPrefix(a, core + b);
      TrimEndOfBlankSuffix(core, b);
    }
  }

  /** A string without whitespace at its ends is its own trim. */
  lemma TrimOfTrimmed(s: string)
    requires IsTrimmed(s)
    ensures Trim(s) == s
  {
  }

  /** Trimming twice is trimming once. */
  lemma TrimIdempotent(s: string)
    ensures Trim(Trim(s)) == Trim(s)
  {
    TrimOfTrimmed(Trim(s));
  }

  predicate StartsWith(s: string, prefix: string) {
    |prefix| <= |s| && s[..|prefix|] == prefix
  }

  predicate EndsWith(s: string, suffix: string) {
    |suffix| <= |s| && s[|s| - |suffix|..] == suffix
  }

  /** `t` occurs in `s` starting at index `i`. */
  predicate OccursAt(s: string, t: string, i: nat) {
    i + |t| <= |s| && s[i..i + |t|] == t
  }

  /** `String.prototype.includes`. */
  predicate Contains(s: string, t: string) {
    exists i: nat | i <= |s| :: OccursAt(s, t, i)
  }

  /** `Array.prototype.join` with a string separator. */
  function Join(parts: seq<string>, sep: string): string {
    if |parts| == 0 then ""
    else if |parts| == 1 then parts[0]
    else parts[0] + sep + Join(parts[1..], sep)
  }

  /** `String.prototype.split` on a one-character separator: the pieces never contain
      the separator and joining them back restores the input. */
  function Split(s: string, sep: char): (r: seq<string>)
    ensures |r| >= 1
    ensures forall k :: 0 <= k < |r| ==> sep !in r[k]
    ensures Join(r, [sep]) == s
  {
    if |s| == 0 then [""]
    else
      var rest := Split(s[1..], sep);
      if s[0] == sep then
        assert [""] + rest == [""] + rest[..];
        [""] + rest
      else
        var r := [[s[0]] + rest[0]] + rest[1..];
        assert r[1..] == rest[1..];
        r
  }

  /** Splitting a join of separator-free pieces gives the pieces back. */
  lemma {:induction false} SplitJoin(parts: seq<string>, sep: char)
    requires |parts| >= 1
    requires forall k :: 0 <= k < |parts| ==> sep !in parts[k]
    ensures Split(Join(parts, [sep]), sep) == parts
    decreases |parts|, |parts[0]|
  {
    var p := parts[0];
    if |p| == 0 {
      if |parts| == 1 {
      } else {
        var j := Join(parts[1..], [sep]);
        assert Join(parts, [sep]) == [sep] + j;
        assert ([sep] + j)[1..] == j;
        SplitJoin(parts[1..], sep);
        assert [""] + parts[1..] == parts;
      }
    } else {
      var tail := [p[1..]] + parts[1..];
      assert tail[1..] == parts[1..];
      assert forall k :: 0 <= k < |tail| ==> sep !in tail[k] by {
        forall k | 0 <= k < |tail| ensures sep !in tail[k] {
          if k == 0 {
            assert forall c :: c in p[1..] ==> c in p;
          } else {
            assert tail[k] == parts[k];
          }
        }
      }
      if |parts| == 1 {
        assert Join(parts, [sep]) == p;
        assert Join(tail, [sep]) == p[1..];
      } else {
        assert Join(parts, [sep]) == p + [sep] + Join(parts[1..], [sep]);
        assert Join(tail, [sep]) == p[1..] + [sep] + Join(parts[1..], [sep]);
        assert Join(parts, [sep])[1..] == Join(tail, [sep]);
      }
      assert Join(parts, [sep])[1..] == Join(tail, [sep]);
      SplitJoin(tail, sep);
      assert p[0] != sep by { assert p[0] in p; }
      assert [p[0]] + p[1..] == p;
      assert [[p[0]] + p[1..]] + parts[1..] == parts;
    }
  }

  predicate IsDigit(c: char) {
    '0' <= c <= '9'
  }

  predicate AllDigits(s: string) {
    forall k :: 0 <= k < |s| ==> IsDigit(s[k])
  }

  function DigitChar(d: nat): (c: char)
    requires d < 10
    ensures IsDigit(c)
  {
    ('0' as int + d) as char
  }

  /** `parseInt` of a non-empty run of decimal digits (leading zeros allowed). */
  function ParseDecimal(s: string): nat
    requires AllDigits(s)
  {
    if |s| == 0 then 0
    else ParseDecimal(s[..|s| - 1]) * 10 + (s[|s| - 1] as int - '0' as int)
  }

  /** Decimal rendering of a non-negative number, as a template literal prints it. */
  function NatToString(n: nat): (r: string)
    ensures |r| >= 1 && AllDigits(r)
    ensures |r| > 1 ==> r[0] != '0'
  {
    if n < 10 then [DigitChar(n)]
    else
      var r := NatToString(n / 10) + [DigitChar(n % 10)];
      assert r[0] == NatToString(n / 10)[0];
      r
  }

  /** Rendering a number and parsing it back is the identity. */
  lemma {:induction false} ParseNatToString(n: nat)
    ensures ParseDecimal(NatToString(n)) == n
  {
    var r := NatToString(n);
    if n >= 10 {
      ParseNatToString(n / 10);
      assert r[..|r| - 1] == NatToString(n / 10);
    }
  }

  /** Decimal rendering of an integer, with a leading minus sign when negative. */
  function IntToString(i: int): (r: string)
    ensures |r| >= 1
    ensures (r[0] == '-') <==> i < 0
  {
    if i < 0 then "-" + NatToString(-i) else NatToString(i)
  }
}
