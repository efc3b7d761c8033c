/** `encodeURIComponent` and `decodeURIComponent` (ECMA-262, Encode and Decode with an
    empty reserved set), over strings of Unicode scalar values and UTF-8 octets. */
module Uri {
  import opened Wrappers

  /** The characters `encodeURIComponent` leaves as they are. */
  predicate IsUnreserved(c: char) {
    || ('A' <= c <= 'Z') || ('a' <= c <= 'z') || ('0' <= c <= '9')
    || c == '-' || c == '_' || c == '.' || c == '!' || c == '~' || c == '*'
    || c == '\'' || c == '(' || c == ')'
  }

  predicate IsHex(c: char) {
    ('0' <= c <= '9') || ('A' <= c <= 'F') || ('a' <= c <= 'f')
  }

  function HexValue(c: char): (v: nat)
    requires IsHex(c)
    ensures v < 16
  {
    if '0' <= c <= '9' then c as int - '0' as int
    else if 'A' <= c <= 'F' then c as int - 'A' as int + 10
    else c as int - 'a' as int + 10
  }

  /** Upper-case hexadecimal digit, as the encoder writes it. */
  function HexDigit(d: nat): (c: char)
    requires d < 16
    ensures IsHex(c) && HexValue(c) == d
    ensures ('0' <= c <= '9') || ('A' <= c <= 'F')
  {
    if d < 10 then ('0' as int + d) as char else ('A' as int + d - 10) as char
  }

  /** The UTF-8 octets of a Unicode scalar value. */
  function Utf8(c: char): (bytes: seq<nat>)
    ensures 1 <= |bytes| <= 4
    ensures forall k :: 0 <= k < |bytes| ==> bytes[k] < 256
  {
    var cp := c as int;
    if cp < 0x80 then [cp]
    else if cp < 0x800 then [0xC0 + cp / 64, 0x80 + cp % 64]
    else if cp < 0x10000 then [0xE0 + cp / 4096, 0x80 + (cp / 64) % 64, 0x80 + cp % 64]
    else [0xF0 + cp / 262144, 0x80 + (cp / 4096) % 64, 0x80 + (cp / 64) % 64, 0x80 + cp % 64]
  }

  /** `%XX` for one octet. */
  function Escape(b: nat): string
    requires b < 256
  {
    ['%', HexDigit(b / 16), HexDigit(b % 16)]
  }

  function EscapeAll(bytes: seq<nat>): (r: string)
    requires forall k :: 0 <= k < |bytes| ==> bytes[k] < 256
    ensures |r| == 3 * |bytes|
  {
    if |bytes| == 0 then "" else Escape(bytes[0]) + EscapeAll(bytes[1..])
  }

  /** The characters that can appear in an encoded component. */
  predicate IsEncodedChar(c: char) {
    IsUnreserved(c) || c == '%' || ('A' <= c <= 'F')
  }

  function EncodeChar(c: char): (r: string)
    ensures |r| >= 1
  {
    if IsUnreserved(c) then [c] else EscapeAll(Utf8(c))
  }

  /** `encodeURIComponent`. */
  function Encode(s: string): (r: string)
    ensures |r| >= |s|
  {
    if |s| == 0 then "" else EncodeChar(s[0]) + Encode(s[1..])
  }

  /** Every character may appear in an encoded component. */
  predicate AllEncoded(s: string) {
    forall k :: 0 <= k < |s| ==> IsEncodedChar(s[k])
  }

  lemma AllEncodedConcat(a: string, b: string)
    requires AllEncoded(a) && AllEncoded(b)
    ensures AllEncoded(a + b)
  {
    forall k | 0 <= k < |a + b| ensures IsEncodedChar((a + b)[k]) {
      if k >= |a| { assert (a + b)[k] == b[k - |a|]; }
    }
  }

  lemma {:induction false} EscapeAllAlphabet(bytes: seq<nat>)
    requires forall k :: 0 <= k < |bytes| ==> bytes[k] < 256
    ensures AllEncoded(EscapeAll(bytes))
  {
    if |bytes| > 0 {
      EscapeAllAlphabet(bytes[1..]);
      AllEncodedConcat(Escape(bytes[0]), EscapeAll(bytes[1..]));
    }
  }

  /** An encoded component is made only of unreserved characters and `%XX` escapes,
      so it never contains `&`, `=`, `#`, `?` or `/`. */
  lemma {:induction false} EncodeAlphabet(s: string)
    ensures AllEncoded(Encode(s))
    decreases |s|
  {
    if |s| > 0 {
      EncodeAlphabet(s[1..]);
      if !IsUnreserved(s[0]) { EscapeAllAlphabet(Utf8(s[0])); }
      AllEncodedConcat(EncodeChar(s[0]), Encode(s[1..]));
    }
  }

  /** An encoded component never contains the query delimiters `&`, `#` and `=`. */
  lemma EncodeKeepsDelimitersOut(s: string)
    ensures '&' !in Encode(s) && '#' !in Encode(s) && '=' !in Encode(s)
  {
    var e := Encode(s);
    EncodeAlphabet(s);
    forall k | 0 <= k < |e| ensures e[k] != '&' && e[k] != '#' && e[k] != '=' {
      assert IsEncodedChar(e[k]);
    }
  }

  /** A string of unreserved characters is its own encoding. */
  lemma {:induction false} EncodeUnreserved(s: string)
    requires forall k :: 0 <= k < |s| ==> IsUnreserved(s[k])
    ensures Encode(s) == s
    decreases |s|
  {
    if |s| > 0 {
      EncodeUnreserved(s[1..]);
      assert [s[0]] + s[1..] == s;
    }
  }

  /** The octet written as `%XX` at index `i`, if there is one. */
  function OctetAt(s: string, i: nat): Option<nat> {
    if i + 3 <= |s| && s[i] == '%' && IsHex(s[i + 1]) && IsHex(s[i + 2])
    then Some(16 * HexValue(s[i + 1]) + HexValue(s[i + 2]))
    else None
  }

  /** A continuation octet `10xxxxxx` at index `i`, as its six payload bits. */
  function ContinuationAt(s: string, i: nat): Option<nat> {
    match OctetAt(s, i)
    case Some(b) => if 0x80 <= b < 0xC0 then Some(b - 0x80) else None
    case None => None
  }

  predicate IsScalar(cp: int) {
    (0 <= cp < 0xD800) || (0xE000 <= cp < 0x110000)
  }

  /** Decodes one escape sequence starting with `%` at the front of `s`: the decoded
      character and how many input characters it spans, or `None` for a URIError. */
  function DecodeEscape(s: string): (r: Option<(char, nat)>)
    ensures r.Some? ==> 3 <= r.value.1 <= |s|
  {
    match OctetAt(s, 0)
    case None => None
    case Some(b0) =>
      if b0 < 0x80 then Some((b0 as char, 3))
      else if b0 < 0xC0 || b0 >= 0xF8 then None
      else if b0 < 0xE0 then
        match ContinuationAt(s, 3)
        case None => None
        case Some(x1) =>
          var cp := (b0 - 0xC0) * 64 + x1;
          if cp < 0x80 then None else Some((cp as char, 6))
      else if b0 < 0xF0 then
        match (ContinuationAt(s, 3), ContinuationAt(s, 6))
        case (Some(x1), Some(x2)) =>
          var cp := (b0 - 0xE0) * 4096 + x1 * 64 + x2;
          if cp < 0x800 || !IsScalar(cp) then None else Some((cp as char, 9))
        case _ => None
      else
        match (ContinuationAt(s, 3), ContinuationAt(s, 6), ContinuationAt(s, 9))
        case (Some(x1), Some(x2), Some(x3)) =>
          var cp := (b0 - 0xF0) * 262144 + x1 * 4096 + x2 * 64 + x3;
          if cp < 0x10000 || !IsScalar(cp) then None else Some((cp as char, 12))
        case _ => None
  }

  /** `decodeURIComponent`; `None` is the URIError it throws on a malformed escape. */
  function Decode(s: string): Option<string>
    decreases |s|
  {
    if |s| == 0 then Some("")
    else if s[0] != '%' then
      match Decode(s[1..])
      case Some(rest) => Some([s[0]] + rest)
      case None => None
    else
      match DecodeEscape(s)
      case None => None
      case Some((c, n)) =>
        match Decode(s[n..])
        case Some(rest) => Some([c] + rest)
        case None => None
  }

  /** Reading an octet is unaffected by text in front of it. */
  lemma OctetShift(p: string, t: string, i: nat)
    ensures OctetAt(p + t, |p| + i) == OctetAt(t, i)
  {
    if i + 3 <= |t| {
      assert (p + t)[|p| + i] == t[i] && (p + t)[|p| + i + 1] == t[i + 1] && (p + t)[|p| + i + 2] == t[i + 2];
    }
  }

  /** The `j`-th escape of an escaped octet string carries the `j`-th octet. */
  lemma {:induction false} OctetOfEscapes(bytes: seq<nat>, rest: string, j: nat)
    requires forall k :: 0 <= k < |bytes| ==> bytes[k] < 256
    requires j < |bytes|
    ensures OctetAt(EscapeAll(bytes) + rest, 3 * j) == Some(bytes[j])
    decreases j
  {
    var head := Escape(bytes[0]);
    var tail := EscapeAll(bytes[1..]) + rest;
    assert EscapeAll(bytes) + rest == head + tail;
    if j == 0 {
      var e := head + tail;
      assert e[0] == '%' && e[1] == HexDigit(bytes[0] / 16) && e[2] == HexDigit(bytes[0] % 16);
    } else {
      OctetOfEscapes(bytes[1..], rest, j - 1);
      OctetShift(head, tail, 3 * (j - 1));
    }
  }

  lemma Utf8Two(c: char)
    requires 0x80 <= (c as int) < 0x800
    ensures var b := Utf8(c);
      && |b| == 2 && 0xC0 <= b[0] < 0xE0 && 0x80 <= b[1] < 0xC0
      && (b[0] - 0xC0) * 64 + (b[1] - 0x80) == c as int
  {
  }

  lemma Utf8Three(c: char)
    requires 0x800 <= (c as int) < 0x10000
    ensures var b := Utf8(c);
      && |b| == 3 && 0xE0 <= b[0] < 0xF0 && 0x80 <= b[1] < 0xC0 && 0x80 <= b[2] < 0xC0
      && (b[0] - 0xE0) * 4096 + (b[1] - 0x80) * 64 + (b[2] - 0x80) == c as int
  {
    var cp := c as int;
    var q := cp / 64;
    assert cp == q * 64 + cp % 64;
    assert q == (q / 64) * 64 + q % 64;
    assert q / 64 == cp / 4096;
  }

  lemma Utf8Four(c: char)
    requires 0x10000 <= (c as int)
    ensures var b := Utf8(c);
      && |b| == 4 && 0xF0 <= b[0] < 0xF8 && 0x80 <= b[1] < 0xC0 && 0x80 <= b[2] < 0xC0 && 0x80 <= b[3] < 0xC0
      && (b[0] - 0xF0) * 262144 + (b[1] - 0x80) * 4096 + (b[2] - 0x80) * 64 + (b[3] - 0x80) == c as int
  {
    var cp := c as int;
    var q := cp / 64;
    var q2 := q / 64;
    assert cp == q * 64 + cp % 64;
    assert q == q2 * 64 + q % 64;
    assert q2 == cp / 4096;
    assert q2 == (q2 / 64) * 64 + q2 % 64;
    assert q2 / 64 == cp / 262144;
  }

  lemma DecodeEscape2(e: string, b0: nat, x1: nat)
    requires 0xC0 <= b0 < 0xE0
    requires OctetAt(e, 0) == Some(b0) && ContinuationAt(e, 3) == Some(x1)
    requires 0x80 <= (b0 - 0xC0) * 64 + x1
    ensures DecodeEscape(e) == Some((((b0 - 0xC0) * 64 + x1) as char, 6))
  {
  }

  lemma DecodeEscape3(e: string, b0: nat, x1: nat, x2: nat)
    requires 0xE0 <= b0 < 0xF0
    requires OctetAt(e, 0) == Some(b0) && ContinuationAt(e, 3) == Some(x1) && ContinuationAt(e, 6) == Some(x2)
    requires var cp := (b0 - 0xE0) * 4096 + x1 * 64 + x2; 0x800 <= cp && IsScalar(cp)
    ensures DecodeEscape(e) == Some((((b0 - 0xE0) * 4096 + x1 * 64 + x2) as char, 9))
  {
  }

  lemma DecodeEscape4(e: string, b0: nat, x1: nat, x2: nat, x3: nat)
    requires 0xF0 <= b0 < 0xF8
    requires OctetAt(e, 0) == Some(b0) && ContinuationAt(e, 3) == Some(x1)
    requires ContinuationAt(e, 6) == Some(x2) && ContinuationAt(e, 9) == Some(x3)
    requires var cp := (b0 - 0xF0) * 262144 + x1 * 4096 + x2 * 64 + x3; 0x10000 <= cp && IsScalar(cp)
    ensures DecodeEscape(e) == Some((((b0 - 0xF0) * 262144 + x1 * 4096 + x2 * 64 + x3) as char, 12))
  {
  }

  lemma DecodeEscapeOfTwo(c: char, rest: string)
    requires 0x80 <= (c as int) < 0x800
    ensures DecodeEscape(EncodeChar(c) + rest) == Some((c, 6))
  {
    var b := Utf8(c);
    var e := EncodeChar(c) + rest;
    assert e == EscapeAll(b) + rest;
    Utf8Two(c);
    OctetOfEscapes(b, rest, 0);
    OctetOfEscapes(b, rest, 1);
    DecodeEscape2(e, b[0], b[1] - 0x80);
  }

  lemma DecodeEscapeOfThree(c: char, rest: string)
    requires 0x800 <= (c as int) < 0x10000
    ensures DecodeEscape(EncodeChar(c) + rest) == Some((c, 9))
  {
    var b := Utf8(c);
    var e := EncodeChar(c) + rest;
    assert e == EscapeAll(b) + rest;
    Utf8Three(c);
    OctetOfEscapes(b, rest, 0);
    OctetOfEscapes(b, rest, 1);
    OctetOfEscapes(b, rest, 2);
    DecodeEscape3(e, b[0], b[1] - 0x80, b[2] - 0x80);
  }

  lemma DecodeEscapeOfFour(c: char, rest: string)
    requires 0x10000 <= (c as int)
    ensures DecodeEscape(EncodeChar(c) + rest) == Some((c, 12))
  {
    var b := Utf8(c);
    var e := EncodeChar(c) + rest;
    assert e == EscapeAll(b) + rest;
    Utf8Four(c);
    OctetOfEscapes(b, rest, 0);
    OctetOfEscapes(b, rest, 1);
    OctetOfEscapes(b, rest, 2);
    OctetOfEscapes(b, rest, 3);
    DecodeEscape4(e, b[0], b[1] - 0x80, b[2] - 0x80, b[3] - 0x80);
  }

  /** One escaped character decodes back to itself and consumes exactly its escapes. */
  lemma DecodeEscapeOfChar(c: char, rest: string)
    requires !IsUnreserved(c)
    ensures DecodeEscape(EncodeChar(c) + rest) == Some((c, |EncodeChar(c)|))
  {
    var cp := c as int;
    if cp < 0x80 {
      var b := Utf8(c);
      assert EncodeChar(c) + rest == EscapeAll(b) + rest;
      OctetOfEscapes(b, rest, 0);
    } else if cp < 0x800 {
      DecodeEscapeOfTwo(c, rest);
    } else if cp < 0x10000 {
      DecodeEscapeOfThree(c, rest);
    } else {
      DecodeEscapeOfFour(c, rest);
    }
  }

  /** `decodeURIComponent(encodeURIComponent(s)) === s` for every string. */
  lemma {:induction false} DecodeEncode(s: string)
    ensures Decode(Encode(s)) == Some(s)
    decreases |s|
  {
    if |s| > 0 {
      var c := s[0];
      var head := EncodeChar(c);
      var tail := Encode(s[1..]);
      DecodeEncode(s[1..]);
      assert Encode(s) == head + tail;
      if IsUnreserved(c) {
        assert (head + tail)[1..] == tail;
      } else {
        DecodeEscapeOfChar(c, tail);
        assert (head + tail)[0] == '%';
        assert (head + tail)[|head|..] == tail;
      }
      assert [c] + s[1..] == s;
    }
  }

  /** Text without escapes decodes to itself. */
  lemma {:induction false} DecodePlain(s: string)
    requires '%' !in s
    ensures Decode(s) == Some(s)
    decreases |s|
  {
    if |s| > 0 {
      assert s[0] in s;
      assert forall c :: c in s[1..] ==> c in s;
      DecodePlain(s[1..]);
      assert [s[0]] + s[1..] == s;
    }
  }
}
