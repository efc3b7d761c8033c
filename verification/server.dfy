/** The chat server (`createChatServer`): the password gate in front of every HTTP
    route, the login route that sets the password cookie, the model-options route, and
    the browser WebSocket endpoint, which admits one live client at a time. */
module Server {
  import opened Wrappers
  import opened Text
  import opened Json
  import Scrape
  import Uri

  /** `AGENT_PASSWORD` demands a login only when it is set and not empty. */
  predicate Guarded(password: Option<string>) {
    password.Some? && password.value != ""
  }

  // ---------------------------------------------------------------------------
  // Cookies

  /** The index of the first `c` in `s`. */
  function IndexOf(s: string, c: char): (r: Option<nat>)
    ensures r.Some? ==> r.value < |s| && s[r.value] == c && c !in s[..r.value]
    ensures r.None? <==> c !in s
  {
    if |s| == 0 then None
    else if s[0] == c then Some(0)
    else
      match IndexOf(s[1..], c)
      case None => None
      case Some(i) =>
        assert s[..i + 1] == [s[0]] + s[1..][..i];
        Some(i + 1)
  }

  lemma IndexAfter(a: string, c: char, b: string)
    requires c !in a
    ensures IndexOf(a + [c] + b, c) == Some(|a|)
  {
    var s := a + [c] + b;
    assert s[|a|] == c;
    assert s[..|a|] == a;
    assert c !in s[..|a|];
  }

  /** A cookie value as the cookie parser hands it out: percent-decoded, or left as it
      is when decoding fails. */
  function CookieText(raw: string): string {
    Uri.Decode(raw).GetOr(raw)
  }

  /** One `name=value` pair of a `Cookie` header, both sides trimmed; a piece without
      `=` is not a pair. */
  function PairOf(piece: string): (r: Option<(string, string)>)
    ensures r.None? <==> '=' !in piece
  {
    match IndexOf(piece, '=')
    case None => None
    case Some(i) => Some((Trim(piece[..i]), CookieText(Trim(piece[i + 1..]))))
  }

  /** A parsed piece of a `Cookie` header: a name and a value, or nothing. */
  type Pair = Option<(string, string)>

  /** Every piece of a header, parsed. */
  function Pairs(pieces: seq<string>): (r: seq<Pair>)
    ensures |r| == |pieces| && forall k :: 0 <= k < |r| ==> r[k] == PairOf(pieces[k])
  {
    seq(|pieces|, k requires 0 <= k < |pieces| => PairOf(pieces[k]))
  }

  /** The pair has the given name. */
  predicate Named(pair: Pair, name: string) {
    pair.Some? && pair.value.0 == name
  }

  /** The value of the first pair with the given name. */
  function FirstNamed(pairs: seq<Pair>, name: string): Option<string> {
    if |pairs| == 0 then None
    else if Named(pairs[0], name) then Some(pairs[0].value.1)
    else FirstNamed(pairs[1..], name)
  }

  /** Pair `k` is the first with the name, and its value is `v`. */
  predicate FoundAt(pairs: seq<Pair>, name: string, k: int, v: string) {
    && 0 <= k < |pairs| && Named(pairs[k], name) && pairs[k].value.1 == v
    && forall j :: 0 <= j < k ==> !Named(pairs[j], name)
  }

  /** The value found belongs to a pair with that name, and no earlier pair has the
      name; nothing is found exactly when no pair has it. */
  lemma {:induction false} FirstNamedFinds(pairs: seq<Pair>, name: string)
    ensures var r := FirstNamed(pairs, name);
      && (r.Some? ==> exists k :: FoundAt(pairs, name, k, r.value))
      && (r.None? <==> forall k :: 0 <= k < |pairs| ==> !Named(pairs[k], name))
  {
    var r := FirstNamed(pairs, name);
    if |pairs| == 0 {
    } else if Named(pairs[0], name) {
      assert FoundAt(pairs, name, 0, r.value);
    } else {
      var rest := pairs[1..];
      FirstNamedFinds(rest, name);
      if r.Some? {
        var k :| FoundAt(rest, name, k, r.value);
        assert forall j :: 1 <= j < k + 1 ==> pairs[j] == rest[j - 1];
        assert FoundAt(pairs, name, k + 1, r.value);
      } else {
        forall k | 0 <= k < |pairs| ensures !Named(pairs[k], name) {
          if k > 0 { assert pairs[k] == rest[k - 1]; }
        }
      }
    }
  }

  /** `req.cookies[name]` as the cookie parser fills it: the header is split at `;`,
      and the first pair with that exact name wins. */
  function NamedCookie(header: string, name: string): Option<string> {
    FirstNamed(Pairs(Split(header, ';')), name)
  }

  const CookieName := "agent_auth"

  // ---------------------------------------------------------------------------
  // HTTP

  /** What `requireAuth` does with a request: hand it on, answer with the login page,
      or answer 401. */
  datatype Gate = Pass | LoginPage | Unauthorized

  predicate IsPage(path: string) {
    path == "/" || path == "/index.html"
  }

  predicate IsAsset(path: string) {
    EndsWith(path, ".css") || EndsWith(path, ".js") || EndsWith(path, ".svg")
  }

  /** `requireAuth`, given the `agent_auth` cookie of the request. */
  function RequireAuth(password: Option<string>, cookie: Option<string>, path: string): (g: Gate)
    ensures !Guarded(password) ==> g == Pass
    ensures Guarded(password) && cookie == password ==> g == Pass
    ensures Guarded(password) && cookie != password ==>
      (g == LoginPage <==> IsPage(path)) && (g == Pass <==> !IsPage(path) && IsAsset(path))
  {
    if !Guarded(password) then Pass
    else if cookie == password then Pass
    else if IsPage(path) then LoginPage
    else if IsAsset(path) then Pass
    else Unauthorized
  }

  /** The `Set-Cookie` the login route issues. */
  datatype Cookie = Cookie(name: string, value: string, httpOnly: bool, secure: bool, sameSite: string, maxAge: nat)

  datatype LoginReply = NoAuthRequired | LoggedIn(cookie: Cookie) | InvalidPassword

  /** Thirty days, in milliseconds. */
  const CookieLifetime: nat := 30 * 24 * 60 * 60 * 1000

  /** `req.secure || req.get('x-forwarded-proto') === 'https'`. */
  function IsSecure(tls: bool, forwardedProto: Option<string>): bool {
    tls || forwardedProto == Some("https")
  }

  /** `POST /api/login`: `body` is the parsed request body. */
  function Login(password: Option<string>, body: Json, secure: bool): (r: LoginReply)
    ensures r == NoAuthRequired <==> !Guarded(password)
    ensures r.LoggedIn? <==> Guarded(password) && Field(body, "password") == Some(JStr(password.value))
    ensures r.LoggedIn? ==> (r.cookie.name == CookieName && r.cookie.value == password.value
      && r.cookie.httpOnly && r.cookie.secure == secure && r.cookie.maxAge == 2592000000
      && r.cookie.sameSite == (if secure then "none" else "lax"))
  {
    if !Guarded(password) then NoAuthRequired
    else if Field(body, "password") == Some(JStr(password.value)) then
      LoggedIn(Cookie(CookieName, password.value, true, secure, if secure then "none" else "lax", CookieLifetime))
    else InvalidPassword
  }

  /** The `Cookie` header a browser sends back for a cookie: the value as the server
      wrote it, `encodeURIComponent`-ed. */
  function CookieHeader(c: Cookie): string {
    c.name + "=" + Uri.Encode(c.value)
  }

  /** An encoded value holds no `;` and no whitespace. */
  lemma EncodedPlain(v: string)
    ensures forall k :: 0 <= k < |Uri.Encode(v)| ==> Uri.Encode(v)[k] != ';' && !IsSpace(Uri.Encode(v)[k])
  {
    var e := Uri.Encode(v);
    Uri.EncodeAlphabet(v);
    forall k | 0 <= k < |e| ensures e[k] != ';' && !IsSpace(e[k]) {
      assert Uri.IsEncodedChar(e[k]);
    }
  }

  /** The cookie of a successful login, sent back, reads as the password. */
  lemma LoginCookieReadsBack(c: Cookie)
    requires c.name == CookieName
    ensures NamedCookie(CookieHeader(c), CookieName) == Some(c.value)
  {
    var e := Uri.Encode(c.value);
    var h := CookieHeader(c);
    assert h == CookieName + ['='] + e;
    EncodedPlain(c.value);
    assert ';' !in h by {
      assert forall k :: 0 <= k < |h| ==> h[k] != ';' by {
        forall k | 0 <= k < |h| ensures h[k] != ';' {
          if k > |CookieName| { assert h[k] == e[k - |CookieName| - 1]; }
        }
      }
    }
    SplitWhole(h, ';');
    PairOfCookie(c.value);
  }

  /** The single pair `agent_auth=<encoded value>` reads as the value. */
  lemma PairOfCookie(v: string)
    ensures PairOf(CookieName + ['='] + Uri.Encode(v)) == Some((CookieName, v))
  {
    var e := Uri.Encode(v);
    var h := CookieName + ['='] + e;
    IndexAfter(CookieName, '=', e);
    assert h[..|CookieName|] == CookieName;
    assert h[|CookieName| + 1..] == e;
    TrimOfTrimmed(CookieName);
    TrimEncoded(v);
    Uri.DecodeEncode(v);
  }

  lemma TrimEncoded(v: string)
    ensures Trim(Uri.Encode(v)) == Uri.Encode(v)
  {
    var e := Uri.Encode(v);
    EncodedPlain(v);
    if |e| > 0 {
      assert !IsSpace(e[0]) && !IsSpace(e[|e| - 1]);
    }
    TrimOfTrimmed(e);
  }

  /** Text without the separator splits into itself. */
  lemma SplitWhole(s: string, sep: char)
    requires sep !in s
    ensures Split(s, sep) == [s]
  {
    SplitJoin([s], sep);
  }

  /** Logging in and sending the cookie back opens every route: with the right
      password the gate passes, and the browser's cookie carries exactly that
      password; with a wrong one the API answers 401. */
  lemma LoginOpensGate(password: Option<string>, body: Json, secure: bool, path: string)
    ensures var r := Login(password, body, secure);
      && (r.LoggedIn? ==> RequireAuth(password, NamedCookie(CookieHeader(r.cookie), CookieName), path) == Pass)
      && (r == InvalidPassword && !IsPage(path) && !IsAsset(path) ==>
            RequireAuth(password, None, path) == Unauthorized)
  {
    var r := Login(password, body, secure);
    if r.LoggedIn? {
      LoginCookieReadsBack(r.cookie);
    }
  }

  // ---------------------------------------------------------------------------
  // Model options

  /** `.map(s => s.trim())` */
  function TrimAll(pieces: seq<string>): (r: seq<string>)
    ensures |r| == |pieces| && forall k :: 0 <= k < |r| ==> r[k] == Trim(pieces[k])
  {
    seq(|pieces|, k requires 0 <= k < |pieces| => Trim(pieces[k]))
  }

  /** `.filter(Boolean)` on strings: the non-empty ones, in order. */
  function NonEmpty(items: seq<string>): (r: seq<string>)
    ensures |r| <= |items|
    ensures forall x :: x in r <==> x in items && x != ""
    ensures |items| == 1 ==> r == (if items[0] == "" then [] else items)
  {
    if |items| == 0 then []
    else if items[0] == "" then NonEmpty(items[1..])
    else [items[0]] + NonEmpty(items[1..])
  }

  /** Filtering a concatenation filters each part and keeps them in order; with the
      one-item case above, this pins the filter down as keeping every non-empty item
      in its place. */
  lemma {:induction false} NonEmptyConcat(a: seq<string>, b: seq<string>)
    ensures NonEmpty(a + b) == NonEmpty(a) + NonEmpty(b)
    decreases |a|
  {
    if |a| == 0 {
      assert a + b == b;
    } else {
      assert (a + b)[0] == a[0] && (a + b)[1..] == a[1..] + b;
      NonEmptyConcat(a[1..], b);
      if a[0] != "" {
        assert [a[0]] + (NonEmpty(a[1..]) + NonEmpty(b)) == ([a[0]] + NonEmpty(a[1..])) + NonEmpty(b);
      }
    }
  }

  /** `GET /api/model-options`: `MODEL_OPTIONS` (empty when unset) split at commas,
      each piece trimmed, and the empty ones dropped. */
  function ModelOptions(env: Option<string>): (r: seq<string>)
    ensures forall k :: 0 <= k < |r| ==> r[k] != "" && IsTrimmed(r[k]) && ',' !in r[k]
  {
    var pieces := Split(env.GetOr(""), ',');
    TrimAllKeepsOut(pieces, ',');
    var r := NonEmpty(TrimAll(pieces));
    assert forall k :: 0 <= k < |r| ==> r[k] in r;
    r
  }

  /** Trimmed pieces are trimmed, and hold no character the pieces did not. */
  lemma TrimAllKeepsOut(pieces: seq<string>, c: char)
    requires forall k :: 0 <= k < |pieces| ==> c !in pieces[k]
    ensures forall t :: t in TrimAll(pieces) ==> IsTrimmed(t) && c !in t
  {
    var ts := TrimAll(pieces);
    forall t | t in ts ensures IsTrimmed(t) && c !in t {
      var j :| 0 <= j < |ts| && ts[j] == t;
      TrimInside(pieces[j]);
    }
  }

  /** Trimming only removes characters. */
  lemma TrimInside(s: string)
    ensures forall ch :: ch in Trim(s) ==> ch in s
  {
    var t := TrimStart(s);
    var r := TrimEnd(t);
    var i := |s| - |t|;
    assert Trim(s) == r;
    forall ch | ch in r ensures ch in s {
      var k :| 0 <= k < |r| && r[k] == ch;
      assert r[k] == t[k];
      assert t[k] == s[i + k];
    }
  }

  /** A valid option is non-empty and has no whitespace at its ends. */
  predicate IsOption(s: string) {
    s != "" && IsTrimmed(s)
  }

  lemma TrimAllOfTrimmed(opts: seq<string>)
    requires forall k :: 0 <= k < |opts| ==> IsOption(opts[k])
    ensures TrimAll(opts) == opts
  {
    forall k | 0 <= k < |opts| ensures TrimAll(opts)[k] == opts[k] {
      TrimOfTrimmed(opts[k]);
    }
  }

  lemma {:induction false} NonEmptyOf(items: seq<string>)
    requires forall k :: 0 <= k < |items| ==> items[k] != ""
    ensures NonEmpty(items) == items
    decreases |items|
  {
    if |items| > 0 {
      NonEmptyOf(items[1..]);
      assert [items[0]] + items[1..] == items;
    }
  }

  /** A list of options written as the route expects them comes back unchanged. */
  lemma ModelOptionsRoundTrip(opts: seq<string>)
    requires forall k :: 0 <= k < |opts| ==> IsOption(opts[k]) && ',' !in opts[k]
    ensures ModelOptions(Some(Join(opts, ","))) == opts
  {
    if |opts| == 0 {
      NoOptions();
    } else {
      var pieces := Split(Join(opts, ","), ',');
      assert pieces == opts by { SplitJoin(opts, ','); }
      CleanOptionsKept(opts);
    }
  }

  /** An empty or unset `MODEL_OPTIONS` offers nothing. */
  lemma NoOptions()
    ensures ModelOptions(Some("")) == [] && ModelOptions(None) == []
  {
    assert Split("", ',') == [""];
    assert TrimAll([""]) == [""];
  }

  lemma CleanOptionsKept(opts: seq<string>)
    requires forall k :: 0 <= k < |opts| ==> IsOption(opts[k])
    ensures NonEmpty(TrimAll(opts)) == opts
  {
    TrimAllOfTrimmed(opts);
    NonEmptyOf(opts);
  }

  // ---------------------------------------------------------------------------
  // WebSocket admission

  /** What the connection handler's cookie test decides. */
  datatype Verdict = Admitted | Refused | Throws

  /** The pattern the handler searches the `Cookie` header with: `/agent_auth=([^;]+)/`. */
  const CookiePattern := Scrape.Pattern("agent_auth=", Scrape.NoneOf({';'}))

  /** The cookie test as written: the leftmost `agent_auth=` followed by at least one
      character other than `;`, wherever it stands in the header, and its value
      decoded; a malformed escape makes `decodeURIComponent` throw. */
  function CookieCheckAsWritten(password: Option<string>, header: Option<string>): (v: Verdict)
    ensures !Guarded(password) ==> v == Admitted
  {
    if !Guarded(password) then Admitted
    else
      match Scrape.Find(CookiePattern, header.GetOr(""))
      case None => Refused
      case Some(m) =>
        match Uri.Decode(m[|CookiePattern.lead|..])
        case None => Throws
        case Some(value) => if value == password.value then Admitted else Refused
  }

  /** The test as written throws only on a header holding an escape: a match is
      made of the header's characters, and text without `%` always decodes. */
  lemma ThrowNeedsEscape(password: Option<string>, header: Option<string>)
    ensures CookieCheckAsWritten(password, header) == Throws ==> Guarded(password) && '%' in header.GetOr("")
  {
    var h := header.GetOr("");
    var found := Scrape.Find(CookiePattern, h);
    if Guarded(password) && found.Some? && '%' !in h {
      var m := found.value;
      Scrape.FindInText(CookiePattern, h);
      var raw := m[|CookiePattern.lead|..];
      assert forall ch :: ch in raw ==> ch in m;
      Uri.DecodePlain(raw);
    }
  }

  /** A browser sending back the cookie of a successful login passes the test as
      written: the header is that single cookie, so the pattern finds its value. */
  lemma LoginCookieAdmitted(c: Cookie)
    requires c.name == CookieName && c.value != ""
    ensures CookieCheckAsWritten(Some(c.value), Some(CookieHeader(c))) == Admitted
  {
    var p := CookiePattern;
    var e := Uri.Encode(c.value);
    EncodedPlain(c.value);
    assert p.lead == CookieName + ['='];
    assert CookieHeader(c) == p.lead + e + "";
    Scrape.FindAtFront(p, e, "");
    assert (p.lead + e)[|p.lead|..] == e;
    Uri.DecodeEncode(c.value);
  }

  /** The corrected cookie test: the cookie named exactly `agent_auth`, read the way
      the HTTP gate reads it. */
  function CookieCheck(password: Option<string>, header: Option<string>): (v: Verdict)
    ensures v != Throws
    ensures v == Admitted <==> RequireAuth(password, NamedCookie(header.GetOr(""), CookieName), "/api") == Pass
  {
    if !Guarded(password) then Admitted
    else if NamedCookie(header.GetOr(""), CookieName) == password then Admitted
    else Refused
  }
}
