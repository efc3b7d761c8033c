/** How the Claude strategy turns what the user pasted after logging in into a request
    to the Claude CLI's local callback server. */
module Callback {
  import opened Wrappers
  import opened Text
  import Uri

  const DefaultCallbackPort: nat := 8765

  /** `this.callbackPort || DEFAULT_CALLBACK_PORT`: an unset or zero port is falsy. */
  function EffectivePort(callbackPort: Option<nat>): (port: nat)
    ensures port > 0
    ensures callbackPort.Some? && callbackPort.value > 0 ==> port == callbackPort.value
    ensures callbackPort.None? || callbackPort.value == 0 ==> port == DefaultCallbackPort
  {
    match callbackPort
    case Some(p) => if p != 0 then p else DefaultCallbackPort
    case None => DefaultCallbackPort
  }

  /** `http://localhost:${port}/callback` */
  function Endpoint(port: nat): string {
    "http://localhost:" + NatToString(port) + "/callback"
  }

  /** `_buildCallbackUrl(input)`: a full local URL is forwarded as it is, a query string
      is appended to the callback endpoint, and anything else is sent as the `code`
      parameter, percent-encoded. */
  function BuildCallbackUrl(input: string, callbackPort: Option<nat>): (url: string)
    ensures StartsWith(input, "http://localhost") ==> url == input
    ensures !StartsWith(input, "http://localhost") ==> StartsWith(url, Endpoint(EffectivePort(callbackPort)))
  {
    if StartsWith(input, "http://localhost") then input
    else
      var base := Endpoint(EffectivePort(callbackPort));
      var url := if StartsWith(input, "?") then base + input else base + "?code=" + Uri.Encode(input);
      assert url[..|base|] == base;
      url
  }

  // ---------------------------------------------------------------------------
  // What `http.get` accepts

  /** The largest TCP port; the URL parser rejects a larger one. */
  const MaxPort: nat := 65535

  /** The characters that end the authority of a URL in a special scheme such as `http`. */
  predicate EndsAuthority(c: char) {
    c == '/' || c == '?' || c == '#' || c == '\\'
  }

  /** The length of the authority at the front of `s`, the text after `http://`. */
  function AuthorityLength(s: string): (k: nat)
    ensures k <= |s|
    ensures forall i :: 0 <= i < k ==> !EndsAuthority(s[i])
    ensures k < |s| ==> EndsAuthority(s[k])
    decreases |s|
  {
    if |s| == 0 || EndsAuthority(s[0]) then 0 else 1 + AuthorityLength(s[1..])
  }

  /** The host and port of an authority: what follows its last `@`, since the userinfo
      comes before it. */
  function HostPort(a: string): (h: string)
    ensures '@' !in h
    ensures '@' !in a ==> h == a
    decreases |a|
  {
    if |a| == 0 then a
    else if a[|a| - 1] == '@' then ""
    else
      var h := HostPort(a[..|a| - 1]) + [a[|a| - 1]];
      assert '@' !in a ==> a == a[..|a| - 1] + [a[|a| - 1]];
      h
  }

  /** The port text of a host and port: what follows its first `:`, if there is one. */
  function PortText(h: string): (p: Option<string>)
    ensures ':' !in h ==> p.None?
    ensures |h| > 0 && h[0] == ':' ==> p == Some(h[1..])
    decreases |h|
  {
    if |h| == 0 then None
    else if h[0] == ':' then Some(h[1..])
    else PortText(h[1..])
  }

  /** A port the URL parser takes: decimal digits (none at all means the default port)
      naming at most 65535. */
  predicate PortAccepted(p: string) {
    AllDigits(p) && (|p| == 0 || ParseDecimal(p) <= MaxPort)
  }

  /** Whether `new URL(url)`, which `http.get` runs on a string before it sends anything,
      accepts the port of an `http` URL. Only the port is checked here; the README
      lists what else the parser rejects. */
  predicate UrlAccepted(url: string) {
    if StartsWith(url, "http://") then
      var rest := url[7..];
      match PortText(HostPort(rest[..AuthorityLength(rest)]))
      case None => true
      case Some(p) => PortAccepted(p)
    else true
  }

  /** Text with none of the characters that end an authority or start a port or a
      userinfo. */
  predicate Plain(s: string) {
    forall i :: 0 <= i < |s| ==> !EndsAuthority(s[i]) && s[i] != '@' && s[i] != ':'
  }

  lemma {:induction false} AuthorityAfterPlain(x: string, y: string)
    requires forall i :: 0 <= i < |x| ==> !EndsAuthority(x[i])
    ensures AuthorityLength(x + y) == |x| + AuthorityLength(y)
    decreases |x|
  {
    if |x| > 0 {
      assert (x + y)[1..] == x[1..] + y;
      AuthorityAfterPlain(x[1..], y);
    } else {
      assert x + y == y;
    }
  }

  lemma {:induction false} PortTextAfterPlain(x: string, y: string)
    requires ':' !in x
    ensures PortText(x + y) == PortText(y)
    decreases |x|
  {
    if |x| > 0 {
      assert (x + y)[0] == x[0] && (x + y)[1..] == x[1..] + y;
      PortTextAfterPlain(x[1..], y);
    } else {
      assert x + y == y;
    }
  }

  /** A URL `http://host:port` followed by a path, query or fragment (or nothing) is
      accepted exactly when its port text is. */
  lemma PortRule(host: string, p: string, t: string)
    requires Plain(host) && Plain(p)
    requires |t| == 0 || EndsAuthority(t[0])
    ensures UrlAccepted("http://" + host + ":" + p + t) <==> PortAccepted(p)
  {
    var url := "http://" + host + ":" + p + t;
    var auth := host + ":" + p;
    assert url[..7] == "http://" && url[7..] == auth + t;
    assert forall i :: 0 <= i < |auth| ==> !EndsAuthority(auth[i]);
    AuthorityAfterPlain(auth, t);
    assert AuthorityLength(t) == 0;
    assert (auth + t)[..|auth|] == auth;
    assert '@' !in auth by {
      assert forall i :: 0 <= i < |auth| ==> auth[i] != '@';
    }
    assert ':' !in host;
    PortTextAfterPlain(host, ":" + p);
    assert auth == host + (":" + p);
  }

  /** The port rule for the `http://localhost` URLs of the callback. */
  lemma LocalPortRule(p: string, t: string)
    requires Plain(p)
    requires |t| == 0 || EndsAuthority(t[0])
    ensures UrlAccepted("http://localhost:" + p + t) <==> PortAccepted(p)
  {
    var host := "localhost";
    assert Plain(host) by {
      assert forall i :: 0 <= i < |host| ==> host[i] in "acfhlost";
    }
    assert "http://" + host + ":" == "http://localhost:";
    PortRule(host, p, t);
  }

  /** A rendered port is accepted exactly when it is at most 65535. */
  lemma RenderedPort(port: nat)
    ensures Plain(NatToString(port))
    ensures PortAccepted(NatToString(port)) <==> port <= MaxPort
  {
    ParseNatToString(port);
  }

  /** A URL built around the callback endpoint is refused exactly when the port is out
      of range: the code and query forms add nothing the parser rejects. */
  lemma BuiltUrlAccepted(input: string, callbackPort: Option<nat>)
    requires !StartsWith(input, "http://localhost")
    ensures UrlAccepted(BuildCallbackUrl(input, callbackPort)) <==> EffectivePort(callbackPort) <= MaxPort
  {
    var port := EffectivePort(callbackPort);
    var d := NatToString(port);
    var base := Endpoint(port);
    var url := BuildCallbackUrl(input, callbackPort);
    var t := "/callback" + url[|base|..];
    assert url == base + url[|base|..];
    assert url == "http://localhost:" + d + t;
    RenderedPort(port);
    LocalPortRule(d, t);
  }

  /** The callback server gets back exactly what the user pasted: a query string is
      passed through untouched, and a bare code arrives in `code` and decodes to the
      input, with no `&`, `#` or `=` of its own that could split the query. */
  lemma CallbackCarriesInput(input: string, callbackPort: Option<nat>)
    requires !StartsWith(input, "http://localhost")
    ensures var base := Endpoint(EffectivePort(callbackPort));
      var url := BuildCallbackUrl(input, callbackPort);
      if StartsWith(input, "?") then url[|base|..] == input
      else
        && StartsWith(url[|base|..], "?code=")
        && Uri.Decode(url[|base| + 6..]) == Some(input)
        && '&' !in url[|base| + 6..] && '#' !in url[|base| + 6..] && '=' !in url[|base| + 6..]
  {
    var base := Endpoint(EffectivePort(callbackPort));
    var url := BuildCallbackUrl(input, callbackPort);
    if !StartsWith(input, "?") {
      var e := Uri.Encode(input);
      assert url[|base|..] == "?code=" + e;
      assert url[|base| + 6..] == e;
      Uri.DecodeEncode(input);
      Uri.EncodeKeepsDelimitersOut(input);
    } else {
      assert url == base + input;
    }
  }

  /** The port the request goes to is the one scraped from the login URL when there is
      one, and 8765 otherwise. */
  lemma CallbackPortChoice(input: string, callbackPort: Option<nat>)
    requires !StartsWith(input, "http://localhost")
    ensures var url := BuildCallbackUrl(input, callbackPort);
      && (callbackPort.Some? && callbackPort.value > 0 ==> StartsWith(url, Endpoint(callbackPort.value)))
      && (callbackPort.None? ==> StartsWith(url, "http://localhost:8765/callback"))
  {
    if callbackPort.None? {
      DefaultPortText();
    }
  }

  lemma DefaultPortText()
    ensures NatToString(DefaultCallbackPort) == "8765"
  {
    assert NatToString(876) == "876" by {
      assert NatToString(87) == "87" by { assert NatToString(8) == "8"; }
    }
  }
}
