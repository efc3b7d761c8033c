/** The WebSocket endpoint's cookie test next to the HTTP gate's, on a browser that
    holds two cookies whose names end in `agent_auth`: `<pre>agent_auth=<x>` first,
    then the real `agent_auth=<secret>` (for instance
    `my_agent_auth=x; agent_auth=secret`). */
module CookieFinding {
  import opened Wrappers
  import opened Text
  import Scrape
  import Uri
  import Server
  import Hub

  /** The `Cookie` header such a browser sends. */
  function ShadowHeader(pre: string, x: string, secret: string): string {
    pre + Server.CookieName + "=" + x + ";" + " " + Server.CookieName + "=" + secret
  }

  /** A cookie value the browser sends as it is: non-empty, trimmed, and free of
      `;` and of escapes. */
  predicate PlainValue(v: string) {
    v != "" && IsTrimmed(v) && ';' !in v && '%' !in v
  }

  /** The other cookie's name is `pre` followed by `agent_auth`, where `pre` holds no
      `a` (so the regular expression cannot start inside it), no `=`, no `;`, and does
      not begin with whitespace. */
  predicate OtherPrefix(pre: string) {
    pre != "" && !IsSpace(pre[0]) && 'a' !in pre && '=' !in pre && ';' !in pre
  }

  /** The WebSocket endpoint refuses a browser the HTTP gate lets in: its pattern
      finds the other cookie's tail first. */
  lemma ShadowedCookieRefused(pre: string, x: string, secret: string)
    requires OtherPrefix(pre) && PlainValue(x) && PlainValue(secret) && x != secret
    ensures Server.CookieCheckAsWritten(Some(secret), Some(ShadowHeader(pre, x, secret))) == Server.Refused
    ensures Server.RequireAuth(Some(secret), Server.NamedCookie(ShadowHeader(pre, x, secret), Server.CookieName), "/api/messages") == Server.Pass
    ensures Server.CookieCheck(Some(secret), Some(ShadowHeader(pre, x, secret))) == Server.Admitted
  {
    ShadowFind(pre, x, secret);
    var lead := Server.CookiePattern.lead;
    assert (lead + x)[|lead|..] == x;
    Uri.DecodePlain(x);
    ShadowedHttp(pre, x, secret);
  }

  /** The regular expression matches the other cookie's tail. */
  lemma ShadowFind(pre: string, x: string, secret: string)
    requires OtherPrefix(pre) && PlainValue(x)
    ensures Scrape.Find(Server.CookiePattern, ShadowHeader(pre, x, secret)) == Some(Server.CookiePattern.lead + x)
  {
    var p := Server.CookiePattern;
    var t := ";" + " " + Server.CookieName + "=" + secret;
    assert p.lead == Server.CookieName + "=";
    assert ShadowHeader(pre, x, secret) == pre + (p.lead + x) + t;
    forall j | 0 <= j < |pre| ensures pre[j] != p.lead[0] {
      assert pre[j] in pre;
    }
    Scrape.FindAfter(p, pre, x, t);
  }

  /** The cookie parser reads each pair by its whole name. */
  lemma ShadowedHttp(pre: string, x: string, secret: string)
    requires OtherPrefix(pre) && PlainValue(x) && PlainValue(secret)
    ensures Server.NamedCookie(ShadowHeader(pre, x, secret), Server.CookieName) == Some(secret)
  {
    var name := pre + Server.CookieName;
    var p1 := "" + name + "=" + x;
    var p2 := " " + Server.CookieName + "=" + secret;
    ShadowPieces(pre, x, secret);
    OtherPair(pre, x);
    RealPair(secret);
    assert name != Server.CookieName by { assert |name| > |Server.CookieName|; }
    NamedOfTwo(ShadowHeader(pre, x, secret), p1, p2, Server.CookieName, secret);
  }

  /** A header of two pieces, the first with another name, yields the second's value. */
  lemma NamedOfTwo(h: string, p1: string, p2: string, name: string, v: string)
    requires Split(h, ';') == [p1, p2]
    requires !Server.Named(Server.PairOf(p1), name) && Server.PairOf(p2) == Some((name, v))
    ensures Server.NamedCookie(h, name) == Some(v)
  {
    var ps := Server.Pairs([p1, p2]);
    assert ps[0] == Server.PairOf(p1) && ps[1] == Server.PairOf(p2);
    SecondNamed(ps, name, v);
  }

  /** The value of the second pair, when the first pair has another name. */
  lemma SecondNamed(ps: seq<Server.Pair>, name: string, v: string)
    requires |ps| == 2 && !Server.Named(ps[0], name) && ps[1] == Some((name, v))
    ensures Server.FirstNamed(ps, name) == Some(v)
  {
    assert ps[1..][0] == ps[1];
  }

  /** The other cookie's pair, parsed. */
  lemma OtherPair(pre: string, x: string)
    requires OtherPrefix(pre) && PlainValue(x)
    ensures Server.PairOf("" + (pre + Server.CookieName) + "=" + x) == Some((pre + Server.CookieName, x))
  {
    var name := pre + Server.CookieName;
    assert IsTrimmed(name) by {
      assert name[0] == pre[0];
      assert name[|name| - 1] == Server.CookieName[|Server.CookieName| - 1];
    }
    NoneIn(pre, Server.CookieName, '=');
    PairOfPlain("", name, x);
  }

  /** The real cookie's pair, parsed. */
  lemma RealPair(secret: string)
    requires PlainValue(secret)
    ensures Server.PairOf(" " + Server.CookieName + "=" + secret) == Some((Server.CookieName, secret))
  {
    PairOfPlain(" ", Server.CookieName, secret);
  }

  /** The header splits into the two pairs. */
  lemma ShadowPieces(pre: string, x: string, secret: string)
    requires OtherPrefix(pre) && PlainValue(x) && PlainValue(secret)
    ensures Split(ShadowHeader(pre, x, secret), ';')
         == ["" + (pre + Server.CookieName) + "=" + x, " " + Server.CookieName + "=" + secret]
  {
    var name := pre + Server.CookieName;
    var p1 := "" + name + "=" + x;
    var p2 := " " + Server.CookieName + "=" + secret;
    assert ShadowHeader(pre, x, secret) == p1 + ";" + p2;
    NoneIn(pre, Server.CookieName, ';');
    NoneIn(name + "=", x, ';');
    NoneIn(" " + Server.CookieName + "=", secret, ';');
    assert p1 == name + "=" + x;
    SplitTwo(p1, p2);
  }

  /** A character in neither part is not in their concatenation. */
  lemma NoneIn(a: string, b: string, c: char)
    requires c !in a && c !in b
    ensures c !in a + b
  {
    forall k | 0 <= k < |a + b| ensures (a + b)[k] != c {
      if k < |a| { assert (a + b)[k] == a[k]; } else { assert (a + b)[k] == b[k - |a|]; }
    }
  }

  /** Two pieces without `;` joined by one split back into the two. */
  lemma SplitTwo(a: string, b: string)
    requires ';' !in a && ';' !in b
    ensures Split(a + ";" + b, ';') == [a, b]
  {
    assert Join([a, b], ";") == a + ";" + b;
    SplitJoin([a, b], ';');
  }

  /** A pair whose name is padded only in front and whose value is trimmed and holds
      no escape reads as the name and the value. */
  lemma PairOfPlain(pad: string, name: string, v: string)
    requires IsBlank(pad) && IsTrimmed(name) && '=' !in pad && '=' !in name
    requires IsTrimmed(v) && '%' !in v
    ensures Server.PairOf(pad + name + "=" + v) == Some((name, v))
  {
    var a := pad + name;
    var p := pad + name + "=" + v;
    NoneIn(pad, name, '=');
    assert p == a + ['='] + v;
    Server.IndexAfter(a, '=', v);
    assert p[..|a|] == a && p[|a| + 1..] == v;
    TrimOfPadded(pad, name, "");
    assert pad + name + "" == a;
    TrimOfTrimmed(v);
    Uri.DecodePlain(v);
  }

  /** A browser whose `agent_auth` cookie is a bare `%`: the HTTP gate's cookie
      parser keeps the undecodable value as it is and refuses it, but the WebSocket
      handler's `decodeURIComponent` throws, so the socket is neither admitted nor
      closed with 4001. The corrected test refuses it. */
  lemma MalformedCookieThrows(secret: string, bad: string, h: Hub.Hub)
    requires |bad| == 1 && bad[0] == '%' && secret != "" && secret != bad
    ensures Server.CookieCheckAsWritten(Some(secret), Some(Server.CookieName + "=" + bad)) == Server.Throws
    ensures Hub.Step(h, Hub.Arrival(Some(secret), Some(Server.CookieName + "=" + bad))).1 == [Hub.HandlerThrew(h.next)]
    ensures Server.RequireAuth(Some(secret), Server.NamedCookie(Server.CookieName + "=" + bad, Server.CookieName), "/api/messages") == Server.Unauthorized
    ensures Server.CookieCheck(Some(secret), Some(Server.CookieName + "=" + bad)) == Server.Refused
  {
    BareEscapeThrows(secret, bad);
    BareEscapeKept(bad);
  }

  /** The WebSocket handler's test finds the bare `%` and fails to decode it. */
  lemma BareEscapeThrows(secret: string, bad: string)
    requires |bad| == 1 && bad[0] == '%' && secret != ""
    ensures Server.CookieCheckAsWritten(Some(secret), Some(Server.CookieName + "=" + bad)) == Server.Throws
  {
    var p := Server.CookiePattern;
    var header := Server.CookieName + "=" + bad;
    assert p.lead + bad + "" == header;
    Scrape.FindAtFront(p, bad, "");
    assert (p.lead + bad)[|p.lead|..] == bad;
    assert Uri.Decode(bad) == None;
  }

  /** The HTTP gate's cookie parser keeps the bare `%` as the cookie's value. */
  lemma BareEscapeKept(bad: string)
    requires |bad| == 1 && bad[0] == '%'
    ensures Server.NamedCookie(Server.CookieName + "=" + bad, Server.CookieName) == Some(bad)
  {
    assert Uri.Decode(bad) == None;
    assert IsTrimmed(bad) && ';' !in bad;
    SinglePair(bad);
  }

  /** A header that is the single `agent_auth` pair reads as its value, decoded if
      it decodes and kept as it is otherwise. */
  lemma SinglePair(v: string)
    requires ';' !in v && IsTrimmed(v)
    ensures Server.NamedCookie(Server.CookieName + "=" + v, Server.CookieName) == Some(Server.CookieText(v))
  {
    var name := Server.CookieName;
    assert IsTrimmed(name) && '=' !in name && ';' !in name;
    OnlyPair(name, v);
  }

  /** A header that is a single pair reads, under that pair's name, as its value. */
  lemma OnlyPair(name: string, v: string)
    requires IsTrimmed(name) && '=' !in name && ';' !in name
    requires ';' !in v && IsTrimmed(v)
    ensures Server.NamedCookie(name + "=" + v, name) == Some(Server.CookieText(v))
  {
    var header := name + "=" + v;
    assert header == name + ['='] + v;
    NoneIn(name + "=", v, ';');
    Server.SplitWhole(header, ';');
    Server.IndexAfter(name, '=', v);
    assert header[..|name|] == name && header[|name| + 1..] == v;
    TrimOfTrimmed(name);
    TrimOfTrimmed(v);
  }
}
