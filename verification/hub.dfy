/** The browser side of the chat server: the WebSocket endpoint admits one live
    client at a time, forwards what it sends to the orchestrator, and delivers the
    orchestrator's outbound messages to it. Sockets are numbered in the order they
    connect; a socket that is live has been admitted and has not closed. */
module Hub {
  import opened Wrappers
  import opened Json
  import Server

  /** `activeClient` and the admitted sockets that are still open. */
  datatype Hub = Hub(active: Option<nat>, live: set<nat>, next: nat)

  const Init := Hub(None, {}, 0)

  /** `verdict` is what the connection handler's cookie test decided (see `Arrival`). */
  datatype Event =
    | Connect(verdict: Server.Verdict)
    | Inbound(socket: nat, msg: Option<Json>)
    | Closed(socket: nat)
    | Outbound(kind: string, data: map<string, Json>)

  datatype Effect =
    | CloseSocket(socket: nat, code: int)
    | ClientConnected
    | Forward(msg: Json)
    | Send(socket: nat, frame: Json)
    | HandlerThrew(socket: nat)

  /** Close code for a connection without the password cookie. */
  const Unauthorized := 4001
  /** Close code for a second browser while one is connected. */
  const Busy := 4000

  /** The client messages go to, when there is one and it is open. */
  predicate HasClient(h: Hub) {
    h.active.Some? && h.active.value in h.live
  }

  /** `{ type, ...data }`: the fields of `data` are spread after `type`, so a `type`
      in `data` wins. */
  function Frame(kind: string, data: map<string, Json>): (f: Json)
    ensures f.JObj? && f.fields.Keys == data.Keys + {"type"}
    ensures forall k :: k in data ==> f.fields[k] == data[k]
    ensures "type" !in data ==> FieldIs(f, "type", kind)
  {
    JObj(map["type" := JStr(kind)] + data)
  }

  /** A browser connecting with the given `Cookie` header, to a server running with
      the given password, as the connection handler tests it. */
  function Arrival(password: Option<string>, header: Option<string>): (e: Event)
    ensures e.Connect?
    ensures !Server.Guarded(password) ==> e.verdict == Server.Admitted
    ensures e.verdict == Server.Throws ==> Server.Guarded(password) && '%' in header.GetOr("")
  {
    Server.ThrowNeedsEscape(password, header);
    Connect(Server.CookieCheckAsWritten(password, header))
  }

  /** The same arrival under the corrected cookie test, which reads the cookie the way
      the HTTP gate does. */
  function CorrectedArrival(password: Option<string>, header: Option<string>): (e: Event)
    ensures e.Connect? && e.verdict != Server.Throws
    ensures e.verdict == Server.Admitted
      <==> Server.RequireAuth(password, Server.NamedCookie(header.GetOr(""), Server.CookieName), "/api") == Server.Pass
  {
    Connect(Server.CookieCheck(password, header))
  }

  /** One event at the endpoint. */
  function Step(h: Hub, e: Event): (r: (Hub, seq<Effect>))
  {
    match e
    case Connect(verdict) =>
      var id := h.next;
      var h1 := h.(next := id + 1);
      if verdict == Server.Throws then (h1, [HandlerThrew(id)])
      else if verdict == Server.Refused then (h1, [CloseSocket(id, Unauthorized)])
      else if HasClient(h) then (h1, [CloseSocket(id, Busy)])
      else (h1.(active := Some(id), live := h.live + {id}), [ClientConnected])
    case Inbound(socket, msg) =>
      if socket in h.live && msg.Some? then (h, [Forward(msg.value)]) else (h, [])
    case Closed(socket) =>
      var live := h.live - {socket};
      if h.active == Some(socket) then (h.(active := None, live := live), [])
      else (h.(live := live), [])
    case Outbound(kind, data) =>
      if HasClient(h) then (h, [Send(h.active.value, Frame(kind, data))]) else (h, [])
  }

  /** The sockets that are live are exactly the active one, and every number handed
      out is below `next`. */
  ghost predicate Valid(h: Hub) {
    && (forall s :: s in h.live ==> s < h.next)
    && (h.active.Some? ==> h.active.value < h.next)
    && h.live == (if h.active.Some? then {h.active.value} else {})
  }

  /** Every event keeps the hub valid, so at most one browser is ever live. */
  lemma StepKeepsValid(h: Hub, e: Event)
    requires Valid(h)
    ensures Valid(Step(h, e).0)
    ensures |Step(h, e).0.live| <= 1
  {
    var h' := Step(h, e).0;
    match e
    case Connect(_) =>
      if h'.active != h.active {
        assert h'.live == {h.next};
      }
    case Inbound(_, _) =>
    case Closed(socket) =>
      if h.active == Some(socket) {
        assert h'.live == {};
      } else {
        assert h'.live == h.live;
      }
    case Outbound(_, _) =>
    assert h'.live == {} || h'.live == {h'.active.value};
  }

  function Run(h: Hub, events: seq<Event>): Hub
    decreases |events|
  {
    if |events| == 0 then h else Run(Step(h, events[0]).0, events[1..])
  }

  lemma {:induction false} RunKeepsValid(h: Hub, events: seq<Event>)
    requires Valid(h)
    ensures Valid(Run(h, events)) && |Run(h, events).live| <= 1
    decreases |events|
  {
    if |events| > 0 {
      StepKeepsValid(h, events[0]);
      RunKeepsValid(Step(h, events[0]).0, events[1..]);
    } else {
      assert h.live == {} || h.live == {h.active.value};
    }
  }

  /** A connection is admitted exactly when it passes the cookie test and no client
      is live; an admitted socket becomes the active one and the orchestrator hears
      of it, and a refused one is closed with the code that says why. When the test
      throws, the socket is neither admitted nor closed. */
  lemma ConnectOutcome(h: Hub, verdict: Server.Verdict)
    requires Valid(h)
    ensures var (h', fx) := Step(h, Connect(verdict));
      && h'.next == h.next + 1
      && (fx == [ClientConnected] <==> verdict == Server.Admitted && !HasClient(h))
      && (fx == [ClientConnected] ==> h'.active == Some(h.next) && HasClient(h'))
      && (verdict == Server.Refused ==> fx == [CloseSocket(h.next, Unauthorized)] && h'.live == h.live)
      && (verdict == Server.Throws ==> fx == [HandlerThrew(h.next)] && h'.live == h.live && h'.active == h.active)
      && (verdict == Server.Admitted && HasClient(h) ==> fx == [CloseSocket(h.next, Busy)] && h'.active == h.active)
  {
  }

  /** A browser that logged in and sends the cookie back is admitted when no other
      browser is live, under the test as written. */
  lemma ReturningBrowserAdmitted(h: Hub, c: Server.Cookie)
    requires Valid(h) && !HasClient(h)
    requires c.name == Server.CookieName && c.value != ""
    ensures Step(h, Arrival(Some(c.value), Some(Server.CookieHeader(c)))).1 == [ClientConnected]
  {
    Server.LoginCookieAdmitted(c);
  }

  /** Once the live client closes, the next browser with the cookie gets in. */
  lemma CloseFreesSeat(h: Hub)
    requires Valid(h) && HasClient(h)
    ensures var h1 := Step(h, Closed(h.active.value)).0;
      && !HasClient(h1)
      && Step(h1, Connect(Server.Admitted)).1 == [ClientConnected]
  {
  }

  /** A socket that closes after another took its place does not unseat it. */
  lemma StaleCloseKeepsActive(h: Hub, socket: nat)
    requires Valid(h) && h.active != Some(socket)
    ensures Step(h, Closed(socket)).0.active == h.active
    ensures HasClient(Step(h, Closed(socket)).0) == HasClient(h)
  {
  }

  /** Outbound messages reach exactly the live client, in the shape the browser reads:
      `type` set to the message type unless the payload carries its own. */
  lemma OutboundReachesClient(h: Hub, kind: string, data: map<string, Json>)
    requires Valid(h)
    ensures var (h', fx) := Step(h, Outbound(kind, data));
      && h' == h
      && (fx != [] <==> HasClient(h))
      && (HasClient(h) ==> (
            && fx == [Send(h.active.value, Frame(kind, data))]
            && ("type" !in data ==> FieldIs(fx[0].frame, "type", kind))))
  {
  }

  /** Only a live client's parsed messages reach the orchestrator. */
  lemma InboundFromLive(h: Hub, socket: nat, msg: Option<Json>)
    ensures var (h', fx) := Step(h, Inbound(socket, msg));
      && h' == h
      && (fx != [] <==> socket in h.live && msg.Some?)
      && (fx != [] ==> fx == [Forward(msg.value)])
  {
  }
}
