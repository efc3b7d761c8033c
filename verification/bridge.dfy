/** The agent's connection to the Rails ActionCable server: it subscribes to
    `AgentChannel` when the server says welcome, sends actions only while the
    subscription stands, and turns the server's instructions into events for the
    orchestrator. The `send*` methods are the callbacks the strategies use to report
    a login. Frames are parsed JSON values; the text framing is not modelled. */
module Bridge {
  import opened Wrappers
  import opened Json
  import Auth

  // ---------------------------------------------------------------------------
  // Outbound actions

  /** One call of a bridge method, with its argument. */
  datatype Outbound =
    | Ping
    | AuthStatus(status: string)
    | AuthUrlGenerated(url: string)
    | AuthSuccess
    | ChatMessageIn(text: string)
    | Error(message: string)

  /** The `OutboundAction` name each bridge method sends. */
  function ActionName(o: Outbound): string {
    match o
    case Ping => "ping"
    case AuthStatus(_) => "auth_status"
    case AuthUrlGenerated(_) => "auth_url_generated"
    case AuthSuccess => "auth_success"
    case ChatMessageIn(_) => "chat_message_in"
    case Error(_) => "error"
  }

  /** The argument object each bridge method passes to `sendAction`. */
  function Data(o: Outbound): map<string, Json> {
    match o
    case Ping => map[]
    case AuthStatus(s) => map["status" := JStr(s)]
    case AuthUrlGenerated(u) => map["url" := JStr(u)]
    case AuthSuccess => map[]
    case ChatMessageIn(t) => map["text" := JStr(t)]
    case Error(m) => map["message" := JStr(m)]
  }

  /** `{ action, ...data }`, the object sent as the `data` of a channel message. No
      bridge method passes an `action` field, so the spread keeps the action name. */
  function Payload(o: Outbound): (p: map<string, Json>)
    ensures "action" in p && p["action"] == JStr(ActionName(o))
    ensures p.Keys == Data(o).Keys + {"action"}
    ensures forall k :: k in Data(o) ==> p[k] == Data(o)[k]
  {
    map["action" := JStr(ActionName(o))] + Data(o)
  }

  /** A string field of a payload. */
  function StringField(p: map<string, Json>, key: string): Option<string> {
    if key in p && p[key].JStr? then Some(p[key].s) else None
  }

  /** How the channel reads a payload back: the action name selects the bridge method
      and the named field its argument. */
  function Decode(p: map<string, Json>): Option<Outbound> {
    match StringField(p, "action")
    case None => None
    case Some(a) =>
      if a == "ping" then Some(Ping)
      else if a == "auth_success" then Some(AuthSuccess)
      else if a == "auth_status" then
        (match StringField(p, "status") case Some(s) => Some(AuthStatus(s)) case None => None)
      else if a == "auth_url_generated" then
        (match StringField(p, "url") case Some(u) => Some(AuthUrlGenerated(u)) case None => None)
      else if a == "chat_message_in" then
        (match StringField(p, "text") case Some(t) => Some(ChatMessageIn(t)) case None => None)
      else if a == "error" then
        (match StringField(p, "message") case Some(m) => Some(Error(m)) case None => None)
      else None
  }

  /** Every bridge method's payload reads back as the same call: distinct calls never
      share a payload. */
  lemma PayloadRoundTrip(o: Outbound)
    ensures Decode(Payload(o)) == Some(o)
  {
    var p := Payload(o);
    assert StringField(p, "action") == Some(ActionName(o));
    match o
    case AuthStatus(s) => assert StringField(p, "status") == Some(s);
    case AuthUrlGenerated(u) => assert StringField(p, "url") == Some(u);
    case ChatMessageIn(t) => assert StringField(p, "text") == Some(t);
    case Error(m) => assert StringField(p, "message") == Some(m);
    case _ =>
  }

  /** What a strategy sends for each notice of its login module: the URL, a success,
      or the status `unauthenticated`. */
  function Announce(n: Auth.Notice): Outbound {
    match n
    case UrlGenerated(url) => AuthUrlGenerated(url)
    case AuthSucceeded => AuthSuccess
    case Unauthenticated => AuthStatus("unauthenticated")
  }

  /** The notice a payload reports, if it reports one. */
  function NoticeOf(p: map<string, Json>): Option<Auth.Notice> {
    match Decode(p)
    case Some(AuthUrlGenerated(url)) => Some(Auth.UrlGenerated(url))
    case Some(AuthSuccess) => Some(Auth.AuthSucceeded)
    case Some(AuthStatus(s)) => if s == "unauthenticated" then Some(Auth.Unauthenticated) else None
    case _ => None
  }

  /** The server can tell every login notice from the payload the strategy sends. */
  lemma AnnounceRoundTrip(n: Auth.Notice)
    ensures NoticeOf(Payload(Announce(n))) == Some(n)
  {
    PayloadRoundTrip(Announce(n));
  }

  // ---------------------------------------------------------------------------
  // The connection

  /** `AGENT_SECRET`, when it is set and not empty; otherwise `undefined`. */
  function SecretOf(env: Option<string>): (s: Option<string>)
    ensures s.Some? <==> env.Some? && env.value != ""
    ensures s.Some? ==> s == env
  {
    if env.Some? && env.value != "" then env else None
  }

  /** The channel identifier. `JSON.stringify` drops a field whose value is
      `undefined`, so without a secret the identifier names only the channel. */
  function Identifier(secret: Option<string>): (id: Json)
    ensures id.JObj? && FieldIs(id, "channel", "AgentChannel")
    ensures "agent_secret" in id.fields <==> secret.Some?
    ensures secret.Some? ==> FieldIs(id, "agent_secret", secret.value)
  {
    var channel := map["channel" := JStr("AgentChannel")];
    match secret
    case Some(s) => JObj(channel["agent_secret" := JStr(s)])
    case None => JObj(channel)
  }

  datatype Connection = Connection(subscribed: bool, secret: Option<string>)

  /** The constructor: not subscribed. */
  function Init(env: Option<string>): (c: Connection)
    ensures !c.subscribed && c.secret == SecretOf(env)
  {
    Connection(false, SecretOf(env))
  }

  /** The events the connection emits to the orchestrator. */
  datatype Emitted =
    | Connected
    | Close
    | InitiateAuth
    /** `payload.code`; `None` when the field is absent. */
    | SubmitAuthCode(code: Option<Json>)
    | CancelAuth
    | Reauthenticate
    | CheckAuthStatus
    /** `payload.text`; `None` when the field is absent. */
    | SendChatMessage(text: Option<Json>)

  datatype Event =
    /** A message from the server: `None` when its text is not JSON. */
    | Frame(msg: Option<Json>)
    | Closed
    | Send(o: Outbound)

  datatype Effect =
    | SubscribeCommand(identifier: Json)
    | MessageCommand(identifier: Json, data: map<string, Json>)
    | CloseSocket
    | Emit(ev: Emitted)
    /** The message listener throws: a frame that parses to `null` has no `type`. */
    | Threw

  /** `_handleInstruction(payload)`: the event named by `payload.action`, or nothing
      for an action it does not know. */
  function Instruction(payload: Json): Option<Emitted> {
    if FieldIs(payload, "action", "initiate_auth") then Some(InitiateAuth)
    else if FieldIs(payload, "action", "submit_auth_code") then Some(SubmitAuthCode(Field(payload, "code")))
    else if FieldIs(payload, "action", "cancel_auth") then Some(CancelAuth)
    else if FieldIs(payload, "action", "reauthenticate") then Some(Reauthenticate)
    else if FieldIs(payload, "action", "check_auth_status") then Some(CheckAuthStatus)
    else if FieldIs(payload, "action", "send_chat_message") then Some(SendChatMessage(Field(payload, "text")))
    else None
  }

  /** The instruction names `_handleInstruction` knows. */
  predicate KnownAction(a: string) {
    a == "initiate_auth" || a == "submit_auth_code" || a == "cancel_auth"
    || a == "reauthenticate" || a == "check_auth_status" || a == "send_chat_message"
  }

  /** The name of the instruction that produces an event. */
  function InstructionName(ev: Emitted): string
    requires ev != Connected && ev != Close
  {
    match ev
    case InitiateAuth => "initiate_auth"
    case SubmitAuthCode(_) => "submit_auth_code"
    case CancelAuth => "cancel_auth"
    case Reauthenticate => "reauthenticate"
    case CheckAuthStatus => "check_auth_status"
    case SendChatMessage(_) => "send_chat_message"
  }

  /** An instruction as the server writes it: the action name, and the code or the
      text when the event carries one. */
  function Encode(ev: Emitted): Json
    requires ev != Connected && ev != Close
  {
    var action := map["action" := JStr(InstructionName(ev))];
    match ev
    case SubmitAuthCode(Some(code)) => JObj(action["code" := code])
    case SendChatMessage(Some(text)) => JObj(action["text" := text])
    case _ => JObj(action)
  }

  /** Each instruction the server writes reaches the orchestrator as the event it
      names, with its code or text. */
  lemma InstructionRoundTrip(ev: Emitted)
    requires ev != Connected && ev != Close
    ensures Instruction(Encode(ev)) == Some(ev)
  {
    var p := Encode(ev);
    assert FieldIs(p, "action", InstructionName(ev));
    match ev
    case SubmitAuthCode(code) => assert Field(p, "code") == code;
    case SendChatMessage(text) => assert Field(p, "text") == text;
    case _ =>
  }

  /** An instruction is dispatched exactly when it names a known action. */
  lemma UnknownIgnored(payload: Json)
    ensures Instruction(payload).Some? <==>
      (match Field(payload, "action") case Some(JStr(a)) => KnownAction(a) case _ => false)
  {
  }

  /** The `message` listener, after `JSON.parse`. */
  function OnFrame(c: Connection, data: Json): (Connection, seq<Effect>) {
    if data.JNull? then (c, [Threw])
    else if FieldIs(data, "type", "welcome") then (c, [SubscribeCommand(Identifier(c.secret))])
    else if FieldIs(data, "type", "confirm_subscription") then (c.(subscribed := true), [Emit(Connected)])
    else if FieldIs(data, "type", "reject_subscription") then (c, [CloseSocket])
    else if FieldIs(data, "type", "ping") then (c, [])
    else if TruthyField(data, "message") then
      match Instruction(data.fields["message"])
      case Some(ev) => (c, [Emit(ev)])
      case None => (c, [])
    else (c, [])
  }

  /** `sendAction`: a channel message to the server, or nothing while not subscribed. */
  function SendAction(c: Connection, o: Outbound): (fx: seq<Effect>) {
    if !c.subscribed then []
    else [MessageCommand(Identifier(c.secret), Payload(o))]
  }

  function Step(c: Connection, e: Event): (Connection, seq<Effect>) {
    match e
    case Frame(None) => (c, [])
    case Frame(Some(data)) => OnFrame(c, data)
    case Closed => (c.(subscribed := false), [Emit(Close)])
    case Send(o) => (c, SendAction(c, o))
  }

  // ---------------------------------------------------------------------------
  // Properties

  /** A send reaches the server exactly when the connection is subscribed, as the one
      channel message carrying the identifier and the payload; it changes nothing. */
  lemma SendGated(c: Connection, o: Outbound)
    ensures Step(c, Send(o)).0 == c
    ensures Step(c, Send(o)).1 != [] <==> c.subscribed
    ensures c.subscribed ==> Step(c, Send(o)).1 == [MessageCommand(Identifier(c.secret), Payload(o))]
  {
  }

  predicate IsConfirm(e: Event) {
    e.Frame? && e.msg.Some? && FieldIs(e.msg.value, "type", "confirm_subscription")
  }

  /** The subscription starts only with a confirmation and ends with the close. */
  lemma SubscriptionChanges(c: Connection, e: Event)
    ensures var c' := Step(c, e).0;
      && c'.secret == c.secret
      && (c'.subscribed && !c.subscribed ==> IsConfirm(e))
      && (e.Closed? ==> !c'.subscribed)
      && (IsConfirm(e) ==> c'.subscribed)
  {
  }

  /** A welcome produces exactly one subscribe command, naming `AgentChannel`. */
  lemma WelcomeSubscribes(c: Connection, data: Json)
    requires FieldIs(data, "type", "welcome")
    ensures Step(c, Frame(Some(data))) == (c, [SubscribeCommand(Identifier(c.secret))])
    ensures FieldIs(Identifier(c.secret), "channel", "AgentChannel")
  {
  }

  /** Keep-alive pings, and frames without a truthy `message`, reach no instruction. */
  lemma NoInstructionWithoutMessage(c: Connection, data: Json)
    requires FieldIs(data, "type", "ping") || !TruthyField(data, "message")
    ensures var fx := Step(c, Frame(Some(data))).1;
      forall i :: 0 <= i < |fx| && fx[i].Emit? ==> fx[i].ev == Connected
  {
  }

  /** One step of an unsubscribed connection, other than a confirmation. */
  lemma QuietStep(c: Connection, e: Event)
    requires !c.subscribed && !IsConfirm(e)
    ensures !Step(c, e).0.subscribed && NoMessages(Step(c, e).1)
  {
  }

  function Run(c: Connection, events: seq<Event>): (r: (Connection, seq<Effect>))
    decreases |events|
  {
    if |events| == 0 then (c, [])
    else
      var first := Step(c, events[0]);
      var rest := Run(first.0, events[1..]);
      (rest.0, first.1 + rest.1)
  }

  predicate NoMessages(fx: seq<Effect>) {
    forall i :: 0 <= i < |fx| ==> !fx[i].MessageCommand?
  }

  /** Until the server confirms the subscription, nothing the orchestrator sends goes
      out: a run without a confirmation, from an unsubscribed connection, sends no
      channel message and ends unsubscribed. */
  lemma {:induction false} NothingSentBeforeConfirm(c: Connection, events: seq<Event>)
    requires !c.subscribed
    requires forall i :: 0 <= i < |events| ==> !IsConfirm(events[i])
    ensures !Run(c, events).0.subscribed && NoMessages(Run(c, events).1)
    decreases |events|
  {
    if |events| > 0 {
      var first := Step(c, events[0]);
      QuietStep(c, events[0]);
      NothingSentBeforeConfirm(first.0, events[1..]);
      var rest := Run(first.0, events[1..]);
      assert forall i :: 0 <= i < |rest.1| ==> (first.1 + rest.1)[|first.1| + i] == rest.1[i];
    }
  }
}
