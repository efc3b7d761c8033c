/** The browser client's state machine: the page moves between the seven `STATES`
    on messages from the agent, on the user's actions and when the socket closes.
    Rendering is reduced to the predicates that decide what is shown; timers are a
    pending flag and an event for when they fire. */
module Chat {
  import opened Wrappers
  import opened Text
  import opened Json
  import Bridge

  datatype Phase =
    | Initializing
    | AgentOffline
    | Unauthenticated
    | AuthPending
    | Authenticated
    | AwaitingResponse
    | Failed

  /** The page's variables. `authUrl` is `None` for `null`, and a field read from a
      message otherwise (`undefined` is `None` as well). The timers are whether a
      response timeout or a reconnect is scheduled. */
  datatype Page = Page(
    phase: Phase,
    socketOpen: bool,
    authUrl: Option<Json>,
    errorMessage: Json,
    responseTimer: bool,
    reconnectTimer: bool,
    currentModel: Json)

  const Start := Page(Initializing, false, None, JNull, false, false, JStr(""))

  const DefaultError := "An unexpected error occurred"
  const SessionTaken := "Another session is already active"
  const TimedOut := "Response timed out. The AI took too long to respond."

  /** The close code the server uses for a second browser. */
  const BusyCode := 4000

  /** What the page sends to the server. */
  datatype Request =
    | GetModel
    | InitiateAuth
    | Reauthenticate
    | CancelAuth
    | SubmitAuthCode(code: string)
    | SendChatMessage(text: string)
    | SetModel(model: string)

  function ActionName(r: Request): string {
    match r
    case GetModel => "get_model"
    case InitiateAuth => "initiate_auth"
    case Reauthenticate => "reauthenticate"
    case CancelAuth => "cancel_auth"
    case SubmitAuthCode(_) => "submit_auth_code"
    case SendChatMessage(_) => "send_chat_message"
    case SetModel(_) => "set_model"
  }

  /** The object passed to `send`. */
  function RequestPayload(r: Request): (m: map<string, Json>)
    ensures "action" in m && m["action"] == JStr(ActionName(r))
  {
    var action := map["action" := JStr(ActionName(r))];
    match r
    case SubmitAuthCode(code) => action["code" := JStr(code)]
    case SendChatMessage(text) => action["text" := JStr(text)]
    case SetModel(model) => action["model" := JStr(model)]
    case _ => action
  }

  function StringField(m: map<string, Json>, key: string): Option<string> {
    if key in m && m[key].JStr? then Some(m[key].s) else None
  }

  /** How the server reads a request. */
  function ReadRequest(m: map<string, Json>): Option<Request> {
    match StringField(m, "action")
    case None => None
    case Some(a) =>
      if a == "get_model" then Some(GetModel)
      else if a == "initiate_auth" then Some(InitiateAuth)
      else if a == "reauthenticate" then Some(Reauthenticate)
      else if a == "cancel_auth" then Some(CancelAuth)
      else if a == "submit_auth_code" then
        (match StringField(m, "code") case Some(c) => Some(SubmitAuthCode(c)) case None => None)
      else if a == "send_chat_message" then
        (match StringField(m, "text") case Some(t) => Some(SendChatMessage(t)) case None => None)
      else if a == "set_model" then
        (match StringField(m, "model") case Some(v) => Some(SetModel(v)) case None => None)
      else None
  }

  /** Every request reads back as itself. */
  lemma RequestRoundTrip(r: Request)
    ensures ReadRequest(RequestPayload(r)) == Some(r)
  {
    var m := RequestPayload(r);
    assert StringField(m, "action") == Some(ActionName(r));
    match r
    case SubmitAuthCode(c) => assert StringField(m, "code") == Some(c);
    case SendChatMessage(t) => assert StringField(m, "text") == Some(t);
    case SetModel(v) => assert StringField(m, "model") == Some(v);
    case _ =>
  }

  /** The login and chat requests use the action names and fields of the instructions
      the agent's channel dispatches, so each one names the same operation there. */
  lemma RequestsAreInstructions(r: Request)
    requires !r.GetModel? && !r.SetModel?
    ensures Bridge.Instruction(JObj(RequestPayload(r))) == Some(
      match r
      case InitiateAuth => Bridge.InitiateAuth
      case Reauthenticate => Bridge.Reauthenticate
      case CancelAuth => Bridge.CancelAuth
      case SubmitAuthCode(code) => Bridge.SubmitAuthCode(Some(JStr(code)))
      case SendChatMessage(text) => Bridge.SendChatMessage(Some(JStr(text))))
  {
    var p := JObj(RequestPayload(r));
    assert FieldIs(p, "action", ActionName(r));
    match r
    case SubmitAuthCode(code) => assert Field(p, "code") == Some(JStr(code));
    case SendChatMessage(text) => assert Field(p, "text") == Some(JStr(text));
    case _ =>
  }

  datatype Event =
    | Opened
    /** A message from the server; `None` when its text is not JSON. */
    | Message(data: Option<Json>)
    | Closed(code: int)
    | ReconnectFired
    | ResponseTimeout
    /** The user submits the chat input (Enter or the button) holding `text`. */
    | Submit(text: string)
    | StartAuth
    /** `reauthenticate()`, with the answer to its confirmation dialog. */
    | Reauth(confirmed: bool)
    | Cancel
    | SubmitCode(input: string)
    | DismissError
    /** A click on the model option `option`. */
    | PickModel(option: string)
    /** The model typed into the input, once the debounce has passed. */
    | TypeModel(input: string)

  datatype Effect =
    | Send(request: Request)
    | Connect
    /** A message added to the list: whether it is the user's, and its body. */
    | Show(fromUser: bool, body: Option<Json>)

  /** `send(msg)`: written to the socket only while it is open. */
  function SendIfOpen(c: Page, r: Request): (fx: seq<Effect>)
    ensures fx != [] <==> c.socketOpen
    ensures c.socketOpen ==> fx == [Send(r)]
  {
    if c.socketOpen then [Send(r)] else []
  }

  /** The message types `handleMessage` acts on; the first test that matches wins. */
  datatype Kind = AuthStatusKind | UrlKind | SuccessKind | ErrorKind | MessageKind | ChatInKind | ModelKind | OtherKind

  function KindOf(data: Json): Kind {
    if FieldIs(data, "type", "auth_status") then AuthStatusKind
    else if FieldIs(data, "type", "auth_url_generated") then UrlKind
    else if FieldIs(data, "type", "auth_success") then SuccessKind
    else if FieldIs(data, "type", "error") then ErrorKind
    else if FieldIs(data, "type", "message") then MessageKind
    else if FieldIs(data, "type", "chat_message_in") then ChatInKind
    else if FieldIs(data, "type", "model_updated") then ModelKind
    else OtherKind
  }

  /** `handleMessage(data)` for a parsed value that is not `null`. */
  function OnMessage(c: Page, data: Json): (Page, seq<Effect>) {
    match KindOf(data)
    case AuthStatusKind =>
      if FieldIs(data, "status", "authenticated") then
        (if c.phase != AwaitingResponse then c.(phase := Authenticated) else c, [])
      else
        (if c.phase != AuthPending then c.(phase := Unauthenticated) else c, [])
    case UrlKind => (c.(authUrl := Field(data, "url"), phase := AuthPending), [])
    case SuccessKind => (c.(authUrl := None, phase := Authenticated), [])
    case ErrorKind =>
      var message := if TruthyField(data, "message") then data.fields["message"] else JStr(DefaultError);
      (c.(responseTimer := false, errorMessage := message, phase := Failed), [])
    case MessageKind =>
      var shown := [Show(FieldIs(data, "role", "user"), Field(data, "body"))];
      if FieldIs(data, "role", "assistant") then (c.(responseTimer := false, phase := Authenticated), shown)
      else (c, shown)
    case ChatInKind => (c.(responseTimer := false, phase := Authenticated), [Show(false, Field(data, "text"))])
    case ModelKind => (c.(currentModel := if TruthyField(data, "model") then data.fields["model"] else JStr("")), [])
    case OtherKind => (c, [])
  }

  /** `sendModelUpdate(model)`. */
  function UpdateModel(c: Page, model: string): (Page, seq<Effect>) {
    (c.(currentModel := JStr(model)), SendIfOpen(c, SetModel(model)))
  }

  function Step(c: Page, e: Event): (Page, seq<Effect>) {
    match e
    case Opened => (c.(socketOpen := true, reconnectTimer := false), [Send(GetModel)])
    case Message(None) => (c, [])
    // Reading `type` of `null` throws in the handler; nothing changes.
    case Message(Some(data)) => if data.JNull? then (c, []) else OnMessage(c, data)
    case Closed(code) =>
      if code == BusyCode then (c.(socketOpen := false, phase := Failed, errorMessage := JStr(SessionTaken)), [])
      else (c.(socketOpen := false, phase := AgentOffline, reconnectTimer := true), [])
    case ReconnectFired =>
      if c.reconnectTimer then (c.(reconnectTimer := false), [Connect]) else (c, [])
    case ResponseTimeout =>
      if c.responseTimer then (c.(responseTimer := false, errorMessage := JStr(TimedOut), phase := Failed), [])
      else (c, [])
    case Submit(text) =>
      if c.phase != Authenticated || Trim(text) == "" then (c, [])
      else (c.(phase := AwaitingResponse, responseTimer := true), SendIfOpen(c, SendChatMessage(Trim(text))))
    case StartAuth => (c.(phase := AuthPending), SendIfOpen(c, InitiateAuth))
    case Reauth(confirmed) =>
      if confirmed then (c.(phase := AuthPending), SendIfOpen(c, Reauthenticate)) else (c, [])
    case Cancel => (c.(authUrl := None, phase := Unauthenticated), SendIfOpen(c, CancelAuth))
    case SubmitCode(input) =>
      if Trim(input) == "" then (c, []) else (c, SendIfOpen(c, SubmitAuthCode(Trim(input))))
    case DismissError => (c.(errorMessage := JNull, phase := Authenticated), [])
    case PickModel(option) => UpdateModel(c, if c.currentModel == JStr(option) then "" else option)
    case TypeModel(input) => UpdateModel(c, Trim(input))
  }

  // ---------------------------------------------------------------------------
  // What the page shows

  /** `renderInput`: the chat input and the send button are enabled. */
  predicate InputEnabled(c: Page) {
    c.phase == Authenticated
  }

  /** `renderAuthModal`: the login dialog with the URL and the code field is open. */
  predicate ModalOpen(c: Page) {
    c.phase == AuthPending && c.authUrl.Some? && Truthy(c.authUrl.value)
  }

  /** `renderErrorBanner`: the error banner is visible. */
  predicate BannerShown(c: Page) {
    c.phase == Failed && Truthy(c.errorMessage)
  }

  /** `renderModelSelector`: the model selector is visible. */
  predicate SelectorShown(c: Page) {
    c.phase == Authenticated || c.phase == AwaitingResponse
  }

  // ---------------------------------------------------------------------------
  // Properties

  /** The page's invariant: the error state always has a message to show, a page
      waiting for a reply always has its timeout running, and a reconnect is never
      scheduled while the socket is open. */
  predicate Valid(c: Page) {
    && (c.phase == Failed ==> Truthy(c.errorMessage))
    && (c.phase == AwaitingResponse ==> c.responseTimer)
    && !(c.socketOpen && c.reconnectTimer)
  }

  lemma StartValid()
    ensures Valid(Start) && !InputEnabled(Start) && !Start.socketOpen
  {
  }

  lemma MessageKeepsValid(c: Page, data: Json)
    requires Valid(c)
    ensures Valid(OnMessage(c, data).0)
  {
    match KindOf(data)
    case ErrorKind =>
      if !TruthyField(data, "message") {
        assert Truthy(JStr(DefaultError));
      }
    case _ =>
  }

  /** Every event keeps the invariant; in particular the error banner is visible
      exactly in the error state. */
  lemma StepKeepsValid(c: Page, e: Event)
    requires Valid(c)
    ensures Valid(Step(c, e).0)
    ensures BannerShown(Step(c, e).0) <==> Step(c, e).0.phase == Failed
  {
    if e.Message? && e.data.Some? && !e.data.value.JNull? {
      MessageKeepsValid(c, e.data.value);
    }
  }

  function Run(c: Page, events: seq<Event>): Page
    decreases |events|
  {
    if |events| == 0 then c else Run(Step(c, events[0]).0, events[1..])
  }

  lemma {:induction false} RunKeepsValid(c: Page, events: seq<Event>)
    requires Valid(c)
    ensures Valid(Run(c, events))
    decreases |events|
  {
    if |events| > 0 {
      StepKeepsValid(c, events[0]);
      RunKeepsValid(Step(c, events[0]).0, events[1..]);
    }
  }

  /** An `auth_status` message: `authenticated` logs the page in unless it waits for
      a reply, and any other status logs it out unless a login is in progress. */
  lemma AuthStatusMoves(c: Page, data: Json)
    requires FieldIs(data, "type", "auth_status")
    ensures var c' := Step(c, Message(Some(data))).0;
      && (FieldIs(data, "status", "authenticated") ==>
            c'.phase == (if c.phase == AwaitingResponse then c.phase else Authenticated))
      && (!FieldIs(data, "status", "authenticated") ==>
            c'.phase == (if c.phase == AuthPending then c.phase else Unauthenticated))
      && c' == c.(phase := c'.phase)
  {
  }

  /** A login URL opens the login dialog when it is a non-empty value; a success
      forgets the URL and logs the page in. */
  lemma LoginMessages(c: Page, data: Json)
    requires FieldIs(data, "type", "auth_url_generated") || FieldIs(data, "type", "auth_success")
    ensures var c' := Step(c, Message(Some(data))).0;
      && (FieldIs(data, "type", "auth_url_generated") ==>
            c'.phase == AuthPending && c'.authUrl == Field(data, "url")
            && (ModalOpen(c') <==> TruthyField(data, "url")))
      && (FieldIs(data, "type", "auth_success") ==>
            c'.phase == Authenticated && c'.authUrl.None? && !ModalOpen(c') && InputEnabled(c'))
  {
  }

  /** An error message moves to the error state with its text, or the default text
      when it has none, and stops the response timeout. */
  lemma ErrorMessage(c: Page, data: Json)
    requires FieldIs(data, "type", "error")
    ensures var c' := Step(c, Message(Some(data))).0;
      && c'.phase == Failed && !c'.responseTimer
      && (TruthyField(data, "message") ==> c'.errorMessage == data.fields["message"])
      && (!TruthyField(data, "message") ==> c'.errorMessage == JStr(DefaultError))
      && BannerShown(c')
  {
  }

  /** A reply (an assistant message or `chat_message_in`) ends the wait and shows the
      reply; a user's message is shown and changes nothing; a message of an unknown
      type changes nothing. */
  lemma ChatMessages(c: Page, data: Json)
    ensures var (c', fx) := Step(c, Message(Some(data)));
      && ((FieldIs(data, "type", "message") && FieldIs(data, "role", "assistant"))
            || FieldIs(data, "type", "chat_message_in") ==>
            c'.phase == Authenticated && !c'.responseTimer && |fx| == 1 && !fx[0].fromUser)
      && (FieldIs(data, "type", "message") && FieldIs(data, "role", "user") ==>
            c' == c && fx == [Show(true, Field(data, "body"))])
      && (data.JObj? && "type" !in data.fields ==> c' == c && fx == [])
  {
  }

  /** A chat message is accepted from the logged-in state when the text is not
      blank; the page then waits for the reply, with the timeout running and the
      input disabled. */
  lemma SubmitWaits(c: Page, text: string)
    requires InputEnabled(c) && !IsBlank(text)
    ensures Step(c, Submit(text)).0 == c.(phase := AwaitingResponse, responseTimer := true)
  {
  }

  /** The accepted message goes out trimmed, if the socket is open. */
  lemma SubmitRequest(c: Page, text: string)
    requires InputEnabled(c) && !IsBlank(text)
    ensures Step(c, Submit(text)).1 == (if c.socketOpen then [Send(SendChatMessage(Trim(text)))] else [])
  {
  }

  /** Otherwise a submission does nothing: in particular a page waiting for a reply
      sends no second message. */
  lemma SubmitIgnored(c: Page, text: string)
    requires !InputEnabled(c) || IsBlank(text)
    ensures Step(c, Submit(text)) == (c, [])
  {
  }

  /** The close code 4000 means another browser holds the session, and the page stops
      with that message; any other close shows the agent offline and schedules a
      reconnect. */
  lemma CloseMoves(c: Page, code: int)
    ensures var c' := Step(c, Closed(code)).0;
      && !c'.socketOpen
      && (code == BusyCode ==>
            c'.phase == Failed && c'.errorMessage == JStr(SessionTaken) && c'.reconnectTimer == c.reconnectTimer)
      && (code != BusyCode ==> c'.phase == AgentOffline && c'.reconnectTimer)
  {
  }

  /** The timeout moves a waiting page to the error state, once. */
  lemma TimeoutFires(c: Page)
    requires Valid(c) && c.phase == AwaitingResponse
    ensures var c' := Step(c, ResponseTimeout).0;
      c'.phase == Failed && c'.errorMessage == JStr(TimedOut) && Step(c', ResponseTimeout).0 == c'
  {
  }

  /** Clicking the selected model deselects it; clicking another selects that one. */
  lemma PickToggles(c: Page, option: string)
    ensures var c1 := Step(c, PickModel(option)).0;
      && (c.currentModel == JStr(option) ==> c1.currentModel == JStr(""))
      && (c.currentModel != JStr(option) ==> c1.currentModel == JStr(option))
      && (option != "" ==> Step(Step(c1, PickModel(option)).0, PickModel(option)).0.currentModel == c1.currentModel)
  {
  }
}
