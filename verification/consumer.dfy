/** The legacy ActionCable consumer (`createActionCableConsumer`): it subscribes to
    the Rails `AuthChannel`, answers status queries, runs the legacy Gemini login, and
    runs one prompt at a time. Everything it reports goes through the auth channel
    wrapper, whose `send` also records a completed login.

    The awaits inside the message handler are modelled as follows: the login probe
    (`checkGeminiAuthStatus`) is taken as part of the event, with its answer a
    parameter, and a prompt is two events, its admission and its settlement, so that
    messages arriving while it runs see `isProcessing` set. */
module Consumer {
  import opened Wrappers
  import opened Text
  import opened Json
  import Auth
  import Prompt

  // ---------------------------------------------------------------------------
  // What the consumer reports to Rails

  datatype Action =
    | StatusResponse(blocked: bool)
    | AuthStatusResponse(ready: bool)
    | AuthSuccess
    | UrlGenerated(url: string)
    | PromptCompleted(result: string)
    | PromptFailed(error: string)

  /** The payload handed to the channel's `send`, which becomes the `data` of the
      ActionCable `message` command (`{ action, ...payload }` adds nothing, since the
      payload already carries its action). */
  function Payload(a: Action): (m: map<string, Json>)
    ensures "action" in m && m["action"].JStr?
  {
    match a
    case StatusResponse(blocked) =>
      map["action" := JStr("STATUS_RESPONSE"), "status" := JStr(if blocked then "BLOCKED" else "WAITING")]
    case AuthStatusResponse(ready) =>
      map["action" := JStr("AUTH_STATUS_RESPONSE"), "status" := JStr(if ready then "READY" else "NEED_AUTH")]
    case AuthSuccess => map["action" := JStr("auth_success"), "status" := JStr("completed")]
    case UrlGenerated(url) => map["action" := JStr("url_generated"), "url" := JStr(url)]
    case PromptCompleted(result) => map["action" := JStr("prompt_completed"), "result" := JStr(result)]
    case PromptFailed(error) => map["action" := JStr("prompt_failed"), "error" := JStr(error)]
  }

  /** The string field `key` of a payload. */
  function StringField(m: map<string, Json>, key: string): Option<string> {
    if key in m && m[key].JStr? then Some(m[key].s) else None
  }

  /** How the Rails side reads a payload back. */
  function ReadPayload(m: map<string, Json>): Option<Action> {
    match StringField(m, "action")
    case None => None
    case Some(action) =>
      var status := StringField(m, "status");
      if action == "STATUS_RESPONSE" then
        (if status == Some("BLOCKED") then Some(StatusResponse(true))
         else if status == Some("WAITING") then Some(StatusResponse(false))
         else None)
      else if action == "AUTH_STATUS_RESPONSE" then
        (if status == Some("READY") then Some(AuthStatusResponse(true))
         else if status == Some("NEED_AUTH") then Some(AuthStatusResponse(false))
         else None)
      else if action == "auth_success" then (if status == Some("completed") then Some(AuthSuccess) else None)
      else if action == "url_generated" then (match StringField(m, "url") case Some(u) => Some(UrlGenerated(u)) case None => None)
      else if action == "prompt_completed" then (match StringField(m, "result") case Some(r) => Some(PromptCompleted(r)) case None => None)
      else if action == "prompt_failed" then (match StringField(m, "error") case Some(e) => Some(PromptFailed(e)) case None => None)
      else None
  }

  /** Every report reads back as itself. */
  lemma PayloadRoundTrip(a: Action)
    ensures ReadPayload(Payload(a)) == Some(a)
  {
  }

  /** The channel wrapper marks the consumer logged in exactly for the payload
      `{ action: 'auth_success', status: 'completed' }`. */
  predicate MarksLoggedIn(a: Action) {
    var m := Payload(a);
    StringField(m, "action") == Some("auth_success") && StringField(m, "status") == Some("completed")
  }

  lemma MarksLoggedInOnlySuccess(a: Action)
    ensures MarksLoggedIn(a) <==> a == AuthSuccess
  {
  }

  // ---------------------------------------------------------------------------
  // State and events

  /** `isAuthenticated`, `isProcessing`, whether the heartbeat interval is set, and
      the legacy login module's state. */
  datatype Consumer = Consumer(authenticated: bool, processing: bool, heartbeat: bool, login: Auth.State)

  const Start := Consumer(false, false, false, Auth.Init)

  /** The one auth channel object the consumer hands to the login module. */
  const Channel: Auth.Conn := 0

  /** What the handler learns from outside while it runs: the answer of the login
      probe, and the result of reading `SYSTEM_PROMPT.md`. */
  datatype Env = Env(signedIn: bool, systemPrompt: Settlement<string>)

  datatype Event =
    /** A WebSocket message: `None` when the text is not JSON. */
    | Frame(msg: Option<Json>, env: Env)
    /** An event of a spawned login process. */
    | Login(ev: Auth.Event)
    /** `executeGeminiPrompt` settling for the prompt in flight. */
    | Settled(result: Settlement<string>)
    /** The 30-second heartbeat. */
    | Tick
    | SocketClosed

  datatype Effect =
    | Subscribe
    | CloseSocket
    | Send(action: Action)
    /** A spawn, kill or stdin write of the login module. */
    | Process(effect: Auth.Effect)
    /** `executeGeminiPrompt(text)`. */
    | RunPrompt(text: string)
    /** The async handler rejects: `submitGeminiAuthCode` called `trim` on a value
        that is not a string. */
    | HandlerThrew

  /** What the channel wrapper sends for one effect of the login module. */
  function Relay(e: Auth.Effect): Effect {
    match e
    case Notify(_, _, UrlGenerated(url)) => Send(UrlGenerated(url))
    case Notify(_, _, AuthSucceeded) => Send(AuthSuccess)
    case Threw => HandlerThrew
    case _ => Process(e)
  }

  function RelayAll(effs: seq<Auth.Effect>): (r: seq<Effect>)
    ensures |r| == |effs| && forall i :: 0 <= i < |r| ==> r[i] == Relay(effs[i])
  {
    seq(|effs|, i requires 0 <= i < |effs| => Relay(effs[i]))
  }

  /** The login module reported a completed login. */
  predicate ReportsSuccess(effs: seq<Effect>) {
    exists i :: 0 <= i < |effs| && effs[i] == Send(AuthSuccess)
  }

  /** One step of the login module, with its notices relayed through the channel;
      an `auth_success` marks the consumer logged in. The module keeps the process
      and the channel in globals that every listener reads, so a process replaced by
      a later `start_auth` still reports, and clears the session, when it closes. */
  function LoginStep(c: Consumer, ev: Auth.Event): (r: (Consumer, seq<Effect>))
    ensures r.0.processing == c.processing && r.0.heartbeat == c.heartbeat
    ensures r.0.authenticated == (c.authenticated || ReportsSuccess(r.1))
    ensures forall i :: 0 <= i < |r.1| ==> !r.1[i].RunPrompt?
    ensures !ev.Submit? ==> forall i :: 0 <= i < |r.1| ==> !r.1[i].HandlerThrew?
    ensures forall i :: 0 <= i < |r.1| && r.1[i].Send? ==> r.1[i].action == AuthSuccess || r.1[i].action.UrlGenerated?
  {
    var (login, effs) := Auth.StepAsWritten(Auth.LegacyGemini, c.login, ev);
    var out := RelayAll(effs);
    (c.(login := login, authenticated := c.authenticated || ReportsSuccess(out)), out)
  }

  function Statuses(c: Consumer): seq<Effect> {
    [Send(StatusResponse(c.processing)), Send(AuthStatusResponse(c.authenticated))]
  }

  /** The handler for a parsed message that is not `null` (reading `type` of `null`
      throws inside the `try`, and the message is dropped as invalid). */
  function OnMessage(c: Consumer, m: Json, env: Env): (Consumer, seq<Effect>)
  {
    if FieldIs(m, "type", "welcome") then (c, [Subscribe])
    else if FieldIs(m, "type", "confirm_subscription") then
      var c1 := c.(authenticated := env.signedIn, heartbeat := true);
      (c1, Statuses(c) + [Send(AuthStatusResponse(env.signedIn))])
    else if FieldIs(m, "type", "reject_subscription") then (c, [CloseSocket])
    else if TruthyField(m, "message") then OnInstruction(c, m.fields["message"], env)
    else (c, [])
  }

  /** The instruction in `message.message`, tried in the source's order. */
  function OnInstruction(c: Consumer, p: Json, env: Env): (Consumer, seq<Effect>)
  {
    if FieldIs(p, "type", "STATUS") || TruthyField(p, "status") then (c, [Send(StatusResponse(c.processing))])
    else if FieldIs(p, "type", "AUTH_STATUS") || TruthyField(p, "auth_status") then
      (c, [Send(AuthStatusResponse(c.authenticated))])
    else if TruthyField(p, "check_status") then (c, Statuses(c))
    else if TruthyField(p, "start_auth") then
      if env.signedIn then (c.(authenticated := true), [Send(AuthSuccess)])
      else LoginStep(c, Auth.Start(Channel))
    else if TruthyField(p, "auth_code") then
      LoginStep(c, Auth.Submit(Some(p.fields["auth_code"])))
    else if TruthyField(p, "prompt") then Admit(c, p.fields["prompt"], env.systemPrompt)
    else (c, [])
  }

  /** A prompt: refused without a login or while another runs; otherwise the system
      prompt is read and the two are run together, or the read error is reported. */
  function Admit(c: Consumer, prompt: Json, systemPrompt: Settlement<string>): (Consumer, seq<Effect>)
  {
    if !c.authenticated then (c, [Send(PromptFailed("NEED_AUTH"))])
    else if c.processing then (c, [Send(PromptFailed("BLOCKED"))])
    else
      match systemPrompt
      case Rejected(error) => (c, [Send(PromptFailed(error))])
      case Resolved(text) => (c.(processing := true), [RunPrompt(text + "\n\n" + Render(prompt))])
  }

  function Step(c: Consumer, e: Event): (Consumer, seq<Effect>)
  {
    match e
    case Frame(msg, env) =>
      (match msg
       case None => (c, [])
       case Some(m) => if m.JNull? then (c, []) else OnMessage(c, m, env))
    case Login(ev) => LoginStep(c, ev)
    case Settled(result) =>
      if !c.processing then (c, [])
      else
        (c.(processing := false),
         match result
         case Resolved(text) => [Send(PromptCompleted(text))]
         case Rejected(error) => [Send(PromptFailed(error))])
    case Tick => if c.heartbeat then (c, Statuses(c)) else (c, [])
    case SocketClosed => (c.(heartbeat := false), [])
  }

  // ---------------------------------------------------------------------------
  // Properties

  predicate RunsPrompt(effs: seq<Effect>) {
    exists i :: 0 <= i < |effs| && effs[i].RunPrompt?
  }

  /** A prompt is run only from an idle, logged-in consumer, and running it marks the
      consumer busy; no other step starts one or leaves the busy state, except the
      settlement, which reports the outcome. */
  lemma OnePromptAtATime(c: Consumer, e: Event)
    ensures var (c', effs) := Step(c, e);
      && (RunsPrompt(effs) ==> !c.processing && c.authenticated && c'.processing)
      && (c.processing && !c'.processing ==> e.Settled? && |effs| == 1 && effs[0].Send?)
      && (!c.processing && c'.processing ==> RunsPrompt(effs))
  {
    var (c', effs) := Step(c, e);
    if e.Frame? && e.msg.Some? && !e.msg.value.JNull? {
      InstructionPrompt(c, e.msg.value, e.env);
    }
  }

  /** A message starts a prompt exactly when it moves the consumer from idle to busy,
      and only from a logged-in consumer. */
  lemma InstructionPrompt(c: Consumer, m: Json, env: Env)
    ensures var (c', effs) := OnMessage(c, m, env);
      && (c'.processing == c.processing || (|effs| == 1 && effs[0].RunPrompt? && !c.processing && c.authenticated && c'.processing))
      && (RunsPrompt(effs) ==> c'.processing != c.processing)
  {
    if !FieldIs(m, "type", "welcome") && !FieldIs(m, "type", "confirm_subscription")
      && !FieldIs(m, "type", "reject_subscription") && TruthyField(m, "message") {
      var p := m.fields["message"];
      var (c', effs) := OnInstruction(c, p, env);
      if TruthyField(p, "prompt") && !TruthyField(p, "start_auth") && !TruthyField(p, "auth_code") {
        PromptAdmission(c, p.fields["prompt"], env.systemPrompt);
      } else {
        LoginStepsOnly(c, p, env);
      }
    }
  }

  /** An instruction other than a prompt leaves the busy flag alone and runs nothing. */
  lemma LoginStepsOnly(c: Consumer, p: Json, env: Env)
    requires !TruthyField(p, "prompt") || TruthyField(p, "start_auth") || TruthyField(p, "auth_code")
      || FieldIs(p, "type", "STATUS") || TruthyField(p, "status") || FieldIs(p, "type", "AUTH_STATUS")
      || TruthyField(p, "auth_status") || TruthyField(p, "check_status")
    ensures var (c', effs) := OnInstruction(c, p, env);
      c'.processing == c.processing && !RunsPrompt(effs)
  {
  }

  /** A prompt instruction has exactly one outcome: `NEED_AUTH` without a login,
      `BLOCKED` while another prompt runs, the read error of the system prompt, or a
      run of the system prompt followed by the prompt. */
  lemma PromptAdmission(c: Consumer, prompt: Json, systemPrompt: Settlement<string>)
    ensures var (c', effs) := Admit(c, prompt, systemPrompt);
      && |effs| == 1
      && (!c.authenticated ==> effs[0] == Send(PromptFailed("NEED_AUTH")))
      && (c.authenticated && c.processing ==> effs[0] == Send(PromptFailed("BLOCKED")))
      && (c.authenticated && !c.processing && systemPrompt.Rejected? ==>
            effs[0] == Send(PromptFailed(systemPrompt.message)))
      && (effs[0].RunPrompt? <==> c.authenticated && !c.processing && systemPrompt.Resolved?)
      && (effs[0].RunPrompt? ==> effs[0].text == systemPrompt.value + "\n\n" + Render(prompt))
      && (c' == c || (effs[0].RunPrompt? && c' == c.(processing := true)))
  {
  }

  /** The consumer never claims a login it has not recorded: after any step that
      reports `auth_success`, it counts as logged in. */
  lemma SuccessRecorded(c: Consumer, e: Event)
    ensures var (c', effs) := Step(c, e);
      (Send(AuthSuccess) in effs ==> c'.authenticated)
  {
    var (c', effs) := Step(c, e);
    if Send(AuthSuccess) in effs {
      var i :| 0 <= i < |effs| && effs[i] == Send(AuthSuccess);
      assert ReportsSuccess(effs) || c'.authenticated;
    }
  }

  /** Every status report in `effs` describes `c`. */
  predicate Truthful(c: Consumer, effs: seq<Effect>) {
    forall i :: 0 <= i < |effs| ==>
      (effs[i] == Send(StatusResponse(true)) ==> c.processing)
      && (effs[i] == Send(StatusResponse(false)) ==> !c.processing)
      && (effs[i] == Send(AuthStatusResponse(true)) ==> c.authenticated)
      && (effs[i] == Send(AuthStatusResponse(false)) ==> !c.authenticated)
  }

  /** Status reports describe the state the consumer is in when it sends them. The
      confirmation of the subscription is the exception: it reports the login state
      twice, first as recorded and then as the probe found it. */
  lemma StatusesTruthful(c: Consumer, e: Event)
    requires !e.Frame? || !FieldIs(e.msg.GetOr(JNull), "type", "confirm_subscription")
    ensures Truthful(c, Step(c, e).1)
  {
    if e.Frame? && e.msg.Some? && !e.msg.value.JNull? {
      var m := e.msg.value;
      if !FieldIs(m, "type", "welcome") && !FieldIs(m, "type", "reject_subscription") && TruthyField(m, "message") {
        InstructionTruthful(c, m.fields["message"], e.env);
      }
    }
  }

  lemma InstructionTruthful(c: Consumer, p: Json, env: Env)
    ensures Truthful(c, OnInstruction(c, p, env).1)
  {
    if !(FieldIs(p, "type", "STATUS") || TruthyField(p, "status") || FieldIs(p, "type", "AUTH_STATUS")
      || TruthyField(p, "auth_status") || TruthyField(p, "check_status") || TruthyField(p, "start_auth")
      || TruthyField(p, "auth_code")) && TruthyField(p, "prompt") {
      PromptAdmission(c, p.fields["prompt"], env.systemPrompt);
    }
  }

  /** The heartbeat reports only between a confirmed subscription and the socket's
      close, and then reports both statuses. */
  lemma HeartbeatWindow(c: Consumer, env: Env)
    ensures Step(c, Tick).1 == (if c.heartbeat then Statuses(c) else [])
    ensures Step(c, SocketClosed).0.heartbeat == false
    ensures Step(Step(c, SocketClosed).0, Tick).1 == []
    ensures Step(c, Frame(Some(JObj(map["type" := JStr("confirm_subscription")])), env)).0.heartbeat
  {
    assert FieldIs(JObj(map["type" := JStr("confirm_subscription")]), "type", "confirm_subscription");
  }

  /** The legacy login never reports a failed login: its close listener announces
      success whatever the exit code, so every notice reaches Rails as a report. */
  lemma LegacyNeverUnauthenticated(st: Auth.State, ev: Auth.Event, guarded: bool)
    ensures var effs := Auth.Next(Auth.LegacyGemini, st, ev, guarded).1;
      forall i :: 0 <= i < |effs| && effs[i].Notify? ==> effs[i].notice != Auth.Unauthenticated
  {
  }

  /** Two `start_auth` messages in a row, and the first CLI closes: the legacy module
      relays `auth_success` for it and forgets the second process, so a code sent
      afterwards is written nowhere while the second CLI still waits for it. */
  lemma ReplacedLoginReports(c: Consumer, code: Option<int>, input: string)
    ensures var c1 := LoginStep(c, Auth.Start(Channel)).0;
      var c2 := LoginStep(c1, Auth.Start(Channel)).0;
      var (c3, effs) := LoginStep(c2, Auth.Exit(c.login.nextPid, code));
      && c2.login.active == Some(c.login.nextPid + 1)
      && effs == [Send(AuthSuccess)]
      && c3.authenticated
      && c3.login.active.None?
      && LoginStep(c3, Auth.Submit(Some(JStr(input)))).1 == []
  {
    var pid := c.login.nextPid;
    var s1 := Auth.StepAsWritten(Auth.LegacyGemini, c.login, Auth.Start(Channel)).0;
    var s2 := Auth.StepAsWritten(Auth.LegacyGemini, s1, Auth.Start(Channel)).0;
    assert s2.conn == Some(Channel) && s2.nextPid == pid + 2;
    var r := Auth.StepAsWritten(Auth.LegacyGemini, s2, Auth.Exit(pid, code));
    assert r.1 == [Auth.Notify(pid, Channel, Auth.AuthSucceeded)];
    var out := RelayAll(r.1);
    assert out == [Send(AuthSuccess)];
    assert out[0] == Send(AuthSuccess);
    assert ReportsSuccess(out);
  }

  /** A truthy `auth_code` goes to the login module as it is (see `AuthCodeRouted`): a
      string is written, trimmed, to the running CLI; any other truthy value makes the
      handler reject; with no CLI running nothing happens. The consumer is unchanged. */
  lemma AuthCodeOutcome(c: Consumer, code: Json)
    requires Truthy(code)
    ensures var (c', effs) := LoginStep(c, Auth.Submit(Some(code)));
      && c' == c
      && (c.login.active.None? ==> effs == [])
      && (c.login.active.Some? && code.JStr? ==>
            effs == [Process(Auth.WriteStdin(c.login.active.value, Trim(code.s) + "\n"))])
      && (c.login.active.Some? && !code.JStr? ==> effs == [HandlerThrew])
  {
    if c.login.active.None? {
      CodeWithoutLogin(c, code);
    } else if code.JStr? {
      assert Auth.TrimmedCode(Some(code)) == Some(Trim(code.s));
      CodeWritten(c, code);
    } else {
      CodeRejected(c, code);
    }
  }

  /** With no login process, a code is written nowhere and nothing changes. */
  lemma CodeWithoutLogin(c: Consumer, code: Json)
    requires c.login.active.None?
    ensures LoginStep(c, Auth.Submit(Some(code))) == (c, [])
  {
    var r := Auth.StepAsWritten(Auth.LegacyGemini, c.login, Auth.Submit(Some(code)));
    assert r == (c.login, []);
    assert !ReportsSuccess([]);
  }

  /** With a login process, a code with text is written to its standard input. */
  lemma CodeWritten(c: Consumer, code: Json)
    requires c.login.active.Some? && Auth.TrimmedCode(Some(code)).Some?
    ensures LoginStep(c, Auth.Submit(Some(code)))
      == (c, [Process(Auth.WriteStdin(c.login.active.value, Auth.TrimmedCode(Some(code)).value + "\n"))])
  {
    var w := Auth.WriteStdin(c.login.active.value, Auth.TrimmedCode(Some(code)).value + "\n");
    Auth.SubmitWrites(Auth.LegacyGemini, c.login, Some(code));
    QuietLoginStep(c, Auth.Submit(Some(code)), w);
  }

  /** With a login process, a truthy code that is not a string rejects the handler. */
  lemma CodeRejected(c: Consumer, code: Json)
    requires c.login.active.Some? && Truthy(code) && !code.JStr?
    ensures LoginStep(c, Auth.Submit(Some(code))) == (c, [HandlerThrew])
  {
    assert Auth.TrimmedCode(Some(code)).None?;
    var r := Auth.StepAsWritten(Auth.LegacyGemini, c.login, Auth.Submit(Some(code)));
    assert r.0 == c.login && r.1 == [Auth.Threw];
    QuietLoginStep(c, Auth.Submit(Some(code)), Auth.Threw);
  }

  /** A login step that leaves the module's state alone and sends no notice leaves the
      consumer alone, and its one effect is relayed as it is. */
  lemma QuietLoginStep(c: Consumer, ev: Auth.Event, e: Auth.Effect)
    requires var r := Auth.StepAsWritten(Auth.LegacyGemini, c.login, ev);
      r.0 == c.login && |r.1| == 1 && r.1[0] == e
    requires !e.Notify?
    ensures LoginStep(c, ev) == (c, [Relay(e)])
  {
    assert Auth.StepAsWritten(Auth.LegacyGemini, c.login, ev).1 == [e];
    var out := RelayAll([e]);
    assert out[0] == Relay(e) && |out| == 1;
    assert out == [Relay(e)];
    assert !ReportsSuccess(out);
  }

  /** A payload holding only a truthy `auth_code` reaches the code branch. */
  lemma AuthCodeRouted(c: Consumer, code: Json, env: Env)
    requires Truthy(code)
    ensures OnInstruction(c, JObj(map["auth_code" := code]), env) == LoginStep(c, Auth.Submit(Some(code)))
  {
    var p := JObj(map["auth_code" := code]);
    assert !TruthyField(p, "status") && !TruthyField(p, "auth_status") && !TruthyField(p, "check_status");
    assert !TruthyField(p, "start_auth") && !FieldIs(p, "type", "STATUS") && !FieldIs(p, "type", "AUTH_STATUS");
    assert TruthyField(p, "auth_code") && p.fields["auth_code"] == code;
  }

  /** The prompt in flight ends as `executeGeminiPrompt` settles it: Rails hears the
      CLI's output exactly when it exited with 0, and otherwise its standard error, or
      the fixed message when that is empty; the consumer is idle again. */
  lemma LegacyPromptReported(c: Consumer, stdout: string, stderr: string, code: Option<int>)
    requires c.processing
    ensures var (c', effs) := Step(c, Settled(Prompt.CollectClose(Prompt.LegacyPrompt, stdout, stderr, code)));
      && !c'.processing
      && |effs| == 1
      && (effs[0] == Send(PromptCompleted(stdout)) <==> code == Some(0))
      && (code != Some(0) ==>
            effs[0] == Send(PromptFailed(if stderr != "" then stderr else "Process exited with non-zero code")))
  {
  }
}
