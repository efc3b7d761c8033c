/** Interactive login sessions of the strategies (`executeAuth`, `cancelAuth`,
    `submitAuthCode` of the Claude, Gemini and Codex strategies, and the module-level
    `executeGeminiAuth` / `submitGeminiAuthCode` of the legacy Gemini module).

    A session spawns the CLI and listens to it. The listeners are closures: each one
    remembers, per spawned process, whether it has already reported a login URL, and
    reads the strategy's CURRENT `currentConnection` and `activeAuthProcess` fields
    when it fires. The model keeps process ids to tell processes apart: `reported` is
    the set of processes whose closure flag is set, and `owners` the connection each
    process was started for. */
module Auth {
  import opened Wrappers
  import opened Text
  import Ansi
  import Scrape
  import Callback
  import opened Json

  datatype Backend = Claude | Gemini | Codex | LegacyGemini

  /** A spawned CLI process; ids are handed out in order. */
  type Pid = nat

  /** The connection object a session reports to (an `AgentConnection`, or the legacy
      module's auth channel); it is always truthy. */
  type Conn = nat

  /** What a session tells its connection: `sendAuthUrlGenerated(url)`,
      `sendAuthSuccess()` and `sendAuthStatus('unauthenticated')`; the legacy module
      sends `url_generated` and `auth_success`/`completed` on its channel instead. */
  datatype Notice = UrlGenerated(url: string) | AuthSucceeded | Unauthenticated

  datatype Effect =
    | Spawn(pid: Pid, program: string, args: seq<string>)
    | Kill(pid: Pid)
    /** A notice sent by a listener of process `from` to connection `conn`. */
    | Notify(from: Pid, conn: Conn, notice: Notice)
    | WriteStdin(pid: Pid, text: string)
    /** `http.get` of the Claude CLI's local callback URL. */
    | HttpGet(url: string)
    /** An error thrown by `submitAuthCode`: Claude's `input.startsWith` on a value
        that is not a string, `http.get` refusing a callback URL whose port the URL
        parser rejects, or the other CLIs' `.trim()` on a truthy value that is not a
        string. */
    | Threw

  datatype Event =
    | Start(conn: Conn)
    | Output(pid: Pid, chunk: string)
    | Exit(pid: Pid, code: Option<int>)
    | Failed(pid: Pid)
    | Cancel
    /** `submitAuthCode(code)` with the value the browser sent; `None` is `undefined`. */
    | Submit(value: Option<Json>)

  datatype State = State(
    active: Option<Pid>,
    conn: Option<Conn>,
    owners: map<Pid, Conn>,
    reported: set<Pid>,
    callbackPort: Option<nat>,
    nextPid: Pid)

  /** The state right after the constructor (or module load, for the legacy module). */
  const Init := State(None, None, map[], {}, None, 0)

  /** The program and arguments a login session runs. */
  function AuthCommand(b: Backend): (string, seq<string>) {
    match b
    case Claude => ("claude", [])
    case Gemini => ("gemini", [""])
    case Codex => ("codex", ["login", "--device-auth"])
    case LegacyGemini => ("gemini", ["-p", ""])
  }

  /** The login URL each CLI prints. */
  function UrlPattern(b: Backend): Scrape.Pattern {
    match b
    case Claude => Scrape.ClaudeAuthUrl
    case Gemini => Scrape.GoogleAuthUrl
    case Codex => Scrape.AnyHttpsUrl
    case LegacyGemini => Scrape.GoogleAuthUrl
  }

  /** The text the output listener searches: Claude's output is stripped of terminal
      escape sequences first. */
  function ListenedText(b: Backend, chunk: string): string {
    if b == Claude then Ansi.Strip(chunk) else chunk
  }

  /** Exit codes the close listener counts as a completed login. Gemini's 42 means the
      CLI rejected the empty prompt because it is already logged in; the legacy module
      reports success whatever the code. */
  predicate Succeeded(b: Backend, code: Option<int>) {
    match b
    case Claude => code == Some(0)
    case Codex => code == Some(0)
    case Gemini => code == Some(0) || code == Some(42)
    case LegacyGemini => true
  }

  /** `(code || '').trim()`: the trimmed text of a string, the empty text for a falsy
      value, and `None` where `trim` is not a function (a truthy value that is not a
      string), which throws. */
  function TrimmedCode(code: Option<Json>): (r: Option<string>)
    ensures r.None? <==> code.Some? && Truthy(code.value) && !code.value.JStr?
    ensures code.Some? && code.value.JStr? ==> r == Some(Trim(code.value.s))
    ensures code.None? || !Truthy(code.value) ==> r == Some("")
  {
    // An empty string is falsy, but trimming it gives the same empty text.
    if code.Some? && code.value.JStr? then
      assert code.value.s == "" ==> IsBlank(code.value.s);
      Some(Trim(code.value.s))
    else if code.Some? && Truthy(code.value) then None
    else Some("")
  }

  /** What Claude's `submitAuthCode` does with a submitted value: an `http.get` of the
      callback URL, or an error when the value is not a string or the URL parser
      refuses the URL. */
  function ClaudeForward(code: Option<Json>, callbackPort: Option<nat>): (e: Effect)
  {
    if code.Some? && code.value.JStr? then
      var url := Callback.BuildCallbackUrl(code.value.s, callbackPort);
      if Callback.UrlAccepted(url) then HttpGet(url) else Threw
    else Threw
  }

  /** What the other CLIs' `submitAuthCode` does with a submitted value: nothing without
      a running login, else the trimmed text and a newline on its stdin, or an error
      when the value has no `trim`. */
  function WrittenCode(active: Option<Pid>, code: Option<Json>): (effs: seq<Effect>)
    ensures |effs| <= 1
    ensures active.Some? && TrimmedCode(code).Some? ==>
      |effs| == 1 && effs[0] == WriteStdin(active.value, TrimmedCode(code).value + "\n")
  {
    if active.None? then []
    else
      match TrimmedCode(code)
      case None => [Threw]
      case Some(text) => [WriteStdin(active.value, text + "\n")]
  }

  predicate Spawned(st: State, pid: Pid) {
    pid < st.nextPid
  }

  /** One step of a strategy's login machinery, as the source is written. Events of a
      process that was never spawned cannot occur, and leave everything unchanged. */
  function StepAsWritten(b: Backend, st: State, ev: Event): (State, seq<Effect>) {
    match ev
    case Start(c) =>
      var pid := st.nextPid;
      var cmd := AuthCommand(b);
      (st.(active := Some(pid), conn := Some(c), owners := st.owners[pid := c], nextPid := pid + 1),
       [Spawn(pid, cmd.0, cmd.1)])
    case Output(pid, chunk) =>
      if !Spawned(st, pid) || pid in st.reported then (st, [])
      else
        (match Scrape.Find(UrlPattern(b), ListenedText(b, chunk))
         case None => (st, [])
         case Some(url) =>
           var port := if b == Claude && Scrape.CallbackPort(url).Some? then Scrape.CallbackPort(url) else st.callbackPort;
           (st.(reported := st.reported + {pid}, callbackPort := port),
            if st.conn.Some? then [Notify(pid, st.conn.value, UrlGenerated(url))] else []))
    case Exit(pid, code) =>
      if !Spawned(st, pid) then (st, [])
      else
        (st.(active := None, conn := None),
         if st.conn.Some? then [Notify(pid, st.conn.value, if Succeeded(b, code) then AuthSucceeded else Unauthenticated)] else [])
    case Failed(_) => (st, [])
    case Cancel =>
      if b == LegacyGemini || st.active.None? then (st, [])
      else (st.(active := None, conn := None), [Kill(st.active.value)])
    case Submit(code) =>
      if b == Claude then
        (st, [ClaudeForward(code, st.callbackPort)])
      else (st, WrittenCode(st.active, code))
  }

  /** A listener of a process other than the active one. */
  predicate Stale(st: State, ev: Event) {
    (ev.Output? || ev.Exit? || ev.Failed?) && st.active != Some(ev.pid)
  }

  /** The corrected step: listeners of a process that is no longer the active one
      (cancelled, or replaced by a newer `executeAuth`) do nothing. */
  function Step(b: Backend, st: State, ev: Event): (State, seq<Effect>) {
    if Stale(st, ev) then (st, []) else StepAsWritten(b, st, ev)
  }

  function Next(b: Backend, st: State, ev: Event, guarded: bool): (State, seq<Effect>) {
    if guarded then Step(b, st, ev) else StepAsWritten(b, st, ev)
  }

  /** Runs a sequence of events, collecting the effects in order. */
  function Run(b: Backend, st: State, evs: seq<Event>, guarded: bool): (State, seq<Effect>)
    decreases |evs|
  {
    if |evs| == 0 then (st, [])
    else
      var first := Next(b, st, evs[0], guarded);
      var rest := Run(b, first.0, evs[1..], guarded);
      (rest.0, first.1 + rest.1)
  }

  // ---------------------------------------------------------------------------
  // Single operations

  /** Closing the login process reports success or failure to the connection, by the
      backend's exit-code rule, and ends the session. */
  lemma ExitEndsSession(b: Backend, st: State, code: Option<int>)
    requires st.active.Some? && Spawned(st, st.active.value)
    ensures var r := Step(b, st, Exit(st.active.value, code));
      && r == StepAsWritten(b, st, Exit(st.active.value, code))
      && r.0.active.None? && r.0.conn.None?
      && (st.conn.Some? ==> r.1 == [Notify(st.active.value, st.conn.value,
            if code == Some(0) || (b == Gemini && code == Some(42)) || b == LegacyGemini
            then AuthSucceeded else Unauthenticated)])
      && (st.conn.None? ==> r.1 == [])
  {
  }

  /** Cancelling is idempotent: a second cancel kills nothing and changes nothing, and
      a cancel with no login running is a no-op. */
  lemma CancelIdempotent(b: Backend, st: State)
    ensures var once := StepAsWritten(b, st, Cancel);
      && StepAsWritten(b, once.0, Cancel) == (once.0, [])
      && (st.active.None? ==> once == (st, []))
      && (b != LegacyGemini && st.active.Some? ==>
            once.1 == [Kill(st.active.value)] && once.0.active.None? && once.0.conn.None?)
  {
  }

  /** A code is written to the CLI only while a login process is active, and it goes to
      the process just started: a string trimmed, a falsy value as an empty line, each
      followed by a newline; a truthy value that is not a string throws instead. */
  lemma SubmitReachesStartedProcess(b: Backend, st: State, c: Conn, code: Option<Json>)
    requires b != Claude
    ensures var started := Step(b, st, Start(c)).0;
      var r := Step(b, started, Submit(code));
      && r.0 == started
      && (code.Some? && code.value.JStr? ==> r.1 == [WriteStdin(st.nextPid, Trim(code.value.s) + "\n")])
      && (code.None? || !Truthy(code.value) ==> r.1 == [WriteStdin(st.nextPid, "\n")])
      && (code.Some? && Truthy(code.value) && !code.value.JStr? ==> r.1 == [Threw])
  {
    var started := Step(b, st, Start(c)).0;
    assert started.active == Some(st.nextPid);
    assert "" + "\n" == "\n";
  }

  /** With a login running, a code is written to it on every CLI that reads codes from
      its standard input, as `TrimmedCode` gives it (a string's trimmed text). */
  lemma SubmitWrites(b: Backend, st: State, code: Option<Json>)
    requires b != Claude && st.active.Some? && TrimmedCode(code).Some?
    ensures var r := StepAsWritten(b, st, Submit(code));
      r.0 == st && |r.1| == 1 && r.1[0] == WriteStdin(st.active.value, TrimmedCode(code).value + "\n")
  {
    SubmitStep(b, st, code);
  }

  /** The submit step as one equation, so that proofs about it need not unfold `StepAsWritten`. */
  lemma SubmitStep(b: Backend, st: State, code: Option<Json>)
    ensures StepAsWritten(b, st, Submit(code))
      == (st, if b == Claude then [ClaudeForward(code, st.callbackPort)] else WrittenCode(st.active, code))
  {
  }

  /** Submitting never changes the session. It throws exactly when Claude is given a
      value that is not a string or one whose callback URL has a port the URL parser
      refuses, or another CLI, while its login runs, a truthy value that is not a
      string; otherwise it does at most one thing. */
  lemma SubmitThrows(b: Backend, st: State, code: Option<Json>)
    ensures var r := StepAsWritten(b, st, Submit(code));
      && r.0 == st
      && |r.1| <= 1
      && (Threw in r.1 <==>
            if b == Claude then
              !(code.Some? && code.value.JStr?)
              || !Callback.UrlAccepted(Callback.BuildCallbackUrl(code.value.s, st.callbackPort))
            else st.active.Some? && code.Some? && Truthy(code.value) && !code.value.JStr?)
  {
  }

  /** Once the login process has exited, a submitted code is written nowhere. */
  lemma SubmitAfterExit(b: Backend, st: State, c: Conn, code: Option<int>, input: Option<Json>)
    requires b != Claude
    ensures var started := Step(b, st, Start(c)).0;
      var exited := Step(b, started, Exit(st.nextPid, code)).0;
      Step(b, exited, Submit(input)) == (exited, [])
  {
    var started := Step(b, st, Start(c)).0;
    assert started.active == Some(st.nextPid) && Spawned(started, st.nextPid);
    var exited := Step(b, started, Exit(st.nextPid, code)).0;
    assert exited.active.None?;
  }

  /** Once the login has been cancelled, a submitted code is written nowhere. */
  lemma SubmitAfterCancel(b: Backend, st: State, c: Conn, input: Option<Json>)
    requires b != Claude && b != LegacyGemini
    ensures var started := Step(b, st, Start(c)).0;
      var cancelled := Step(b, started, Cancel).0;
      Step(b, cancelled, Submit(input)) == (cancelled, [])
  {
    var started := Step(b, st, Start(c)).0;
    assert started.active == Some(st.nextPid);
    var cancelled := Step(b, started, Cancel).0;
    assert cancelled.active.None?;
  }

  /** A reported login URL is the first match of the backend's pattern in what the
      listener saw, so it is a piece of the CLI's (stripped) output. */
  lemma ReportedUrlIsFirstMatch(b: Backend, st: State, pid: Pid, chunk: string, conn: Conn, url: string)
    requires Notify(pid, conn, UrlGenerated(url)) in StepAsWritten(b, st, Output(pid, chunk)).1
    ensures Scrape.Find(UrlPattern(b), ListenedText(b, chunk)) == Some(url)
    ensures StartsWith(url, UrlPattern(b).lead) && |url| > |UrlPattern(b).lead|
    ensures forall ch :: ch in url ==> ch in chunk
  {
    Scrape.FindInText(UrlPattern(b), ListenedText(b, chunk));
  }

  /** The Claude listener finds a login URL wrapped in display escape sequences (bold
      on, bold off) and reports it without them. */
  lemma UrlThroughEscapes(p1: string, f1: char, body: string, p2: string, f2: char)
    requires Ansi.AllParams(p1) && Ansi.IsLetter(f1) && Ansi.AllParams(p2) && Ansi.IsLetter(f2)
    requires |body| > 0 && forall k :: 0 <= k < |body| ==> Scrape.InClass(Scrape.ClaudeAuthUrl.body, body[k])
    requires Ansi.Esc !in body
    ensures var url := Scrape.ClaudeAuthUrl.lead + body;
      var chunk := [Ansi.Esc, '['] + p1 + [f1] + url + [Ansi.Esc, '['] + p2 + [f2];
      Scrape.Find(UrlPattern(Claude), ListenedText(Claude, chunk)) == Some(url)
  {
    var lead := Scrape.ClaudeAuthUrl.lead;
    var url := lead + body;
    ClaudeLeadPlain();
    Ansi.StripAround(p1, f1, url, p2, f2);
    Scrape.FindAtFront(Scrape.ClaudeAuthUrl, body, "");
    assert lead + body + "" == url;
  }

  lemma ClaudeLeadPlain()
    ensures Ansi.Esc !in Scrape.ClaudeAuthUrl.lead
  {
  }

  /** The first URL seen on a process's output marks the process as having reported,
      and on Claude records the port of its redirect address. */
  lemma OutputReports(b: Backend, st: State, pid: Pid, chunk: string)
    requires Spawned(st, pid) && pid !in st.reported
    requires Scrape.Find(UrlPattern(b), ListenedText(b, chunk)).Some?
    ensures var url := Scrape.Find(UrlPattern(b), ListenedText(b, chunk)).value;
      StepAsWritten(b, st, Output(pid, chunk)).0 == st.(reported := st.reported + {pid},
        callbackPort := if b == Claude && Scrape.CallbackPort(url).Some? then Scrape.CallbackPort(url) else st.callbackPort)
  {
  }

  /** A pasted Claude code is sent to the callback URL built for the recorded port,
      unless the URL parser refuses that URL, and then `http.get` throws. */
  lemma ClaudeSubmit(st: State, input: string)
    ensures var url := Callback.BuildCallbackUrl(input, st.callbackPort);
      var r := StepAsWritten(Claude, st, Submit(Some(JStr(input))));
      && r.0 == st && |r.1| == 1
      && (Callback.UrlAccepted(url) ==> r.1[0] == HttpGet(url))
      && (!Callback.UrlAccepted(url) ==> r.1[0] == Threw)
  {
  }

  /** A pasted callback URL is forwarded as it is, and throws exactly when its port is
      not one the URL parser takes: `http://localhost:abc/callback` throws. */
  lemma ForwardedUrlPort(st: State, port: string, rest: string)
    requires Callback.Plain(port)
    requires |rest| == 0 || Callback.EndsAuthority(rest[0])
    ensures var url := "http://localhost:" + port + rest;
      var r := StepAsWritten(Claude, st, Submit(Some(JStr(url))));
      && r.0 == st && |r.1| == 1
      && (Callback.PortAccepted(port) ==> r.1[0] == HttpGet(url))
      && (!Callback.PortAccepted(port) ==> r.1[0] == Threw)
  {
    var url := "http://localhost:" + port + rest;
    assert StartsWith(url, "http://localhost");
    Callback.LocalPortRule(port, rest);
    ClaudeSubmit(st, url);
  }

  /** After the Claude CLI has announced its login URL, a pasted code is forwarded to
      the port named in that URL's `redirect_uri`; a port above 65535 makes `http.get`
      throw instead. */
  lemma CodeGoesToAnnouncedPort(st: State, pid: Pid, chunk: string, url: string, port: nat, input: string)
    requires Spawned(st, pid) && pid !in st.reported
    requires Scrape.Find(Scrape.ClaudeAuthUrl, Ansi.Strip(chunk)) == Some(url)
    requires Scrape.CallbackPort(url) == Some(port) && port > 0
    requires !StartsWith(input, "http://localhost")
    ensures var announced := StepAsWritten(Claude, st, Output(pid, chunk));
      var r := StepAsWritten(Claude, announced.0, Submit(Some(JStr(input))));
      && (st.conn.Some? ==> announced.1 == [Notify(pid, st.conn.value, UrlGenerated(url))])
      && r.0 == announced.0 && |r.1| == 1
      && (port <= Callback.MaxPort ==> r.1[0].HttpGet? && StartsWith(r.1[0].url, Callback.Endpoint(port)))
      && (port > Callback.MaxPort ==> r.1[0] == Threw)
  {
    OutputReports(Claude, st, pid, chunk);
    var announced := StepAsWritten(Claude, st, Output(pid, chunk)).0;
    assert announced.callbackPort == Some(port);
    Callback.CallbackPortChoice(input, announced.callbackPort);
    Callback.BuiltUrlAccepted(input, announced.callbackPort);
    ClaudeSubmit(announced, input);
  }

  // ---------------------------------------------------------------------------
  // Runs of several events

  /** How many login-URL notices in `effs` come from process `pid`. */
  function UrlNotices(effs: seq<Effect>, pid: Pid): nat
    decreases |effs|
  {
    if |effs| == 0 then 0
    else
      (if effs[0].Notify? && effs[0].from == pid && effs[0].notice.UrlGenerated? then 1 else 0)
      + UrlNotices(effs[1..], pid)
  }

  lemma {:induction false} UrlNoticesConcat(a: seq<Effect>, b: seq<Effect>, pid: Pid)
    ensures UrlNotices(a + b, pid) == UrlNotices(a, pid) + UrlNotices(b, pid)
    decreases |a|
  {
    if |a| > 0 {
      assert (a + b)[1..] == a[1..] + b;
      UrlNoticesConcat(a[1..], b, pid);
    } else {
      assert a + b == b;
    }
  }

  /** 1 while `pid` may still report a URL, 0 once it has. */
  function Unreported(st: State, pid: Pid): nat {
    if pid in st.reported then 0 else 1
  }

  lemma StepReportsOnce(b: Backend, st: State, ev: Event, guarded: bool, pid: Pid)
    ensures var r := Next(b, st, ev, guarded);
      st.reported <= r.0.reported && UrlNotices(r.1, pid) + Unreported(r.0, pid) <= Unreported(st, pid)
  {
    var r := Next(b, st, ev, guarded);
    if ev.Output? && ev.pid == pid && r.1 != [] {
      assert r.1 == [Notify(pid, st.conn.value, r.1[0].notice)];
    }
  }

  /** A run never reports more URLs for a process than it had left to report. */
  lemma {:induction false} RunReportsOnce(b: Backend, st: State, evs: seq<Event>, guarded: bool, pid: Pid)
    ensures var r := Run(b, st, evs, guarded);
      UrlNotices(r.1, pid) + Unreported(r.0, pid) <= Unreported(st, pid)
    decreases |evs|
  {
    if |evs| > 0 {
      var first := Next(b, st, evs[0], guarded);
      StepReportsOnce(b, st, evs[0], guarded, pid);
      RunReportsOnce(b, first.0, evs[1..], guarded, pid);
      UrlNoticesConcat(first.1, Run(b, first.0, evs[1..], guarded).1, pid);
    }
  }

  /** Whatever happens, each `executeAuth` call (each spawned process) sends at most
      one login URL, and none once it has sent one. */
  lemma AtMostOneUrlPerSession(b: Backend, st: State, evs: seq<Event>, guarded: bool, pid: Pid)
    ensures UrlNotices(Run(b, st, evs, guarded).1, pid) <= 1
    ensures pid in st.reported ==> UrlNotices(Run(b, st, evs, guarded).1, pid) == 0
  {
    RunReportsOnce(b, st, evs, guarded, pid);
  }

  // ---------------------------------------------------------------------------
  // Who hears from a process

  /** Every process started so far has an id below `nextPid`, there is a connection
      exactly while a process is active, and it is the one that process was started for. */
  predicate Consistent(st: State) {
    && (forall p :: p in st.owners ==> p < st.nextPid)
    && (st.active.None? <==> st.conn.None?)
    && (st.active.Some? ==> st.active.value in st.owners && st.owners[st.active.value] == st.conn.value)
  }

  /** Every notice in `effs` goes to the connection its process was started for. */
  predicate NoticesToOwners(owners: map<Pid, Conn>, effs: seq<Effect>) {
    forall i :: 0 <= i < |effs| && effs[i].Notify? ==>
      effs[i].from in owners && owners[effs[i].from] == effs[i].conn
  }

  /** `later` remembers every owner `earlier` knew. */
  predicate Extends(earlier: map<Pid, Conn>, later: map<Pid, Conn>) {
    forall p :: p in earlier ==> p in later && later[p] == earlier[p]
  }

  /** With the stale-listener guard, one step keeps the state consistent, forgets no
      owner, and sends its notices to the connection of the process that produced them. */
  lemma StepKeepsOwners(b: Backend, st: State, ev: Event)
    requires Consistent(st)
    ensures var r := Step(b, st, ev);
      Consistent(r.0) && Extends(st.owners, r.0.owners) && NoticesToOwners(r.0.owners, r.1)
  {
    var r := Step(b, st, ev);
    if ev.Start? {
      assert st.nextPid !in st.owners;
    }
  }

  lemma NoticesToOwnersConcat(owners: map<Pid, Conn>, a: seq<Effect>, c: seq<Effect>)
    requires NoticesToOwners(owners, a) && NoticesToOwners(owners, c)
    ensures NoticesToOwners(owners, a + c)
  {
    forall i | 0 <= i < |a + c| && (a + c)[i].Notify?
      ensures (a + c)[i].from in owners && owners[(a + c)[i].from] == (a + c)[i].conn
    {
      if i >= |a| { assert (a + c)[i] == c[i - |a|]; }
    }
  }

  /** With the guard, over any run every notice reaches the connection that started
      the process it comes from. */
  lemma {:induction false} RunKeepsOwners(b: Backend, st: State, evs: seq<Event>)
    requires Consistent(st)
    ensures var r := Run(b, st, evs, true);
      Consistent(r.0) && Extends(st.owners, r.0.owners) && NoticesToOwners(r.0.owners, r.1)
    decreases |evs|
  {
    if |evs| > 0 {
      var first := Next(b, st, evs[0], true);
      StepKeepsOwners(b, st, evs[0]);
      RunKeepsOwners(b, first.0, evs[1..]);
      var rest := Run(b, first.0, evs[1..], true);
      assert NoticesToOwners(rest.0.owners, first.1);
      NoticesToOwnersConcat(rest.0.owners, first.1, rest.1);
    }
  }

  /** A run of one more event: that event's step, then the rest. */
  lemma RunCons(b: Backend, st: State, ev: Event, evs: seq<Event>, guarded: bool)
    ensures var first := Next(b, st, ev, guarded);
      var rest := Run(b, first.0, evs, guarded);
      Run(b, st, [ev] + evs, guarded) == (rest.0, first.1 + rest.1)
  {
    assert ([ev] + evs)[1..] == evs;
  }

  lemma InitConsistent()
    ensures Consistent(Init)
  {
  }

  // ---------------------------------------------------------------------------
  // The close listener of a cancelled process

  /** Cancelling a login and starting another one for a different connection, as the
      source is written: when the killed CLI closes (with a `null` code), its listener
      tells the NEW connection that it is unauthenticated, and clears the new session,
      so the new process can no longer be cancelled or given a code. With the guard
      the stale close does nothing. */
  lemma StaleCloseHitsNewSession(b: Backend, c1: Conn, c2: Conn)
    requires b == Claude || b == Gemini || b == Codex
    requires c1 != c2
    ensures var cmd := AuthCommand(b);
      var evs := [Start(c1), Cancel, Start(c2), Exit(0, None)];
      var w := Run(b, Init, evs, false);
      var g := Run(b, Init, evs, true);
      && w.1 == [Spawn(0, cmd.0, cmd.1), Kill(0), Spawn(1, cmd.0, cmd.1), Notify(0, c2, Unauthenticated)]
      && 0 in w.0.owners && w.0.owners[0] == c1 && w.0.active.None? && w.0.conn.None?
      && StepAsWritten(b, w.0, Cancel) == (w.0, [])
      && g.1 == [Spawn(0, cmd.0, cmd.1), Kill(0), Spawn(1, cmd.0, cmd.1)]
      && g.0.active == Some(1) && g.0.conn == Some(c2)
      && Step(b, g.0, Cancel).1 == [Kill(1)]
  {
    var cmd := AuthCommand(b);
    var s1 := State(Some(0), Some(c1), map[0 := c1], {}, None, 1);
    var s2 := s1.(active := None, conn := None);
    var s3 := State(Some(1), Some(c2), map[0 := c1, 1 := c2], {}, None, 2);
    var s4 := s3.(active := None, conn := None);
    var e1 := Spawn(0, cmd.0, cmd.1);
    var e3 := Spawn(1, cmd.0, cmd.1);
    var n4 := Notify(0, c2, Unauthenticated);
    assert Next(b, Init, Start(c1), false) == (s1, [e1]);
    assert Next(b, s1, Cancel, false) == (s2, [Kill(0)]);
    assert Next(b, s2, Start(c2), false) == (s3, [e3]);
    assert Next(b, s3, Exit(0, None), false) == (s4, [n4]);
    RunCons(b, s3, Exit(0, None), [], false);
    RunCons(b, s2, Start(c2), [Exit(0, None)], false);
    RunCons(b, s1, Cancel, [Start(c2), Exit(0, None)], false);
    RunCons(b, Init, Start(c1), [Cancel, Start(c2), Exit(0, None)], false);
    assert [e1] + ([Kill(0)] + ([e3] + ([n4] + []))) == [e1, Kill(0), e3, n4];
    assert Next(b, Init, Start(c1), true) == (s1, [e1]);
    assert Next(b, s1, Cancel, true) == (s2, [Kill(0)]);
    assert Next(b, s2, Start(c2), true) == (s3, [e3]);
    assert Next(b, s3, Exit(0, None), true) == (s3, []);
    RunCons(b, s3, Exit(0, None), [], true);
    RunCons(b, s2, Start(c2), [Exit(0, None)], true);
    RunCons(b, s1, Cancel, [Start(c2), Exit(0, None)], true);
    RunCons(b, Init, Start(c1), [Cancel, Start(c2), Exit(0, None)], true);
    assert [e1] + ([Kill(0)] + ([e3] + ([] + []))) == [e1, Kill(0), e3];
  }
}
