/** Running a prompt through a CLI: the argument lists each strategy builds, and how
    the promise settles from the process's output and exit code.

    Claude and Codex stream: every stdout chunk is handed to the caller as it comes,
    stderr is collected, and the close settles the promise; a close that does not
    reject marks the strategy as having a session, so the next prompt continues it.
    Gemini (and the legacy module) collect stdout and resolve with it. */
module Prompt {
  import opened Wrappers
  import opened Text

  // ---------------------------------------------------------------------------
  // Argument lists

  /** A directory entry of the playground directory. */
  datatype Entry = Entry(name: string, isDir: bool)

  /** The names of the directories among `entries`, in listing order. */
  function DirNames(entries: seq<Entry>): (names: seq<string>)
    ensures |names| <= |entries|
    ensures forall e :: e in entries && e.isDir ==> e.name in names
    ensures forall n :: n in names ==> Entry(n, true) in entries
    ensures |entries| == 1 ==> names == (if entries[0].isDir then [entries[0].name] else [])
  {
    if |entries| == 0 then []
    else
      var rest := DirNames(entries[1..]);
      assert forall e :: e in entries[1..] ==> e in entries;
      if entries[0].isDir then [entries[0].name] + rest else rest
  }

  /** Listing order is kept: the directories of two listings one after the other are
      those of the first followed by those of the second. */
  lemma {:induction false} DirNamesConcat(a: seq<Entry>, b: seq<Entry>)
    ensures DirNames(a + b) == DirNames(a) + DirNames(b)
    decreases |a|
  {
    if |a| == 0 {
      assert a + b == b;
    } else {
      assert (a + b)[0] == a[0] && (a + b)[1..] == a[1..] + b;
      DirNamesConcat(a[1..], b);
      if a[0].isDir {
        assert [a[0].name] + (DirNames(a[1..]) + DirNames(b)) == ([a[0].name] + DirNames(a[1..])) + DirNames(b);
      }
    }
  }

  /** `_getPlaygroundDirs()`: the paths of the playground's sub-directories. A missing
      playground, or one that cannot be listed, gives none. */
  function PlaygroundDirs(root: string, listing: Stored<seq<Entry>>): (dirs: seq<string>)
    ensures listing.Holds? ==> (|dirs| == |DirNames(listing.content)|
      && forall i :: 0 <= i < |dirs| ==> dirs[i] == root + "/" + DirNames(listing.content)[i])
    ensures !listing.Holds? ==> dirs == []
  {
    match listing
    case Holds(entries) => Prefixed(root + "/", DirNames(entries))
    case _ => []
  }

  function Prefixed(prefix: string, names: seq<string>): (r: seq<string>)
    ensures |r| == |names| && forall i :: 0 <= i < |names| ==> r[i] == prefix + names[i]
  {
    if |names| == 0 then [] else [prefix + names[0]] + Prefixed(prefix, names[1..])
  }

  /** `--add-dir <dir>` for each directory. */
  function AddDirs(dirs: seq<string>): (args: seq<string>)
    ensures |args| == 2 * |dirs|
    ensures forall i :: 0 <= i < |dirs| ==> args[2 * i] == "--add-dir" && args[2 * i + 1] == dirs[i]
  {
    if |dirs| == 0 then []
    else
      var rest := AddDirs(dirs[1..]);
      var args := ["--add-dir", dirs[0]] + rest;
      assert forall i :: 0 <= i < |dirs| ==> args[2 * i] == "--add-dir" && args[2 * i + 1] == dirs[i] by {
        forall i | 1 <= i < |dirs| ensures args[2 * i] == "--add-dir" && args[2 * i + 1] == dirs[i] {
          var j := i - 1;
          assert 2 * i == 2 * j + 2;
          assert args[2 * j + 2] == rest[2 * j] && args[2 * j + 3] == rest[2 * j + 1];
          assert dirs[1..][j] == dirs[i];
        }
      }
      args
  }

  /** The Claude prompt command line. */
  function ClaudeArgs(hasSession: bool, prompt: string, dirs: seq<string>): seq<string> {
    (if hasSession then ["--continue"] else []) + ClaudeCommand(prompt, dirs)
  }

  /** The part after the optional `--continue`. */
  function ClaudeCommand(prompt: string, dirs: seq<string>): seq<string> {
    ["-p", prompt, "--dangerously-skip-permissions"] + AddDirs(dirs)
  }

  /** Reads a Claude command line back: whether it continues a session, the prompt,
      and the extra directories. */
  function ParseClaudeArgs(args: seq<string>): (r: Option<(bool, string, seq<string>)>)
  {
    var hasSession := |args| > 0 && args[0] == "--continue";
    match ParseClaudeCommand(if hasSession then args[1..] else args)
    case Some((prompt, dirs)) => Some((hasSession, prompt, dirs))
    case None => None
  }

  function ParseClaudeCommand(rest: seq<string>): Option<(string, seq<string>)> {
    if |rest| >= 3 && rest[0] == "-p" && rest[2] == "--dangerously-skip-permissions" then
      match ParseAddDirs(rest[3..])
      case Some(dirs) => Some((rest[1], dirs))
      case None => None
    else None
  }

  function ParseAddDirs(args: seq<string>): Option<seq<string>>
    decreases |args|
  {
    if |args| == 0 then Some([])
    else if |args| >= 2 && args[0] == "--add-dir" then
      match ParseAddDirs(args[2..])
      case Some(dirs) => Some([args[1]] + dirs)
      case None => None
    else None
  }

  lemma {:induction false} ParseAddDirsOf(dirs: seq<string>)
    ensures ParseAddDirs(AddDirs(dirs)) == Some(dirs)
    decreases |dirs|
  {
    if |dirs| > 0 {
      var args := AddDirs(dirs);
      assert args[2..] == AddDirs(dirs[1..]);
      ParseAddDirsOf(dirs[1..]);
      assert [dirs[0]] + dirs[1..] == dirs;
    }
  }

  /** The command line carries the session flag, the prompt (whatever it says) and the
      directories, and they can be read back from it. */
  lemma ClaudeArgsRoundTrip(hasSession: bool, prompt: string, dirs: seq<string>)
    ensures ParseClaudeArgs(ClaudeArgs(hasSession, prompt, dirs)) == Some((hasSession, prompt, dirs))
  {
    var args := ClaudeArgs(hasSession, prompt, dirs);
    var tail := ClaudeCommand(prompt, dirs);
    ClaudeCommandRoundTrip(prompt, dirs);
    if hasSession {
      assert args[1..] == tail;
    } else {
      assert args == tail;
    }
  }

  lemma ClaudeCommandRoundTrip(prompt: string, dirs: seq<string>)
    ensures ClaudeCommand(prompt, dirs)[0] == "-p"
    ensures ParseClaudeCommand(ClaudeCommand(prompt, dirs)) == Some((prompt, dirs))
  {
    assert ClaudeCommand(prompt, dirs)[3..] == AddDirs(dirs);
    ParseAddDirsOf(dirs);
  }

  /** The Codex prompt command line: `exec resume --last` continues the last session. */
  function CodexArgs(hasSession: bool, prompt: string): seq<string> {
    if hasSession then ["exec", "resume", "--last", "--yolo", prompt] else ["exec", "--yolo", prompt]
  }

  /** The prompt is always the last argument, so it can never be read as an option. */
  lemma CodexArgsPromptLast(hasSession: bool, prompt: string)
    ensures var args := CodexArgs(hasSession, prompt);
      |args| >= 3 && args[|args| - 1] == prompt && args[0] == "exec"
      && (args[1] == "resume" <==> hasSession)
  {
  }

  /** `gemini --yolo <prompt>` and the legacy `gemini --yolo -p <prompt>`. */
  function GeminiArgs(prompt: string): seq<string> {
    ["--yolo", prompt]
  }

  function LegacyGeminiArgs(prompt: string): seq<string> {
    ["--yolo", "-p", prompt]
  }

  // ---------------------------------------------------------------------------
  // Process events and settlement

  datatype ProcEvent =
    | Stdout(chunk: string)
    | Stderr(chunk: string)
    | Closed(code: Option<int>)
    | Errored(message: string)

  predicate IsOutput(ev: ProcEvent) {
    ev.Stdout? || ev.Stderr?
  }

  /** `${code}` for an exit code; a process killed by a signal closes with `null`. */
  function CodeText(code: Option<int>): string {
    match code
    case Some(c) => IntToString(c)
    case None => "null"
  }

  /** A streamed call: collected stderr, the session flag and the settled promise. */
  datatype Stream = Stream(stderr: string, hasSession: bool, outcome: Option<Settlement<()>>)

  /** The streaming close rule: a failing exit code with something on stderr rejects
      with that text; anything else resolves and starts a session. */
  function StreamClose(stderr: string, code: Option<int>): (r: Settlement<()>)
    ensures r.Rejected? <==> code != Some(0) && !IsBlank(stderr)
    ensures r.Rejected? ==> r.message == stderr && !IsBlank(r.message)
  {
    if code != Some(0) && !IsBlank(stderr) then Rejected(stderr) else Resolved(())
  }

  /** Settles unless already settled: a promise settles once. */
  function Settle<T>(outcome: Option<Settlement<T>>, s: Settlement<T>): Option<Settlement<T>> {
    if outcome.Some? then outcome else Some(s)
  }

  /** One event of a streamed call, with the chunks handed to `onChunk`. */
  function StreamStep(st: Stream, ev: ProcEvent): (Stream, seq<string>) {
    match ev
    case Stdout(chunk) => (st, [chunk])
    case Stderr(chunk) => (st.(stderr := st.stderr + chunk), [])
    case Closed(code) =>
      var s := StreamClose(st.stderr, code);
      (st.(hasSession := st.hasSession || s.Resolved?, outcome := Settle(st.outcome, s)), [])
    case Errored(message) => (st.(outcome := Settle(st.outcome, Rejected(message))), [])
  }

  function StreamRun(st: Stream, evs: seq<ProcEvent>): (Stream, seq<string>)
    decreases |evs|
  {
    if |evs| == 0 then (st, [])
    else
      var first := StreamStep(st, evs[0]);
      var rest := StreamRun(first.0, evs[1..]);
      (rest.0, first.1 + rest.1)
  }

  /** The stdout chunks among some events, and the concatenated stderr text. */
  function StdoutChunks(evs: seq<ProcEvent>): seq<string> {
    if |evs| == 0 then []
    else (if evs[0].Stdout? then [evs[0].chunk] else []) + StdoutChunks(evs[1..])
  }

  function StderrText(evs: seq<ProcEvent>): string {
    if |evs| == 0 then "" else (if evs[0].Stderr? then evs[0].chunk else "") + StderrText(evs[1..])
  }

  /** While only output arrives, a streamed call forwards every stdout chunk in order,
      collects stderr, and stays unsettled. */
  lemma {:induction false} StreamOutput(st: Stream, evs: seq<ProcEvent>)
    requires forall i :: 0 <= i < |evs| ==> IsOutput(evs[i])
    ensures var r := StreamRun(st, evs);
      r == (st.(stderr := st.stderr + StderrText(evs)), StdoutChunks(evs))
    decreases |evs|
  {
    if |evs| == 0 {
      assert st.stderr + "" == st.stderr;
    } else {
      var first := StreamStep(st, evs[0]);
      StreamOutput(first.0, evs[1..]);
      var rest := StreamRun(first.0, evs[1..]);
      assert StreamRun(st, evs) == (rest.0, first.1 + rest.1);
      if evs[0].Stdout? {
        assert first == (st, [evs[0].chunk]);
        assert StdoutChunks(evs) == [evs[0].chunk] + StdoutChunks(evs[1..]);
        assert StderrText(evs) == StderrText(evs[1..]);
      } else {
        assert first == (st.(stderr := st.stderr + evs[0].chunk), []);
        assert StdoutChunks(evs) == StdoutChunks(evs[1..]);
        assert StderrText(evs) == evs[0].chunk + StderrText(evs[1..]);
        assert st.stderr + evs[0].chunk + StderrText(evs[1..]) == st.stderr + StderrText(evs);
        assert [] + rest.1 == rest.1;
      }
    }
  }

  /** A fresh streamed call that sees its output and then the close settles by the
      close rule applied to everything written on stderr; the chunks reach the caller
      in order, and the session flag is set exactly when the call resolves. */
  lemma StreamThenClose(hasSession: bool, evs: seq<ProcEvent>, code: Option<int>)
    requires forall i :: 0 <= i < |evs| ==> IsOutput(evs[i])
    ensures var r := StreamRun(Stream("", hasSession, None), evs + [Closed(code)]);
      var s := StreamClose(StderrText(evs), code);
      && r.0.outcome == Some(s)
      && r.0.hasSession == (hasSession || s.Resolved?)
      && r.1 == StdoutChunks(evs)
  {
    var st := Stream("", hasSession, None);
    StreamOutput(st, evs);
    StreamRunAppend(st, evs, [Closed(code)]);
    var mid := StreamRun(st, evs).0;
    assert mid.stderr == StderrText(evs);
    assert StreamRun(mid, [Closed(code)]).1 == [];
    assert StdoutChunks(evs) + [] == StdoutChunks(evs);
  }

  lemma {:induction false} StreamRunAppend(st: Stream, a: seq<ProcEvent>, b: seq<ProcEvent>)
    ensures var ra := StreamRun(st, a);
      var rb := StreamRun(ra.0, b);
      StreamRun(st, a + b) == (rb.0, ra.1 + rb.1)
    decreases |a|
  {
    if |a| > 0 {
      assert (a + b)[1..] == a[1..] + b;
      var first := StreamStep(st, a[0]);
      StreamRunAppend(first.0, a[1..], b);
      var ra := StreamRun(first.0, a[1..]);
      var rb := StreamRun(ra.0, b);
      assert first.1 + (ra.1 + rb.1) == (first.1 + ra.1) + rb.1;
    } else {
      assert a + b == b;
      assert [] + StreamRun(st, b).1 == StreamRun(st, b).1;
    }
  }

  /** A spawn error rejects; a close after it still updates the session flag, since the
      close listener runs whatever the promise's state. */
  lemma ErrorThenClose(hasSession: bool, message: string, code: Option<int>)
    ensures var r := StreamRun(Stream("", hasSession, None), [Errored(message), Closed(code)]);
      r.0.outcome == Some(Rejected(message)) && r.0.hasSession
  {
    var evs := [Errored(message), Closed(code)];
    var e := Stream("", hasSession, Some(Rejected(message)));
    assert StreamStep(Stream("", hasSession, None), evs[0]) == (e, []);
    assert evs[1..] == [Closed(code)] && evs[1..][1..] == [];
    var f := StreamStep(e, Closed(code));
    assert f.0.outcome == Some(Rejected(message)) && f.0.hasSession;
    assert StreamRun(e, evs[1..]).0 == f.0;
  }

  // ---------------------------------------------------------------------------
  // Collected calls (Gemini)

  datatype Collect = Collect(stdout: string, stderr: string, outcome: Option<Settlement<string>>)

  datatype Collector = GeminiPrompt | LegacyPrompt

  /** The close rules. Gemini resolves with any non-blank reply whatever the exit code,
      and otherwise rejects a failing exit with stderr or a message naming the code;
      the legacy module (`executeGeminiPrompt`) resolves with stdout only on exit code
      0, and otherwise rejects with stderr or a fixed message. */
  function CollectClose(k: Collector, stdout: string, stderr: string, code: Option<int>): (r: Settlement<string>)
    ensures k == GeminiPrompt ==> (r.Rejected? <==> IsBlank(stdout) && code != Some(0))
    ensures k == LegacyPrompt ==> (r.Rejected? <==> code != Some(0))
    ensures r.Resolved? ==> r.value == stdout
    ensures r.Rejected? ==> r.message != "" && (stderr != "" ==> r.message == stderr)
    ensures r.Rejected? && stderr == "" ==>
      r.message == (if k == GeminiPrompt then "Process exited with code " + CodeText(code)
                    else "Process exited with non-zero code")
  {
    match k
    case GeminiPrompt =>
      if !IsBlank(stdout) then Resolved(stdout)
      else if code != Some(0) then Rejected(if stderr != "" then stderr else "Process exited with code " + CodeText(code))
      else Resolved(stdout)
    case LegacyPrompt =>
      if code == Some(0) then Resolved(stdout)
      else Rejected(if stderr != "" then stderr else "Process exited with non-zero code")
  }

  function CollectStep(k: Collector, st: Collect, ev: ProcEvent): Collect {
    match ev
    case Stdout(chunk) => st.(stdout := st.stdout + chunk)
    case Stderr(chunk) => st.(stderr := st.stderr + chunk)
    case Closed(code) => st.(outcome := Settle(st.outcome, CollectClose(k, st.stdout, st.stderr, code)))
    case Errored(message) => st.(outcome := Settle(st.outcome, Rejected(message)))
  }

  function CollectRun(k: Collector, st: Collect, evs: seq<ProcEvent>): Collect
    decreases |evs|
  {
    if |evs| == 0 then st else CollectRun(k, CollectStep(k, st, evs[0]), evs[1..])
  }

  function StdoutText(evs: seq<ProcEvent>): string {
    if |evs| == 0 then "" else (if evs[0].Stdout? then evs[0].chunk else "") + StdoutText(evs[1..])
  }

  lemma {:induction false} CollectOutput(k: Collector, st: Collect, evs: seq<ProcEvent>)
    requires forall i :: 0 <= i < |evs| ==> IsOutput(evs[i])
    ensures CollectRun(k, st, evs)
      == st.(stdout := st.stdout + StdoutText(evs), stderr := st.stderr + StderrText(evs))
    decreases |evs|
  {
    if |evs| == 0 {
      assert st.stdout + "" == st.stdout && st.stderr + "" == st.stderr;
    } else {
      var e, rest := evs[0], evs[1..];
      var out := if e.Stdout? then e.chunk else "";
      var err := if e.Stderr? then e.chunk else "";
      OutputStep(k, st, e);
      CollectOutput(k, CollectStep(k, st, e), rest);
      OutputTexts(evs);
      assert (st.stdout + out) + StdoutText(rest) == st.stdout + StdoutText(evs);
      assert (st.stderr + err) + StderrText(rest) == st.stderr + StderrText(evs);
    }
  }

  lemma OutputStep(k: Collector, st: Collect, e: ProcEvent)
    requires IsOutput(e)
    ensures CollectStep(k, st, e) == st.(stdout := st.stdout + (if e.Stdout? then e.chunk else ""),
                                         stderr := st.stderr + (if e.Stderr? then e.chunk else ""))
  {
    if e.Stdout? {
      assert st.stderr + "" == st.stderr;
    } else {
      assert st.stdout + "" == st.stdout;
    }
  }

  lemma OutputTexts(evs: seq<ProcEvent>)
    requires |evs| > 0
    ensures StdoutText(evs) == (if evs[0].Stdout? then evs[0].chunk else "") + StdoutText(evs[1..])
    ensures StderrText(evs) == (if evs[0].Stderr? then evs[0].chunk else "") + StderrText(evs[1..])
  {
  }

  lemma {:induction false} CollectRunAppend(k: Collector, st: Collect, a: seq<ProcEvent>, b: seq<ProcEvent>)
    ensures CollectRun(k, st, a + b) == CollectRun(k, CollectRun(k, st, a), b)
    decreases |a|
  {
    if |a| > 0 {
      assert (a + b)[1..] == a[1..] + b;
      CollectRunAppend(k, CollectStep(k, st, a[0]), a[1..], b);
    } else {
      assert a + b == b;
    }
  }

  /** A fresh collected call settles by the close rule applied to everything the
      process wrote on each stream. */
  lemma CollectThenClose(k: Collector, evs: seq<ProcEvent>, code: Option<int>)
    requires forall i :: 0 <= i < |evs| ==> IsOutput(evs[i])
    ensures CollectRun(k, Collect("", "", None), evs + [Closed(code)]).outcome
      == Some(CollectClose(k, StdoutText(evs), StderrText(evs), code))
  {
    var st := Collect("", "", None);
    CollectRunAppend(k, st, evs, [Closed(code)]);
    CollectOutput(k, st, evs);
    var mid := CollectRun(k, st, evs);
    assert mid.stdout == StdoutText(evs) && mid.stderr == StderrText(evs) && mid.outcome.None?;
    assert [Closed(code)][1..] == [];
    assert CollectRun(k, mid, [Closed(code)]) == CollectStep(k, mid, Closed(code));
  }
}
