/** `checkAuthStatus` of the strategies: is the CLI logged in? The Claude and Gemini
    strategies (and the legacy Gemini module) run the CLI with an empty prompt and
    watch its output for a login URL; the promise settles once, with the first of:
    a login prompt in the output (false, and the probe is killed), the process
    closing, or the spawn failing (false). The Codex strategy reads its auth file. */
module Probe {
  import opened Wrappers
  import opened Text
  import Ansi
  import Scrape
  import Json

  datatype Prober = ClaudeCheck | GeminiCheck | LegacyCheck

  /** The program and arguments of the probe process. */
  function ProbeCommand(k: Prober): (string, seq<string>) {
    match k
    case ClaudeCheck => ("claude", ["-p", "", "--dangerously-skip-permissions"])
    case GeminiCheck => ("gemini", [""])
    case LegacyCheck => ("gemini", ["-p", ""])
  }

  datatype ProbeEvent = Data(chunk: string) | Closed(code: Option<int>) | Errored

  /** `outputStr` and the settled value of the promise (`resolved` is `verdict.Some?`). */
  datatype Probe = Probe(heard: string, verdict: Option<bool>)

  const Fresh := Probe("", None)

  /** What the data listener appends to `outputStr` for a chunk. */
  function Listened(k: Prober, chunk: string): string {
    if k == ClaudeCheck then Ansi.Strip(chunk) else chunk
  }

  function LoginPattern(k: Prober): Scrape.Pattern {
    if k == ClaudeCheck then Scrape.ClaudeAuthUrl else Scrape.GoogleAuthUrl
  }

  const WaitingText := "Waiting for authentication"

  /** Whether a chunk shows the CLI asking for a login, given everything heard so far
      including that chunk. The Gemini probes also look for the waiting message, but
      only in the chunk itself. */
  predicate AsksToLogIn(k: Prober, heard: string, chunk: string) {
    Scrape.Test(LoginPattern(k), heard) || (k != ClaudeCheck && Contains(chunk, WaitingText))
  }

  /** What a close settles: Claude trusts the exit code, Gemini counts any close
      without a login prompt as logged in. */
  function CloseVerdict(k: Prober, code: Option<int>): bool {
    if k == ClaudeCheck then code == Some(0) else true
  }

  /** One event; the boolean says whether the probe process is killed. */
  function ProbeStep(k: Prober, p: Probe, ev: ProbeEvent): (r: (Probe, bool))
    ensures p.verdict.Some? ==> r == (p, false)
    ensures r.1 <==> p.verdict.None? && ev.Data? && AsksToLogIn(k, p.heard + Listened(k, ev.chunk), ev.chunk)
    ensures r.1 ==> r.0.verdict == Some(false)
  {
    if p.verdict.Some? then (p, false)
    else
      match ev
      case Data(chunk) =>
        var heard := p.heard + Listened(k, chunk);
        if AsksToLogIn(k, heard, chunk) then (Probe(heard, Some(false)), true) else (Probe(heard, None), false)
      case Closed(code) => (p.(verdict := Some(CloseVerdict(k, code))), false)
      case Errored => (p.(verdict := Some(false)), false)
  }

  function ProbeRun(k: Prober, p: Probe, evs: seq<ProbeEvent>): Probe
    decreases |evs|
  {
    if |evs| == 0 then p else ProbeRun(k, ProbeStep(k, p, evs[0]).0, evs[1..])
  }

  /** The first settlement wins: once settled, nothing changes the verdict. */
  lemma {:induction false} SettledStays(k: Prober, p: Probe, evs: seq<ProbeEvent>)
    requires p.verdict.Some?
    ensures ProbeRun(k, p, evs) == p
    decreases |evs|
  {
    if |evs| > 0 {
      SettledStays(k, p, evs[1..]);
    }
  }

  lemma {:induction false} ProbeRunAppend(k: Prober, p: Probe, a: seq<ProbeEvent>, b: seq<ProbeEvent>)
    ensures ProbeRun(k, p, a + b) == ProbeRun(k, ProbeRun(k, p, a), b)
    decreases |a|
  {
    if |a| > 0 {
      assert (a + b)[1..] == a[1..] + b;
      ProbeRunAppend(k, ProbeStep(k, p, a[0]).0, a[1..], b);
    } else {
      assert a + b == b;
    }
  }

  function Datas(chunks: seq<string>): (evs: seq<ProbeEvent>)
    ensures |evs| == |chunks| && forall i :: 0 <= i < |chunks| ==> evs[i] == Data(chunks[i])
  {
    if |chunks| == 0 then [] else [Data(chunks[0])] + Datas(chunks[1..])
  }

  /** Everything the listener appends for a series of chunks. */
  function Heard(k: Prober, chunks: seq<string>): string {
    if |chunks| == 0 then "" else Listened(k, chunks[0]) + Heard(k, chunks[1..])
  }

  /** A series of chunks that never shows a login prompt. */
  predicate Quiet(k: Prober, before: string, chunks: seq<string>) {
    && !Scrape.Test(LoginPattern(k), before + Heard(k, chunks))
    && (k != ClaudeCheck ==> forall i :: 0 <= i < |chunks| ==> !Contains(chunks[i], WaitingText))
  }

  /** Over a series of chunks the probe either stays unsettled, having heard all of
      them, exactly when they are quiet, or settles on `false`. */
  lemma {:induction false} DataRun(k: Prober, p: Probe, chunks: seq<string>)
    requires p.verdict.None? && !Scrape.Test(LoginPattern(k), p.heard)
    ensures var r := ProbeRun(k, p, Datas(chunks));
      && (r.verdict.None? <==> Quiet(k, p.heard, chunks))
      && (r.verdict.None? ==> r.heard == p.heard + Heard(k, chunks))
      && (r.verdict.Some? ==> r.verdict == Some(false))
    decreases |chunks|
  {
    if |chunks| == 0 {
      assert p.heard + "" == p.heard;
    } else {
      var c := chunks[0];
      var rest := chunks[1..];
      var heard := p.heard + Listened(k, c);
      assert Datas(chunks)[1..] == Datas(rest);
      assert heard + Heard(k, rest) == p.heard + Heard(k, chunks);
      var q := ProbeStep(k, p, Data(c)).0;
      assert ProbeRun(k, p, Datas(chunks)) == ProbeRun(k, q, Datas(rest));
      if AsksToLogIn(k, heard, c) {
        LoudChunk(k, p, chunks);
      } else {
        DataRun(k, q, rest);
        QuietTail(k, p.heard, chunks);
      }
    }
  }

  /** A chunk that shows a login prompt settles the probe on `false` for good. */
  lemma LoudChunk(k: Prober, p: Probe, chunks: seq<string>)
    requires p.verdict.None? && |chunks| > 0
    requires AsksToLogIn(k, p.heard + Listened(k, chunks[0]), chunks[0])
    ensures var q := ProbeStep(k, p, Data(chunks[0])).0;
      ProbeRun(k, q, Datas(chunks[1..])).verdict == Some(false) && !Quiet(k, p.heard, chunks)
  {
    var q := ProbeStep(k, p, Data(chunks[0])).0;
    SettledStays(k, q, Datas(chunks[1..]));
    LoudNotQuiet(k, p.heard, chunks);
  }

  lemma Associative(a: string, b: string, c: string)
    ensures (a + b) + c == a + (b + c)
  {
  }

  /** A series whose first chunk shows a login prompt is not quiet. */
  lemma LoudNotQuiet(k: Prober, before: string, chunks: seq<string>)
    requires |chunks| > 0
    requires AsksToLogIn(k, before + Listened(k, chunks[0]), chunks[0])
    ensures !Quiet(k, before, chunks)
  {
    var heard := before + Listened(k, chunks[0]);
    if Scrape.Test(LoginPattern(k), heard) {
      var rest := Heard(k, chunks[1..]);
      assert Heard(k, chunks) == Listened(k, chunks[0]) + rest;
      Associative(before, Listened(k, chunks[0]), rest);
      Scrape.TestPersists(LoginPattern(k), heard, Heard(k, chunks[1..]));
    }
  }

  /** After a quiet chunk, the rest is quiet exactly when the whole series is. */
  lemma QuietTail(k: Prober, before: string, chunks: seq<string>)
    requires |chunks| > 0
    requires !AsksToLogIn(k, before + Listened(k, chunks[0]), chunks[0])
    ensures Quiet(k, before + Listened(k, chunks[0]), chunks[1..]) <==> Quiet(k, before, chunks)
  {
    var rest := chunks[1..];
    assert before + Listened(k, chunks[0]) + Heard(k, rest) == before + Heard(k, chunks);
    if k != ClaudeCheck {
      assert (forall i :: 0 <= i < |rest| ==> !Contains(rest[i], WaitingText))
        <==> (forall i :: 0 <= i < |chunks| ==> !Contains(chunks[i], WaitingText)) by {
        forall i | 0 <= i < |rest| ensures rest[i] == chunks[i + 1] { }
      }
    }
  }

  lemma NothingHeardYet(k: Prober)
    ensures !Scrape.Test(LoginPattern(k), Fresh.heard)
  {
    assert Scrape.Leftmost(LoginPattern(k), "", 0).None?;
  }

  /** What the probe reports for a run of output followed by a close: `false` if the
      output showed a login prompt, otherwise the close's verdict. */
  lemma ProbeThenClose(k: Prober, chunks: seq<string>, code: Option<int>)
    ensures ProbeRun(k, Fresh, Datas(chunks) + [Closed(code)]).verdict
      == Some(if Quiet(k, "", chunks) then CloseVerdict(k, code) else false)
  {
    ProbeRunAppend(k, Fresh, Datas(chunks), [Closed(code)]);
    NothingHeardYet(k);
    DataRun(k, Fresh, chunks);
  }

  /** A probe whose process fails to start, or fails after some output, reports `false`. */
  lemma ProbeThenError(k: Prober, chunks: seq<string>)
    ensures ProbeRun(k, Fresh, Datas(chunks) + [Errored]).verdict == Some(false)
  {
    ProbeRunAppend(k, Fresh, Datas(chunks), [Errored]);
    NothingHeardYet(k);
    DataRun(k, Fresh, chunks);
  }

  const TokenKeys: seq<string> := ["access_token", "token", "api_key"]

  /** The Codex probe: the auth file exists, parses, and holds a truthy token under one
      of the known keys. A file that does not parse counts as logged out. */
  function CodexSignedIn(file: Stored<Json.Json>): (r: bool)
    ensures r <==> (file.Holds? && file.content.JObj?
      && exists i :: 0 <= i < |TokenKeys| && TokenKeys[i] in file.content.fields
           && Json.Truthy(file.content.fields[TokenKeys[i]]))
  {
    match file
    case Holds(auth) =>
      var r := Json.Truthy(auth)
        && (Json.TruthyField(auth, "access_token") || Json.TruthyField(auth, "token") || Json.TruthyField(auth, "api_key"));
      assert r ==> Json.TruthyField(auth, TokenKeys[0]) || Json.TruthyField(auth, TokenKeys[1]) || Json.TruthyField(auth, TokenKeys[2]);
      r
    case _ => false
  }
}
