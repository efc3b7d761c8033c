/** `clearCredentials()` of the strategies, over a file system given as the set of
    paths that exist. Each strategy deletes what it finds of its CLI's stored login
    under the home directory; the mock strategy deletes nothing. */
module Credentials {
  import opened Wrappers
  import opened Text
  import Json
  import Probe

  type Fs = set<string>

  datatype Owner = ClaudeFiles | GeminiFiles | CodexFiles | MockFiles

  /** `process.env.HOME || '/home/node'`: an unset or empty HOME falls back. */
  function Home(env: Option<string>): (home: string)
    ensures home != ""
    ensures env.Some? && env.value != "" ==> home == env.value
    ensures env.None? || env.value == "" ==> home == "/home/node"
  {
    match env
    case Some(h) => if h != "" then h else "/home/node"
    case None => "/home/node"
  }

  /** `path.join(dir, name)` for a directory already in normal form (no trailing
      `/`, no doubled slashes, no `.` or `..` segments). */
  function Join(dir: string, name: string): string {
    dir + "/" + name
  }

  /** `path` is `dir` itself or lies inside it. */
  predicate Under(path: string, dir: string) {
    path == dir || StartsWith(path, dir + "/")
  }

  /** `fs.unlinkSync` of a file that exists; nothing when it does not. */
  function Unlink(fs: Fs, path: string): (r: Fs)
    ensures forall x :: x in r <==> x in fs && x != path
  {
    fs - {path}
  }

  /** `fs.rmSync(dir, { recursive: true, force: true })` guarded by `existsSync(dir)`. */
  function RemoveTree(fs: Fs, dir: string): (r: Fs)
    ensures forall x :: x in r <==> x in fs && !(dir in fs && Under(x, dir))
  {
    if dir in fs then set x | x in fs && !Under(x, dir) else fs
  }

  function ClaudeDir(home: string): string { Join(home, ".claude") }
  function GeminiDir(home: string): string { Join(home, ".gemini") }
  function CodexAuthFile(home: string): string { Join(Join(home, ".codex"), "auth.json") }

  const GeminiFileNames: seq<string> := ["oauth_creds.json", "credentials.json", ".credentials.json"]

  function GeminiFile(home: string, i: nat): string
    requires i < |GeminiFileNames|
  {
    Join(GeminiDir(home), GeminiFileNames[i])
  }

  function GeminiConfigure(home: string): string { Join(GeminiDir(home), "Configure") }
  function GeminiAuth(home: string): string { Join(GeminiDir(home), "auth") }

  function Clear(who: Owner, home: string, fs: Fs): Fs {
    match who
    case ClaudeFiles => RemoveTree(fs, ClaudeDir(home))
    case GeminiFiles =>
      var files := Unlink(Unlink(Unlink(fs, GeminiFile(home, 0)), GeminiFile(home, 1)), GeminiFile(home, 2));
      RemoveTree(RemoveTree(files, GeminiConfigure(home)), GeminiAuth(home))
    case CodexFiles => Unlink(fs, CodexAuthFile(home))
    case MockFiles => fs
  }

  /** The paths a strategy's clear removes from `fs`. */
  predicate Removed(who: Owner, home: string, fs: Fs, x: string) {
    match who
    case ClaudeFiles => ClaudeDir(home) in fs && Under(x, ClaudeDir(home))
    case GeminiFiles =>
      || (exists i :: 0 <= i < |GeminiFileNames| && x == GeminiFile(home, i))
      || (GeminiConfigure(home) in fs && Under(x, GeminiConfigure(home)))
      || (GeminiAuth(home) in fs && Under(x, GeminiAuth(home)))
    case CodexFiles => x == CodexAuthFile(home)
    case MockFiles => false
  }

  /** The two Gemini directories are apart: neither lies inside the other. */
  lemma GeminiDirsApart(home: string)
    ensures !Under(GeminiAuth(home), GeminiConfigure(home))
    ensures !Under(GeminiConfigure(home), GeminiAuth(home))
  {
    var g := GeminiDir(home);
    var n := |g| + 1;
    assert GeminiConfigure(home)[n] == 'C';
    assert GeminiAuth(home)[n] == 'a';
    assert (GeminiAuth(home) + "/")[n] == 'a';
    assert (GeminiConfigure(home) + "/")[n] == 'C';
  }

  /** Clearing removes exactly the strategy's credential paths that were there, and
      leaves every other path in place. */
  lemma ClearRemovesExactly(who: Owner, home: string, fs: Fs)
    ensures forall x :: x in Clear(who, home, fs) <==> x in fs && !Removed(who, home, fs, x)
  {
    if who == GeminiFiles {
      GeminiDirsApart(home);
      var files := Unlink(Unlink(Unlink(fs, GeminiFile(home, 0)), GeminiFile(home, 1)), GeminiFile(home, 2));
      var c := GeminiConfigure(home);
      var a := GeminiAuth(home);
      assert c in files <==> c in fs by {
        assert forall i :: 0 <= i < 3 ==> |GeminiFile(home, i)| != |c|;
      }
      assert a in RemoveTree(files, c) <==> a in fs by {
        assert forall i :: 0 <= i < 3 ==> |GeminiFile(home, i)| != |a|;
      }
      forall x ensures x in files <==> x in fs && !(exists i :: 0 <= i < |GeminiFileNames| && x == GeminiFile(home, i)) {
        if exists i :: 0 <= i < |GeminiFileNames| && x == GeminiFile(home, i) {
          var i :| 0 <= i < |GeminiFileNames| && x == GeminiFile(home, i);
          assert i == 0 || i == 1 || i == 2;
        }
      }
    }
  }

  /** Clearing twice is clearing once. */
  lemma ClearIdempotent(who: Owner, home: string, fs: Fs)
    ensures Clear(who, home, Clear(who, home, fs)) == Clear(who, home, fs)
  {
    var once := Clear(who, home, fs);
    ClearRemovesExactly(who, home, fs);
    ClearRemovesExactly(who, home, once);
    forall x | x in once ensures !Removed(who, home, once, x) {
      if who == ClaudeFiles { assert ClaudeDir(home) !in once; }
      if who == GeminiFiles {
        assert GeminiConfigure(home) in once ==> GeminiConfigure(home) !in fs;
        assert GeminiAuth(home) in once ==> GeminiAuth(home) !in fs;
      }
    }
  }

  /** What `checkAuthStatus` of the Codex strategy finds at the auth file: nothing,
      text that does not parse, or a parsed value. */
  function ReadAuthFile(fs: Fs, home: string, parsed: Option<Json.Json>): Stored<Json.Json> {
    if CodexAuthFile(home) !in fs then Missing
    else match parsed
      case Some(v) => Holds(v)
      case None => Malformed
  }

  /** After its credentials are cleared, the Codex strategy reports being logged out,
      whatever the file held. */
  lemma ClearSignsCodexOut(home: string, fs: Fs, parsed: Option<Json.Json>)
    ensures !Probe.CodexSignedIn(ReadAuthFile(Clear(CodexFiles, home, fs), home, parsed))
  {
  }
}
