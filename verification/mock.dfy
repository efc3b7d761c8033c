/** The mock strategy, a stand-in with fixed answers: login always succeeds on the
    connection it was given, the probe says logged in, and a prompt resolves with a
    canned reply carrying a timestamp (a parameter here, since it reads the clock). */
module Mock {
  import opened Wrappers
  import opened Text
  import Auth
  import Credentials

  /** A notice sent to a connection. */
  datatype Sent = Sent(conn: Auth.Conn, notice: Auth.Notice)

  /** `executeAuth(connection)`: after the delay, one `sendAuthSuccess` on that connection. */
  function MockAuth(conn: Auth.Conn): (sent: seq<Sent>)
    ensures |sent| == 1 && sent[0].conn == conn && sent[0].notice == Auth.AuthSucceeded
  {
    [Sent(conn, Auth.AuthSucceeded)]
  }

  /** `submitAuthCode`, `cancelAuth`: nothing is sent, and there is no state to change. */
  function MockSubmit(code: Option<string>): (sent: seq<Sent>)
    ensures sent == []
  {
    []
  }

  function MockCancel(): (sent: seq<Sent>)
    ensures sent == []
  {
    []
  }

  /** `clearCredentials`: the file system is left alone. */
  lemma MockClearKeepsFiles(home: string, fs: Credentials.Fs)
    ensures Credentials.Clear(Credentials.MockFiles, home, fs) == fs
  {
  }

  /** `checkAuthStatus` resolves true. */
  function MockProbe(): (signedIn: bool)
    ensures signedIn
  {
    true
  }

  const ReplyPrefix := "[MOCKED RESPONSE] Hello! The current timestamp is "

  /** `executePrompt`: never rejects; the reply is the fixed text and the timestamp. */
  function MockReply(prompt: string, timestamp: string): (r: Settlement<string>)
    ensures r.Resolved? && StartsWith(r.value, ReplyPrefix)
  {
    Resolved(ReplyPrefix + timestamp)
  }

  /** The timestamp a mocked reply carries. */
  function TimestampOf(reply: string): Option<string> {
    if StartsWith(reply, ReplyPrefix) then Some(reply[|ReplyPrefix|..]) else None
  }

  /** The reply ignores the prompt and carries the timestamp unchanged. */
  lemma MockReplyCarriesTimestamp(prompt: string, timestamp: string)
    ensures TimestampOf(MockReply(prompt, timestamp).value) == Some(timestamp)
  {
    var r := ReplyPrefix + timestamp;
    assert r[..|ReplyPrefix|] == ReplyPrefix;
    assert r[|ReplyPrefix|..] == timestamp;
  }
}
