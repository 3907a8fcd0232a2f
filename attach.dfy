/** Attaching to a job through the host agent: find the agent's attach
    service, connect, send the attach request, then read the status byte(s)
    the agent answers with. Service discovery, the connection and the
    agent's bytes are inputs of the model. */
module Attach {

  import opened Identity

  /** Status bytes of the agent's attach protocol. */
  const AttachSuccess: byte := 0
  const AttachWaiting: byte := 1
  const AttachError: byte := 2

  /** Why an attach did not produce a stream. */
  datatype AttachFailure =
    | RegistryFailed
    | NoOnlineAddress
    | DialFailed
    | SendFailed
    | StatusUnreadable
    | AgentError(message: seq<byte>)

  /** The answer of the service registry for one service name: an error, or
      the addresses of its online instances. */
  datatype Services = RegistryDown | Online(addrs: seq<string>)

  /** The agent behind one address: whether the connection opens, whether
      the request can be sent on it, and the bytes the agent then sends
      before closing the connection. Every agent closes its connection in
      the end: one that keeps it open without sending more is not a `Link`. */
  datatype Link = Link(dialOk: bool, sendOk: bool, stream: seq<byte>)

  /** The reader `in` whose bytes are copied to the agent: none (`in` is
      nil), or a reader whose stream ends at some point or never. */
  datatype Input = NoInput | Reader(ends: bool)

  /** What happens after the attach call returned without error: the caller
      waits on a channel that never delivers (`Stalled`), that later reports
      a failure, or the agent's output is streamed to the caller and then
      the channel delivers (`ends`) or never does. */
  datatype Session = Stalled | FailsLater(failure: AttachFailure) | Streams(output: seq<byte>, ends: bool)

  /** The error the attach call returns, or the session it starts. */
  datatype AttachResult = Refused(failure: AttachFailure) | Started(session: Session)

  /** Whether a started session ever reports on its channel, which is what
      the caller waits for before closing its connection. */
  predicate Delivers(s: Session) {
    s.FailsLater? || (s.Streams? && s.ends)
  }

  /** The registry name of the attach service of a host. */
  function ServiceName(host: string): string {
    "flynn-lorne-attach." + host
  }

  /** The second status byte, read in the background after AttachWaiting;
      `ends` is what the attach goroutine does once the output is over. */
  function AfterWaiting(rest: seq<byte>, ends: bool): Session {
    if |rest| == 0 then FailsLater(StatusUnreadable)
    else if rest[0] == AttachError then FailsLater(AgentError(rest[1..]))
    else Streams(rest[1..], ends)
  }

  /** The switch on the first status byte the agent sends. */
  function Handshake(stream: seq<byte>, ends: bool): AttachResult {
    if |stream| == 0 then Refused(StatusUnreadable)
    else if stream[0] == AttachError then Refused(AgentError(stream[1..]))
    else if stream[0] == AttachWaiting then Started(AfterWaiting(stream[1..], ends))
    else Started(Streams(stream[1..], ends))
  }

  /** The handshake, stated byte by byte: the attach call fails exactly when
      the agent sends nothing or starts with AttachError, and then the
      message is the rest of the stream; it streams exactly when the first
      byte (or, after AttachWaiting, the second) is neither status that
      stops it, and the output is what follows that byte. */
  lemma HandshakeBytes(stream: seq<byte>, ends: bool)
    ensures Handshake(stream, ends).Refused? <==> |stream| == 0 || stream[0] == AttachError
    ensures forall m :: Handshake(stream, ends) == Refused(AgentError(m)) <==>
      |stream| > 0 && stream[0] == AttachError && m == stream[1..]
    ensures forall out, e :: Handshake(stream, ends) == Started(Streams(out, e)) <==>
      e == ends &&
      ((|stream| > 0 && stream[0] != AttachError && stream[0] != AttachWaiting && out == stream[1..]) ||
       (|stream| > 1 && stream[0] == AttachWaiting && stream[1] != AttachError && out == stream[2..]))
    ensures forall m :: Handshake(stream, ends) == Started(FailsLater(AgentError(m))) <==>
      |stream| > 1 && stream[0] == AttachWaiting && stream[1] == AttachError && m == stream[2..]
    ensures Handshake(stream, ends) != Started(Stalled)
  {
    if |stream| > 1 && stream[0] == AttachWaiting {
      assert stream[1..][1..] == stream[2..];
    }
  }

  /** What an agent can do after it received the attach request. */
  datatype AgentReply =
    | Ready(output: seq<byte>)
    | Reject(message: seq<byte>)
    | WaitThenReady(output: seq<byte>)
    | WaitThenReject(message: seq<byte>)
    | Hangup
    | WaitThenHangup

  /** The bytes the agent sends for each reply. */
  function Send(r: AgentReply): seq<byte> {
    match r
    case Ready(output) => [AttachSuccess] + output
    case Reject(message) => [AttachError] + message
    case WaitThenReady(output) => [AttachWaiting, AttachSuccess] + output
    case WaitThenReject(message) => [AttachWaiting, AttachError] + message
    case Hangup => []
    case WaitThenHangup => [AttachWaiting]
  }

  /** What the caller should see for each reply of the agent. */
  function Expected(r: AgentReply, ends: bool): AttachResult {
    match r
    case Ready(output) => Started(Streams(output, ends))
    case Reject(message) => Refused(AgentError(message))
    case WaitThenReady(output) => Started(Streams(output, ends))
    case WaitThenReject(message) => Started(FailsLater(AgentError(message)))
    case Hangup => Refused(StatusUnreadable)
    case WaitThenHangup => Started(FailsLater(StatusUnreadable))
  }

  /** The handshake reads back what the agent meant: error messages and
      output arrive unchanged and a wait is followed by the second status. */
  lemma HandshakeSend(r: AgentReply, ends: bool)
    ensures Handshake(Send(r), ends) == Expected(r, ends)
  {
    match r
    case Ready(output) =>
      assert Send(r)[1..] == output;
    case Reject(message) =>
      assert Send(r)[1..] == message;
    case WaitThenReady(output) =>
      assert Send(r)[1..][1..] == output;
    case WaitThenReject(message) =>
      assert Send(r)[1..][1..] == message;
    case Hangup =>
    case WaitThenHangup =>
  }

  /** Every stream the agent can send is read as the reply it encodes, or
      starts with a status byte other than the three known ones and then
      streams like AttachSuccess. */
  lemma HandshakeComplete(stream: seq<byte>, ends: bool)
    ensures (exists r :: Send(r) == stream && Handshake(stream, ends) == Expected(r, ends)) ||
      (|stream| > 0 && stream[0] != AttachSuccess && stream[0] != AttachWaiting && stream[0] != AttachError &&
       Handshake(stream, ends) == Handshake([AttachSuccess] + stream[1..], ends)) ||
      (|stream| > 1 && stream[0] == AttachWaiting && stream[1] != AttachSuccess && stream[1] != AttachError &&
       Handshake(stream, ends) == Handshake([AttachWaiting, AttachSuccess] + stream[2..], ends))
  {
    if |stream| == 0 {
      HandshakeSend(Hangup, ends);
    } else if stream[0] == AttachSuccess {
      var r := Ready(stream[1..]);
      assert Send(r) == stream;
      HandshakeSend(r, ends);
    } else if stream[0] == AttachError {
      var r := Reject(stream[1..]);
      assert Send(r) == stream;
      HandshakeSend(r, ends);
    } else if stream[0] == AttachWaiting {
      if |stream| == 1 {
        assert Send(WaitThenHangup) == stream;
        HandshakeSend(WaitThenHangup, ends);
      } else if stream[1] == AttachSuccess {
        var r := WaitThenReady(stream[2..]);
        assert Send(r) == stream;
        HandshakeSend(r, ends);
      } else if stream[1] == AttachError {
        var r := WaitThenReject(stream[2..]);
        assert Send(r) == stream;
        HandshakeSend(r, ends);
      } else {
        assert ([AttachWaiting, AttachSuccess] + stream[2..])[1..][1..] == stream[1..][1..];
      }
    } else {
      assert ([AttachSuccess] + stream[1..])[1..] == stream[1..];
    }
  }

  /** attach() as written, once the agent's output has ended cleanly: it
      passes on what arrives on `inErr`, which is closed when there is no
      input and otherwise never written, so with an input it waits forever. */
  function OutputDoneAsWritten(input: Input): bool {
    input.NoInput?
  }

  /** lorneAttach as written. With no online address it returns the
      registry's nil error and a nil channel, so the caller carries on as if
      attached and then waits forever on that channel; with an input, a
      streamed session never reports its end. */
  function LorneAttachAsWritten(host: string, discover: string -> Services, dial: string -> Link, input: Input): (r: AttachResult)
    ensures discover(ServiceName(host)) == Online([]) ==> r == Started(Stalled)
    ensures input.Reader? && r.Started? && r.session.Streams? ==> !r.session.ends
  {
    match discover(ServiceName(host))
    case RegistryDown => Refused(RegistryFailed)
    case Online(addrs) =>
      if |addrs| == 0 then Started(Stalled)
      else
        var link := dial(addrs[0]);
        if !link.dialOk then Refused(DialFailed)
        else if !link.sendOk then Refused(SendFailed)
        else Handshake(link.stream, OutputDoneAsWritten(input))
  }

  /** lorneAttach with both corrections: no online address refuses the
      attach, and the end of the agent's output ends the session and is
      reported on the channel, whatever the input does (the input copy is
      left to stop when the caller's connection is closed). */
  function LorneAttach(host: string, discover: string -> Services, dial: string -> Link): (r: AttachResult)
    ensures discover(ServiceName(host)) == Online([]) ==> r == Refused(NoOnlineAddress)
    ensures r.Started? ==> Delivers(r.session)
  {
    match discover(ServiceName(host))
    case RegistryDown => Refused(RegistryFailed)
    case Online(addrs) =>
      if |addrs| == 0 then Refused(NoOnlineAddress)
      else
        var link := dial(addrs[0]);
        if !link.dialOk then Refused(DialFailed)
        else if !link.sendOk then Refused(SendFailed)
        else Handshake(link.stream, true)
  }

  /** A session the corrected call starts never stalls and always reports
      on its channel, since every agent closes its connection in the end; it
      differs from the call as written only in the two corrected places:
      without an input they agree wherever the call as written does not
      stall, and a refusal is the same refusal. */
  lemma LorneAttachNeverStalls(host: string, discover: string -> Services, dial: string -> Link, input: Input)
    ensures LorneAttach(host, discover, dial) != Started(Stalled)
    ensures LorneAttach(host, discover, dial).Started? ==> Delivers(LorneAttach(host, discover, dial).session)
    ensures LorneAttachAsWritten(host, discover, dial, NoInput) != Started(Stalled) ==>
      LorneAttach(host, discover, dial) == LorneAttachAsWritten(host, discover, dial, NoInput)
    ensures LorneAttachAsWritten(host, discover, dial, input).Refused? ==>
      LorneAttach(host, discover, dial) == LorneAttachAsWritten(host, discover, dial, input)
  {
    match discover(ServiceName(host))
    case RegistryDown =>
    case Online(addrs) =>
      if |addrs| > 0 {
        var stream := dial(addrs[0]).stream;
        HandshakeBytes(stream, true);
        HandshakeBytes(stream, OutputDoneAsWritten(input));
      }
  }

  /** The wait in attach() as written, on one agent: it accepts the
      request, reports success and sends "hi"; even an input that ends
      leaves the session as written without its end, while the corrected
      call reports it. */
  lemma StreamNeverEndsAsWritten()
    ensures var discover := (name: string) => Online(["agent"]);
      var dial := (addr: string) => Link(true, true, [AttachSuccess, 104, 105]);
      LorneAttachAsWritten("host", discover, dial, Reader(true)) == Started(Streams([104, 105], false)) &&
      LorneAttach("host", discover, dial) == Started(Streams([104, 105], true))
  {
    var discover := (name: string) => Online(["agent"]);
    var dial := (addr: string) => Link(true, true, [AttachSuccess, 104, 105]);
    assert [AttachSuccess, 104, 105][1..] == [104, 105];
  }

  /** Only the first online address is used: agents behind the other
      addresses do not change the outcome. */
  lemma LorneAttachFirstAddress(host: string, discover: string -> Services, dial: string -> Link, dial': string -> Link)
    requires discover(ServiceName(host)).Online? && |discover(ServiceName(host)).addrs| > 0
    requires dial(discover(ServiceName(host)).addrs[0]) == dial'(discover(ServiceName(host)).addrs[0])
    ensures LorneAttach(host, discover, dial) == LorneAttach(host, discover, dial')
  {
  }

  /** Only an agent that received the request can make the attach succeed:
      a failed connection or send refuses it, and an agent error is refused
      with the agent's own message. */
  lemma LorneAttachStarted(host: string, discover: string -> Services, dial: string -> Link)
    requires LorneAttach(host, discover, dial).Started?
    ensures var s := discover(ServiceName(host));
      s.Online? && |s.addrs| > 0 && dial(s.addrs[0]).dialOk && dial(s.addrs[0]).sendOk &&
      |dial(s.addrs[0]).stream| > 0 && dial(s.addrs[0]).stream[0] != AttachError
  {
  }
}
