/** A connection from its bytes to its effects: the lines cut out of the stream poll by poll, decoded,
    executed against the domain and answered, and what all of that amounts to. */
module IpcStream {
  import opened ControllerState
  import opened Options
  import DomainModel
  import IpcSession
  import JsonCommand
  import LineFraming

  // ---- One line ----

  /** A line as the decoder sees it: one character per byte, up to the first zero byte. */
  function TextOf(bytes: seq<U8>): (t: string)
    ensures |t| <= |bytes|
    decreases |bytes|
  {
    if bytes == [] || bytes[0] == 0 then [] else [bytes[0] as char] + TextOf(bytes[1..])
  }

  function Decoded(bytes: seq<U8>, ulongMax: nat): JsonCommand.Decoded {
    JsonCommand.DecodeCommand(TextOf(bytes), ulongMax)
  }

  /** What the server sends for a line: the response to a command, or the decoder's refusal. */
  datatype Reply =
    | Answer(response: IpcSession.Response, requestId: Option<string>)
    | Refusal(why: JsonCommand.Refusal, requestId: Option<string>)

  function Do(d: DomainModel.Domain, client: U32, line: JsonCommand.Decoded): DomainModel.Domain {
    match line
    case Accepted(command, _) => IpcSession.Execute(d, client, command)
    case Refused(_, _) => d
  }

  function ReplyTo(d: DomainModel.Domain, client: U32, line: JsonCommand.Decoded): Reply {
    match line
    case Accepted(command, id) => Answer(IpcSession.Respond(d, client, command), id)
    case Refused(why, id) => Refusal(why, id)
  }

  // ---- Many lines, one after the other ----

  function DecodedLines(lines: seq<seq<U8>>, ulongMax: nat): (ds: seq<JsonCommand.Decoded>)
    ensures |ds| == |lines|
  {
    seq(|lines|, i requires 0 <= i < |lines| => Decoded(lines[i], ulongMax))
  }

  function DoAll(d: DomainModel.Domain, client: U32, lines: seq<JsonCommand.Decoded>): DomainModel.Domain {
    if lines == [] then d else Do(DoAll(d, client, lines[..|lines| - 1]), client, lines[|lines| - 1])
  }

  function Replies(d: DomainModel.Domain, client: U32, lines: seq<JsonCommand.Decoded>): (r: seq<Reply>)
    ensures |r| == |lines|
  {
    if lines == [] then []
    else
      var before := lines[..|lines| - 1];
      Replies(d, client, before) + [ReplyTo(DoAll(d, client, before), client, lines[|lines| - 1])]
  }

  lemma LinesSnoc(d: DomainModel.Domain, client: U32, lines: seq<JsonCommand.Decoded>, line: JsonCommand.Decoded)
    ensures DoAll(d, client, lines + [line]) == Do(DoAll(d, client, lines), client, line)
    ensures Replies(d, client, lines + [line]) ==
            Replies(d, client, lines) + [ReplyTo(DoAll(d, client, lines), client, line)]
  {
    assert (lines + [line])[..|lines|] == lines;
  }

  lemma DecodedSnoc(lines: seq<seq<U8>>, line: seq<U8>, ulongMax: nat)
    ensures DecodedLines(lines + [line], ulongMax) == DecodedLines(lines, ulongMax) + [Decoded(line, ulongMax)]
  {
  }

  // ---- The connection ----

  /** A poll at a time, with the stream readable up to `limit`, and broken behind that or not. */
  datatype Poll = Poll(limit: nat, broken: bool, now: nat)

  /** The connection, and whether a read has found it broken. */
  datatype Live = Live(reader: LineFraming.Reader, ipc: IpcSession.Runner, replies: seq<Reply>, hungUp: bool)

  /** What a poll's read yields, for the runner. */
  function ReadOf(outcome: LineFraming.Outcome, ulongMax: nat): IpcSession.Read {
    match outcome
    case Partial => IpcSession.Partial
    case TooLong => IpcSession.TooLong
    case Broken => IpcSession.Broken
    case Line(bytes) =>
      IpcSession.Line(match Decoded(bytes, ulongMax)
                      case Accepted(command, _) => Some(command)
                      case Refused(_, _) => None)
  }

  function Available(stream: seq<U8>, live: Live, p: Poll): seq<U8> {
    if live.reader.pos < p.limit <= |stream| then stream[live.reader.pos..p.limit] else []
  }

  /** A broken socket is found ready for reading, like one with bytes. */
  predicate Pending(stream: seq<U8>, live: Live, p: Poll) {
    p.broken || Available(stream, live, p) != []
  }

  function Outcome(stream: seq<U8>, live: Live, p: Poll): LineFraming.Outcome {
    var outcome := LineFraming.ReadLine(live.reader.held, Available(stream, live, p)).outcome;
    if p.broken && outcome.Partial? then LineFraming.Broken else outcome
  }

  /** One poll of the connected client: a read if the socket is ready, a heartbeat check if not.
      Nothing happens once the connection is gone. */
  function Step(stream: seq<U8>, live: Live, p: Poll, ulongMax: nat): (next: Live)
    requires live.reader.pos <= |stream|
    ensures next.reader.pos <= |stream|
  {
    if !live.ipc.hasConnection then live
    else if !Pending(stream, live, p) then
      live.(ipc := IpcSession.Step(live.ipc, IpcSession.PollAt(p.now, IpcSession.Idle)))
    else
      var outcome := Outcome(stream, live, p);
      Live(LineFraming.After(live.reader, Available(stream, live, p)),
           IpcSession.Step(live.ipc, IpcSession.PollAt(p.now, IpcSession.Ready(true, ReadOf(outcome, ulongMax)))),
           Answered(live, outcome, ulongMax), outcome.Broken?)
  }

  function Answered(live: Live, outcome: LineFraming.Outcome, ulongMax: nat): seq<Reply> {
    if !outcome.Line? then live.replies
    else live.replies + [ReplyTo(live.ipc.domain, live.ipc.connection.client, Decoded(outcome.bytes, ulongMax))]
  }

  function Session(r: IpcSession.Runner, stream: seq<U8>, polls: seq<Poll>, ulongMax: nat): (live: Live)
    ensures live.reader.pos <= |stream|
  {
    if polls == [] then Live(LineFraming.NEW_READER, r, [], false)
    else Step(stream, Session(r, stream, polls[..|polls| - 1], ulongMax), polls[|polls| - 1], ulongMax)
  }

  /** A poll that finds no bytes delivers nothing. It ends the connection, as a disconnect, if the socket
      is broken, and otherwise exactly if the client has been silent too long. */
  lemma EmptyPollMeans(stream: seq<U8>, live: Live, p: Poll, ulongMax: nat)
    requires live.ipc.running && live.ipc.hasConnection && !live.reader.tooLong && live.reader.pos <= |stream|
    requires !(live.reader.pos < p.limit <= |stream|)
    ensures var n := Step(stream, live, p, ulongMax);
            && n.reader == live.reader && n.replies == live.replies
            && (n.ipc.hasConnection <==> !p.broken && !IpcSession.TimedOut(live.ipc.connection, p.now))
            && (p.broken ==>
                  var lost := DomainModel.Op.Revoke(DomainModel.Disconnect, live.ipc.connection.client);
                  n.hungUp && n.ipc.domain == DomainModel.Apply(live.ipc.domain, lost).0)
  {
    assert Available(stream, live, p) == [];
    assert LineFraming.ReadLine(live.reader.held, []) == LineFraming.Poll(LineFraming.Partial, live.reader.held, 0);
  }

  // ---- What a session amounts to ----

  /** The domain and the replies are those of the delivered lines, and of the loss if there was one. */
  predicate Amounts(r: IpcSession.Runner, live: Live, ulongMax: nat) {
    var client, lines := r.connection.client, DecodedLines(live.reader.lines, ulongMax);
    var done := DoAll(r.domain, client, lines);
    && live.replies == Replies(r.domain, client, lines)
    && (if live.ipc.hasConnection then
          && live.ipc.running && live.ipc.connection.client == client && live.ipc.domain == done
          && !live.reader.tooLong && !live.hungUp
        else
          var reason := if live.reader.tooLong || live.hungUp then DomainModel.Disconnect
                        else DomainModel.HeartbeatTimeout;
          live.ipc.domain == DomainModel.Apply(done, DomainModel.Op.Revoke(reason, client)).0)
  }

  predicate Reading(stream: seq<U8>, live: Live) {
    live.reader.pos <= |stream| && LineFraming.Agrees(stream[..live.reader.pos], live.reader)
  }

  lemma IdleAmounts(r: IpcSession.Runner, stream: seq<U8>, live: Live, p: Poll, ulongMax: nat)
    requires Amounts(r, live, ulongMax) && live.ipc.hasConnection && !Pending(stream, live, p)
    requires live.reader.pos <= |stream|
    ensures Amounts(r, Step(stream, live, p, ulongMax), ulongMax)
  {
  }

  /** What the runner makes of a read. */
  lemma RunnerReads(ipc: IpcSession.Runner, now: nat, outcome: LineFraming.Outcome, ulongMax: nat)
    requires ipc.running && ipc.hasConnection
    ensures var client := ipc.connection.client;
            var n := IpcSession.Step(ipc, IpcSession.PollAt(now, IpcSession.Ready(true, ReadOf(outcome, ulongMax))));
            if outcome.TooLong? || outcome.Broken? then
              var lost := DomainModel.Op.Revoke(DomainModel.Disconnect, client);
              !n.hasConnection && n.domain == DomainModel.Apply(ipc.domain, lost).0
            else
              && n.running && n.hasConnection && n.connection.client == client
              && n.domain == if outcome.Line? then Do(ipc.domain, client, Decoded(outcome.bytes, ulongMax))
                             else ipc.domain
  {
  }

  lemma ReadAmounts(r: IpcSession.Runner, stream: seq<U8>, live: Live, p: Poll, ulongMax: nat)
    requires Amounts(r, live, ulongMax) && live.ipc.hasConnection && Pending(stream, live, p)
    requires live.reader.pos <= |stream|
    ensures Amounts(r, Step(stream, live, p, ulongMax), ulongMax)
  {
    var outcome := Outcome(stream, live, p);
    RunnerReads(live.ipc, p.now, outcome, ulongMax);
    if outcome.Line? {
      DecodedSnoc(live.reader.lines, outcome.bytes, ulongMax);
      LinesSnoc(r.domain, r.connection.client, DecodedLines(live.reader.lines, ulongMax),
          Decoded(outcome.bytes, ulongMax));
    }
  }

  lemma ReadingStep(stream: seq<U8>, live: Live, p: Poll, ulongMax: nat)
    requires Reading(stream, live) && (live.ipc.hasConnection ==> !live.reader.tooLong)
    ensures Reading(stream, Step(stream, live, p, ulongMax))
  {
    if live.ipc.hasConnection && Pending(stream, live, p) {
      var available := Available(stream, live, p);
      LineFraming.PollAgrees(stream[..live.reader.pos], live.reader, available);
      var n := LineFraming.ReadLine(live.reader.held, available).taken;
      assert stream[..live.reader.pos] + available[..n] == stream[..live.reader.pos + n];
    }
  }

  lemma {:induction false} SessionKeeps(r: IpcSession.Runner, stream: seq<U8>, polls: seq<Poll>, ulongMax: nat)
    requires r.running && r.hasConnection
    ensures var live := Session(r, stream, polls, ulongMax); Amounts(r, live, ulongMax) && Reading(stream, live)
    decreases |polls|
  {
    if polls != [] {
      var live, p := Session(r, stream, polls[..|polls| - 1], ulongMax), polls[|polls| - 1];
      SessionKeeps(r, stream, polls[..|polls| - 1], ulongMax);
      ReadingStep(stream, live, p, ulongMax);
      if live.ipc.hasConnection {
        if Pending(stream, live, p) {
          ReadAmounts(r, stream, live, p, ulongMax);
        } else {
          IdleAmounts(r, stream, live, p, ulongMax);
        }
      }
    }
  }

  /** For every byte stream and every schedule of polls: while the connection lasts, the domain is what
      the newline-terminated pieces of the bytes read so far make of it, decoded and executed one
      after the other, and the replies are theirs in order. Once it is lost, the same holds up to the
      line it was lost at, followed by the revocation of the client: a disconnect if a piece was
      over-long or the socket broke, a heartbeat timeout otherwise. */
  lemma SessionsAreFolds(r: IpcSession.Runner, stream: seq<U8>, polls: seq<Poll>, ulongMax: nat)
    requires r.running && r.hasConnection
    ensures var live := Session(r, stream, polls, ulongMax);
            var client := r.connection.client;
            var read := stream[..live.reader.pos];
            var whole := if LineFraming.Overlong(read) then read[..|read| - 1] else read;
            var lines := DecodedLines(LineFraming.Split(whole).0, ulongMax);
            var done := DoAll(r.domain, client, lines);
            && live.replies == Replies(r.domain, client, lines)
            && (live.ipc.hasConnection ==> !LineFraming.Overlong(read) && live.ipc.domain == done)
            && (!live.ipc.hasConnection ==>
                  var reason := if LineFraming.Overlong(read) || live.hungUp then DomainModel.Disconnect
                                else DomainModel.HeartbeatTimeout;
                  live.ipc.domain == DomainModel.Apply(done, DomainModel.Op.Revoke(reason, client)).0)
  {
    var live := Session(r, stream, polls, ulongMax);
    SessionKeeps(r, stream, polls, ulongMax);
    LineFraming.AgreesIff(stream[..live.reader.pos], live.reader);
  }
}
