/** Whole conversations through the byte stream: any list of well-formed lines, and the client's own
    acquire, submit and release. */
module Conversation {
  import opened ControllerState
  import opened Options
  import opened ClientLines
  import DomainModel
  import IpcHistory
  import IpcSession
  import IpcStream
  import JsonCommand
  import JsonDecoding
  import JsonText
  import LineFraming

  // ---- Many lines in one stream ----

  lemma {:induction false} RestGrows(t: seq<U8>, line: seq<U8>, n: nat)
    requires LineFraming.Split(t).1 == [] && LineFraming.IsLine(line) && n < |line|
    ensures LineFraming.Split(t + line[..n]) == (LineFraming.Split(t).0, line[..n])
    decreases n
  {
    if n == 0 {
      assert t + line[..0] == t;
    } else {
      RestGrows(t, line, n - 1);
      OneMore(t, line, n - 1);
      LineFraming.SplitSnoc(t + line[..n - 1], line[n - 1]);
    }
  }

  lemma OneMore(t: seq<U8>, line: seq<U8>, n: nat)
    requires n < |line|
    ensures t + line[..n + 1] == (t + line[..n]) + [line[n]] && line[..n + 1] == line[..n] + [line[n]]
  {
  }

  lemma {:induction false} RestFits(t: seq<U8>, line: seq<U8>, n: nat)
    requires LineFraming.Split(t).1 == [] && LineFraming.IsLine(line) && n < |line| <= 8192
    requires !LineFraming.Overlong(t)
    ensures !LineFraming.Overlong(t + line[..n])
    decreases n
  {
    if n == 0 {
      assert t + line[..0] == t;
    } else {
      RestFits(t, line, n - 1);
      RestGrows(t, line, n - 1);
      OneMore(t, line, n - 1);
      LineFraming.OverlongSnoc(t + line[..n - 1], line[n - 1]);
    }
  }

  lemma LineAppended(t: seq<U8>, line: seq<U8>)
    requires LineFraming.Split(t).1 == [] && LineFraming.IsLine(line) && |line| <= 8192 && !LineFraming.Overlong(t)
    ensures LineFraming.Split(t + line) == (LineFraming.Split(t).0 + [line], []) && !LineFraming.Overlong(t + line)
  {
    var n := |line| - 1;
    RestGrows(t, line, n);
    RestFits(t, line, n);
    OneMore(t, line, n);
    assert line[..n + 1] == line;
    LineFraming.SplitSnoc(t + line[..n], line[n]);
    LineFraming.OverlongSnoc(t + line[..n], line[n]);
  }

  predicate AllFit(lines: seq<seq<U8>>) {
    forall i :: 0 <= i < |lines| ==> LineFraming.IsLine(lines[i]) && |lines[i]| <= 8192
  }

  /** Lines of legal length, one after the other, are cut out of the stream as they are. */
  lemma {:induction false} LinesSplit(lines: seq<seq<U8>>)
    requires AllFit(lines)
    ensures LineFraming.Split(LineFraming.Flatten(lines)) == (lines, [])
    ensures !LineFraming.Overlong(LineFraming.Flatten(lines))
    decreases |lines|
  {
    if lines != [] {
      var n := |lines| - 1;
      LinesSplit(lines[..n]);
      LineAppended(LineFraming.Flatten(lines[..n]), lines[n]);
      assert lines == lines[..n] + [lines[n]];
    }
  }

  // ---- Any lines ----

  /** The domain after these commands, one after the other. */
  function Performed(d: DomainModel.Domain, client: U32, cs: seq<IpcSession.Command>): DomainModel.Domain {
    if cs == [] then d
    else IpcSession.Execute(Performed(d, client, cs[..|cs| - 1]), client, cs[|cs| - 1])
  }

  /** What command i is answered. */
  function AnswerAt(d: DomainModel.Domain, client: U32, cs: seq<IpcSession.Command>, ids: seq<string>, i: nat):
      IpcStream.Reply
    requires i < |cs| == |ids|
  {
    IpcStream.Answer(IpcSession.Respond(Performed(d, client, cs[..i]), client, cs[i]), Some(ids[i]))
  }

  function AcceptedLines(cs: seq<IpcSession.Command>, ids: seq<string>): (ds: seq<JsonCommand.Decoded>)
    requires |cs| == |ids|
    ensures |ds| == |cs|
  {
    seq(|cs|, i requires 0 <= i < |cs| => JsonCommand.Accepted(cs[i], Some(ids[i])))
  }

  lemma AnswersPrefix(d: DomainModel.Domain, client: U32, cs: seq<IpcSession.Command>, ids: seq<string>, k: nat, i: nat)
    requires i < k <= |cs| == |ids|
    ensures AnswerAt(d, client, cs[..k], ids[..k], i) == AnswerAt(d, client, cs, ids, i)
  {
    assert cs[..k][..i] == cs[..i];
  }

  /** The replies answer the commands, each in its turn. */
  predicate Answers(d: DomainModel.Domain, client: U32, cs: seq<IpcSession.Command>, ids: seq<string>,
      replies: seq<IpcStream.Reply>)
  {
    |replies| == |cs| == |ids| && forall i :: 0 <= i < |cs| ==> replies[i] == AnswerAt(d, client, cs, ids, i)
  }

  lemma AnswersJoin(d: DomainModel.Domain, client: U32, cs: seq<IpcSession.Command>, ids: seq<string>,
      replies: seq<IpcStream.Reply>)
    requires cs != [] && |cs| == |ids| && Answers(d, client, cs[..|cs| - 1], ids[..|cs| - 1], replies)
    ensures Answers(d, client, cs, ids, replies + [AnswerAt(d, client, cs, ids, |cs| - 1)])
  {
    forall i | 0 <= i < |cs| - 1 ensures replies[i] == AnswerAt(d, client, cs, ids, i) {
      AnswersPrefix(d, client, cs, ids, |cs| - 1, i);
    }
  }

  lemma {:induction false} AllAreDone(d: DomainModel.Domain, client: U32, cs: seq<IpcSession.Command>, ids: seq<string>)
    requires |cs| == |ids|
    ensures IpcStream.DoAll(d, client, AcceptedLines(cs, ids)) == Performed(d, client, cs)
    ensures Answers(d, client, cs, ids, IpcStream.Replies(d, client, AcceptedLines(cs, ids)))
    decreases |cs|
  {
    if cs != [] {
      var n := |cs| - 1;
      var before, last := AcceptedLines(cs[..n], ids[..n]), JsonCommand.Accepted(cs[n], Some(ids[n]));
      AllAreDone(d, client, cs[..n], ids[..n]);
      assert AcceptedLines(cs, ids) == before + [last];
      IpcStream.LinesSnoc(d, client, before, last);
      AnswersJoin(d, client, cs, ids, IpcStream.Replies(d, client, before));
    }
  }

  /** Lines of legal length that decode to these commands. */
  predicate AllDecode(lines: seq<seq<U8>>, cs: seq<IpcSession.Command>, ids: seq<string>, ulongMax: nat) {
    |cs| == |ids| && IpcStream.DecodedLines(lines, ulongMax) == AcceptedLines(cs, ids) && AllFit(lines)
  }

  /** For every list of lines of legal length that decode to commands, however their bytes are split across
      polls: once they are read, with the connection still there, the domain is that of the commands
      performed in order, and each has been answered in its turn. */
  lemma LinesArePerformed(r: IpcSession.Runner, lines: seq<seq<U8>>, cs: seq<IpcSession.Command>, ids: seq<string>,
      polls: seq<IpcStream.Poll>, ulongMax: nat)
    requires r.running && r.hasConnection && AllDecode(lines, cs, ids, ulongMax)
    requires var stream := LineFraming.Flatten(lines);
             var live := IpcStream.Session(r, stream, polls, ulongMax);
             live.reader.pos == |stream| && live.ipc.hasConnection
    ensures var live := IpcStream.Session(r, LineFraming.Flatten(lines), polls, ulongMax);
            && live.ipc.domain == Performed(r.domain, r.connection.client, cs)
            && Answers(r.domain, r.connection.client, cs, ids, live.replies)
  {
    var stream := LineFraming.Flatten(lines);
    LinesSplit(lines);
    IpcStream.SessionsAreFolds(r, stream, polls, ulongMax);
    assert stream[..|stream|] == stream;
    AllAreDone(r.domain, r.connection.client, cs, ids);
  }

  /** A line refused for whatever reason changes nothing, and the client is told the reason, with its own
      request id if it gave a good one. */
  lemma RefusedLineIsHarmless(d: DomainModel.Domain, client: U32, line: seq<U8>, ulongMax: nat,
      why: JsonCommand.Refusal, id: Option<string>)
    requires JsonDecoding.RefusedFor(JsonCommand.ContentsOf(IpcStream.TextOf(line), ulongMax), why, id)
    ensures IpcStream.Do(d, client, IpcStream.Decoded(line, ulongMax)) == d
    ensures IpcStream.ReplyTo(d, client, IpcStream.Decoded(line, ulongMax)) == IpcStream.Refusal(why, id)
  {
    JsonDecoding.RefusedIff(IpcStream.TextOf(line), id, ulongMax, why);
  }

  // ---- Acquire, submit, release ----

  function Commands(client: U32, sequence: U64, s: State): (cs: seq<IpcSession.Command>)
    ensures |cs| == 3
  {
    [IpcSession.AcquireLease, IpcSession.SubmitState(Some(client), s, sequence),
     IpcSession.ReleaseLease(Some(client))]
  }

  const IDS := ["a1", "s1", "r1"]

  /** The lines are what the client prints for acquire, this submission and release. */
  predicate IsScript(lines: seq<seq<U8>>, client: U32, sequence: nat, s: State) {
    && |lines| == 3
    && OneLine(LineOf(ACQUIRE)) && lines[0] == Wire(LineOf(ACQUIRE))
    && OneLine(SubmissionLine(client, sequence, s)) && lines[1] == Wire(SubmissionLine(client, sequence, s))
    && OneLine(LineOf(Release(JsonCommand.OwnerText(client))))
    && lines[2] == Wire(LineOf(Release(JsonCommand.OwnerText(client))))
  }

  lemma ScriptExists(client: U32, sequence: nat, s: State) returns (lines: seq<seq<U8>>)
    requires sequence <= JsonText.I64_MAX
    ensures IsScript(lines, client, sequence, s)
  {
    AcquireIsOneLine();
    SubmissionIsOneLine(client, sequence, s);
    ReleaseIsOneLine(client);
    lines := [Wire(LineOf(ACQUIRE)), Wire(SubmissionLine(client, sequence, s)),
              Wire(LineOf(Release(JsonCommand.OwnerText(client))))];
  }

  lemma AcceptedSnoc(cs: seq<IpcSession.Command>, ids: seq<string>, k: nat)
    requires k < |cs| == |ids|
    ensures AcceptedLines(cs[..k + 1], ids[..k + 1]) ==
            AcceptedLines(cs[..k], ids[..k]) + [JsonCommand.Accepted(cs[k], Some(ids[k]))]
  {
  }

  lemma DecodedNext(lines: seq<seq<U8>>, ulongMax: nat, k: nat, d: JsonCommand.Decoded)
    requires k < |lines| && IpcStream.Decoded(lines[k], ulongMax) == d
    ensures IpcStream.DecodedLines(lines[..k + 1], ulongMax) == IpcStream.DecodedLines(lines[..k], ulongMax) + [d]
  {
    assert lines[..k + 1] == lines[..k] + [lines[k]];
    IpcStream.DecodedSnoc(lines[..k], lines[k], ulongMax);
  }

  lemma FitNext(lines: seq<seq<U8>>, k: nat)
    requires k < |lines| && AllFit(lines[..k]) && LineFraming.IsLine(lines[k]) && |lines[k]| <= 8192
    ensures AllFit(lines[..k + 1])
  {
    assert lines[..k + 1] == lines[..k] + [lines[k]];
  }

  lemma NextDecodes(lines: seq<seq<U8>>, cs: seq<IpcSession.Command>, ids: seq<string>, ulongMax: nat, k: nat)
    requires |lines| == |cs| == |ids| && k < |lines| && AllDecode(lines[..k], cs[..k], ids[..k], ulongMax)
    requires DecodesTo(lines[k], cs[k], ids[k], ulongMax)
    ensures AllDecode(lines[..k + 1], cs[..k + 1], ids[..k + 1], ulongMax)
  {
    AcceptedSnoc(cs, ids, k);
    DecodedNext(lines, ulongMax, k, JsonCommand.Accepted(cs[k], Some(ids[k])));
    FitNext(lines, k);
  }

  lemma {:induction false} ScriptDecodes(
      lines: seq<seq<U8>>, client: U32, sequence: nat, s: State, ulongMax: nat, k: nat)
    requires InRange(s) && sequence <= JsonText.I64_MAX && ulongMax >= 0xFFFF_FFFF && k <= 3
    requires IsScript(lines, client, sequence, s)
    ensures AllDecode(lines[..k], Commands(client, sequence, s)[..k], IDS[..k], ulongMax)
    decreases k
  {
    if k > 0 {
      ScriptDecodes(lines, client, sequence, s, ulongMax, k - 1);
      LineDecodes(lines, client, sequence, s, ulongMax, k - 1);
      NextDecodes(lines, Commands(client, sequence, s), IDS, ulongMax, k - 1);
    }
  }

  lemma LineDecodes(lines: seq<seq<U8>>, client: U32, sequence: nat, s: State, ulongMax: nat, i: nat)
    requires InRange(s) && sequence <= JsonText.I64_MAX && ulongMax >= 0xFFFF_FFFF && i < 3
    requires IsScript(lines, client, sequence, s)
    ensures DecodesTo(lines[i], Commands(client, sequence, s)[i], IDS[i], ulongMax)
  {
    if i == 0 {
      AcquireArrives(ulongMax);
    } else if i == 1 {
      SubmissionArrives(client, sequence, s, ulongMax);
    } else {
      ReleaseArrives(client, ulongMax);
    }
  }

  /** With a free lease, the three commands are answered as acquired, accepted and released. */
  lemma ConversationMeans(d: DomainModel.Domain, client: U32, sequence: U64, s: State)
    requires d.lease == DomainModel.FREE
    ensures var cs := Commands(client, sequence, s);
            var d1 := IpcSession.Execute(d, client, cs[0]);
            var d2 := IpcSession.Execute(d1, client, cs[1]);
            var d3 := IpcSession.Execute(d2, client, cs[2]);
            && IpcSession.Respond(d, client, cs[0]) == IpcSession.Acquired(client)
            && IpcSession.Respond(d1, client, cs[1]) == IpcSession.StateAccepted(sequence)
            && IpcSession.Respond(d2, client, cs[2]) == IpcSession.Released
            && d1.lease == DomainModel.Lease(true, client, 0) && d1.state == d.state
            && d2.lease == DomainModel.Lease(true, client, sequence) && d2.state == s
            && d3.lease == DomainModel.FREE && d3.state == NEUTRAL
  {
    IpcHistory.AcquireMeans(d, client);
    var d1 := IpcSession.Execute(d, client, IpcSession.AcquireLease);
    IpcHistory.SubmitMeans(d1, client, Some(client), s, sequence);
    IpcHistory.ReleaseMeans(IpcSession.Execute(d1, client, IpcSession.SubmitState(Some(client), s, sequence)), client,
        Some(client));
  }

  /** The lease and the state after k of the three commands. */
  predicate Reached(d: DomainModel.Domain, now: DomainModel.Domain, client: U32, sequence: U64, s: State, k: nat) {
    && now.lease == (if k == 0 || k == 3 then DomainModel.Lease(false, 0, 0)
                     else DomainModel.Lease(true, client, if k == 1 then 0 else sequence))
    && now.state == (if k < 2 then d.state else if k == 2 then s else NEUTRAL)
  }

  function ExpectedAnswer(client: U32, sequence: U64, i: nat): IpcSession.Response {
    if i == 0 then IpcSession.Acquired(client)
    else if i == 1 then IpcSession.StateAccepted(sequence)
    else IpcSession.Released
  }

  lemma PerformedPrefixes(d: DomainModel.Domain, client: U32, cs: seq<IpcSession.Command>)
    requires |cs| == 3
    ensures Performed(d, client, cs[..0]) == d
    ensures Performed(d, client, cs[..1]) == IpcSession.Execute(d, client, cs[0])
    ensures Performed(d, client, cs[..2]) == IpcSession.Execute(Performed(d, client, cs[..1]), client, cs[1])
    ensures Performed(d, client, cs[..3]) == IpcSession.Execute(Performed(d, client, cs[..2]), client, cs[2])
  {
    assert cs[..1][..0] == cs[..0] && cs[..2][..1] == cs[..1] && cs[..3][..2] == cs[..2];
  }

  lemma ConversationReaches(d: DomainModel.Domain, client: U32, sequence: U64, s: State, k: nat)
    requires d.lease == DomainModel.FREE && k <= 3
    ensures var cs := Commands(client, sequence, s);
            && Reached(d, Performed(d, client, cs[..k]), client, sequence, s, k)
            && (k < 3 ==> AnswerAt(d, client, cs, IDS, k) ==
                          IpcStream.Answer(ExpectedAnswer(client, sequence, k), Some(IDS[k])))
  {
    ConversationMeans(d, client, sequence, s);
    PerformedPrefixes(d, client, Commands(client, sequence, s));
  }

  /** For every connected client and every schedule of polls, however the bytes are split: if the lease is
      free and the first k lines of acquire, submit and release have been read, with the connection still
      there, the client has been answered acquired, accepted and released as far as it has asked; it
      owns the lease from its first line to its last; and the controller shows its state from the
      second line to the third and is neutral after it. */
  lemma ConversationsWork(r: IpcSession.Runner, lines: seq<seq<U8>>, sequence: nat, s: State,
      polls: seq<IpcStream.Poll>, ulongMax: nat, k: nat)
    requires r.running && r.hasConnection && r.domain.lease == DomainModel.FREE && k <= 3
    requires InRange(s) && sequence <= JsonText.I64_MAX && ulongMax >= 0xFFFF_FFFF
    requires IsScript(lines, r.connection.client, sequence, s)
    requires var stream := LineFraming.Flatten(lines[..k]);
             var live := IpcStream.Session(r, stream, polls, ulongMax);
             live.reader.pos == |stream| && live.ipc.hasConnection
    ensures var live := IpcStream.Session(r, LineFraming.Flatten(lines[..k]), polls, ulongMax);
            && Reached(r.domain, live.ipc.domain, r.connection.client, sequence, s, k)
            && |live.replies| == k
            && forall i :: 0 <= i < k ==>
                 live.replies[i] == IpcStream.Answer(ExpectedAnswer(r.connection.client, sequence, i), Some(IDS[i]))
  {
    var client := r.connection.client;
    var cs := Commands(client, sequence, s);
    ScriptDecodes(lines, client, sequence, s, ulongMax, k);
    LinesArePerformed(r, lines[..k], cs[..k], IDS[..k], polls, ulongMax);
    ConversationReaches(r.domain, client, sequence, s, k);
    forall i | 0 <= i < k
      ensures AnswerAt(r.domain, client, cs[..k], IDS[..k], i) ==
              IpcStream.Answer(ExpectedAnswer(client, sequence, i), Some(IDS[i]))
    {
      ConversationReaches(r.domain, client, sequence, s, i);
      AnswersPrefix(r.domain, client, cs, IDS, k, i);
    }
  }
}
