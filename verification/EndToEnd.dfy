/** One submission all the way: printed by the client, cut out of the byte stream however it is
    split, decoded, accepted by the domain and shown in the next report. */
module EndToEnd {
  import opened ControllerState
  import opened Options
  import opened JsonText
  import opened JsonFields
  import opened JsonCommand
  import opened ProtocolRoundTrip
  import DomainModel
  import InputReport
  import IpcSession
  import IpcStream
  import LineFraming

  // ---- Printed text is ASCII on one line ----

  predicate Ascii(t: string) {
    forall i :: 0 <= i < |t| ==> ' ' <= t[i] <= '~'
  }

  predicate AsciiField(f: Field) {
    Ascii(f.key) && Ascii(Show(f.value))
  }

  lemma {:induction false} MembersAscii(fields: seq<Field>)
    requires forall i :: 0 <= i < |fields| ==> AsciiField(fields[i])
    ensures Ascii(Members(fields))
    decreases |fields|
  {
    if fields != [] {
      assert AsciiField(fields[0]);
      MembersAscii(fields[1..]);
      assert Ascii(Tail(fields));
      assert Ascii(Shown(fields)) && Ascii(Quoted(fields[0].key));
    }
  }

  lemma SignedAscii(v: int)
    ensures Ascii(Signed(v))
  {
    SignedIsNumber(v);
    forall i | 0 <= i < |Signed(v)| ensures ' ' <= Signed(v)[i] <= '~' {
      assert NumberChar(Signed(v)[i]);
    }
  }

  lemma StateAscii(s: State)
    ensures Ascii(Show(Nested(StateFields(s))))
  {
    var fields := StateFields(s);
    forall i | 0 <= i < 11 ensures AsciiField(fields[i]) {
      SignedAscii(StateValues(s)[i]);
      assert Ascii(STATE_KEYS[i]);
    }
    MembersAscii(fields);
  }

  lemma OwnerAscii(client: U32)
    ensures Ascii(OwnerText(client))
  {
    assert Pow16(8) == 0x1_0000_0000 by {
      assert Pow16(4) == 0x1_0000;
    }
    HexDigits(client, 8);
    forall i | 0 <= i < 8 ensures ' ' <= OwnerText(client)[i] <= '~' {
      assert InBase(OwnerText(client)[i], 16);
    }
  }

  lemma LineAscii(client: U32, sequence: nat, s: State)
    ensures Ascii(Show(Nested(SetStateFields(OwnerText(client), sequence, s))))
  {
    var fields := SetStateFields(OwnerText(client), sequence, s);
    OwnerAscii(client);
    SignedAscii(sequence);
    StateAscii(s);
    forall i | 0 <= i < 6 ensures AsciiField(fields[i]) {
      assert Ascii("v") && Ascii("type") && Ascii("owner_id") && Ascii("seq") && Ascii("request_id") && Ascii("state");
      assert Ascii("1") && Ascii("\"set_state\"") && Ascii("\"s1\"");
    }
    MembersAscii(fields);
  }

  // ---- Text and bytes ----

  function Bytes(t: string): (bytes: seq<U8>)
    requires forall i :: 0 <= i < |t| ==> t[i] <= '~'
    ensures |bytes| == |t|
  {
    seq<U8>(|t|, i requires 0 <= i < |t| => t[i] as int)
  }

  /** The decoder sees the text that was sent. */
  lemma {:induction false} BytesReadBack(t: string)
    requires forall i :: 0 <= i < |t| ==> '\0' < t[i] <= '~'
    ensures IpcStream.TextOf(Bytes(t)) == t
    decreases |t|
  {
    if t != [] {
      BytesReadBack(t[1..]);
      assert Bytes(t)[1..] == Bytes(t[1..]);
      assert [Bytes(t)[0] as char] == [t[0]];
    }
  }

  /** A text of visible characters with a newline at its end is one line. */
  lemma {:induction false} VisibleIsRest(bytes: seq<U8>, n: nat)
    requires n <= |bytes| && forall i :: 0 <= i < n ==> bytes[i] != LineFraming.NEWLINE
    ensures LineFraming.Split(bytes[..n]) == ([], bytes[..n])
    decreases n
  {
    if n > 0 {
      VisibleIsRest(bytes, n - 1);
      assert bytes[..n] == bytes[..n - 1] + [bytes[n - 1]];
      LineFraming.SplitSnoc(bytes[..n - 1], bytes[n - 1]);
    }
  }

  /** However such a text is split across polls, once all of it is read it is the one line
      delivered. */
  lemma OneLineArrives(bytes: seq<U8>, limits: seq<nat>)
    requires 0 < |bytes| <= LineFraming.LINE_MAX && bytes[|bytes| - 1] == LineFraming.NEWLINE
    requires forall i :: 0 <= i < |bytes| - 1 ==> bytes[i] != LineFraming.NEWLINE
    requires LineFraming.Polls(bytes, limits).pos == |bytes|
    ensures LineFraming.Polls(bytes, limits) == LineFraming.Reader(|bytes|, [], [bytes], false)
  {
    LineFraming.LinesAreThePieces(bytes, limits);
    assert bytes[..|bytes|] == bytes;
    OneLineSplits(bytes);
    OneLineFits(bytes);
  }

  lemma OneLineSplits(bytes: seq<U8>)
    requires bytes != [] && bytes[|bytes| - 1] == LineFraming.NEWLINE
    requires forall i :: 0 <= i < |bytes| - 1 ==> bytes[i] != LineFraming.NEWLINE
    ensures LineFraming.Split(bytes) == ([bytes], [])
  {
    var head := bytes[..|bytes| - 1];
    VisibleIsRest(bytes, |bytes| - 1);
    LineFraming.SplitSnoc(head, LineFraming.NEWLINE);
    assert head + [LineFraming.NEWLINE] == bytes;
    var none: seq<seq<U8>> := [];
    assert none + [bytes] == [bytes];
  }

  lemma OneLineFits(bytes: seq<U8>)
    requires |bytes| <= LineFraming.LINE_MAX
    requires forall i :: 0 <= i < |bytes| - 1 ==> bytes[i] != LineFraming.NEWLINE
    ensures !LineFraming.Overlong(bytes)
  {
    if LineFraming.Overlong(bytes) {
      var k :| 0 <= k < |bytes| && |LineFraming.Split(bytes[..k]).1| >= LineFraming.LINE_MAX;
      VisibleIsRest(bytes, k);
      assert false;
    }
  }

  // ---- The whole way ----

  lemma AcceptedAndShown(d: DomainModel.Domain, client: U32, sequence: U64, s: State,
      options: InputReport.ReportOptions, frame: nat)
    requires InRange(s) && frame < 3
    requires DomainModel.Owns(d.lease, client) && d.lease.lastSequence <= sequence
    ensures var c := IpcSession.SubmitState(Some(client), s, sequence);
            var after := IpcSession.Execute(d, client, c);
            && IpcSession.Respond(d, client, c) == IpcSession.StateAccepted(sequence)
            && after.state == s && after.lease.lastSequence == sequence
            && InputReport.ReadReport(InputReport.FullReport(after.state, options), frame) == Some(s)
  {
    InputReport.ReadFullReport(s, options, frame);
    InputReport.TransmittedInRange(s);
  }

  /** The bytes of the line a client prints with the owner id it was given. */
  function SentBytes(client: U32, sequence: nat, s: State): (bytes: seq<U8>)
    requires Ascii(Show(Nested(SetStateFields(OwnerText(client), sequence, s))))
  {
    Bytes(Show(Nested(SetStateFields(OwnerText(client), sequence, s))) + "\n")
  }

  lemma SentReadsBack(client: U32, sequence: nat, s: State)
    requires Ascii(Show(Nested(SetStateFields(OwnerText(client), sequence, s))))
    ensures IpcStream.TextOf(SentBytes(client, sequence, s)) ==
            Show(Nested(SetStateFields(OwnerText(client), sequence, s))) + "\n"
  {
    BytesReadBack(Show(Nested(SetStateFields(OwnerText(client), sequence, s))) + "\n");
  }

  /** An owner's submission that is not stale: once its bytes are read, in whatever portions,
      exactly its line has been delivered; it decodes to the submission, the domain accepts it,
      and every report made from the domain then reads back as exactly the submitted state. */
  lemma SubmissionsAreShown(d: DomainModel.Domain, client: U32, sequence: nat, s: State, limits: seq<nat>,
                            ulongMax: nat, options: InputReport.ReportOptions, frame: nat)
    requires InRange(s) && sequence <= I64_MAX && ulongMax >= 0xFFFF_FFFF && frame < 3
    requires DomainModel.Owns(d.lease, client) && d.lease.lastSequence <= sequence
    ensures Ascii(Show(Nested(SetStateFields(OwnerText(client), sequence, s))))
    ensures var bytes := SentBytes(client, sequence, s);
            LineFraming.Polls(bytes, limits).pos == |bytes| ==>
              && LineFraming.Polls(bytes, limits) == LineFraming.Reader(|bytes|, [], [bytes], false)
              && var decoded := IpcStream.Decoded(bytes, ulongMax);
                 decoded.Accepted? &&
                 var after := IpcSession.Execute(d, client, decoded.command);
                 && IpcSession.Respond(d, client, decoded.command) == IpcSession.StateAccepted(sequence)
                 && after.state == s
                 && InputReport.ReadReport(InputReport.FullReport(after.state, options), frame) == Some(s)
  {
    LineAscii(client, sequence, s);
    SentReadsBack(client, sequence, s);
    var text := Show(Nested(SetStateFields(OwnerText(client), sequence, s)));
    var bytes := SentBytes(client, sequence, s);
    LineFits(OwnerText(client), sequence, s);
    DecodePrinted(client, sequence, s, ulongMax);
    AcceptedAndShown(d, client, sequence, s, options, frame);
    if LineFraming.Polls(bytes, limits).pos == |bytes| {
      forall i | 0 <= i < |bytes| - 1 ensures bytes[i] != LineFraming.NEWLINE {
        assert (text + "\n")[i] == text[i];
      }
      OneLineArrives(bytes, limits);
    }
  }
}
