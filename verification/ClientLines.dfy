/** The lines the debug client sends besides its submissions, what the server makes of them, and whole
    conversations through the byte stream: acquire, submit, release. */
module ClientLines {
  import opened ControllerState
  import opened Options
  import opened JsonScanner
  import opened JsonText
  import opened JsonFields
  import opened JsonCommand
  import opened JsonDecoding
  import DomainModel
  import EndToEnd
  import IpcSession
  import IpcStream
  import LineFraming
  import ProtocolRoundTrip

  // ---- The lines ----

  function Version(): Field {
    Field("v", Number("1"))
  }

  function Typed(kind: string): Field {
    Field("type", Text(kind))
  }

  function Numbered(id: string): Field {
    Field("request_id", Text(id))
  }

  const HELLO: seq<Field> :=
    [Version(), Typed("hello"), Field("client_name", Text("swbt-debug-client")), Numbered("h1")]
  const ACQUIRE: seq<Field> := [Version(), Typed("acquire"), Field("mode", Text("exclusive")), Numbered("a1")]
  const GET_STATUS: seq<Field> := [Version(), Typed("get_status"), Numbered("g1")]

  function Release(owner: string): seq<Field> {
    [Version(), Typed("release"), Field("owner_id", Text(owner)), Numbered("r1")]
  }

  function LineOf(fields: seq<Field>): string {
    Show(Nested(fields)) + "\n"
  }

  lemma MembersCons(f: Field, more: seq<Field>)
    requires more != []
    ensures Members([f] + more) == Quoted(f.key) + Show(f.value) + "," + Members(more)
  {
    var fields := [f] + more;
    assert fields[1..] == more && Tail(fields) == "," + Members(more);
    assert Shown(fields) == Show(f.value) + ("," + Members(more));
    assert Quoted(f.key) + (Show(f.value) + ("," + Members(more))) ==
           Quoted(f.key) + Show(f.value) + "," + Members(more);
  }

  lemma TextMember(key: string, text: string, more: string)
    ensures Quoted(key) + Show(Text(text)) + "," + more == "\"" + key + "\":\"" + text + "\"," + more
  {
    assert Quoted(key) + Show(Text(text)) == "\"" + key + "\":\"" + text + "\"";
    assert Quoted(key) + Show(Text(text)) + "," == "\"" + key + "\":\"" + text + "\",";
  }

  lemma LastMember(id: string)
    ensures Members([Numbered(id)]) == "\"request_id\":\"" + id + "\""
  {
    var fields := [Numbered(id)];
    assert Tail(fields) == [] && Shown(fields) == "\"" + id + "\"" + [];
    assert Quoted("request_id") == "\"request_id\":";
  }

  lemma TextThen(key: string, text: string, more: seq<Field>, head: string)
    requires more != [] && head == "\"" + key + "\":\"" + text + "\","
    ensures Members([Field(key, Text(text))] + more) == head + Members(more)
  {
    MembersCons(Field(key, Text(text)), more);
    TextMember(key, text, Members(more));
  }

  lemma AcquireTail(last: seq<Field>)
    requires last != []
    ensures Members([Typed("acquire")] + ([Field("mode", Text("exclusive"))] + last)) ==
            "\"type\":\"acquire\"," + ("\"mode\":\"exclusive\"," + Members(last))
  {
    TextThen("mode", "exclusive", last, "\"mode\":\"exclusive\",");
    TextThen("type", "acquire", [Field("mode", Text("exclusive"))] + last, "\"type\":\"acquire\",");
  }

  /** The printed fields are the client's literal text. */
  lemma AcquireText()
    ensures LineOf(ACQUIRE) ==
            "{" + ("\"v\":1," + ("\"type\":\"acquire\"," + ("\"mode\":\"exclusive\"," +
                   "\"request_id\":\"a1\""))) + "}\n"
  {
    var more := [Typed("acquire")] + ([Field("mode", Text("exclusive"))] + [Numbered("a1")]);
    LastMember("a1");
    AcquireTail([Numbered("a1")]);
    MembersCons(Version(), more);
    assert Quoted("v") + "1" + "," == "\"v\":1,";
    assert ACQUIRE == [Version()] + more;
  }

  // ---- Headers ----

  predicate OtherKey(key: string) {
    key != "v" && key != "type" && key != "request_id" && |key| <= 20
  }

  predicate ShortText(v: Value) {
    v.Text? && Plain(v.text) && |v.text| <= 20
  }

  /** A list of fields with version 1, this type, perhaps one argument, and this request id. */
  predicate Headed(fields: seq<Field>, kind: string, id: string) {
    && 3 <= |fields| <= 4
    && fields[0] == Version() && fields[1] == Typed(kind) && fields[|fields| - 1] == Numbered(id)
    && Printable(kind) && Printable(id) && |kind| <= 20 && |id| <= 20
    && (|fields| == 4 ==> OtherKey(fields[2].key) && Plain(fields[2].key) && ShortText(fields[2].value))
  }

  lemma HeadedIsPrintable(fields: seq<Field>, kind: string, id: string)
    requires Headed(fields, kind, id)
    ensures AllWellFormed(fields) && |Show(Nested(fields))| <= 1000
  {
    forall i | 0 <= i < |fields| ensures |fields[i].key| + |Show(fields[i].value)| <= 42 {
      assert i == 0 || i == 1 || i == 2 || i == |fields| - 1;
    }
    forall i | 0 <= i < |fields| ensures Plain(fields[i].key) && WellFormed(fields[i].value) {
      assert i == 0 || i == 1 || i == 2 || i == |fields| - 1;
    }
    ProtocolRoundTrip.MembersLength(fields, 42);
  }

  lemma HeadedKeysDiffer(fields: seq<Field>, kind: string, id: string, i: nat, j: nat)
    requires Headed(fields, kind, id) && i < j < |fields|
    ensures fields[i].key != fields[j].key
  {
    assert |"v"| == 1 && |"type"| == 4 && |"request_id"| == 10;
  }

  lemma HeadedVersion(fields: seq<Field>, kind: string, id: string)
    requires Headed(fields, kind, id) && AllWellFormed(fields)
    ensures GetI64(LineOf(fields), "v") == Good(1)
  {
    assert Signed(1) == "1";
    ReadNumberField(fields, 0, "\n", 1);
  }

  lemma HeadedText(fields: seq<Field>, kind: string, id: string, i: nat)
    requires Headed(fields, kind, id) && AllWellFormed(fields) && i < |fields|
    requires fields[i].value.Text? && Printable(fields[i].value.text) && |fields[i].value.text| <= 20
    ensures GetString(LineOf(fields), fields[i].key) == Good(fields[i].value.text)
  {
    forall j | 0 <= j < i ensures fields[j].key != fields[i].key {
      HeadedKeysDiffer(fields, kind, id, j, i);
    }
    ReadStringField(fields, i, "\n");
  }

  lemma HeadedIsAddressed(fields: seq<Field>, kind: string, id: string)
    requires Headed(fields, kind, id)
    ensures Addressed(LineOf(fields), Some(id)) && GetString(LineOf(fields), "type") == Good(kind)
  {
    HeadedIsPrintable(fields, kind, id);
    PrintedIsComplete(fields);
    HeadedVersion(fields, kind, id);
    HeadedNames(fields, kind, id);
  }

  lemma HeadedNames(fields: seq<Field>, kind: string, id: string)
    requires Headed(fields, kind, id) && AllWellFormed(fields)
    ensures GetString(LineOf(fields), "type") == Good(kind) && GetString(LineOf(fields), "request_id") == Good(id)
  {
    HeadedText(fields, kind, id, 1);
    HeadedText(fields, kind, id, |fields| - 1);
  }

  lemma HeadedDecodes(fields: seq<Field>, kind: string, id: string, ulongMax: nat, c: IpcSession.Command)
    requires Headed(fields, kind, id) && TypeOf(c) == kind && ArgumentsAre(LineOf(fields), c, ulongMax)
    ensures DecodeCommand(LineOf(fields), ulongMax) == Accepted(c, Some(id))
  {
    HeadedIsAddressed(fields, kind, id);
    DecodesIff(LineOf(fields), Some(id), ulongMax, c);
  }

  // ---- What the server decodes ----

  lemma HelloIsHeaded()
    ensures Headed(HELLO, "hello", "h1")
  {
    assert |"client_name"| == 11 && |"v"| == 1 && |"type"| == 4 && |"request_id"| == 10;
  }

  lemma AcquireIsHeaded()
    ensures Headed(ACQUIRE, "acquire", "a1")
  {
    assert "mode"[0] != "type"[0] && |"mode"| == 4 && |"v"| == 1 && |"request_id"| == 10;
  }

  lemma GetStatusIsHeaded()
    ensures Headed(GET_STATUS, "get_status", "g1")
  {
  }

  /** The client's three fixed lines decode to the commands they are named after. */
  lemma HelloDecodes(ulongMax: nat)
    ensures DecodeCommand(LineOf(HELLO), ulongMax) == Accepted(IpcSession.Hello, Some("h1"))
  {
    HelloIsHeaded();
    HeadedDecodes(HELLO, "hello", "h1", ulongMax, IpcSession.Hello);
  }

  lemma AcquireDecodes(ulongMax: nat)
    ensures DecodeCommand(LineOf(ACQUIRE), ulongMax) == Accepted(IpcSession.AcquireLease, Some("a1"))
  {
    AcquireIsHeaded();
    HeadedDecodes(ACQUIRE, "acquire", "a1", ulongMax, IpcSession.AcquireLease);
  }

  lemma GetStatusDecodes(ulongMax: nat)
    ensures DecodeCommand(LineOf(GET_STATUS), ulongMax) == Accepted(IpcSession.GetStatus, Some("g1"))
  {
    GetStatusIsHeaded();
    HeadedDecodes(GET_STATUS, "get_status", "g1", ulongMax, IpcSession.GetStatus);
  }

  lemma ReleaseIsHeaded(client: U32)
    ensures Headed(Release(OwnerText(client)), "release", "r1")
  {
    OwnerRoundTrip(client, 0xFFFF_FFFF);
    assert OtherKey("owner_id") by {
      assert |"owner_id"| == 8 && |"v"| == 1 && |"type"| == 4 && |"request_id"| == 10;
    }
  }

  /** The line with the owner id the client was given decodes to the release of that owner. */
  lemma ReleaseLineDecodes(client: U32, ulongMax: nat)
    requires ulongMax >= 0xFFFF_FFFF
    ensures DecodeCommand(LineOf(Release(OwnerText(client))), ulongMax) ==
            Accepted(IpcSession.ReleaseLease(Some(client)), Some("r1"))
  {
    var fields := Release(OwnerText(client));
    OwnerRoundTrip(client, ulongMax);
    ReleaseIsHeaded(client);
    HeadedIsPrintable(fields, "release", "r1");
    HeadedText(fields, "release", "r1", 2);
    ProtocolRoundTrip.OwnerRead(LineOf(fields), client, ulongMax);
    HeadedDecodes(fields, "release", "r1", ulongMax, IpcSession.ReleaseLease(Some(client)));
  }

  // ---- The lines as bytes ----

  /** Visible characters and a newline. */
  predicate OneLine(t: string) {
    && 0 < |t| <= 8192 && t[|t| - 1] == '\n'
    && forall i :: 0 <= i < |t| - 1 ==> ' ' <= t[i] <= '~'
  }

  function Wire(t: string): (bytes: seq<U8>)
    requires OneLine(t)
  {
    EndToEnd.Bytes(t)
  }

  lemma WireIsLine(t: string)
    requires OneLine(t)
    ensures LineFraming.IsLine(Wire(t)) && IpcStream.TextOf(Wire(t)) == t
  {
    EndToEnd.BytesReadBack(t);
  }

  lemma HeadedIsOneLine(fields: seq<Field>, kind: string, id: string)
    requires Headed(fields, kind, id) && EndToEnd.Ascii(kind) && EndToEnd.Ascii(id)
    requires |fields| == 4 ==> EndToEnd.Ascii(fields[2].key) && EndToEnd.Ascii(fields[2].value.text)
    ensures OneLine(LineOf(fields))
  {
    HeadedIsPrintable(fields, kind, id);
    forall i | 0 <= i < |fields| ensures EndToEnd.AsciiField(fields[i]) {
      assert i == 0 || i == 1 || i == 2 || i == |fields| - 1;
    }
    EndToEnd.MembersAscii(fields);
  }

  // ---- The lines of a conversation ----

  /** A line of legal length that decodes to this command with this request id. */
  predicate DecodesTo(line: seq<U8>, c: IpcSession.Command, id: string, ulongMax: nat) {
    && LineFraming.IsLine(line) && |line| <= 8192
    && IpcStream.Decoded(line, ulongMax) == Accepted(c, Some(id))
  }

  lemma WireDecodes(t: string, ulongMax: nat, c: IpcSession.Command, id: string)
    requires OneLine(t) && DecodeCommand(t, ulongMax) == Accepted(c, Some(id))
    ensures DecodesTo(Wire(t), c, id, ulongMax)
  {
    WireIsLine(t);
  }

  lemma AcquireIsOneLine()
    ensures OneLine(LineOf(ACQUIRE))
  {
    AcquireIsHeaded();
    HeadedIsOneLine(ACQUIRE, "acquire", "a1");
  }

  lemma ReleaseIsOneLine(client: U32)
    ensures OneLine(LineOf(Release(OwnerText(client))))
  {
    ReleaseIsHeaded(client);
    EndToEnd.OwnerAscii(client);
    HeadedIsOneLine(Release(OwnerText(client)), "release", "r1");
  }

  /** The client's submission, as a text. */
  function SubmissionLine(client: U32, sequence: nat, s: State): string {
    LineOf(ProtocolRoundTrip.SetStateFields(OwnerText(client), sequence, s))
  }

  lemma SubmissionIsOneLine(client: U32, sequence: nat, s: State)
    requires sequence <= I64_MAX
    ensures OneLine(SubmissionLine(client, sequence, s))
  {
    EndToEnd.LineAscii(client, sequence, s);
    ProtocolRoundTrip.LineFits(OwnerText(client), sequence, s);
  }

  lemma SubmissionDecodes(client: U32, sequence: nat, s: State, ulongMax: nat)
    requires InRange(s) && sequence <= I64_MAX && ulongMax >= 0xFFFF_FFFF
    ensures DecodeCommand(SubmissionLine(client, sequence, s), ulongMax) ==
            Accepted(IpcSession.SubmitState(Some(client), s, sequence), Some("s1"))
  {
    ProtocolRoundTrip.DecodePrinted(client, sequence, s, ulongMax);
  }

  // ---- The lines as the server gets them ----

  lemma AcquireArrives(ulongMax: nat)
    ensures OneLine(LineOf(ACQUIRE)) && DecodesTo(Wire(LineOf(ACQUIRE)), IpcSession.AcquireLease, "a1", ulongMax)
  {
    AcquireIsOneLine();
    AcquireDecodes(ulongMax);
    WireDecodes(LineOf(ACQUIRE), ulongMax, IpcSession.AcquireLease, "a1");
  }

  lemma SubmissionArrives(client: U32, sequence: nat, s: State, ulongMax: nat)
    requires InRange(s) && sequence <= I64_MAX && ulongMax >= 0xFFFF_FFFF
    ensures OneLine(SubmissionLine(client, sequence, s))
    ensures DecodesTo(Wire(SubmissionLine(client, sequence, s)),
        IpcSession.SubmitState(Some(client), s, sequence), "s1", ulongMax)
  {
    SubmissionIsOneLine(client, sequence, s);
    SubmissionDecodes(client, sequence, s, ulongMax);
    WireDecodes(SubmissionLine(client, sequence, s), ulongMax, IpcSession.SubmitState(Some(client), s, sequence), "s1");
  }

  lemma ReleaseArrives(client: U32, ulongMax: nat)
    requires ulongMax >= 0xFFFF_FFFF
    ensures OneLine(LineOf(Release(OwnerText(client))))
    ensures DecodesTo(Wire(LineOf(Release(OwnerText(client)))), IpcSession.ReleaseLease(Some(client)), "r1", ulongMax)
  {
    ReleaseIsOneLine(client);
    ReleaseLineDecodes(client, ulongMax);
    WireDecodes(LineOf(Release(OwnerText(client))), ulongMax, IpcSession.ReleaseLease(Some(client)), "r1");
  }
}
