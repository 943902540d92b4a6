/** The protocol from end to end: the owner id in the server's acquired response, as the debug
    client cuts it out and prints it into its set_state line, and what the server makes of that
    line. */
module ProtocolRoundTrip {
  import opened ControllerState
  import opened Options
  import opened JsonScanner
  import opened JsonText
  import opened JsonFields
  import opened JsonCommand
  import JsonDecoding
  import IpcSession
  import DomainModel

  const RESPONSE_MAX := 2048
  const REQUEST_SIZE := LINE_MAX
  const OWNER_BUFFER := 9

  // ---- The client's printer ----

  const STATE_KEYS := ["buttons", "lx", "ly", "rx", "ry", "accel_x", "accel_y", "accel_z", "gyro_x", "gyro_y", "gyro_z"]

  function StateValues(s: State): (vs: seq<int>)
    ensures |vs| == 11
  {
    [s.buttons, s.lx, s.ly, s.rx, s.ry, s.accelX, s.accelY, s.accelZ, s.gyroX, s.gyroY, s.gyroZ]
  }

  function StateFields(s: State): (fields: seq<Field>)
    ensures |fields| == 11
  {
    seq(11, i requires 0 <= i < 11 => Field(STATE_KEYS[i], Number(Signed(StateValues(s)[i]))))
  }

  function SetStateFields(owner: string, sequence: nat, s: State): seq<Field> {
    [Field("v", Number("1")), Field("type", Text("set_state")), Field("owner_id", Text(owner)),
     Field("seq", Number(Signed(sequence))), Field("request_id", Text("s1")), Field("state", Nested(StateFields(s)))]
  }

  /** The line the client sends, if it fits its request buffer. */
  function PrintSetState(owner: string, sequence: nat, s: State): Option<string> {
    var line := Show(Nested(SetStateFields(owner, sequence, s))) + "\n";
    if |line| >= REQUEST_SIZE then None else Some(line)
  }

  lemma StateKeysDiffer(i: nat, j: nat)
    requires i < j < 11
    ensures STATE_KEYS[i] != STATE_KEYS[j]
  {
    var a, b := STATE_KEYS[i], STATE_KEYS[j];
    if |a| == |b| {
      assert a[0] != b[0] || a[1] != b[1] || a[|a| - 1] != b[|b| - 1];
    }
  }

  lemma StateFieldsWellFormed(s: State)
    ensures AllWellFormed(StateFields(s))
  {
    forall i | 0 <= i < 11 ensures Plain(StateFields(s)[i].key) && WellFormed(StateFields(s)[i].value) {
      SignedIsNumber(StateValues(s)[i]);
    }
  }

  predicate FieldRead(json: string, s: State, i: nat)
    requires i < 11
  {
    GetI64(json, STATE_KEYS[i]) == Good(StateValues(s)[i])
  }

  /** Each field of the printed state reads back, whatever comes behind it. */
  lemma ReadStateField(s: State, i: nat, rest: string)
    requires i < 11
    ensures FieldRead(Show(Nested(StateFields(s))) + rest, s, i)
  {
    var fields := StateFields(s);
    StateFieldsWellFormed(s);
    forall j | 0 <= j < i ensures fields[j].key != fields[i].key {
      StateKeysDiffer(j, i);
    }
    ReadNumberField(fields, i, rest, StateValues(s)[i]);
  }

  lemma AllFieldsRead(json: string, s: State)
    requires forall i :: 0 <= i < 11 ==> FieldRead(json, s, i)
    ensures ReadFields(json) == GoodReadings(s)
  {
    assert FieldRead(json, s, 0) && FieldRead(json, s, 1) && FieldRead(json, s, 2) && FieldRead(json, s, 3) &&
        FieldRead(json, s, 4);
    assert FieldRead(json, s, 5) && FieldRead(json, s, 6) && FieldRead(json, s, 7);
    assert FieldRead(json, s, 8) && FieldRead(json, s, 9) && FieldRead(json, s, 10);
  }

  lemma ParsePrintedState(s: State, rest: string)
    requires InRange(s)
    ensures ParseFields(Show(Nested(StateFields(s))) + rest) == Some(s)
  {
    var json := Show(Nested(StateFields(s))) + rest;
    forall i | 0 <= i < 11 ensures FieldRead(json, s, i) {
      ReadStateField(s, i, rest);
    }
    AllFieldsRead(json, s);
    ParsesIff(json, s);
  }

  // ---- The server's reading of the line ----

  lemma SetStateWellFormed(owner: string, sequence: nat, s: State)
    requires Plain(owner)
    ensures AllWellFormed(SetStateFields(owner, sequence, s))
  {
    var fields := SetStateFields(owner, sequence, s);
    StateFieldsWellFormed(s);
    SignedIsNumber(sequence);
    forall i | 0 <= i < 6 ensures Plain(fields[i].key) && WellFormed(fields[i].value) {
      assert WellFormed(Number("1")) && WellFormed(Text("set_state")) && WellFormed(Text("s1"));
    }
  }

  lemma SetStateKeysDiffer(owner: string, sequence: nat, s: State, i: nat, j: nat)
    requires i < j < 6
    ensures SetStateFields(owner, sequence, s)[i].key != SetStateFields(owner, sequence, s)[j].key
  {
    var fields := SetStateFields(owner, sequence, s);
    assert |fields[i].key| != |fields[j].key|;
  }

  /** The header fields of the line. */
  predicate KindIs(line: string) {
    GetI64(line, "v") == Good(1) && GetString(line, "type") == Good("set_state")
  }

  predicate SenderIs(line: string, owner: string, sequence: nat) {
    && GetString(line, "owner_id") == Good(owner) && GetI64(line, "seq") == Good(sequence)
    && GetString(line, "request_id") == Good("s1")
  }

  lemma ReadNumberOf(owner: string, sequence: nat, s: State, i: nat, key: string, v: int)
    requires Plain(owner) && i < 6 && I64_MIN <= v <= I64_MAX
    requires SetStateFields(owner, sequence, s)[i] == Field(key, Number(Signed(v)))
    ensures GetI64(Show(Nested(SetStateFields(owner, sequence, s))) + "\n", key) == Good(v)
  {
    var fields := SetStateFields(owner, sequence, s);
    SetStateWellFormed(owner, sequence, s);
    forall j | 0 <= j < i ensures fields[j].key != fields[i].key {
      SetStateKeysDiffer(owner, sequence, s, j, i);
    }
    ReadNumberField(fields, i, "\n", v);
  }

  lemma ReadTextOf(owner: string, sequence: nat, s: State, i: nat, key: string, text: string)
    requires Plain(owner) && i < 6 && Printable(text) && |text| < STRING_MAX
    requires SetStateFields(owner, sequence, s)[i] == Field(key, Text(text))
    ensures GetString(Show(Nested(SetStateFields(owner, sequence, s))) + "\n", key) == Good(text)
  {
    var fields := SetStateFields(owner, sequence, s);
    SetStateWellFormed(owner, sequence, s);
    forall j | 0 <= j < i ensures fields[j].key != fields[i].key {
      SetStateKeysDiffer(owner, sequence, s, j, i);
    }
    ReadStringField(fields, i, "\n");
  }

  lemma ReadKind(owner: string, sequence: nat, s: State)
    requires Plain(owner)
    ensures KindIs(Show(Nested(SetStateFields(owner, sequence, s))) + "\n")
  {
    ReadVersion(owner, sequence, s);
    ReadTextOf(owner, sequence, s, 1, "type", "set_state");
  }

  lemma ReadVersion(owner: string, sequence: nat, s: State)
    requires Plain(owner)
    ensures GetI64(Show(Nested(SetStateFields(owner, sequence, s))) + "\n", "v") == Good(1)
  {
    assert Signed(1) == "1";
    ReadNumberOf(owner, sequence, s, 0, "v", 1);
  }

  lemma ReadSender(owner: string, sequence: nat, s: State)
    requires Plain(owner) && Printable(owner) && |owner| < STRING_MAX && sequence <= I64_MAX
    ensures SenderIs(Show(Nested(SetStateFields(owner, sequence, s))) + "\n", owner, sequence)
  {
    ReadTextOf(owner, sequence, s, 2, "owner_id", owner);
    ReadNumberOf(owner, sequence, s, 3, "seq", sequence);
    ReadTextOf(owner, sequence, s, 4, "request_id", "s1");
  }

  lemma ReadState(owner: string, sequence: nat, s: State)
    requires Plain(owner) && InRange(s)
    ensures ParseState(Show(Nested(SetStateFields(owner, sequence, s))) + "\n") == Some(s)
  {
    var fields := SetStateFields(owner, sequence, s);
    SetStateWellFormed(owner, sequence, s);
    forall j | 0 <= j < 5 ensures fields[j].key != fields[5].key {
      SetStateKeysDiffer(owner, sequence, s, j, 5);
    }
    PrintedKeysLead(fields, 5, "\n");
    ParsePrintedState(s, Tail(fields[5..]) + ("}" + "\n"));
  }

  // ---- Lengths ----

  lemma {:induction false} MembersLength(fields: seq<Field>, most: nat)
    requires forall i :: 0 <= i < |fields| ==> |fields[i].key| + |Show(fields[i].value)| <= most
    ensures |Members(fields)| <= |fields| * (most + 4)
    decreases |fields|
  {
    if fields != [] {
      var f := fields[0];
      MembersLength(fields[1..], most);
      assert |f.key| + |Show(f.value)| <= most;
      assert |Members(fields)| == |Quoted(f.key)| + |Show(f.value)| + |Tail(fields)|;
      assert |fields| * (most + 4) == (|fields| - 1) * (most + 4) + most + 4;
    }
  }

  function Pow10(n: nat): nat {
    if n == 0 then 1 else 10 * Pow10(n - 1)
  }

  lemma {:induction false} DecimalLength(n: nat, digits: nat)
    requires digits > 0 && n < Pow10(digits)
    ensures |Decimal(n)| <= digits
    decreases digits
  {
    if n >= 10 {
      DecimalLength(n / 10, digits - 1);
    }
  }

  lemma SignedLength(v: int)
    requires I64_MIN <= v <= I64_MAX
    ensures |Signed(v)| <= 20
  {
    assert Pow10(5) == 100_000;
    assert Pow10(10) == 100_000 * Pow10(5) by {
      assert Pow10(7) == 10_000_000;
    }
    assert Pow10(15) == 100_000 * Pow10(10) by {
      assert Pow10(12) == 100 * Pow10(10);
    }
    assert Pow10(19) == 10_000 * Pow10(15);
    DecimalLength(if v < 0 then -v else v, 19);
  }

  lemma StateLength(s: State)
    ensures |Show(Nested(StateFields(s)))| <= 400
  {
    var fields := StateFields(s);
    forall i | 0 <= i < |fields| ensures |fields[i].key| + |Show(fields[i].value)| <= 27 {
      SignedLength(StateValues(s)[i]);
      assert |STATE_KEYS[i]| <= 7;
    }
    MembersLength(fields, 27);
  }

  /** The line always fits the client's request buffer and the server's line buffer. */
  lemma LineFits(owner: string, sequence: nat, s: State)
    requires |owner| == OWNER_HEX_SIZE && sequence <= I64_MAX
    ensures |Show(Nested(SetStateFields(owner, sequence, s)))| + 1 < 8192 == REQUEST_SIZE
  {
    var fields := SetStateFields(owner, sequence, s);
    StateLength(s);
    SignedLength(sequence);
    forall i | 0 <= i < |fields| ensures |fields[i].key| + |Show(fields[i].value)| <= 405 {
    }
    MembersLength(fields, 405);
  }

  lemma DecodePrinted(client: U32, sequence: nat, s: State, ulongMax: nat)
    requires InRange(s) && sequence <= I64_MAX && ulongMax >= 0xFFFF_FFFF
    ensures var line := PrintSetState(OwnerText(client), sequence, s);
            line.Some? && DecodeCommand(line.value, ulongMax) ==
                          Accepted(IpcSession.SubmitState(Some(client), s, sequence), Some("s1"))
  {
    var owner := OwnerText(client);
    OwnerRoundTrip(client, ulongMax);
    LineFits(owner, sequence, s);
    var fields := SetStateFields(owner, sequence, s);
    SetStateWellFormed(owner, sequence, s);
    PrintedIsComplete(fields);
    ReadKind(owner, sequence, s);
    ReadSender(owner, sequence, s);
    ReadState(owner, sequence, s);
    DecodeRead(Show(Nested(fields)) + "\n", client, sequence, s, ulongMax);
  }

  lemma OwnerRead(line: string, client: U32, ulongMax: nat)
    requires GetString(line, "owner_id") == Good(OwnerText(client)) && ulongMax >= 0xFFFF_FFFF
    ensures OwnerOfLine(line, ulongMax) == Some(client)
  {
    OwnerRoundTrip(client, ulongMax);
  }

  lemma ReadIsAddressed(line: string, owner: string, sequence: nat)
    requires IsComplete(line) && KindIs(line) && SenderIs(line, owner, sequence)
    ensures JsonDecoding.Addressed(line, Some("s1")) && GetString(line, "type") == Good("set_state")
  {
  }

  lemma ReadArguments(line: string, client: U32, sequence: nat, s: State, ulongMax: nat)
    requires SenderIs(line, OwnerText(client), sequence) && ParseState(line) == Some(s)
    requires sequence <= I64_MAX && ulongMax >= 0xFFFF_FFFF
    ensures JsonDecoding.ArgumentsAre(line, IpcSession.SubmitState(Some(client), s, sequence), ulongMax)
  {
    OwnerRead(line, client, ulongMax);
  }

  lemma DecodeRead(line: string, client: U32, sequence: nat, s: State, ulongMax: nat)
    requires IsComplete(line) && KindIs(line) && SenderIs(line, OwnerText(client), sequence) &&
        ParseState(line) == Some(s)
    requires sequence <= I64_MAX && ulongMax >= 0xFFFF_FFFF
    ensures DecodeCommand(line, ulongMax) == Accepted(IpcSession.SubmitState(Some(client), s, sequence), Some("s1"))
  {
    ReadIsAddressed(line, OwnerText(client), sequence);
    ReadArguments(line, client, sequence, s, ulongMax);
    JsonDecoding.DecodesIff(line, Some("s1"), ulongMax, IpcSession.SubmitState(Some(client), s, sequence));
  }

  // ---- The server's response and the client's extractor ----

  function AcquiredFields(client: U32, requestId: Option<string>): seq<Field> {
    var v, kind := Field("v", Number("1")), Field("type", Text("acquired"));
    var owner := Field("owner_id", Text(OwnerText(client)));
    if requestId.Some? then [v, kind, Field("request_id", Text(requestId.value)), owner] else [v, kind, owner]
  }

  /** Refused if the request id could not be written as it is, or the text does not fit. */
  function EncodeAcquired(client: U32, requestId: Option<string>): Option<string> {
    if requestId.Some? && !Printable(requestId.value) then None
    else
      var text := Show(Nested(AcquiredFields(client, requestId))) + "\n";
      if |text| >= RESPONSE_MAX then None else Some(text)
  }

  /** What follows the first occurrence of a pattern: strstr, and a step past the pattern. */
  function After(t: string, pattern: string): Option<string>
    decreases |t|
  {
    if pattern <= t then Some(t[|pattern|..]) else if t == [] then None else After(t[1..], pattern)
  }

  /** strchr. */
  function FirstQuote(t: string): (i: Option<nat>)
    ensures i.Some? ==> i.value < |t|
  {
    if t == [] then None
    else if t[0] == '"' then Some(0)
    else
      var rest := FirstQuote(t[1..]);
      if rest.None? then None else Some(rest.value + 1)
  }

  function Pattern(key: string): string {
    Quoted(key) + "\""
  }

  /** The client's search for a string field: the text between the pattern and the next quote. */
  function ResponseString(response: string, key: string, size: nat): Option<string> {
    if |key| > 59 then None
    else
      var start := After(response, Pattern(key));
      if start.None? then None
      else
        var length := FirstQuote(start.value);
        if length.None? || length.value + 1 > size then None else Some(start.value[..length.value])
  }

  lemma AfterStep(c: char, t: string, key: string)
    requires c != '"'
    ensures After([c] + t, Pattern(key)) == After(t, Pattern(key))
  {
    assert Pattern(key)[0] == '"' && ([c] + t)[0] == c;
    assert ([c] + t)[1..] == t;
  }

  lemma {:induction false} AfterQuiet(t: string, rest: string, key: string)
    requires forall i :: 0 <= i < |t| ==> t[i] != '"'
    ensures After(t + rest, Pattern(key)) == After(rest, Pattern(key))
    decreases |t|
  {
    if t == [] {
      assert t + rest == rest;
    } else {
      AfterQuiet(t[1..], rest, key);
      AfterStep(t[0], t[1..] + rest, key);
      assert t + rest == [t[0]] + (t[1..] + rest);
    }
  }

  /** A quote that closes a string is followed by something no key begins with. */
  lemma AfterClosing(rest: string, key: string)
    requires key != [] && rest != [] && key[0] != rest[0]
    ensures After("\"" + rest, Pattern(key)) == After(rest, Pattern(key))
  {
    var t := "\"" + rest;
    assert Pattern(key)[1] == key[0] && t[1] == rest[0];
    assert t[1..] == rest;
  }

  /** Two plain texts that both end at the next quote are the same. */
  lemma PlainPrefix(a: string, b: string, x: string, y: string)
    requires Plain(a) && Plain(b) && a + "\"" + x <= b + "\"" + y
    ensures a == b && x <= y
  {
    var s, t := a + "\"" + x, b + "\"" + y;
    assert s == t[..|s|];
    assert t[|a|] == s[|a|] == '"';
    assert |b| <= |a|;
    assert s[|b|] == t[|b|] == '"';
    assert |a| <= |b|;
    assert a == s[..|a|] == t[..|a|] == b;
    assert x == s[|a| + 1..] && y == t[|b| + 1..];
  }

  /** A string whose text is not the key, or which is not a key, is passed over. */
  lemma AfterString(t: string, rest: string, key: string)
    requires Plain(t) && Plain(key) && key != [] && rest != [] && key[0] != rest[0]
    requires t != key || rest[0] != ':'
    ensures After("\"" + t + "\"" + rest, Pattern(key)) == After(rest, Pattern(key))
  {
    var s := "\"" + t + "\"" + rest;
    if Pattern(key) <= s {
      var x := ":\"";
      assert Pattern(key)[1..] == key + "\"" + x && s[1..] == t + "\"" + rest;
      assert key + "\"" + x <= t + "\"" + rest;
      PlainPrefix(key, t, x, rest);
    }
    assert s[1..] == t + ("\"" + rest);
    AfterQuiet(t, "\"" + rest, key);
    AfterClosing(rest, key);
  }

  predicate Simple(f: Field) {
    Plain(f.key) && WellFormed(f.value) && !f.value.Nested?
  }

  lemma AfterValue(v: Value, rest: string, key: string)
    requires WellFormed(v) && !v.Nested? && Plain(key) && key != [] && Ends(rest) && key[0] != rest[0]
    ensures After(Show(v) + rest, Pattern(key)) == After(rest, Pattern(key))
  {
    if v.Text? {
      AfterString(v.text, rest, key);
    } else {
      AfterQuiet(v.text, rest, key);
    }
  }

  lemma AfterOther(fields: seq<Field>, rest: string, key: string)
    requires |fields| > 1 && Simple(fields[0]) && fields[0].key != key
    requires Plain(key) && key != [] && 'a' <= key[0] <= 'z'
    ensures After(Members(fields) + rest, Pattern(key)) == After(Members(fields[1..]) + rest, Pattern(key))
  {
    var f, more := fields[0], Members(fields[1..]) + rest;
    var value := Show(f.value) + ([','] + more);
    assert Shown(fields) + rest == value by {
      assert Tail(fields) + rest == [','] + more;
    }
    assert Members(fields) + rest == Quoted(f.key) + value;
    assert Quoted(f.key) + value == "\"" + f.key + "\"" + (":" + value);
    AfterString(f.key, ":" + value, key);
    assert ":" + value == [':'] + value;
    AfterStep(':', value, key);
    AfterValue(f.value, [','] + more, key);
    AfterStep(',', more, key);
  }

  lemma AfterThis(fields: seq<Field>, rest: string)
    requires fields != [] && fields[0].value.Text?
    ensures After(Members(fields) + rest, Pattern(fields[0].key))
            == Some(fields[0].value.text + ("\"" + (Tail(fields) + rest)))
  {
    var f := fields[0];
    var tail := f.value.text + ("\"" + (Tail(fields) + rest));
    assert Shown(fields) + rest == "\"" + tail;
    assert Members(fields) + rest == Quoted(f.key) + (Shown(fields) + rest);
    assert Pattern(f.key) + tail == Members(fields) + rest;
  }

  /** In a printed list of simple members, the search stops at the field it is for. */
  lemma {:induction false} AfterInMembers(fields: seq<Field>, i: nat, rest: string)
    requires i < |fields| && (forall j :: 0 <= j < |fields| ==> Simple(fields[j])) && fields[i].value.Text?
    requires forall j :: 0 <= j < i ==> fields[j].key != fields[i].key
    requires fields[i].key != [] && 'a' <= fields[i].key[0] <= 'z'
    ensures After(Members(fields) + rest, Pattern(fields[i].key))
            == Some(fields[i].value.text + ("\"" + (Tail(fields[i..]) + rest)))
    decreases |fields|
  {
    if i == 0 {
      assert fields[0..] == fields;
      AfterThis(fields, rest);
    } else {
      AfterOther(fields, rest, fields[i].key);
      AfterInMembers(fields[1..], i - 1, rest);
      assert fields[1..][i - 1..] == fields[i..];
    }
  }

  lemma {:induction false} FirstQuoteAfter(t: string, rest: string)
    requires Plain(t)
    ensures FirstQuote(t + ("\"" + rest)) == Some(|t|)
    decreases |t|
  {
    var s := t + ("\"" + rest);
    if t != [] {
      FirstQuoteAfter(t[1..], rest);
      assert s[1..] == t[1..] + ("\"" + rest);
    }
  }

  lemma PrintableIsSimple(key: string, text: string)
    requires Plain(key) && Printable(text)
    ensures Simple(Field(key, Text(text)))
  {
  }

  lemma AcquiredIsSimple(client: U32, requestId: Option<string>, j: nat)
    requires requestId.Some? ==> Printable(requestId.value)
    requires j < |AcquiredFields(client, requestId)|
    ensures Simple(AcquiredFields(client, requestId)[j])
  {
    assert Simple(Field("v", Number("1")));
    PrintableIsSimple("type", "acquired");
    OwnerRoundTrip(client, 0xFFFF_FFFF);
    PrintableIsSimple("owner_id", OwnerText(client));
    if requestId.Some? {
      PrintableIsSimple("request_id", requestId.value);
    }
  }

  lemma AcquiredFits(client: U32, requestId: Option<string>)
    requires requestId.Some? ==> |requestId.value| < STRING_MAX
    ensures |Show(Nested(AcquiredFields(client, requestId)))| + 1 < RESPONSE_MAX
  {
    var fields := AcquiredFields(client, requestId);
    forall i | 0 <= i < |fields| ensures |fields[i].key| + |Show(fields[i].value)| <= 110 {
    }
    MembersLength(fields, 110);
  }

  /** The client cuts the owner id out of every acquired response, whatever the request id. */
  lemma ExtractOwner(client: U32, requestId: Option<string>)
    requires requestId.Some? ==> Printable(requestId.value) && |requestId.value| < STRING_MAX
    ensures var response := EncodeAcquired(client, requestId);
            response.Some? && ResponseString(response.value, "owner_id", OWNER_BUFFER) == Some(OwnerText(client))
  {
    var fields := AcquiredFields(client, requestId);
    var last := |fields| - 1;
    AcquiredFits(client, requestId);
    forall j | 0 <= j < |fields| ensures Simple(fields[j]) {
      AcquiredIsSimple(client, requestId, j);
    }
    forall j | 0 <= j < last ensures fields[j].key != fields[last].key {
      assert |fields[j].key| != 8;
    }
    AfterInMembers(fields, last, "}\n");
    var response := Show(Nested(fields)) + "\n";
    assert response == ['{'] + (Members(fields) + "}\n");
    AfterStep('{', Members(fields) + "}\n", "owner_id");
    OwnerRoundTrip(client, 0xFFFF_FFFF);
    FirstQuoteAfter(OwnerText(client), Tail(fields[last..]) + "}\n");
  }

  /** The extractor as a loop over buffers: builds the pattern, searches, copies. */
  method CopyResponseString(response: string, key: string, out: array<char>) returns (ok: bool)
    requires out.Length > 0
    modifies out
    ensures var found := ResponseString(response, key, out.Length);
            && ok == found.Some?
            && (ok ==> |found.value| < out.Length && out[..|found.value|] == found.value && out[|found.value|] == NUL)
  {
    if |key| > 59 {
      return false;
    }
    var pattern := new char[64](_ => NUL);
    pattern[0] := '"';
    for index := 0 to |key|
      invariant pattern[..index + 1] == "\"" + key[..index]
    {
      pattern[index + 1] := key[index];
    }
    pattern[|key| + 1], pattern[|key| + 2], pattern[|key| + 3] := '"', ':', '"';
    assert key[..|key|] == key;
    assert pattern[..|key| + 4] == Pattern(key);
    var start := After(response, pattern[..|key| + 4]);
    if start.None? {
      return false;
    }
    var end := FirstQuote(start.value);
    if end.None? || end.value + 1 > out.Length {
      return false;
    }
    for index := 0 to end.value
      invariant out[..index] == start.value[..index]
    {
      out[index] := start.value[index];
    }
    out[end.value] := NUL;
    return true;
  }

  // ---- End to end ----

  /** For every client id, request id, in-range state and sequence below 2^63: the owner id the
      client finds in the acquired response and prints in its set_state line decodes to the same
      client id, state and sequence; so the adapter's owner check passes and the submission
      reaches the domain under that client's id. */
  lemma SubmissionsArrive(client: U32, requestId: Option<string>, sequence: nat, s: State, ulongMax: nat)
    requires requestId.Some? ==> Printable(requestId.value) && |requestId.value| < STRING_MAX
    requires InRange(s) && sequence <= I64_MAX && ulongMax >= 0xFFFF_FFFF
    ensures var response := EncodeAcquired(client, requestId);
            response.Some? &&
            var owner := ResponseString(response.value, "owner_id", OWNER_BUFFER);
            owner.Some? &&
            var line := PrintSetState(owner.value, sequence, s);
            line.Some? &&
            var decoded := DecodeCommand(line.value, ulongMax);
            && decoded == Accepted(IpcSession.SubmitState(Some(client), s, sequence), Some("s1"))
            && IpcSession.OpOf(client, decoded.command) == Some(DomainModel.SetState(client, s, sequence))
  {
    ExtractOwner(client, requestId);
    DecodePrinted(client, sequence, s, ulongMax);
  }
}
