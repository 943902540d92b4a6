/** The command decoder: value readers, the owner id, the state and the whole line. A place in
    the line is what is left of the text from there on. */
module JsonCommand {
  import opened ControllerState
  import opened Options
  import opened JsonScanner
  import opened JsonText
  import JsonFields
  import IpcSession

  const STRING_MAX := 96
  const OWNER_HEX_SIZE := 8
  const PROTOCOL_VERSION := 1

  // ---- Values ----

  datatype Reading<T> = Missing | Malformed | Good(value: T)

  /** A value must be followed by a separator, a closing bracket or the end. */
  predicate EndsValue(t: string, i: nat) {
    var c := At(t, SkipWs(t, i));
    c == ',' || c == '}' || c == ']' || c == NUL
  }

  predicate StringChar(c: char) {
    c != '"' && c != '\\' && c >= ' '
  }

  function StringEnd(t: string, i: nat): (e: nat)
    ensures i <= e && (i <= |t| ==> e <= |t|)
    decreases |t| - i
  {
    if i < |t| && StringChar(t[i]) then StringEnd(t, i + 1) else i
  }

  /** A string without escapes or control characters that fits a buffer of `size`. */
  function ReadString(t: Option<string>, size: nat): Reading<string> {
    match t
    case None => Missing
    case Some(t) =>
      if At(t, 0) != '"' then Malformed
      else
        var end := StringEnd(t, 1);
        if end - 1 >= size || At(t, end) != '"' || !EndsValue(t, end + 1) then Malformed else Good(t[1..end])
  }

  function ReadI64(t: Option<string>): Reading<int> {
    match t
    case None => Missing
    case Some(t) =>
      var parsed := Strtoll(t);
      if parsed.value.None? || !EndsValue(t, parsed.end) then Malformed else Good(parsed.value.value)
  }

  function GetI64(json: string, key: string): Reading<int> {
    ReadI64(JsonFields.Get(json, key))
  }

  function GetString(json: string, key: string): Reading<string> {
    ReadString(JsonFields.Get(json, key), STRING_MAX)
  }

  // ---- Owner ids ----

  function OwnerText(client: U32): (t: string)
    ensures |t| == OWNER_HEX_SIZE
  {
    HexText(client, OWNER_HEX_SIZE)
  }

  /** `ulongMax` is the largest unsigned long of the platform. */
  function ParseOwnerId(t: string, ulongMax: nat): Option<U32> {
    if |t| != OWNER_HEX_SIZE then None
    else
      var parsed := Strtoul16(t, ulongMax);
      if parsed.value.None? || parsed.end != |t| || !(0 <= parsed.value.value <= 0xFFFF_FFFF) then None
      else Some(parsed.value.value)
  }

  // ---- States ----

  /** The numbers a state is parsed from. */
  datatype Readings = Readings(
    buttons: Reading<int>, lx: Reading<int>, ly: Reading<int>, rx: Reading<int>, ry: Reading<int>,
    accelX: Reading<int>, accelY: Reading<int>, accelZ: Reading<int>,
    gyroX: Reading<int>, gyroY: Reading<int>, gyroZ: Reading<int>)

  predicate Between(r: Reading<int>, low: int, high: int) {
    r.Good? && low <= r.value <= high
  }

  predicate Stick(r: Reading<int>) {
    Between(r, 0, STICK_MAX)
  }

  predicate Axis(r: Reading<int>) {
    Between(r, -0x8000, 0x7FFF)
  }

  function StateOf(r: Readings): (s: Option<State>)
    ensures s.Some? ==> InRange(s.value)
  {
    if !r.buttons.Good? || !ButtonsDefined(r.buttons.value) then None
    else if !Stick(r.lx) || !Stick(r.ly) || !Stick(r.rx) || !Stick(r.ry) then None
    else if !Axis(r.accelX) || !Axis(r.accelY) || !Axis(r.accelZ) || !Axis(r.gyroX) || !Axis(r.gyroY) ||
        !Axis(r.gyroZ) then None
    else Some(State(r.buttons.value, r.lx.value, r.ly.value, r.rx.value, r.ry.value,
                    r.accelX.value, r.accelY.value, r.accelZ.value, r.gyroX.value, r.gyroY.value, r.gyroZ.value))
  }

  function ReadFields(json: string): Readings {
    Readings(GetI64(json, "buttons"), GetI64(json, "lx"), GetI64(json, "ly"), GetI64(json, "rx"), GetI64(json, "ry"),
             GetI64(json, "accel_x"), GetI64(json, "accel_y"), GetI64(json, "accel_z"),
             GetI64(json, "gyro_x"), GetI64(json, "gyro_y"), GetI64(json, "gyro_z"))
  }

  function ParseFields(json: string): (s: Option<State>)
    ensures s.Some? ==> InRange(s.value)
  {
    StateOf(ReadFields(json))
  }

  /** The sequence number may be left out, which means 0. */
  function ParseSequence(line: string): (n: Option<U64>)
    ensures n.Some? ==> n.value <= I64_MAX
  {
    match GetI64(line, "seq")
    case Missing => Some(0)
    case Malformed => None
    case Good(v) => if 0 <= v <= I64_MAX then Some(v) else None
  }

  function ParseState(line: string): (s: Option<State>)
    ensures s.Some? ==> InRange(s.value)
  {
    var json := JsonFields.Get(line, "state");
    if json.None? || At(json.value, 0) != '{' then None else ParseFields(json.value)
  }

  // ---- Commands ----

  datatype Refusal = InvalidJson | InvalidVersion | UnsupportedCommand | InvalidState

  datatype Decoded =
    | Accepted(command: IpcSession.Command, requestId: Option<string>)
    | Refused(why: Refusal, requestId: Option<string>)

  /** Every state that gets past the decoder is in range, so its report loses nothing. */
  predicate Harmless(d: Decoded) {
    d.Accepted? && d.command.SubmitState? ==> InRange(d.command.state) && d.command.sequence <= I64_MAX
  }

  function OwnerOfLine(line: string, ulongMax: nat): Option<U32> {
    match GetString(line, "owner_id")
    case Good(t) => ParseOwnerId(t, ulongMax)
    case _ => None
  }

  datatype Kind = KindHello | KindAcquire | KindRelease | KindSetState | KindGetStatus

  /** The comparisons with the known types, one after the other. */
  function KindOf(t: string): Option<Kind> {
    if t == "hello" then Some(KindHello)
    else if t == "acquire" then Some(KindAcquire)
    else if t == "release" then Some(KindRelease)
    else if t == "set_state" then Some(KindSetState)
    else if t == "get_status" then Some(KindGetStatus)
    else None
  }

  /** What a line gives for the arguments of a command. */
  datatype Arguments = Arguments(owner: Option<U32>, state: Option<State>, sequence: Option<U64>)

  predicate ArgumentsOk(a: Arguments) {
    (a.state.Some? ==> InRange(a.state.value)) && (a.sequence.Some? ==> a.sequence.value <= I64_MAX)
  }

  function ArgumentsOf(line: string, ulongMax: nat): (a: Arguments)
    ensures ArgumentsOk(a)
  {
    Arguments(OwnerOfLine(line, ulongMax), ParseState(line), ParseSequence(line))
  }

  /** Everything the decoder reads in a line. */
  datatype Contents = Contents(
    complete: bool, requestId: Reading<string>, version: Reading<int>, kind: Reading<string>, arguments: Arguments)

  function ContentsOf(line: string, ulongMax: nat): (c: Contents)
    ensures ArgumentsOk(c.arguments)
  {
    Contents(IsComplete(line), GetString(line, "request_id"), GetI64(line, "v"), GetString(line, "type"),
             ArgumentsOf(line, ulongMax))
  }

  function DecodeCommand(line: string, ulongMax: nat): (d: Decoded)
    ensures Harmless(d)
  {
    Decode(ContentsOf(line, ulongMax))
  }

  /** The decoder's checks, in its order. */
  function Decode(c: Contents): (d: Decoded)
    requires ArgumentsOk(c.arguments)
    ensures Harmless(d)
  {
    if !c.complete then Refused(InvalidJson, None)
    else match c.requestId
      case Malformed => Refused(InvalidJson, None)
      case Missing => DecodeVersioned(c, None)
      case Good(id) => DecodeVersioned(c, Some(id))
  }

  function DecodeVersioned(c: Contents, requestId: Option<string>): (d: Decoded)
    requires ArgumentsOk(c.arguments)
    ensures Harmless(d)
  {
    if c.version != Good(PROTOCOL_VERSION) then Refused(InvalidVersion, requestId)
    else match c.kind
      case Malformed => Refused(InvalidJson, requestId)
      case Missing => Refused(UnsupportedCommand, requestId)
      case Good(t) => DecodeKind(KindOf(t), c.arguments, requestId)
  }

  function DecodeKind(kind: Option<Kind>, a: Arguments, requestId: Option<string>): (d: Decoded)
    requires ArgumentsOk(a)
    ensures Harmless(d)
  {
    match kind
    case None => Refused(UnsupportedCommand, requestId)
    case Some(KindHello) => Accepted(IpcSession.Hello, requestId)
    case Some(KindAcquire) => Accepted(IpcSession.AcquireLease, requestId)
    case Some(KindRelease) => Accepted(IpcSession.ReleaseLease(a.owner), requestId)
    case Some(KindSetState) =>
      if a.state.None? || a.sequence.None? then Refused(InvalidState, requestId)
      else Accepted(IpcSession.SubmitState(a.owner, a.state.value, a.sequence.value), requestId)
    case Some(KindGetStatus) => Accepted(IpcSession.GetStatus, requestId)
  }

  // ---- Which states are parsed ----

  /** The readings that give a state. */
  function GoodReadings(s: State): Readings {
    Readings(Good(s.buttons), Good(s.lx), Good(s.ly), Good(s.rx), Good(s.ry),
             Good(s.accelX), Good(s.accelY), Good(s.accelZ), Good(s.gyroX), Good(s.gyroY), Good(s.gyroZ))
  }

  lemma StateOfIff(r: Readings, s: State)
    ensures StateOf(r) == Some(s) <==> InRange(s) && r == GoodReadings(s)
  {
  }

  /** A state is parsed exactly if all its eleven fields are there as numbers and in range, and then
      it is the state of those numbers. */
  lemma ParsesIff(json: string, s: State)
    ensures ParseFields(json) == Some(s) <==> InRange(s) && ReadFields(json) == GoodReadings(s)
  {
    StateOfIff(ReadFields(json), s);
  }

  /** The five types are different texts, so the order of the comparisons does not matter. */
  lemma KindOfIff(t: string)
    ensures KindOf(t) == Some(KindHello) <==> t == "hello"
    ensures KindOf(t) == Some(KindAcquire) <==> t == "acquire"
    ensures KindOf(t) == Some(KindRelease) <==> t == "release"
    ensures KindOf(t) == Some(KindSetState) <==> t == "set_state"
    ensures KindOf(t) == Some(KindGetStatus) <==> t == "get_status"
  {
    assert |"hello"| == 5 && |"acquire"| == 7 && |"release"| == 7 && |"set_state"| == 9 && |"get_status"| == 10;
    assert "acquire"[0] != "release"[0];
  }

  // ---- Reading what was printed ----

  lemma {:induction false} StringEndAt(t: string, i: nat, e: nat)
    requires i <= e <= |t| && (forall k :: i <= k < e ==> StringChar(t[k])) && !StringChar(At(t, e))
    ensures StringEnd(t, i) == e
    decreases e - i
  {
    if i < e {
      StringEndAt(t, i + 1, e);
    }
  }

  predicate Printable(t: string) {
    forall i :: 0 <= i < |t| ==> StringChar(t[i])
  }

  lemma EndsValueAt(t: string, rest: string)
    requires JsonFields.Ends(rest)
    ensures EndsValue(t + rest, |t|)
  {
    assert At(t + rest, |t|) == rest[0];
  }

  lemma ReadPrintedString(t: string, rest: string, size: nat)
    requires Printable(t) && |t| < size && JsonFields.Ends(rest)
    ensures ReadString(Some("\"" + t + "\"" + rest), size) == Good(t)
  {
    var s := "\"" + t + "\"" + rest;
    assert forall k :: 1 <= k < |t| + 1 ==> s[k] == t[k - 1];
    StringEndAt(s, 1, |t| + 1);
    assert s[1..|t| + 1] == t;
    EndsValueAt("\"" + t + "\"", rest);
  }

  lemma ReadPrintedNumber(v: int, rest: string)
    requires I64_MIN <= v <= I64_MAX && JsonFields.Ends(rest)
    ensures ReadI64(Some(Signed(v) + rest)) == Good(v)
  {
    StrtollReadsSigned(v, rest);
    EndsValueAt(Signed(v), rest);
  }

  /** Every owner id survives formatting and parsing, with a 32-bit and a 64-bit unsigned long. */
  lemma OwnerRoundTrip(client: U32, ulongMax: nat)
    requires ulongMax >= 0xFFFF_FFFF
    ensures ParseOwnerId(OwnerText(client), ulongMax) == Some(client)
    ensures Printable(OwnerText(client)) && JsonFields.Plain(OwnerText(client))
  {
    assert Pow16(8) == 0x1_0000_0000 by {
      assert Pow16(4) == 0x1_0000;
    }
    StrtoulReadsHex(client, ulongMax);
    HexDigits(client, 8);
  }

  /** Every number field of a printed object reads back. */
  lemma ReadNumberField(fields: seq<JsonFields.Field>, i: nat, rest: string, v: int)
    requires JsonFields.AllWellFormed(fields) && i < |fields| && I64_MIN <= v <= I64_MAX
    requires fields[i].value == JsonFields.Number(Signed(v))
    requires forall j :: 0 <= j < i ==> fields[j].key != fields[i].key
    ensures GetI64(JsonFields.Show(JsonFields.Nested(fields)) + rest, fields[i].key) == Good(v)
  {
    JsonFields.PrintedKeysLead(fields, i, rest);
    ReadPrintedNumber(v, JsonFields.Tail(fields[i..]) + ("}" + rest));
  }

  lemma ReadStringField(fields: seq<JsonFields.Field>, i: nat, rest: string)
    requires JsonFields.AllWellFormed(fields) && i < |fields|
    requires fields[i].value.Text? && Printable(fields[i].value.text) && |fields[i].value.text| < STRING_MAX
    requires forall j :: 0 <= j < i ==> fields[j].key != fields[i].key
    ensures GetString(JsonFields.Show(JsonFields.Nested(fields)) + rest, fields[i].key) == Good(fields[i].value.text)
  {
    JsonFields.PrintedKeysLead(fields, i, rest);
    ReadPrintedString(fields[i].value.text, JsonFields.Tail(fields[i..]) + ("}" + rest), STRING_MAX);
  }

  lemma {:induction false} SignedIsNumber(v: int)
    ensures JsonFields.WellFormed(JsonFields.Number(Signed(v)))
  {
    var m: nat := if v < 0 then -v else v;
    DecimalDigits(m);
    forall i | 0 <= i < |Signed(v)| ensures JsonFields.NumberChar(Signed(v)[i]) {
      if v >= 0 || i > 0 {
        assert InBase(Decimal(m)[if v < 0 then i - 1 else i], 10);
      }
    }
  }

  // ---- The loops over buffers ----

  lemma {:induction false} HexTextAt(v: nat, n: nat, i: nat)
    requires i < n
    ensures HexText(v, n)[i] == DigitChar(v / Pow16(n - 1 - i) % 16)
    decreases n
  {
    if i < n - 1 {
      HexTextAt(v / 16, n - 1, i);
      DivDiv(v, Pow16(n - 2 - i));
    }
  }

  lemma DivDiv(v: nat, p: nat)
    requires p > 0
    ensures v / 16 / p == v / (16 * p)
  {
    var q, r := v / (16 * p), v % (16 * p);
    var low := r / 16;
    assert v == (16 * p) * q + r;
    assert v / 16 == p * q + low by {
      assert v == 16 * (p * q) + r;
    }
    assert low < p;
    Quotient(p * q + low, p, q, low);
  }

  lemma Quotient(n: nat, p: nat, q: nat, r: nat)
    requires p > 0 && n == p * q + r && r < p
    ensures n / p == q
  {
    var d, m := n / p, n % p;
    var e := d - q;
    assert p * e == p * d - p * q;
    assert p * e == r - m;
    assert p * (e - 1) == p * e - p && p * (e + 1) == p * e + p;
    assert e >= 1 ==> p * (e - 1) >= 0;
    assert e <= -1 ==> p * (e + 1) <= 0;
  }

  method FormatOwnerId(client: U32, out: array<char>)
    requires out.Length == OWNER_HEX_SIZE + 1
    modifies out
    ensures out[..OWNER_HEX_SIZE] == OwnerText(client) && out[OWNER_HEX_SIZE] == NUL
  {
    for index := 0 to OWNER_HEX_SIZE
      invariant out[..index] == OwnerText(client)[..index]
    {
      var shift := Pow16(OWNER_HEX_SIZE - 1 - index);
      out[index] := DigitChar(client / shift % 16);
      HexTextAt(client, OWNER_HEX_SIZE, index);
    }
    out[OWNER_HEX_SIZE] := NUL;
  }

  /** Copies a string value into a buffer; the buffer's size is the limit. */
  method CopyString(t: string, out: array<char>) returns (r: Reading<nat>)
    modifies out
    ensures match ReadString(Some(t), out.Length)
            case Good(s) => r == Good(|s|) && |s| < out.Length && out[..|s|] == s && out[|s|] == NUL
            case _ => r == Malformed
  {
    if At(t, 0) != '"' {
      return Malformed;
    }
    var value: nat, length: nat := 1, 0;
    while At(t, value) != NUL && At(t, value) != '"'
      invariant value == length + 1 <= |t| && (length == 0 || length < out.Length)
      invariant StringEnd(t, value) == StringEnd(t, 1)
      invariant length <= out.Length && out[..length] == t[1..value]
      decreases |t| - value
    {
      if t[value] == '\\' || t[value] < ' ' {
        return Malformed;
      }
      if length + 1 >= out.Length {
        return Malformed;
      }
      out[length] := t[value];
      length := length + 1;
      value := value + 1;
    }
    if At(t, value) != '"' {
      return Malformed;
    }
    var after := SkipSpace(t, value + 1);
    var c := At(t, after);
    if (c != ',' && c != '}' && c != ']' && c != NUL) || length >= out.Length {
      return Malformed;
    }
    out[length] := NUL;
    return Good(length);
  }
}
