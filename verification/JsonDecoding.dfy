/** Exactly which lines the decoder takes for which command, and which it refuses for which reason;
    and exactly which texts it reads as strings and numbers. */
module JsonDecoding {
  import opened ControllerState
  import opened Options
  import opened JsonScanner
  import opened JsonText
  import opened JsonCommand
  import JsonFields
  import IpcSession

  // ---- Which contents are which commands ----

  /** The type under which a command is sent. */
  function TypeOf(c: IpcSession.Command): string {
    match c
    case Hello => "hello"
    case AcquireLease => "acquire"
    case ReleaseLease(_) => "release"
    case SubmitState(_, _, _) => "set_state"
    case GetStatus => "get_status"
  }

  function KindFor(c: IpcSession.Command): Kind {
    match c
    case Hello => KindHello
    case AcquireLease => KindAcquire
    case ReleaseLease(_) => KindRelease
    case SubmitState(_, _, _) => KindSetState
    case GetStatus => KindGetStatus
  }

  lemma TypeIsKind(t: string, c: IpcSession.Command)
    ensures KindOf(t) == Some(KindFor(c)) <==> t == TypeOf(c)
  {
    KindOfIff(t);
  }

  /** The arguments a command takes read as its own. */
  predicate Takes(a: Arguments, c: IpcSession.Command) {
    match c
    case ReleaseLease(owner) => a.owner == owner
    case SubmitState(owner, s, n) => a.owner == owner && a.state == Some(s) && a.sequence == Some(n)
    case _ => true
  }

  /** No request id, or a good one. */
  function IdReading(id: Option<string>): Reading<string> {
    if id.Some? then Good(id.value) else Missing
  }

  lemma KindDecodes(kind: Option<Kind>, a: Arguments, id: Option<string>, c: IpcSession.Command)
    requires ArgumentsOk(a)
    ensures DecodeKind(kind, a, id) == Accepted(c, id) <==> kind == Some(KindFor(c)) && Takes(a, c)
    ensures DecodeKind(kind, a, id).requestId == id
  {
  }

  lemma ContentsDecode(x: Contents, id: Option<string>, c: IpcSession.Command)
    requires ArgumentsOk(x.arguments)
    ensures Decode(x) == Accepted(c, id) <==>
              x.complete && x.requestId == IdReading(id) && x.version == Good(1) && x.kind == Good(TypeOf(c)) &&
              Takes(x.arguments, c)
  {
    if x.kind.Good? {
      TypeIsKind(x.kind.value, c);
      KindDecodes(KindOf(x.kind.value), x.arguments, None, c);
      KindDecodes(KindOf(x.kind.value), x.arguments, id, c);
      if x.requestId.Good? {
        KindDecodes(KindOf(x.kind.value), x.arguments, Some(x.requestId.value), c);
      }
    }
  }

  // ---- Which lines are which commands ----

  /** A complete line with this request id and protocol version 1. */
  predicate Addressed(line: string, id: Option<string>) {
    IsComplete(line) && GetString(line, "request_id") == IdReading(id) && GetI64(line, "v") == Good(1)
  }

  /** The number under "seq"; a line without one has number 0. */
  predicate SequenceIs(line: string, n: U64) {
    n < 0x8000_0000_0000_0000 && (GetI64(line, "seq") == Good(n) || (GetI64(line, "seq") == Missing && n == 0))
  }

  predicate ArgumentsAre(line: string, c: IpcSession.Command, ulongMax: nat) {
    match c
    case ReleaseLease(owner) => OwnerOfLine(line, ulongMax) == owner
    case SubmitState(owner, s, n) =>
      OwnerOfLine(line, ulongMax) == owner && ParseState(line) == Some(s) && SequenceIs(line, n)
    case _ => true
  }

  lemma SequenceIff(line: string, n: U64)
    ensures ParseSequence(line) == Some(n) <==> SequenceIs(line, n)
  {
  }

  lemma TakesIff(line: string, ulongMax: nat, c: IpcSession.Command)
    ensures Takes(ArgumentsOf(line, ulongMax), c) <==> ArgumentsAre(line, c, ulongMax)
  {
    if c.SubmitState? {
      SequenceIff(line, c.sequence);
    }
  }

  /** Every line and every command: the line is decoded as the command exactly if it is complete, has
      version 1, no bad request id, the command's type and, for a release or a submission, reads as
      the command's owner id, state and sequence number. */
  lemma DecodesIff(line: string, id: Option<string>, ulongMax: nat, c: IpcSession.Command)
    ensures DecodeCommand(line, ulongMax) == Accepted(c, id) <==>
              Addressed(line, id) && GetString(line, "type") == Good(TypeOf(c)) && ArgumentsAre(line, c, ulongMax)
  {
    ContentsDecode(ContentsOf(line, ulongMax), id, c);
    TakesIff(line, ulongMax, c);
  }

  // ---- Which lines are refused ----

  /** The reasons, with the request id that is sent back: a line that is no object or whose request id
      or type is no plain string, another version, a type that is missing or unknown, and a
      submission whose state or number is no good. */
  predicate RefusedFor(x: Contents, why: Refusal, id: Option<string>) {
    var named := x.complete && x.requestId == IdReading(id);
    match why
    case InvalidJson =>
      || (id == None && (!x.complete || x.requestId == Malformed))
      || (named && x.version == Good(1) && x.kind == Malformed)
    case InvalidVersion => named && x.version != Good(1)
    case UnsupportedCommand =>
      && named && x.version == Good(1) && x.kind != Malformed
      && x.kind !in {Good("hello"), Good("acquire"), Good("release"), Good("set_state"), Good("get_status")}
    case InvalidState =>
      && named && x.version == Good(1) && x.kind == Good("set_state")
      && (x.arguments.state == None || x.arguments.sequence == None)
  }

  lemma KindRefusedIff(kind: Option<Kind>, a: Arguments, id: Option<string>, why: Refusal)
    requires ArgumentsOk(a)
    ensures var refused := DecodeKind(kind, a, id) == Refused(why, id);
            if kind.None? then refused <==> why == UnsupportedCommand
            else if kind == Some(KindSetState) && (a.state == None || a.sequence == None) then
              refused <==> why == InvalidState
            else !refused
    ensures DecodeKind(kind, a, id).requestId == id
  {
  }

  lemma VersionedRefusedIff(x: Contents, id: Option<string>, why: Refusal)
    requires ArgumentsOk(x.arguments) && x.complete && x.requestId == IdReading(id)
    ensures DecodeVersioned(x, id) == Refused(why, id) <==> RefusedFor(x, why, id)
    ensures DecodeVersioned(x, id).requestId == id
  {
    if x.kind.Good? {
      KindOfIff(x.kind.value);
      KindRefusedIff(KindOf(x.kind.value), x.arguments, id, why);
    }
  }

  lemma ContentsRefused(x: Contents, id: Option<string>, why: Refusal)
    requires ArgumentsOk(x.arguments)
    ensures Decode(x) == Refused(why, id) <==> RefusedFor(x, why, id)
  {
    if x.complete && !x.requestId.Malformed? {
      var named := if x.requestId.Good? then Some(x.requestId.value) else None;
      VersionedRefusedIff(x, named, why);
    }
  }

  /** Every line is refused for exactly these reasons, in the decoder's order of checks. */
  lemma RefusedIff(line: string, id: Option<string>, ulongMax: nat, why: Refusal)
    ensures DecodeCommand(line, ulongMax) == Refused(why, id) <==> RefusedFor(ContentsOf(line, ulongMax), why, id)
  {
    ContentsRefused(ContentsOf(line, ulongMax), id, why);
  }

  // ---- States and owner ids ----

  /** A line's state is s exactly if s is in range and the value under "state" is an object whose eleven
      fields read as the numbers of s. */
  lemma StateIff(line: string, s: State)
    ensures ParseState(line) == Some(s) <==>
              var json := JsonFields.Get(line, "state");
              json.Some? && At(json.value, 0) == '{' && InRange(s) && ReadFields(json.value) == GoodReadings(s)
  {
    var json := JsonFields.Get(line, "state");
    if json.Some? {
      ParsesIff(json.value, s);
    }
  }

  /** A line's owner id is the one its "owner_id" string parses to. */
  lemma OwnerIff(line: string, ulongMax: nat, owner: U32)
    ensures OwnerOfLine(line, ulongMax) == Some(owner) <==>
              var text := GetString(line, "owner_id");
              text.Good? && ParseOwnerId(text.value, ulongMax) == Some(owner)
  {
  }

  predicate HexDigit(c: char) {
    '0' <= c <= '9' || 'a' <= c <= 'f' || 'A' <= c <= 'F'
  }

  predicate AllHex(t: string)
    ensures AllHex(t) <==> forall i :: 0 <= i < |t| ==> InBase(t[i], 16)
  {
    forall i :: 0 <= i < |t| ==> HexDigit(t[i])
  }

  /** What strtoul also takes: white space or a sign in front, or a prefix. */
  predicate Decorated(t: string) {
    t != [] && (IsSpace(t[0]) || Signs(t[0]) || (|t| > 1 && t[0] == '0' && (t[1] == 'x' || t[1] == 'X')))
  }

  /** An undecorated text is an owner id exactly if it is eight hex digits of either case, and then it is
      their value. */
  lemma OwnerTextIff(t: string, ulongMax: nat, owner: U32)
    requires !Decorated(t) && ulongMax >= 0xFFFF_FFFF
    ensures ParseOwnerId(t, ulongMax) == Some(owner) <==>
              |t| == 8 && AllHex(t) && DigitsValue(t, 16) == owner
  {
    if |t| == 8 {
      var end := DigitsEnd(t, 0, 16);
      assert SkipWs(t, 0) == 0 && !Signs(At(t, 0));
      if AllHex(t) {
        DigitsEndAt(t, 0, 8, 16);
        assert t[0..8] == t;
        EightDigits(t);
      } else {
        assert end < 8;
      }
    }
  }

  lemma {:induction false} DigitsBound(t: string, n: nat)
    requires |t| == n && forall i :: 0 <= i < n ==> InBase(t[i], 16)
    ensures DigitsValue(t, 16) < Pow16(n)
    decreases n
  {
    if n > 0 {
      DigitsBound(t[..n - 1], n - 1);
      assert InBase(t[n - 1], 16);
    }
  }

  lemma EightDigits(t: string)
    requires |t| == 8 && forall i :: 0 <= i < 8 ==> InBase(t[i], 16)
    ensures DigitsValue(t, 16) < 0x1_0000_0000
  {
    DigitsBound(t, 8);
    assert Pow16(4) == 0x1_0000;
  }

  // ---- Strings and numbers ----

  lemma EndsValueShift(t: string, i: nat)
    requires i <= |t|
    ensures EndsValue(t, i) <==> EndsValue(t[i..], 0)
  {
    JsonFields.SkipShift(t, i, 0);
  }

  /** The text is this string in quotes, followed by what may follow a value. */
  predicate IsString(t: string, v: string, rest: string) {
    t == "\"" + v + "\"" + rest && Printable(v) && EndsValue(rest, 0)
  }

  /** A text is read as a string exactly if it begins with that string in quotes, without escapes or
      control characters in it, it fits the buffer, and a separator, a bracket or the end follows. */
  lemma ReadStringIff(t: string, size: nat, v: string)
    ensures ReadString(Some(t), size) == Good(v) <==> |v| < size && exists rest :: IsString(t, v, rest)
  {
    if ReadString(Some(t), size) == Good(v) {
      StringIsRead(t, size, v);
    }
    if |v| < size && exists rest :: IsString(t, v, rest) {
      var rest :| IsString(t, v, rest);
      StringReads(t, size, v, rest);
    }
  }

  lemma {:induction false} StringEndPlain(t: string, i: nat)
    requires i <= |t|
    ensures forall k :: i <= k < StringEnd(t, i) ==> StringChar(t[k])
    decreases |t| - i
  {
    if i < |t| && StringChar(t[i]) {
      StringEndPlain(t, i + 1);
    }
  }

  lemma StringIsRead(t: string, size: nat, v: string)
    requires ReadString(Some(t), size) == Good(v)
    ensures |v| < size && exists rest :: IsString(t, v, rest)
  {
    var end := StringEnd(t, 1);
    StringEndPlain(t, 1);
    assert end < |t|;
    EndsValueShift(t, end + 1);
    assert t == "\"" + v + "\"" + t[end + 1..];
    assert IsString(t, v, t[end + 1..]);
  }

  lemma StringReads(t: string, size: nat, v: string, rest: string)
    requires IsString(t, v, rest) && |v| < size
    ensures ReadString(Some(t), size) == Good(v)
  {
    assert forall k :: 1 <= k < |v| + 1 ==> t[k] == v[k - 1];
    StringEndAt(t, 1, |v| + 1);
    assert t[1..|v| + 1] == v;
    assert t[|v| + 2..] == rest;
    EndsValueShift(t, |v| + 2);
  }

  predicate Spaces(w: string) {
    forall i :: 0 <= i < |w| ==> IsSpace(w[i])
  }

  predicate Digits(d: string) {
    d != [] && forall i :: 0 <= i < |d| ==> InBase(d[i], 10)
  }

  /** White space, a sign or none, and digits: a number as strtoll takes it. */
  datatype Numeral = Numeral(space: string, sign: string, digits: string)

  predicate IsNumeral(n: Numeral) {
    Spaces(n.space) && n.sign in {"", "+", "-"} && Digits(n.digits)
  }

  function NumeralValue(n: Numeral): int
    requires IsNumeral(n)
  {
    var magnitude: int := DigitsValue(n.digits, 10);
    if n.sign == "-" then -magnitude else magnitude
  }

  /** The text is this numeral, followed by what may follow a value. */
  predicate IsNumber(t: string, n: Numeral, rest: string) {
    IsNumeral(n) && t == n.space + n.sign + n.digits + rest && EndsValue(rest, 0)
  }

  lemma {:induction false} SkipWsAt(t: string, i: nat, j: nat)
    requires i <= j <= |t| && (forall k :: i <= k < j ==> IsSpace(t[k])) && !IsSpace(At(t, j))
    ensures SkipWs(t, i) == j
    decreases j - i
  {
    if i < j {
      SkipWsAt(t, i + 1, j);
    }
  }

  lemma FourPieces(t: string, i: nat, j: nat, k: nat)
    requires i <= j <= k <= |t|
    ensures t == t[..i] + t[i..j] + t[j..k] + t[k..]
  {
  }

  /** Where strtoll's pieces begin and end. */
  predicate Pieces(t: string, i: nat, j: nat, end: nat) {
    && i < end <= |t| && i <= j < end
    && i == SkipWs(t, 0) && j == (if Signs(t[i]) then i + 1 else i) && end == DigitsEnd(t, j, 10)
  }

  lemma PiecesAreNumeral(t: string, i: nat, j: nat, end: nat)
    requires Pieces(t, i, j, end)
    ensures IsNumeral(Numeral(t[..i], t[i..j], t[j..end]))
  {
    SignPiece(t, i, j);
    forall k | 0 <= k < i ensures IsSpace(t[..i][k]) {
      assert t[..i][k] == At(t, k);
    }
    forall k | 0 <= k < end - j ensures InBase(t[j..end][k], 10) {
      assert t[j..end][k] == t[j + k];
    }
  }

  lemma StrtollAt(t: string, i: nat, j: nat, end: nat)
    requires Pieces(t, i, j, end) && Strtoll(t).value.Some?
    ensures IsNumeral(Numeral(t[..i], t[i..j], t[j..end]))
    ensures Strtoll(t) == Parsed(Some(NumeralValue(Numeral(t[..i], t[i..j], t[j..end]))), end)
  {
    PiecesAreNumeral(t, i, j, end);
    SignPiece(t, i, j);
    assert At(t, i) == t[i];
  }

  lemma StrtollHasPieces(t: string) returns (i: nat, j: nat, end: nat)
    requires Strtoll(t).value.Some?
    ensures Pieces(t, i, j, end)
  {
    i := SkipWs(t, 0);
    j := if Signs(At(t, i)) then i + 1 else i;
    end := DigitsEnd(t, j, 10);
  }

  /** The pieces strtoll finds in a text with a number in it. */
  lemma StrtollPieces(t: string) returns (n: Numeral, end: nat)
    requires Strtoll(t).value.Some?
    ensures end == Strtoll(t).end <= |t| && IsNumeral(n) && t == n.space + n.sign + n.digits + t[end..]
    ensures NumeralValue(n) == Strtoll(t).value.value
  {
    var i, j, e := StrtollHasPieces(t);
    end := e;
    n := Numeral(t[..i], t[i..j], t[j..end]);
    StrtollAt(t, i, j, end);
    FourPieces(t, i, j, end);
  }

  lemma SignPiece(t: string, i: nat, j: nat)
    requires i < |t| && j == if Signs(t[i]) then i + 1 else i
    ensures t[i..j] in {"", "+", "-"} && (t[i..j] == "-" <==> t[i] == '-')
  {
    if j == i + 1 {
      assert t[i..j] == [t[i]];
    } else {
      assert t[i..j] == "";
    }
  }

  lemma StrtollOf(t: string, v: int)
    ensures ReadI64(Some(t)) == Good(v) <==> Strtoll(t).value == Some(v) && EndsValue(t, Strtoll(t).end)
    ensures Strtoll(t).value == Some(v) ==> I64_MIN <= v <= I64_MAX
  {
  }

  lemma NumberIsRead(t: string, v: int)
    requires Strtoll(t).value == Some(v) && EndsValue(t, Strtoll(t).end)
    ensures exists n, rest :: IsNumber(t, n, rest) && NumeralValue(n) == v
  {
    var n, end := StrtollPieces(t);
    EndsValueShift(t, end);
    assert IsNumber(t, n, t[end..]) && NumeralValue(n) == v;
  }

  lemma PiecesAt(t: string, n: Numeral, rest: string)
    requires t == n.space + n.sign + n.digits + rest
    ensures var i := |n.space|;
            var j := i + |n.sign|;
            var end := j + |n.digits|;
            t[..i] == n.space && t[i..j] == n.sign && t[j..end] == n.digits && t[end..] == rest
  {
  }

  /** strtoll takes the numeral whole if no digit follows it. */
  lemma StrtollTakes(t: string, n: Numeral, rest: string)
    requires IsNumeral(n) && t == n.space + n.sign + n.digits + rest && !InBase(At(rest, 0), 10)
    requires I64_MIN <= NumeralValue(n) <= I64_MAX
    ensures Strtoll(t) == Parsed(Some(NumeralValue(n)), |n.space + n.sign + n.digits|)
  {
    var i := |n.space|;
    var j := i + |n.sign|;
    var end := j + |n.digits|;
    PiecesAt(t, n, rest);
    forall k | 0 <= k < i ensures IsSpace(t[k]) {
      assert t[k] == t[..i][k];
    }
    forall k | j <= k < end ensures InBase(t[k], 10) {
      assert t[k] == t[j..end][k - j];
    }
    assert At(t, end) == At(rest, 0);
    SignAt(t, n, i, j);
    SkipWsAt(t, 0, i);
    DigitsEndAt(t, j, end, 10);
  }

  lemma SignAt(t: string, n: Numeral, i: nat, j: nat)
    requires i <= j < |t| && t[i..j] == n.sign && n.sign in {"", "+", "-"} && InBase(t[j], 10)
    ensures Signs(t[i]) == (j == i + 1) && (t[i] == '-' <==> n.sign == "-") && !IsSpace(t[i])
    ensures j == i || j == i + 1
  {
    assert |n.sign| == j - i;
    if j == i + 1 {
      assert n.sign[0] == t[i];
    }
  }

  lemma NumberReads(t: string, n: Numeral, rest: string)
    requires IsNumber(t, n, rest) && -0x8000_0000_0000_0000 <= NumeralValue(n) < 0x8000_0000_0000_0000
    ensures Strtoll(t).value == Some(NumeralValue(n)) && EndsValue(t, Strtoll(t).end)
  {
    var end := |n.space + n.sign + n.digits|;
    assert !InBase(At(rest, 0), 10);
    StrtollTakes(t, n, rest);
    assert t[end..] == rest;
    EndsValueShift(t, end);
  }

  /** A text is read as a number exactly if it begins with a numeral of that value, within 64 bits, and
      a separator, a bracket or the end follows. */
  lemma ReadNumberIff(t: string, v: int)
    ensures ReadI64(Some(t)) == Good(v) <==>
              && -0x8000_0000_0000_0000 <= v < 0x8000_0000_0000_0000
              && exists n, rest :: IsNumber(t, n, rest) && NumeralValue(n) == v
  {
    StrtollOf(t, v);
    if ReadI64(Some(t)) == Good(v) {
      NumberIsRead(t, v);
    }
    if n, rest :| IsNumber(t, n, rest) && NumeralValue(n) == v && -0x8000_0000_0000_0000 <= v < 0x8000_0000_0000_0000 {
      NumberReads(t, n, rest);
    }
  }

  /** A key has a string in a line exactly if it leads to that string in quotes, of fewer than 96 plain
      characters, with the end of a value behind it. */
  lemma StringOfIff(line: string, key: string, v: string)
    ensures GetString(line, key) == Good(v) <==>
              var text := JsonFields.Get(line, key);
              text.Some? && |v| < 96 && exists rest :: IsString(text.value, v, rest)
  {
    if JsonFields.Get(line, key).Some? {
      ReadStringIff(JsonFields.Get(line, key).value, 96, v);
    }
  }

  /** A key has a number in a line exactly if it leads to a numeral of 64 bits with the end of a value
      behind it. */
  lemma NumberOfIff(line: string, key: string, v: int)
    ensures GetI64(line, key) == Good(v) <==>
              var text := JsonFields.Get(line, key);
              && text.Some? && -0x8000_0000_0000_0000 <= v < 0x8000_0000_0000_0000
              && exists n, rest :: IsNumber(text.value, n, rest) && NumeralValue(n) == v
  {
    if JsonFields.Get(line, key).Some? {
      ReadNumberIff(JsonFields.Get(line, key).value, v);
    }
  }
}
