/** The subcommand dispatcher: turns an output report into a reply, reading the flash image
    and setting the player lights. */
module Dispatcher {
  import opened ControllerState
  import opened Options
  import InputReport
  import Spi

  const READ_REQUEST_SIZE := 5
  const READ_PAYLOAD_OFFSET := InputReport.REPLY_DATA_OFFSET + READ_REQUEST_SIZE

  /** None stands for a null payload pointer. */
  datatype Subcommand = Subcommand(id: U8, data: Option<seq<U8>>)

  datatype DispatchResult =
    | Replied(report: seq<U8>) | NoReply | Unsupported | Malformed | SpiReadFailed | ReplyBuildFailed

  datatype Lights = Lights(raw: U8, on: U8, flash: U8, effectiveFlash: U8, updated: bool)

  const NO_LIGHTS := Lights(0, 0, 0, 0, false)

  /** Everything a dispatch reads: the state shown, the report options, the flash image and the
      device-info reply data. */
  datatype Context = Context(
    state: State, options: InputReport.ReportOptions, image: seq<U8>, erased: U8, deviceInfo: seq<U8>)

  /** The bits of a that are not bits of b, of the n lowest. */
  function AndNot(a: nat, b: nat, n: nat): (r: nat)
    ensures r <= a
  {
    if n == 0 then 0 else (if a % 2 == 1 && b % 2 == 0 then 1 else 0) + 2 * AndNot(a / 2, b / 2, n - 1)
  }

  /** Flash bits that are not also on bits. */
  function FlashOnly(flash: U8, on: U8): (r: U8)
    ensures r <= flash
  {
    AndNot(flash, on, 4)
  }

  function LightsOf(raw: U8): Lights {
    Lights(raw, raw % 0x10, raw / 0x10 % 0x10, FlashOnly(raw / 0x10 % 0x10, raw % 0x10), true)
  }

  function BuildReply(c: Context, ack: U8, id: U8, data: seq<U8>): DispatchResult {
    if |data| > InputReport.REPLY_MAX_DATA then ReplyBuildFailed
    else Replied(InputReport.ReplyReport(c.state, c.options, ack, id, data))
  }

  function U16Le(v: U16): seq<U8> {
    [v % 0x100, v / 0x100]
  }

  function TriggerElapsedData(): seq<U8> {
    U16Le(300) + U16Le(300) + InputReport.Zeros(10)
  }

  function McuConfigData(): seq<U8> {
    [0x01, 0x00, 0xFF, 0x00, 0x08, 0x00, 0x1B, 0x01] + InputReport.Zeros(25) + [0xC8]
  }

  function ReadU32Le(d: seq<U8>): (v: U32)
    requires |d| >= 4
  {
    var b0: int, b1: int, b2: int, b3: int := d[0], d[1], d[2], d[3];
    b0 + b1 * 0x100 + b2 * 0x1_0000 + b3 * 0x100_0000
  }

  function SpiReadResult(address: U32, size: U8): Spi.SpiResult {
    if size > Spi.MAX_READ then Spi.ReadTooLarge
    else if address + size > Spi.ADDRESS_LIMIT then Spi.AddressOutOfRange
    else Spi.Ok
  }

  function SpiRead(c: Context, s: Subcommand): DispatchResult {
    if s.data.None? || |s.data.value| < READ_REQUEST_SIZE then Malformed else
    var address, size := ReadU32Le(s.data.value), s.data.value[4];
    if SpiReadResult(address, size) != Spi.Ok then SpiReadFailed
    else BuildReply(c, 0x90, s.id, s.data.value[..READ_REQUEST_SIZE] + Spi.ReadRange(c.image, c.erased, address, size))
  }

  /** The reply, and the player lights afterwards. */
  function Dispatch(c: Context, lights: Lights, s: Option<Subcommand>): (DispatchResult, Lights) {
    if s.None? then (NoReply, lights) else
    var sub := s.value;
    match sub.id
    case 0x02 => (BuildReply(c, 0x82, sub.id, c.deviceInfo), lights)
    case 0x04 => (BuildReply(c, 0x83, sub.id, TriggerElapsedData()), lights)
    case 0x21 => (BuildReply(c, 0xA0, sub.id, McuConfigData()), lights)
    case 0x08 => (BuildReply(c, 0x80, sub.id, []), lights)
    case 0x03 => (BuildReply(c, 0x80, sub.id, []), lights)
    case 0x40 => (BuildReply(c, 0x80, sub.id, []), lights)
    case 0x48 => (BuildReply(c, 0x80, sub.id, []), lights)
    case 0x10 => (SpiRead(c, sub), lights)
    case 0x30 =>
      if sub.data.None? || sub.data.value == [] then (Malformed, lights)
      else (BuildReply(c, 0x80, sub.id, []), LightsOf(sub.data.value[0]))
    case 0x31 => (BuildReply(c, 0xB0, sub.id, [lights.raw]), lights)
    case _ => (Unsupported, lights)
  }

  // ---- Reading the image in pieces ----

  /** The payload of a read request, as the host sends it. */
  function ReadRequest(address: U32, size: U8): (d: seq<U8>)
    ensures |d| == READ_REQUEST_SIZE
  {
    [address % 0x100, address / 0x100 % 0x100, address / 0x1_0000 % 0x100, address / 0x100_0000, size]
  }

  lemma ReadRequestRoundTrip(address: U32, size: U8)
    ensures ReadU32Le(ReadRequest(address, size)) == address && ReadRequest(address, size)[4] == size
  {
    assert address == address % 0x100 + address / 0x100 % 0x100 * 0x100 + address / 0x1_0000 % 0x100 * 0x1_0000
                      + address / 0x100_0000 * 0x100_0000;
  }

  /** What the host takes out of the reply to one read request. */
  function ReadPayload(c: Context, lights: Lights, address: U32, size: U8): Option<seq<U8>> {
    match Dispatch(c, lights, Some(Subcommand(0x10, Some(ReadRequest(address, size))))).0
    case Replied(report) =>
      if |report| >= READ_PAYLOAD_OFFSET + size then Some(report[READ_PAYLOAD_OFFSET..READ_PAYLOAD_OFFSET + size])
          else None
    case _ => None
  }

  /** One legal read returns exactly the image bytes at that address, behind an echo of the
      request; any other read is refused. */
  lemma OneRead(c: Context, lights: Lights, address: U32, size: U8)
    ensures ReadPayload(c, lights, address, size) ==
            if size <= 0x1D && address + size <= 0x8_0000 then Some(Spi.ReadRange(c.image, c.erased, address, size))
                else None
    ensures size <= 0x1D && address + size <= 0x8_0000 ==>
              var r := Dispatch(c, lights, Some(Subcommand(0x10, Some(ReadRequest(address, size))))).0;
              r.Replied? && |r.report| == 50 && r.report[15..20] == ReadRequest(address, size)
  {
    ReadRequestRoundTrip(address, size);
    if SpiReadResult(address, size) == Spi.Ok {
      var request := ReadRequest(address, size);
      var bytes := Spi.ReadRange(c.image, c.erased, address, size);
      assert request[..READ_REQUEST_SIZE] == request;
      InputReport.ReplySharesPrefix(c.state, c.options, 0x90, 0x10, request + bytes);
      PayloadBehindEcho(InputReport.ReplyReport(c.state, c.options, 0x90, 0x10, request + bytes), request, bytes);
    }
  }

  lemma PayloadBehindEcho(report: seq<U8>, request: seq<U8>, bytes: seq<U8>)
    requires |request| == 5 && |report| == 50 && 20 + |bytes| <= 50
    requires report[15..15 + |request + bytes|] == request + bytes
    ensures report[15..20] == request && report[20..20 + |bytes|] == bytes
  {
    var both := report[15..20 + |bytes|];
    assert report[15..20] == both[..5];
    assert report[20..20 + |bytes|] == both[5..];
  }

  function Sum(sizes: seq<U8>): nat {
    if sizes == [] then 0 else Sum(sizes[..|sizes| - 1]) + sizes[|sizes| - 1]
  }

  /** The payloads of consecutive reads of the given sizes, one after the other. */
  function ReadInPieces(c: Context, lights: Lights, address: U32, sizes: seq<U8>): Option<seq<U8>> {
    if sizes == [] then Some([]) else
    var n := |sizes| - 1;
    var before, at := ReadInPieces(c, lights, address, sizes[..n]), address + Sum(sizes[..n]);
    if before.None? || at >= 0x1_0000_0000 then None else
    match ReadPayload(c, lights, at, sizes[n])
    case None => None
    case Some(piece) => Some(before.value + piece)
  }

  /** Any split of a legal address range into legal reads reassembles the image, with erased
      bytes above the storage. */
  lemma {:induction false} PiecesReassemble(c: Context, lights: Lights, address: U32, sizes: seq<U8>)
    requires forall i :: 0 <= i < |sizes| ==> sizes[i] <= 0x1D
    requires address + Sum(sizes) <= 0x8_0000
    ensures ReadInPieces(c, lights, address, sizes) == Some(Spi.ReadRange(c.image, c.erased, address, Sum(sizes)))
    decreases |sizes|
  {
    if sizes != [] {
      var n := |sizes| - 1;
      PiecesReassemble(c, lights, address, sizes[..n]);
      OneRead(c, lights, address + Sum(sizes[..n]), sizes[n]);
      Spi.ReadRangeJoins(c.image, c.erased, address, Sum(sizes[..n]), sizes[n]);
    }
  }

  // ---- Player lights ----

  lemma LightsAreSet(c: Context, lights: Lights, data: seq<U8>)
    requires data != []
    ensures var r := Dispatch(c, lights, Some(Subcommand(0x30, Some(data))));
            r.0.Replied? && r.1 == LightsOf(data[0])
  {
  }

  lemma LightsAreGot(c: Context, lights: Lights)
    ensures var r := Dispatch(c, lights, Some(Subcommand(0x31, None)));
            r.0.Replied? && r.1 == lights && |r.0.report| == 50 && r.0.report[15] == lights.raw
  {
    InputReport.ReplySharesPrefix(c.state, c.options, 0xB0, 0x31, [lights.raw]);
    var report := InputReport.ReplyReport(c.state, c.options, 0xB0, 0x31, [lights.raw]);
    assert report[15] == report[15..16][0];
  }

  /** Setting the lights and asking for them gives back the byte that was set, and asking
      changes nothing. */
  lemma LightsReadBack(c: Context, lights: Lights, data: seq<U8>)
    requires data != []
    ensures var after := Dispatch(c, lights, Some(Subcommand(0x30, Some(data)))).1;
            var got := Dispatch(c, after, Some(Subcommand(0x31, None)));
            got.1 == after && got.0.Replied? && |got.0.report| == 50 && got.0.report[15] == data[0]
  {
    LightsAreSet(c, lights, data);
    LightsAreGot(c, LightsOf(data[0]));
  }

  function Pow2(n: nat): (p: nat)
    ensures p > 0
  {
    if n == 0 then 1 else 2 * Pow2(n - 1)
  }

  /** A row of lights as a number, the first one lowest. */
  function Number(b: seq<bool>): (n: nat)
    ensures n < Pow2(|b|)
  {
    if b == [] then 0 else (if b[0] then 1 else 0) + 2 * Number(b[1..])
  }

  /** The lights of a number. */
  function Row(n: nat, size: nat): (b: seq<bool>)
    ensures |b| == size
  {
    if size == 0 then [] else [n % 2 == 1] + Row(n / 2, size - 1)
  }

  lemma {:induction false} RowIsNumber(n: nat, size: nat)
    requires n < Pow2(size)
    ensures Number(Row(n, size)) == n
    decreases size
  {
    if size > 0 {
      RowIsNumber(n / 2, size - 1);
      assert Row(n, size)[1..] == Row(n / 2, size - 1);
    }
  }

  /** The lights of one row that are not in the other. */
  function Without(f: seq<bool>, o: seq<bool>): (b: seq<bool>)
    requires |f| == |o|
    ensures |b| == |f|
  {
    seq(|f|, i requires 0 <= i < |f| => f[i] && !o[i])
  }

  lemma {:induction false} AndNotIs(f: seq<bool>, o: seq<bool>)
    requires |f| == |o|
    ensures AndNot(Number(f), Number(o), |f|) == Number(Without(f, o))
    decreases |f|
  {
    if f != [] {
      AndNotIs(f[1..], o[1..]);
      assert Without(f, o)[1..] == Without(f[1..], o[1..]);
      assert Number(f) / 2 == Number(f[1..]) && Number(o) / 2 == Number(o[1..]);
    }
  }

  /** Light by light: which are on, which flash, and which of those are not on. */
  predicate Shows(l: Lights, on: seq<bool>, flash: seq<bool>)
    requires |on| == |flash| == 4
  {
    l.updated && l.on == Number(on) && l.flash == Number(flash) && l.effectiveFlash == Number(Without(flash, on))
  }

  lemma Halves(raw: nat)
    requires raw < 0x100
    ensures raw % 0x10 < 0x10 && raw / 0x10 < 0x10 && raw / 0x10 % 0x10 == raw / 0x10
  {
  }

  /** The low half of the byte says which lights are on and the high half which flash, and a light that
      is on does not flash. */
  lemma LightsAreSplit(raw: U8)
    ensures LightsOf(raw).raw == raw && Shows(LightsOf(raw), Row(raw % 0x10, 4), Row(raw / 0x10, 4))
  {
    Halves(raw);
    assert Pow2(4) == 0x10;
    RowIsNumber(raw % 0x10, 4);
    RowIsNumber(raw / 0x10, 4);
    AndNotIs(Row(raw / 0x10, 4), Row(raw % 0x10, 4));
  }

  // ---- Every answer, byte by byte ----

  /** A 0x21 report with the controller as the full report shows it, this acknowledgement and id, and
      this data with zeros behind. */
  predicate IsReply(r: DispatchResult, c: Context, ack: U8, id: U8, data: seq<U8>) {
    && r.Replied? && |r.report| == 50 && |data| <= 35
    && r.report[0] == 0x21 && r.report[1..13] == InputReport.FullReport(c.state, c.options)[1..13]
    && r.report[13] == ack && r.report[14] == id
    && r.report[15..15 + |data|] == data && (forall i :: 15 + |data| <= i < 50 ==> r.report[i] == 0)
  }

  lemma BuiltReply(c: Context, ack: U8, id: U8, data: seq<U8>)
    ensures if |data| <= 35 then IsReply(BuildReply(c, ack, id, data), c, ack, id, data)
            else BuildReply(c, ack, id, data) == ReplyBuildFailed
  {
    if |data| <= 35 {
      var report := InputReport.ReplyReport(c.state, c.options, ack, id, data);
      InputReport.ReplySharesPrefix(c.state, c.options, ack, id, data);
      assert report[13] == report[13..15][0] && report[14] == report[13..15][1];
      assert report[0] == InputReport.Prefix(InputReport.REPLY_ID, c.state, c.options)[0];
    }
  }

  /** A host's request for bytes the device has. */
  predicate LegalRead(data: seq<U8>) {
    |data| >= 5 && data[4] <= 0x1D && ReadU32Le(data) + data[4] <= 0x8_0000
  }

  /** The answer to every subcommand but the reads of the image. */
  lemma Answers(c: Context, lights: Lights, id: U8, data: Option<seq<U8>>)
    ensures var r := Dispatch(c, lights, Some(Subcommand(id, data))).0;
            && (id in {0x03, 0x08, 0x40, 0x48} ==> IsReply(r, c, 0x80, id, []))
            && (id == 0x02 ==> if |c.deviceInfo| <= 35 then IsReply(r, c, 0x82, id, c.deviceInfo)
                               else r == ReplyBuildFailed)
            && (id == 0x04 ==> IsReply(r, c, 0x83, id, [0x2C, 0x01, 0x2C, 0x01, 0, 0, 0, 0, 0, 0, 0, 0, 0, 0]))
            && (id == 0x21 ==> IsReply(r, c, 0xA0, id, [0x01, 0x00, 0xFF, 0x00, 0x08, 0x00, 0x1B, 0x01] +
                                                       InputReport.Zeros(25) + [0xC8]))
            && (id == 0x30 ==> if data.None? || data.value == [] then r == Malformed else IsReply(r, c, 0x80, id, []))
            && (id == 0x31 ==> IsReply(r, c, 0xB0, id, [lights.raw]))
            && (id !in {0x02, 0x03, 0x04, 0x08, 0x10, 0x21, 0x30, 0x31, 0x40, 0x48} ==> r == Unsupported)
  {
    BuiltReply(c, 0x80, id, []);
    BuiltReply(c, 0x82, id, c.deviceInfo);
    TriggerData();
    BuiltReply(c, 0x83, id, TriggerElapsedData());
    BuiltReply(c, 0xA0, id, McuConfigData());
    BuiltReply(c, 0xB0, id, [lights.raw]);
  }

  lemma TriggerData()
    ensures TriggerElapsedData() == [0x2C, 0x01, 0x2C, 0x01, 0, 0, 0, 0, 0, 0, 0, 0, 0, 0]
  {
  }

  lemma ReadAnswers(c: Context, lights: Lights, data: Option<seq<U8>>)
    ensures var r := Dispatch(c, lights, Some(Subcommand(0x10, data))).0;
            if data.None? || |data.value| < 5 then r == Malformed
            else if !LegalRead(data.value) then r == SpiReadFailed
            else IsReply(r, c, 0x90, 0x10, data.value[..5] +
                                           Spi.ReadRange(c.image, c.erased, ReadU32Le(data.value), data.value[4]))
  {
    if data.Some? && |data.value| >= 5 && LegalRead(data.value) {
      BuiltReply(c, 0x90, 0x10,
          data.value[..5] + Spi.ReadRange(c.image, c.erased, ReadU32Le(data.value), data.value[4]));
    }
  }

  /** Every reply is a whole 0x21 report for its subcommand, so the reply ring never refuses it for its
      size. */
  lemma RepliesFit(c: Context, lights: Lights, s: Subcommand)
    ensures var r := Dispatch(c, lights, Some(s)).0;
            r.Replied? ==> |r.report| == 50 && r.report[0] == 0x21 && r.report[14] == s.id
  {
    if s.id == 0x10 {
      ReadAnswers(c, lights, s.data);
    } else {
      Answers(c, lights, s.id, s.data);
    }
  }

  /** Nothing but a set-lights subcommand with data changes the lights. */
  lemma LightsChangeIff(c: Context, lights: Lights, s: Option<Subcommand>)
    ensures var after := Dispatch(c, lights, s).1;
            after == if s.Some? && s.value.id == 0x30 && s.value.data.Some? && s.value.data.value != []
                     then LightsOf(s.value.data.value[0]) else lights
  {
  }

  // ---- The dispatcher over its buffers ----

  method SpiReadReply(flash: Spi.Flash, c: Context, s: Subcommand) returns (result: DispatchResult)
    requires flash.Valid() && flash.data[..] == c.image && flash.fallback == c.erased
    ensures result == SpiRead(c, s)
  {
    if s.data.None? || |s.data.value| < READ_REQUEST_SIZE {
      return Malformed;
    }
    var request := s.data.value;
    var replyData := new U8[READ_REQUEST_SIZE + Spi.MAX_READ];
    for i := 0 to READ_REQUEST_SIZE
      invariant replyData[..i] == request[..i]
    {
      replyData[i] := request[i];
    }
    var address := ReadU32Le(request);
    var read, size := flash.Read(address, request[4], replyData, READ_REQUEST_SIZE, Spi.MAX_READ);
    if read != Spi.Ok {
      return SpiReadFailed;
    }
    var data := replyData[..READ_REQUEST_SIZE + size];
    assert data == request[..READ_REQUEST_SIZE] + Spi.ReadRange(c.image, c.erased, address, request[4]);
    result := Reply(c, 0x90, s.id, data);
  }

  method Reply(c: Context, ack: U8, id: U8, data: seq<U8>) returns (result: DispatchResult)
    ensures result == BuildReply(c, ack, id, data)
  {
    var report := new U8[InputReport.REPLY_SIZE](_ => 0);
    var built, written := InputReport.BuildSubcommandReply(c.state, c.options, ack, id, data, report);
    if built != InputReport.Ok {
      return ReplyBuildFailed;
    }
    return Replied(report[..written]);
  }

  class Switchboard {
    const flash: Spi.Flash
    var lights: Lights

    constructor (flash: Spi.Flash)
      ensures this.flash == flash && lights == NO_LIGHTS
    {
      this.flash := flash;
      lights := NO_LIGHTS;
    }

    method Handle(c: Context, s: Option<Subcommand>) returns (result: DispatchResult)
      requires flash.Valid() && flash.data[..] == c.image && flash.fallback == c.erased
      modifies this`lights
      ensures (result, lights) == Dispatch(c, old(lights), s)
    {
      if s.None? {
        return NoReply;
      }
      var sub := s.value;
      if sub.id == 0x02 {
        result := Reply(c, 0x82, sub.id, c.deviceInfo);
      } else if sub.id == 0x04 {
        result := Reply(c, 0x83, sub.id, TriggerElapsedData());
      } else if sub.id == 0x21 {
        result := Reply(c, 0xA0, sub.id, McuConfigData());
      } else if sub.id in {0x08, 0x03, 0x40, 0x48} {
        result := Reply(c, 0x80, sub.id, []);
      } else if sub.id == 0x10 {
        result := SpiReadReply(flash, c, sub);
      } else if sub.id == 0x30 {
        if sub.data.None? || sub.data.value == [] {
          return Malformed;
        }
        lights := LightsOf(sub.data.value[0]);
        result := Reply(c, 0x80, sub.id, []);
      } else if sub.id == 0x31 {
        result := Reply(c, 0xB0, sub.id, [lights.raw]);
      } else {
        result := Unsupported;
      }
    }
  }
}
