/** The packed HID reports: the standard full report (0x30) and the subcommand reply (0x21). */
module InputReport {
  import opened ControllerState
  import opened Options

  const FULL_ID: U8 := 0x30
  const REPLY_ID: U8 := 0x21
  const FULL_SIZE := 49
  const REPLY_SIZE := 50
  const REPLY_DATA_OFFSET := 15
  const REPLY_MAX_DATA := 35

  datatype ReportOptions = ReportOptions(timer: U8, battery: U8, vibrator: U8)
  datatype BuildResult = Ok | BufferTooSmall | DataTooLarge

  // ---- The layout, as values ----

  function ClampStick(v: U16): (c: U16) {
    if v > STICK_MAX then STICK_MAX else v
  }

  function StickBytes(x: U16, y: U16): (b: seq<U8>)
    ensures |b| == 3
  {
    var cx, cy := ClampStick(x), ClampStick(y);
    [cx % 0x100, cx / 0x100 % 0x10 + cy % 0x10 * 0x10, cy / 0x10 % 0x100]
  }

  /** Two's complement, low byte first. */
  function I16Bytes(v: I16): (b: seq<U8>)
    ensures |b| == 2
  {
    var raw := if v < 0 then v + 0x1_0000 else v;
    [raw % 0x100, raw / 0x100 % 0x100]
  }

  function AxisBytes(x: I16, y: I16, z: I16): (b: seq<U8>)
    ensures |b| == 6
  {
    I16Bytes(x) + I16Bytes(y) + I16Bytes(z)
  }

  function ImuFrame(s: State): (b: seq<U8>)
    ensures |b| == 12
  {
    AxisBytes(s.accelX, s.accelY, s.accelZ) + AxisBytes(s.gyroX, s.gyroY, s.gyroZ)
  }

  function ButtonBytes(buttons: U32): (b: seq<U8>)
    ensures |b| == 3
  {
    [buttons % 0x100, buttons / 0x100 % 0x100, buttons / 0x1_0000 % 0x100]
  }

  /** Bytes 0-12, common to both reports. */
  function Prefix(id: U8, s: State, o: ReportOptions): (b: seq<U8>)
    ensures |b| == 13
  {
    [id, o.timer, o.battery] + ButtonBytes(s.buttons) + StickBytes(s.lx, s.ly) +
    StickBytes(s.rx, s.ry) + [o.vibrator]
  }

  /** The same IMU frame n times over. */
  function ImuFrames(s: State, n: nat): (b: seq<U8>)
    ensures |b| == 12 * n
  {
    if n == 0 then [] else ImuFrames(s, n - 1) + ImuFrame(s)
  }

  function FullReport(s: State, o: ReportOptions): (b: seq<U8>)
    ensures |b| == FULL_SIZE
  {
    Prefix(FULL_ID, s, o) + ImuFrames(s, 3)
  }

  function Zeros(n: nat): (z: seq<U8>)
    ensures |z| == n
  {
    seq(n, _ => 0)
  }

  function ReplyReport(s: State, o: ReportOptions, ack: U8, subcommand: U8, data: seq<U8>): (b: seq<U8>)
    requires |data| <= REPLY_MAX_DATA
    ensures |b| == REPLY_SIZE
  {
    Prefix(REPLY_ID, s, o) + [ack, subcommand] + data + Zeros(REPLY_MAX_DATA - |data|)
  }

  // ---- A reader written against the wire layout, independent of the writers ----

  function ReadButtons(b: seq<U8>): (v: U32)
    requires |b| == 3
  {
    var lo: int, mid: int, hi: int := b[0], b[1], b[2];
    lo + mid * 0x100 + hi * 0x1_0000
  }

  function ReadStick(b: seq<U8>): ((U16, U16))
    requires |b| == 3
  {
    var b0: int, b1: int, b2: int := b[0], b[1], b[2];
    (b0 + b1 % 0x10 * 0x100, b1 / 0x10 + b2 * 0x10)
  }

  function ReadI16(b: seq<U8>): (v: I16)
    requires |b| == 2
  {
    var lo: int, hi: int := b[0], b[1];
    var raw := lo + hi * 0x100;
    if raw >= 0x8000 then raw - 0x1_0000 else raw
  }

  function ReadAxes(b: seq<U8>): ((I16, I16, I16))
    requires |b| == 6
  {
    (ReadI16(b[0..2]), ReadI16(b[2..4]), ReadI16(b[4..6]))
  }

  /** Reads the controller out of a full report, taking the IMU values from frame `frame`. */
  function ReadReport(r: seq<U8>, frame: nat): (s: Option<State>)
    requires frame < 3
  {
    if |r| != 49 || r[0] != 0x30 then None else
    var (lx, ly) := ReadStick(r[6..9]);
    var (rx, ry) := ReadStick(r[9..12]);
    var at := 13 + frame * 12;
    var (ax, ay, az) := ReadAxes(r[at..at + 6]);
    var (gx, gy, gz) := ReadAxes(r[at + 6..at + 12]);
    Some(State(ReadButtons(r[3..6]), lx, ly, rx, ry, ax, ay, az, gx, gy, gz))
  }

  function TwelveBits(v: U16): U16 {
    if v < 0x1000 then v else 0x0FFF
  }

  /** What transmission keeps of a state: 12-bit sticks and 24 buttons. */
  function Transmitted(s: State): State {
    s.(buttons := s.buttons % 0x100_0000,
       lx := TwelveBits(s.lx), ly := TwelveBits(s.ly), rx := TwelveBits(s.rx), ry := TwelveBits(s.ry))
  }

  lemma StickRoundTrip(x: U16, y: U16)
    ensures ReadStick(StickBytes(x, y)) == (TwelveBits(x), TwelveBits(y))
  {
    var cx, cy := ClampStick(x), ClampStick(y);
    assert cx == cx % 0x100 + cx / 0x100 * 0x100 && cx / 0x100 < 0x10;
    assert cy == cy % 0x10 + cy / 0x10 * 0x10 && cy / 0x10 < 0x100;
    var mid := cx / 0x100 % 0x10 + cy % 0x10 * 0x10;
    assert mid % 0x10 == cx / 0x100 && mid / 0x10 == cy % 0x10;
  }

  lemma AxesRoundTrip(x: I16, y: I16, z: I16)
    ensures ReadAxes(AxisBytes(x, y, z)) == (x, y, z)
  {
    var b := AxisBytes(x, y, z);
    assert b[0..2] == I16Bytes(x) && b[2..4] == I16Bytes(y) && b[4..6] == I16Bytes(z);
  }

  lemma ButtonsRoundTrip(b: U32)
    ensures ReadButtons(ButtonBytes(b)) == b % 0x100_0000
  {
    var low, q := b % 0x100, b / 0x100;
    var mid, p := q % 0x100, q / 0x100;
    var high, top := p % 0x100, p / 0x100;
    assert b / 0x1_0000 == p;
    assert b == low + 0x100 * mid + 0x1_0000 * high + 0x100_0000 * top;
    assert low + 0x100 * mid + 0x1_0000 * high < 0x100_0000;
  }

  lemma PrefixFields(id: U8, s: State, o: ReportOptions)
    ensures var r := Prefix(id, s, o);
            && r[0] == id && r[1] == o.timer && r[2] == o.battery && r[12] == o.vibrator
            && r[3..6] == ButtonBytes(s.buttons)
            && r[6..9] == StickBytes(s.lx, s.ly) && r[9..12] == StickBytes(s.rx, s.ry)
  {
    FieldPositions([id, o.timer, o.battery], ButtonBytes(s.buttons), StickBytes(s.lx, s.ly), StickBytes(s.rx, s.ry),
        [o.vibrator]);
  }

  lemma FieldPositions(head: seq<U8>, buttons: seq<U8>, left: seq<U8>, right: seq<U8>, tail: seq<U8>)
    requires |head| == |buttons| == |left| == |right| == 3 && |tail| == 1
    ensures var r := head + buttons + left + right + tail;
            r[0..3] == head && r[3..6] == buttons && r[6..9] == left && r[9..12] == right && r[12] == tail[0]
  {
  }

  lemma {:induction false} ImuFramesAt(s: State, n: nat, frame: nat)
    requires frame < n
    ensures ImuFrames(s, n)[frame * 12..frame * 12 + 12] == ImuFrame(s)
    decreases n
  {
    if frame < n - 1 {
      ImuFramesAt(s, n - 1, frame);
      assert ImuFrames(s, n)[frame * 12..frame * 12 + 12] == ImuFrames(s, n - 1)[frame * 12..frame * 12 + 12];
    }
  }

  /** Where each field lies in the full report. */
  lemma FullReportFields(s: State, o: ReportOptions, frame: nat)
    requires frame < 3
    ensures var r, at := FullReport(s, o), 13 + frame * 12;
            && r[0] == 0x30 && r[1] == o.timer && r[2] == o.battery && r[12] == o.vibrator
            && r[3..6] == ButtonBytes(s.buttons)
            && r[6..9] == StickBytes(s.lx, s.ly) && r[9..12] == StickBytes(s.rx, s.ry)
            && r[at..at + 6] == AxisBytes(s.accelX, s.accelY, s.accelZ)
            && r[at + 6..at + 12] == AxisBytes(s.gyroX, s.gyroY, s.gyroZ)
  {
    PrefixFields(FULL_ID, s, o);
    ImuFramesAt(s, 3, frame);
    SlicesOfConcat(Prefix(FULL_ID, s, o), ImuFrames(s, 3), frame * 12, AxisBytes(s.accelX, s.accelY, s.accelZ),
        AxisBytes(s.gyroX, s.gyroY, s.gyroZ));
  }

  lemma SlicesOfConcat(a: seq<U8>, b: seq<U8>, at: nat, u: seq<U8>, v: seq<U8>)
    requires |a| == 13 && at + 12 <= |b| && |u| == |v| == 6 && b[at..at + 12] == u + v
    ensures var r := a + b;
            && r[0] == a[0] && r[1] == a[1] && r[2] == a[2] && r[12] == a[12]
            && r[3..6] == a[3..6] && r[6..9] == a[6..9] && r[9..12] == a[9..12]
            && r[13 + at..19 + at] == u && r[19 + at..25 + at] == v
  {
    var r := a + b;
    assert r[13 + at..25 + at] == b[at..at + 12];
    assert r[13 + at..19 + at] == r[13 + at..25 + at][..6];
    assert r[19 + at..25 + at] == r[13 + at..25 + at][6..];
  }

  /** Reading a full report back, from any of its three IMU frames, gives the state with the
      sticks clamped and the buttons cut; nothing else is lost. */
  lemma ReadFullReport(s: State, o: ReportOptions, frame: nat)
    requires frame < 3
    ensures ReadReport(FullReport(s, o), frame) == Some(Transmitted(s))
  {
    FullReportFields(s, o, frame);
    StickRoundTrip(s.lx, s.ly);
    StickRoundTrip(s.rx, s.ry);
    ButtonsRoundTrip(s.buttons);
    AxesRoundTrip(s.accelX, s.accelY, s.accelZ);
    AxesRoundTrip(s.gyroX, s.gyroY, s.gyroZ);
  }

  lemma TransmittedInRange(s: State)
    requires InRange(s)
    ensures Transmitted(s) == s
  {
    assert s.buttons % 0x100_0000 == s.buttons;
  }

  lemma NeutralBytes()
    ensures ButtonBytes(NEUTRAL.buttons) == [0, 0, 0]
    ensures StickBytes(NEUTRAL.lx, NEUTRAL.ly) == StickBytes(NEUTRAL.rx, NEUTRAL.ry) == [0x00, 0x08, 0x80]
    ensures AxisBytes(NEUTRAL.accelX, NEUTRAL.accelY, NEUTRAL.accelZ) == [0, 0, 0, 0, 0, 0]
    ensures AxisBytes(NEUTRAL.gyroX, NEUTRAL.gyroY, NEUTRAL.gyroZ) == [0, 0, 0, 0, 0, 0]
  {
    assert I16Bytes(0) == [0, 0];
  }

  /** The neutral report: no button, both sticks in the middle, nothing from the sensors. */
  lemma NeutralReport(o: ReportOptions, frame: nat)
    requires frame < 3
    ensures var r, at := FullReport(NEUTRAL, o), 13 + frame * 12;
            && r[3..6] == [0, 0, 0] && r[6..9] == r[9..12] == [0x00, 0x08, 0x80]
            && r[at..at + 6] == r[at + 6..at + 12] == [0, 0, 0, 0, 0, 0]
  {
    NeutralBytes();
    FullReportFields(NEUTRAL, o, frame);
  }

  /** Every state the IPC decoder accepts survives transmission unchanged, so two accepted
      states with the same report are the same state. */
  lemma AcceptedStatesAreLossless(s: State, t: State, o: ReportOptions)
    requires InRange(s) && InRange(t)
    ensures ReadReport(FullReport(s, o), 0) == Some(s)
    ensures FullReport(s, o) == FullReport(t, o) ==> s == t
  {
    ReadFullReport(s, o, 0);
    ReadFullReport(t, o, 0);
    TransmittedInRange(s);
    TransmittedInRange(t);
  }

  /** A reply shows the same controller as the full report for the same state and options. */
  lemma ReplySharesPrefix(s: State, o: ReportOptions, ack: U8, subcommand: U8, data: seq<U8>)
    requires |data| <= REPLY_MAX_DATA
    ensures ReplyReport(s, o, ack, subcommand, data)[1..13] == FullReport(s, o)[1..13]
    ensures ReplyReport(s, o, ack, subcommand, data)[13..15] == [ack, subcommand]
    ensures ReplyReport(s, o, ack, subcommand, data)[REPLY_DATA_OFFSET..REPLY_DATA_OFFSET + |data|] == data
  {
    var reply, full := ReplyReport(s, o, ack, subcommand, data), FullReport(s, o);
    assert reply[..13] == Prefix(REPLY_ID, s, o) && full[..13] == Prefix(FULL_ID, s, o);
    forall i | 1 <= i < 13 ensures reply[i] == full[i] {
      assert reply[i] == reply[..13][i] && full[i] == full[..13][i];
    }
  }

  // ---- The writers, in place ----

  method WriteStick(out: array<U8>, at: nat, x: U16, y: U16)
    requires at + 3 <= out.Length
    modifies out
    ensures out[..] == old(out[..at]) + StickBytes(x, y) + old(out[at + 3..])
  {
    var clampedX, clampedY := ClampStick(x), ClampStick(y);
    out[at] := clampedX % 0x100;
    out[at + 1] := clampedX / 0x100 % 0x10 + clampedY % 0x10 * 0x10;
    out[at + 2] := clampedY / 0x10 % 0x100;
  }

  method WriteI16(out: array<U8>, at: nat, value: I16)
    requires at + 2 <= out.Length
    modifies out
    ensures out[..] == old(out[..at]) + I16Bytes(value) + old(out[at + 2..])
  {
    var raw := if value < 0 then value + 0x1_0000 else value;
    out[at] := raw % 0x100;
    out[at + 1] := raw / 0x100 % 0x100;
  }

  /** Writing b right behind a is writing a + b. */
  lemma SpliceAfter(before: seq<U8>, at: nat, a: seq<U8>, b: seq<U8>)
    requires at + |a| + |b| <= |before|
    ensures var mid := before[..at] + a + before[at + |a|..];
            mid[..at + |a|] + b + mid[at + |a| + |b|..] == before[..at] + (a + b) + before[at + |a| + |b|..]
  {
  }

  method WriteAxes(out: array<U8>, at: nat, x: I16, y: I16, z: I16)
    requires at + 6 <= out.Length
    modifies out
    ensures out[..] == old(out[..at]) + AxisBytes(x, y, z) + old(out[at + 6..])
  {
    ghost var before := out[..];
    WriteI16(out, at, x);
    assert out[..] == before[..at] + I16Bytes(x) + before[at + 2..];
    WriteI16(out, at + 2, y);
    SpliceAfter(before, at, I16Bytes(x), I16Bytes(y));
    assert out[..] == before[..at] + (I16Bytes(x) + I16Bytes(y)) + before[at + 4..];
    WriteI16(out, at + 4, z);
    SpliceAfter(before, at, I16Bytes(x) + I16Bytes(y), I16Bytes(z));
  }

  method WriteImuFrame(out: array<U8>, at: nat, state: State)
    requires at + 12 <= out.Length
    modifies out
    ensures out[..] == old(out[..at]) + ImuFrame(state) + old(out[at + 12..])
  {
    WriteAxes(out, at, state.accelX, state.accelY, state.accelZ);
    WriteAxes(out, at + 6, state.gyroX, state.gyroY, state.gyroZ);
  }

  method WriteImuFrames(out: array<U8>, at: nat, state: State)
    requires at + 36 <= out.Length
    modifies out
    ensures out[..] == old(out[..at]) + ImuFrames(state, 3) + old(out[at + 36..])
  {
    for frame := 0 to 3
      invariant out[..] == old(out[..at]) + ImuFrames(state, frame) + old(out[at + frame * 12..])
    {
      WriteImuFrame(out, at + frame * 12, state);
    }
  }

  method CopyBytes(out: array<U8>, at: nat, data: seq<U8>)
    requires at + |data| <= out.Length
    modifies out
    ensures out[..] == old(out[..at]) + data + old(out[at + |data|..])
  {
    for i := 0 to |data|
      invariant out[..] == old(out[..at]) + data[..i] + old(out[at + i..])
    {
      out[at + i] := data[i];
    }
    assert data[..|data|] == data;
  }

  method ZeroBytes(out: array<U8>, n: nat)
    requires n <= out.Length
    modifies out
    ensures out[..] == Zeros(n) + old(out[n..])
  {
    for i := 0 to n
      invariant out[..] == Zeros(i) + old(out[i..])
    {
      out[i] := 0;
    }
  }

  method WritePrefix(out: array<U8>, id: U8, state: State, options: ReportOptions)
    requires 13 <= out.Length
    modifies out
    ensures out[..] == Prefix(id, state, options) + old(out[13..])
  {
    ghost var before := out[..];
    out[0], out[1], out[2] := id, options.timer, options.battery;
    out[3], out[4], out[5] := state.buttons % 0x100, state.buttons / 0x100 % 0x100, state.buttons / 0x1_0000 % 0x100;
    assert out[..] == [id, options.timer, options.battery] + ButtonBytes(state.buttons) + before[6..];
    WriteStick(out, 6, state.lx, state.ly);
    WriteStick(out, 9, state.rx, state.ry);
    out[12] := options.vibrator;
  }

  /** Fills the buffer with the 0x30 report, or reports the size it needs and leaves it alone. */
  method BuildStandardFullReport(state: State, options: ReportOptions, out: array<U8>)
    returns (result: BuildResult, written: nat)
    modifies out
    ensures written == FULL_SIZE
    ensures result == if out.Length < FULL_SIZE then BufferTooSmall else Ok
    ensures result != Ok ==> out[..] == old(out[..])
    ensures result == Ok ==> out[..] == FullReport(state, options) + old(out[FULL_SIZE..])
  {
    if out.Length < FULL_SIZE {
      return BufferTooSmall, FULL_SIZE;
    }
    ZeroBytes(out, FULL_SIZE);
    WritePrefix(out, FULL_ID, state, options);
    WriteImuFrames(out, 13, state);
    return Ok, FULL_SIZE;
  }

  /** Fills the buffer with the 0x21 reply; data over 35 bytes is refused before the size check. */
  method BuildSubcommandReply(state: State, options: ReportOptions, ack: U8, subcommand: U8, data: seq<U8>,
      out: array<U8>)
    returns (result: BuildResult, written: nat)
    modifies out
    ensures result == if |data| > REPLY_MAX_DATA then DataTooLarge else if out.Length < REPLY_SIZE then BufferTooSmall
        else Ok
    ensures written == if result == DataTooLarge then 0 else REPLY_SIZE
    ensures result != Ok ==> out[..] == old(out[..])
    ensures result == Ok ==> out[..] == ReplyReport(state, options, ack, subcommand, data) + old(out[REPLY_SIZE..])
  {
    if |data| > REPLY_MAX_DATA {
      return DataTooLarge, 0;
    }
    if out.Length < REPLY_SIZE {
      return BufferTooSmall, REPLY_SIZE;
    }
    WriteReplyHead(state, options, ack, subcommand, out);
    CopyBytes(out, REPLY_DATA_OFFSET, data);
    return Ok, REPLY_SIZE;
  }

  /** Everything but the data, with zeros in its place. */
  method WriteReplyHead(state: State, options: ReportOptions, ack: U8, subcommand: U8, out: array<U8>)
    requires REPLY_SIZE <= out.Length
    modifies out
    ensures out[..] == Prefix(REPLY_ID, state, options) + [ack, subcommand] + Zeros(35) + old(out[REPLY_SIZE..])
  {
    ZeroBytes(out, REPLY_SIZE);
    WritePrefix(out, REPLY_ID, state, options);
    assert out[..] == Prefix(REPLY_ID, state, options) + Zeros(37) + old(out[REPLY_SIZE..]);
    CopyBytes(out, 13, [ack, subcommand]);
  }
}
