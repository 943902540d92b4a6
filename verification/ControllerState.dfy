/** The controller state that clients submit and the report pump transmits, with the
    fixed-width integers it is made of. */
module ControllerState {

  type U8 = x: int | 0 <= x < 0x100
  type U16 = x: int | 0 <= x < 0x1_0000
  type U32 = x: int | 0 <= x < 0x1_0000_0000
  type U64 = x: int | 0 <= x < 0x1_0000_0000_0000_0000
  type I16 = x: int | -0x8000 <= x < 0x8000

  const STICK_MAX := 0x0FFF
  const STICK_CENTRE := 2048

  datatype State = State(
    buttons: U32,
    lx: U16, ly: U16, rx: U16, ry: U16,
    accelX: I16, accelY: I16, accelZ: I16,
    gyroX: I16, gyroY: I16, gyroZ: I16)

  const NEUTRAL := State(0, STICK_CENTRE, STICK_CENTRE, STICK_CENTRE, STICK_CENTRE, 0, 0, 0, 0, 0, 0)

  /** No bit outside the defined button mask: bits 0-13 and 16-23 are defined. */
  predicate ButtonsDefined(buttons: int) {
    0 <= buttons < 0x100_0000 && (buttons / 0x4000) % 4 == 0
  }

  /** In terms of the bits: 14 low ones, two undefined, 8 defined, 8 undefined. */
  lemma ButtonsDefinedIff(low: nat, gap: nat, high: nat, top: nat)
    requires low < 0x4000 && gap < 4 && high < 0x100 && top < 0x100
    ensures ButtonsDefined(low + 0x4000 * gap + 0x1_0000 * high + 0x100_0000 * top) <==> gap == 0 && top == 0
  {
    var b := low + 0x4000 * gap + 0x1_0000 * high + 0x100_0000 * top;
    assert b / 0x4000 == gap + 4 * high + 0x400 * top;
  }

  /** The states the IPC decoder lets through. */
  predicate InRange(s: State) {
    && ButtonsDefined(s.buttons)
    && s.lx <= 0x0FFF && s.ly <= 0x0FFF && s.rx <= 0x0FFF && s.ry <= 0x0FFF
  }
}

/** A value or nothing. */
module Options {
  datatype Option<+T> = None | Some(value: T)
}
