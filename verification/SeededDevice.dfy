/** The flash image as the host sees it once a profile has been seeded: which bytes a read subcommand
    returns at which address. */
module SeededDevice {
  import opened ControllerState
  import opened Options
  import opened Spi
  import opened SpiSeed
  import Dispatcher

  // ---- The address map ----

  /** The bytes the fixed fields occupy: the device type, the IMU, left and right stick calibration, the
      colours and the three user calibration marks. */
  predicate FixedByte(a: nat) {
    || a == 0x6012
    || 0x6020 <= a < 0x6038
    || 0x603D <= a < 0x604F
    || 0x6050 <= a < 0x6056
    || 0x8010 <= a < 0x8012 || 0x801B <= a < 0x801D || 0x8026 <= a < 0x8028
  }

  predicate In(r: Range, a: nat) {
    r.address <= a < r.address + r.size
  }

  lemma FixedBytes(a: nat)
    ensures FixedByte(a) <==> exists f :: 0 <= f < |FIXED| && In(FIXED[f], a)
  {
    if FixedByte(a) {
      var f := if a == 0x6012 then 0 else if a < 0x6038 then 2 else if a < 0x6046 then 3 else if a < 0x604F then 4
               else if a < 0x6056 then 1 else if a < 0x8012 then 5 else if a < 0x801D then 6 else 7;
      assert In(FIXED[f], a);
    }
  }

  lemma OverlapIff(a: Range, b: Range)
    requires a.size > 0 && b.size > 0
    ensures Overlap(a, b) <==> exists x :: In(a, x) && In(b, x)
  {
    if Overlap(a, b) {
      var x := if a.address < b.address then b.address else a.address;
      assert In(a, x) && In(b, x);
    }
  }

  /** An extra entry is in order exactly if it has bytes, ends within the 64 KiB of storage and holds no
      byte of a fixed field. */
  lemma EntryOkIff(e: Entry)
    ensures EntryOk(e) <==>
              && e.data.Some? && e.data.value != [] && e.address + |e.data.value| <= 0x1_0000
              && forall a :: In(RangeOf(e), a) ==> !FixedByte(a)
  {
    if e.data.Some? && e.data.value != [] {
      var r := RangeOf(e);
      if f :| 0 <= f < |FIXED| && Overlap(r, FIXED[f]) {
        OverlapIff(r, FIXED[f]);
        var a :| In(r, a) && In(FIXED[f], a);
        FixedBytes(a);
      }
      if a :| In(r, a) && FixedByte(a) {
        FixedBytes(a);
        var f :| 0 <= f < |FIXED| && In(FIXED[f], a);
        OverlapIff(r, FIXED[f]);
      }
    }
  }

  /** The fault of an entry: out of range exactly if it has bytes and ends beyond the storage. */
  lemma FaultIff(e: Entry)
    requires !EntryOk(e)
    ensures var beyond := e.data.Some? && e.data.value != [] && e.address + |e.data.value| > 0x1_0000;
            Fault(e) == if beyond then AddressOutOfRange else InvalidArgument
  {
  }

  // ---- What the host reads ----

  /** A read subcommand for as many bytes at this address is answered with these bytes. */
  predicate HostReads(c: Dispatcher.Context, lights: Dispatcher.Lights, address: U32, bytes: Option<seq<U8>>) {
    bytes.Some? && |bytes.value| <= 0x1D &&
    Dispatcher.ReadPayload(c, lights, address, |bytes.value|) == bytes
  }

  /** The device's image is that of the seeded profile. */
  predicate Seeded(image: seq<U8>, p: Profile, c: Dispatcher.Context)
    requires |image| == STORAGE_SIZE && ProfileOk(p)
  {
    BlocksApart(p);
    c.image == WriteBlocks(image, Blocks(p))
  }

  lemma BlockReads(image: seq<U8>, p: Profile, c: Dispatcher.Context, i: nat)
    requires |image| == STORAGE_SIZE && ProfileOk(p) && Seeded(image, p, c) && i < |Blocks(p)|
    ensures var b := Blocks(p)[i];
            b.data.Some? && ReadRange(c.image, c.erased, b.address, |b.data.value|) == b.data.value
  {
    BlocksApart(p);
    var b := Blocks(p)[i];
    assert Writable(b);
    var read := ReadRange(c.image, c.erased, b.address, |b.data.value|);
    forall k | 0 <= k < |read| ensures read[k] == b.data.value[k] {
      SeededImage(image, p, b.address + k);
      assert Covers(b, b.address + k);
    }
  }

  lemma FieldReads(image: seq<U8>, p: Profile, c: Dispatcher.Context, lights: Dispatcher.Lights, i: nat)
    requires |image| == STORAGE_SIZE && ProfileOk(p) && Seeded(image, p, c) && i < |FIXED|
    requires FIXED[i].size <= 0x1D && FIXED[i].address < 0x1_0000
    ensures HostReads(c, lights, FIXED[i].address, FixedFields(p)[i])
  {
    BlockReads(image, p, c, i);
    assert Blocks(p)[i] == Entry(FIXED[i].address, FixedFields(p)[i]);
    Dispatcher.OneRead(c, lights, FIXED[i].address, FIXED[i].size);
  }

  lemma FactoryReads(image: seq<U8>, p: Profile, c: Dispatcher.Context, lights: Dispatcher.Lights)
    requires |image| == STORAGE_SIZE && ProfileOk(p) && Seeded(image, p, c)
    ensures HostReads(c, lights, 0x6012, p.deviceType) && HostReads(c, lights, 0x6020, p.imuCalibration)
    ensures HostReads(c, lights, 0x603D, p.leftStick) && HostReads(c, lights, 0x6046, p.rightStick)
    ensures HostReads(c, lights, 0x6050, p.colors)
  {
    FieldReads(image, p, c, lights, 0);
    FieldReads(image, p, c, lights, 1);
    FieldReads(image, p, c, lights, 2);
    FieldReads(image, p, c, lights, 3);
    FieldReads(image, p, c, lights, 4);
  }

  lemma UserReads(image: seq<U8>, p: Profile, c: Dispatcher.Context, lights: Dispatcher.Lights)
    requires |image| == STORAGE_SIZE && ProfileOk(p) && Seeded(image, p, c)
    ensures HostReads(c, lights, 0x8010, p.userLeftMagic) && HostReads(c, lights, 0x801B, p.userRightMagic)
    ensures HostReads(c, lights, 0x8026, p.userImuMagic)
  {
    FieldReads(image, p, c, lights, 5);
    FieldReads(image, p, c, lights, 6);
    FieldReads(image, p, c, lights, 7);
  }

  /** For every valid profile, whatever the image was before and whatever extra entries there are, the
      host reads each field back at its own address. */
  lemma HostReadsTheProfile(image: seq<U8>, p: Profile, c: Dispatcher.Context, lights: Dispatcher.Lights)
    requires |image| == STORAGE_SIZE && ProfileOk(p) && Seeded(image, p, c)
    ensures HostReads(c, lights, 0x6012, p.deviceType)
    ensures HostReads(c, lights, 0x6020, p.imuCalibration)
    ensures HostReads(c, lights, 0x603D, p.leftStick) && HostReads(c, lights, 0x6046, p.rightStick)
    ensures HostReads(c, lights, 0x6050, p.colors)
    ensures HostReads(c, lights, 0x8010, p.userLeftMagic) && HostReads(c, lights, 0x801B, p.userRightMagic)
    ensures HostReads(c, lights, 0x8026, p.userImuMagic)
  {
    FactoryReads(image, p, c, lights);
    UserReads(image, p, c, lights);
  }

  /** The extra entries read back too, and every byte outside the fields and the entries is as it was. */
  lemma TheRestReads(image: seq<U8>, p: Profile, c: Dispatcher.Context)
    requires |image| == STORAGE_SIZE && ProfileOk(p) && Seeded(image, p, c)
    ensures p.extras.Extras? ==> forall e :: e in p.extras.entries ==>
              e.data.Some? && ReadRange(c.image, c.erased, e.address, |e.data.value|) == e.data.value
    ensures forall a :: 0 <= a < STORAGE_SIZE && !FixedByte(a) && !ExtraByte(p, a) ==> c.image[a] == image[a]
  {
    var blocks := Blocks(p);
    if p.extras.Extras? {
      forall e | e in p.extras.entries
        ensures e.data.Some? && ReadRange(c.image, c.erased, e.address, |e.data.value|) == e.data.value
      {
        var i :| 0 <= i < |p.extras.entries| && p.extras.entries[i] == e;
        BlockReads(image, p, c, |FIXED| + i);
      }
    }
    forall a | 0 <= a < STORAGE_SIZE && !FixedByte(a) && !ExtraByte(p, a) ensures c.image[a] == image[a] {
      SeededImage(image, p, a);
      forall i | 0 <= i < |blocks| ensures !Covers(blocks[i], a) {
        Uncovered(p, a, i);
      }
    }
  }

  predicate ExtraByte(p: Profile, a: nat) {
    p.extras.Extras? && exists e :: e in p.extras.entries && Covers(e, a)
  }

  lemma Uncovered(p: Profile, a: nat, i: nat)
    requires ProfileOk(p) && !FixedByte(a) && !ExtraByte(p, a) && i < |Blocks(p)|
    ensures !Covers(Blocks(p)[i], a)
  {
    if i < |FIXED| {
      FixedBytes(a);
      assert !In(FIXED[i], a);
    } else {
      assert Blocks(p)[i] == p.extras.entries[i - |FIXED|];
    }
  }

  // ---- The development profile ----

  const DEVELOPMENT := Profile(
    Some([0x03]), Some([0x0D, 0x0D, 0x0D, 0xFF, 0xFF, 0xFF]),
    Some([0xB0, 0xFF, 0xB9, 0xFE, 0xE0, 0x00, 0x00, 0x40, 0x00, 0x40, 0x00, 0x40,
          0x0E, 0x00, 0xDF, 0xFF, 0xD0, 0xFF, 0x3B, 0x34, 0x3B, 0x34, 0x3B, 0x34]),
    Some([0xB2, 0xA1, 0x20, 0x80, 0xF0, 0x7F, 0x10, 0x80, 0x00]),
    Some([0xB2, 0xA1, 0x30, 0x80, 0xE0, 0x7F, 0x20, 0x80, 0x00]),
    Some([0xB2, 0xA1]), Some([0xB2, 0xA1]), Some([0xB2, 0xA1]), NullExtras(0))

  /** The development profile is valid; the host takes the device for a Pro Controller and reads the two
      sticks' own calibrations. */
  lemma DevelopmentReads(image: seq<U8>, c: Dispatcher.Context, lights: Dispatcher.Lights)
    requires |image| == STORAGE_SIZE
    ensures ProfileOk(DEVELOPMENT)
    ensures Seeded(image, DEVELOPMENT, c) ==>
              && HostReads(c, lights, 0x6012, Some([0x03]))
              && HostReads(c, lights, 0x603D, Some([0xB2, 0xA1, 0x20, 0x80, 0xF0, 0x7F, 0x10, 0x80, 0x00]))
              && HostReads(c, lights, 0x6046, Some([0xB2, 0xA1, 0x30, 0x80, 0xE0, 0x7F, 0x20, 0x80, 0x00]))
  {
    assert FieldsOk(DEVELOPMENT);
    if Seeded(image, DEVELOPMENT, c) {
      HostReadsTheProfile(image, DEVELOPMENT, c, lights);
    }
  }
}
