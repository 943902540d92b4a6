/** Seeding the flash image from a profile: everything is validated before anything is written. */
module SpiSeed {
  import opened ControllerState
  import opened Options
  import opened Spi

  /** A region of the image and its contents; None stands for a null pointer. */
  datatype Entry = Entry(address: U32, data: Option<seq<U8>>)

  datatype Extras = NullExtras(count: nat) | Extras(entries: seq<Entry>)

  datatype Profile = Profile(
    deviceType: Option<seq<U8>>, colors: Option<seq<U8>>, imuCalibration: Option<seq<U8>>,
    leftStick: Option<seq<U8>>, rightStick: Option<seq<U8>>,
    userLeftMagic: Option<seq<U8>>, userRightMagic: Option<seq<U8>>, userImuMagic: Option<seq<U8>>,
    extras: Extras)

  datatype Range = Range(address: nat, size: nat)

  /** The fixed fields, in the order they are written. */
  const FIXED: seq<Range> := [
    Range(0x6012, 1), Range(0x6050, 6), Range(0x6020, 24), Range(0x603D, 9), Range(0x6046, 9),
    Range(0x8010, 2), Range(0x801B, 2), Range(0x8026, 2)]

  function FixedFields(p: Profile): (f: seq<Option<seq<U8>>>)
    ensures |f| == |FIXED|
  {
    [p.deviceType, p.colors, p.imuCalibration, p.leftStick, p.rightStick, p.userLeftMagic, p.userRightMagic,
        p.userImuMagic]
  }

  predicate Overlap(a: Range, b: Range) {
    a.address < b.address + b.size && b.address < a.address + a.size
  }

  function RangeOf(e: Entry): Range {
    Range(e.address, if e.data.Some? then |e.data.value| else 0)
  }

  function BoundaryResult(e: Entry): SpiResult {
    if e.data.None? || e.data.value == [] then InvalidArgument
    else if e.address + |e.data.value| > STORAGE_SIZE then AddressOutOfRange
    else Ok
  }

  // ---- Validity, independent of the order of checks ----

  predicate FieldsOk(p: Profile) {
    forall i :: 0 <= i < |FIXED| ==> FixedFields(p)[i].Some? && |FixedFields(p)[i].value| == FIXED[i].size
  }

  predicate EntryOk(e: Entry) {
    BoundaryResult(e) == Ok && forall f :: 0 <= f < |FIXED| ==> !Overlap(RangeOf(e), FIXED[f])
  }

  predicate PairwiseApart(entries: seq<Entry>) {
    forall i, j :: 0 <= i < j < |entries| ==> !Overlap(RangeOf(entries[j]), RangeOf(entries[i]))
  }

  predicate ExtrasOk(entries: seq<Entry>) {
    (forall i :: 0 <= i < |entries| ==> EntryOk(entries[i])) && PairwiseApart(entries)
  }

  predicate ProfileOk(p: Profile) {
    && FieldsOk(p)
    && match p.extras
       case NullExtras(count) => count == 0
       case Extras(entries) => ExtrasOk(entries)
  }

  /** The blocks a valid profile writes. */
  function Blocks(p: Profile): seq<Entry>
    requires FieldsOk(p)
  {
    seq(|FIXED|, i requires 0 <= i < |FIXED| => Entry(FIXED[i].address, FixedFields(p)[i])) +
    (if p.extras.Extras? then p.extras.entries else [])
  }

  // ---- The image ----

  predicate Writable(e: Entry) {
    e.data.Some? && e.address + |e.data.value| <= STORAGE_SIZE
  }

  predicate AllWritable(blocks: seq<Entry>) {
    forall i :: 0 <= i < |blocks| ==> Writable(blocks[i])
  }

  function WriteBlocks(image: seq<U8>, blocks: seq<Entry>): (r: seq<U8>)
    requires |image| == STORAGE_SIZE && AllWritable(blocks)
    ensures |r| == STORAGE_SIZE
  {
    if blocks == [] then image else
    var last := blocks[|blocks| - 1];
    WriteAt(WriteBlocks(image, blocks[..|blocks| - 1]), last.address, last.data.value)
  }

  predicate Covers(b: Entry, a: nat) {
    b.data.Some? && b.address <= a < b.address + |b.data.value|
  }

  /** `byte` is what address `a` must read as once `blocks` are in the image: the byte of the
      block that covers it, or what was there. */
  predicate ReadsBack(image: seq<U8>, blocks: seq<Entry>, byte: U8, a: nat)
    requires a < |image|
  {
    && (forall i :: 0 <= i < |blocks| && Covers(blocks[i], a) ==> byte == blocks[i].data.value[a - blocks[i].address])
    && ((forall i :: 0 <= i < |blocks| ==> !Covers(blocks[i], a)) ==> byte == image[a])
  }

  /** Pairwise separate blocks all survive each other: a covered address reads back the byte
      of its block, any other address is as it was. */
  lemma {:induction false} WrittenBlocksReadBack(image: seq<U8>, blocks: seq<Entry>, a: nat)
    requires |image| == STORAGE_SIZE && a < STORAGE_SIZE && AllWritable(blocks)
    requires PairwiseApart(blocks)
    ensures ReadsBack(image, blocks, WriteBlocks(image, blocks)[a], a)
    decreases |blocks|
  {
    if blocks != [] {
      var n := |blocks| - 1;
      var shorter := blocks[..n];
      WrittenBlocksReadBack(image, shorter, a);
      var last := blocks[n];
      WriteAtByte(WriteBlocks(image, shorter), last.address, last.data.value, a);
      ReadsBackSnoc(image, blocks, WriteBlocks(image, shorter)[a], a);
    }
  }

  lemma WriteAtByte(image: seq<U8>, address: nat, bytes: seq<U8>, a: nat)
    requires address + |bytes| <= |image| && a < |image|
    ensures WriteAt(image, address, bytes)[a] ==
            if address <= a < address + |bytes| then bytes[a - address] else image[a]
  {
  }

  /** What address a must read as with one more block: that block's byte, or what it read as before. */
  lemma ReadsBackSnoc(image: seq<U8>, blocks: seq<Entry>, before: U8, a: nat)
    requires a < |image| && blocks != [] && PairwiseApart(blocks)
    requires ReadsBack(image, blocks[..|blocks| - 1], before, a)
    ensures var last := blocks[|blocks| - 1];
            ReadsBack(image, blocks, if Covers(last, a) then last.data.value[a - last.address] else before, a)
  {
    var n := |blocks| - 1;
    if Covers(blocks[n], a) {
      forall i | 0 <= i < n ensures !Covers(blocks[i], a) {
        assert !Overlap(RangeOf(blocks[n]), RangeOf(blocks[i]));
      }
    } else {
      forall i | 0 <= i < |blocks| &&
          Covers(blocks[i], a) ensures before == blocks[i].data.value[a - blocks[i].address] {
        assert blocks[i] == blocks[..n][i];
      }
      if forall i :: 0 <= i < |blocks| ==> !Covers(blocks[i], a) {
        forall i | 0 <= i < n ensures !Covers(blocks[..n][i], a) {
          assert !Covers(blocks[i], a);
        }
      }
    }
  }

  lemma FixedApart()
    ensures forall i, j :: 0 <= i < j < |FIXED| ==> !Overlap(FIXED[j], FIXED[i])
    ensures forall i :: 0 <= i < |FIXED| ==> FIXED[i].address + FIXED[i].size <= STORAGE_SIZE
  {
  }

  lemma BlocksApart(p: Profile)
    requires ProfileOk(p)
    ensures PairwiseApart(Blocks(p)) && AllWritable(Blocks(p))
  {
    FixedApart();
    var blocks := Blocks(p);
    forall i | 0 <= i < |FIXED| ensures RangeOf(blocks[i]) == FIXED[i] && Writable(blocks[i]) {
    }
    forall i, j | 0 <= i < j < |blocks| ensures !Overlap(RangeOf(blocks[j]), RangeOf(blocks[i])) {
      if |FIXED| <= j {
        var e := p.extras.entries[j - |FIXED|];
        assert blocks[j] == e && EntryOk(e);
        if |FIXED| <= i {
          assert blocks[i] == p.extras.entries[i - |FIXED|];
        }
      }
    }
    forall k | 0 <= k < |blocks| ensures Writable(blocks[k]) {
      if |FIXED| <= k {
        assert blocks[k] == p.extras.entries[k - |FIXED|];
      }
    }
  }

  /** A valid profile: every field and extra entry reads back exactly and every other byte is
      untouched. */
  lemma SeededImage(image: seq<U8>, p: Profile, a: nat)
    requires |image| == STORAGE_SIZE && ProfileOk(p) && a < STORAGE_SIZE
    ensures AllWritable(Blocks(p))
    ensures ReadsBack(image, Blocks(p), WriteBlocks(image, Blocks(p))[a], a)
  {
    BlocksApart(p);
    WrittenBlocksReadBack(image, Blocks(p), a);
  }

  // ---- Order independence ----

  lemma TwoIndices<T>(s: seq<T>, x: T) returns (i: nat, j: nat)
    requires multiset(s)[x] >= 2
    ensures i < j < |s| && s[i] == x && s[j] == x
  {
    var n := |s| - 1;
    assert s == s[..n] + [s[n]];
    if s[n] == x {
      assert x in multiset(s[..n]);
      i :| 0 <= i < n && s[i] == x;
      j := n;
    } else {
      i, j := TwoIndices(s[..n], x);
    }
  }

  lemma TwiceInMultiset<T>(s: seq<T>, i: nat, j: nat)
    requires i < j < |s| && s[i] == s[j]
    ensures multiset(s)[s[i]] >= 2
  {
    assert s == s[..j] + [s[j]] + s[j + 1..];
    assert s[i] in multiset(s[..j]);
  }

  lemma PermutedApart(a: seq<Entry>, b: seq<Entry>)
    requires multiset(a) == multiset(b) && PairwiseApart(a)
    requires forall i :: 0 <= i < |a| ==> RangeOf(a[i]).size > 0
    ensures PairwiseApart(b)
  {
    forall i, j | 0 <= i < j < |b| ensures !Overlap(RangeOf(b[j]), RangeOf(b[i])) {
      if b[i] == b[j] {
        TwiceInMultiset(b, i, j);
        var k, l := TwoIndices(a, b[i]);
        assert !Overlap(RangeOf(a[l]), RangeOf(a[k]));
      } else {
        assert b[i] in multiset(a) && b[j] in multiset(a);
        var k :| 0 <= k < |a| && a[k] == b[i];
        var l :| 0 <= l < |a| && a[l] == b[j];
        if k < l {
          assert !Overlap(RangeOf(a[l]), RangeOf(a[k]));
        } else {
          assert !Overlap(RangeOf(a[k]), RangeOf(a[l]));
        }
      }
    }
  }

  lemma PermutedOk(p: Profile, q: Profile)
    requires p.extras.Extras? && q.extras.Extras?
    requires q == p.(extras := q.extras) && multiset(p.extras.entries) == multiset(q.extras.entries)
    requires ProfileOk(p)
    ensures ProfileOk(q)
  {
    var a, b := p.extras.entries, q.extras.entries;
    forall i | 0 <= i < |b| ensures EntryOk(b[i]) {
      assert b[i] in multiset(a);
    }
    assert forall i :: 0 <= i < |a| ==> EntryOk(a[i]);
    PermutedApart(a, b);
    assert FixedFields(p) == FixedFields(q);
  }

  /** Reordering the extra entries changes neither whether the profile is accepted nor the image. */
  lemma EntryOrderIsIrrelevant(image: seq<U8>, p: Profile, q: Profile)
    requires |image| == STORAGE_SIZE && p.extras.Extras? && q.extras.Extras?
    requires q == p.(extras := q.extras) && multiset(p.extras.entries) == multiset(q.extras.entries)
    ensures ProfileOk(p) <==> ProfileOk(q)
    ensures ProfileOk(p) ==>
              AllWritable(Blocks(p)) && AllWritable(Blocks(q)) &&
              WriteBlocks(image, Blocks(p)) == WriteBlocks(image, Blocks(q))
  {
    if ProfileOk(p) || ProfileOk(q) {
      if ProfileOk(p) { PermutedOk(p, q); } else { PermutedOk(q, p); }
      BlocksApart(p);
      BlocksApart(q);
      var x, y := Blocks(p), Blocks(q);
      assert FixedFields(p) == FixedFields(q);
      assert x[..|FIXED|] == y[..|FIXED|];
      assert x == x[..|FIXED|] + p.extras.entries && y == y[..|FIXED|] + q.extras.entries;
      assert multiset(x) == multiset(y);
      forall a | 0 <= a < STORAGE_SIZE ensures WriteBlocks(image, x)[a] == WriteBlocks(image, y)[a] {
        WrittenBlocksReadBack(image, x, a);
        WrittenBlocksReadBack(image, y, a);
        SameByte(image, x, y, WriteBlocks(image, x)[a], WriteBlocks(image, y)[a], a);
      }
    }
  }

  lemma SameByte(image: seq<U8>, x: seq<Entry>, y: seq<Entry>, v: U8, w: U8, a: nat)
    requires a < |image| && multiset(x) == multiset(y)
    requires ReadsBack(image, x, v, a) && ReadsBack(image, y, w, a)
    ensures v == w
  {
    if i :| 0 <= i < |x| && Covers(x[i], a) {
      assert x[i] in multiset(y);
      var j :| 0 <= j < |y| && y[j] == x[i];
    } else {
      forall j | 0 <= j < |y| ensures !Covers(y[j], a) {
        assert y[j] in multiset(x);
      }
    }
  }

  // ---- The validators and the writer ----

  /** What is reported for a bad entry: the fault of its own bounds, or an overlap. */
  function Fault(e: Entry): SpiResult {
    if BoundaryResult(e) != Ok then BoundaryResult(e) else InvalidArgument
  }

  /** Everything before entry i is in order, and entry i is not. */
  predicate FirstBad(entries: seq<Entry>, i: nat) {
    i < |entries| && ExtrasOk(entries[..i]) && !ExtrasOk(entries[..i + 1])
  }

  /** The one result for a list of extra entries: success if all are in order, otherwise the fault of
      the first that is not. */
  predicate ExtrasResult(extras: Extras, result: SpiResult) {
    match extras
    case NullExtras(count) => result == if count == 0 then Ok else InvalidArgument
    case Extras(entries) =>
      if ExtrasOk(entries) then result == Ok
      else exists i :: 0 <= i < |entries| && FirstBad(entries, i) && result == Fault(entries[i])
  }

  /** The fixed fields are checked before the extra entries. */
  predicate ProfileResult(p: Profile, result: SpiResult) {
    if FieldsOk(p) then ExtrasResult(p.extras, result) else result == InvalidArgument
  }

  lemma BadEntry(entries: seq<Entry>, i: nat)
    requires i < |entries| && ExtrasOk(entries[..i])
    requires !EntryOk(entries[i]) || exists k :: 0 <= k < i && Overlap(RangeOf(entries[i]), RangeOf(entries[k]))
    ensures FirstBad(entries, i) && !ExtrasOk(entries)
  {
    var upto := entries[..i + 1];
    assert upto[i] == entries[i];
    if EntryOk(entries[i]) {
      var k :| 0 <= k < i && Overlap(RangeOf(entries[i]), RangeOf(entries[k]));
      assert upto[k] == entries[k];
    }
  }

  method RangesOverlap(a: Range, b: Range) returns (r: bool)
    ensures r == Overlap(a, b)
  {
    var aEnd, bEnd := a.address + a.size, b.address + b.size;
    return a.address < bEnd && b.address < aEnd;
  }

  method ValidateExtraEntries(extras: Extras) returns (result: SpiResult)
    ensures ExtrasResult(extras, result)
    ensures result == Ok <==>
        match extras case NullExtras(count) => count == 0 case Extras(entries) => ExtrasOk(entries)
  {
    match extras
    case NullExtras(count) =>
      return if count == 0 then Ok else InvalidArgument;
    case Extras(entries) =>
      for index := 0 to |entries|
        invariant ExtrasOk(entries[..index])
      {
        var entry := entries[index];
        if BoundaryResult(entry) != Ok {
          BadEntry(entries, index);
          return BoundaryResult(entry);
        }
        for fixed := 0 to |FIXED|
          invariant forall f :: 0 <= f < fixed ==> !Overlap(RangeOf(entry), FIXED[f])
        {
          var overlaps := RangesOverlap(RangeOf(entry), FIXED[fixed]);
          if overlaps {
            BadEntry(entries, index);
            return InvalidArgument;
          }
        }
        for previous := 0 to index
          invariant forall k :: 0 <= k < previous ==> !Overlap(RangeOf(entry), RangeOf(entries[k]))
        {
          var overlaps := RangesOverlap(RangeOf(entry), RangeOf(entries[previous]));
          if overlaps {
            BadEntry(entries, index);
            return InvalidArgument;
          }
        }
        assert entries[..index + 1] == entries[..index] + [entry];
      }
      assert entries[..|entries|] == entries;
      return Ok;
  }

  method ValidateProfile(p: Profile) returns (result: SpiResult)
    ensures ProfileResult(p, result)
    ensures result == Ok <==> ProfileOk(p)
  {
    var fields := FixedFields(p);
    for i := 0 to |FIXED|
      invariant forall k :: 0 <= k < i ==> fields[k].Some? && |fields[k].value| == FIXED[k].size
    {
      if fields[i].None? || |fields[i].value| != FIXED[i].size {
        return InvalidArgument;
      }
    }
    result := ValidateExtraEntries(p.extras);
  }

  /** All or nothing: an error leaves the image unchanged; success writes every block. */
  method SeedApply(flash: Flash, p: Profile) returns (result: SpiResult)
    requires flash.Valid()
    modifies flash.data
    ensures ProfileResult(p, result) && (result == Ok <==> ProfileOk(p))
    ensures result != Ok ==> flash.data[..] == old(flash.data[..])
    ensures result == Ok ==> AllWritable(Blocks(p)) && flash.data[..] == WriteBlocks(old(flash.data[..]), Blocks(p))
  {
    result := ValidateProfile(p);
    if result != Ok {
      return;
    }
    BlocksApart(p);
    var blocks := Blocks(p);
    for i := 0 to |blocks|
      invariant result == Ok && flash.data[..] == WriteBlocks(old(flash.data[..]), blocks[..i])
    {
      result := flash.Write(blocks[i].address, blocks[i].data.value);
      assert result == Ok;
      assert blocks[..i + 1][..i] == blocks[..i];
    }
    assert blocks[..|blocks|] == blocks;
  }
}
