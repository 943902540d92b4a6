/** The four-slot ring of subcommand replies waiting for the interrupt channel. */
module ReplyQueue {
  import opened ControllerState
  import opened Options
  import InputReport

  const CAPACITY := 4

  /** A reply as its producer sees it. */
  datatype Reply = Reply(cid: U16, bytes: seq<U8>)

  /** A ring slot: the report buffer has a fixed size and is zero past `size`. */
  datatype Slot = Slot(cid: U16, report: seq<U8>, size: nat)

  datatype QueueResult = Ok | Empty | Full | InvalidReportSize | SendFailed

  predicate SizeOk(bytes: seq<U8>) {
    0 < |bytes| <= InputReport.REPLY_SIZE
  }

  /** The slot i places behind the head. */
  function RingIndex(head: nat, i: nat): (r: nat)
    ensures r < CAPACITY
  {
    (head + i) % CAPACITY
  }

  lemma RingIndexInjective(head: nat)
    ensures forall i, j :: 0 <= i < j < CAPACITY ==> RingIndex(head, i) != RingIndex(head, j)
    ensures forall i: nat :: RingIndex(RingIndex(head, 1), i) == RingIndex(head, i + 1)
    ensures head < CAPACITY ==> RingIndex(head, 0) == head
  {
    forall i, j | 0 <= i < j < CAPACITY ensures RingIndex(head, i) != RingIndex(head, j) {
      RingApart(head, i, j);
    }
    forall i: nat ensures RingIndex(RingIndex(head, 1), i) == RingIndex(head, i + 1) {
      RingShift(head, i);
    }
  }

  lemma RingApart(head: nat, i: nat, j: nat)
    requires i < j < CAPACITY
    ensures RingIndex(head, i) != RingIndex(head, j)
  {
    var a, b := (head + i) / CAPACITY, (head + j) / CAPACITY;
    assert head + i == CAPACITY * a + RingIndex(head, i) && head + j == CAPACITY * b + RingIndex(head, j);
  }

  lemma RingShift(head: nat, i: nat)
    ensures RingIndex(RingIndex(head, 1), i) == RingIndex(head, i + 1)
  {
    var a := (head + 1) / CAPACITY;
    assert head + 1 == CAPACITY * a + RingIndex(head, 1);
    assert head + (i + 1) == CAPACITY * a + (RingIndex(head, 1) + i);
  }

  predicate SlotHolds(slot: Slot, reply: Reply)
    requires slot.size <= |slot.report|
  {
    slot.cid == reply.cid && slot.report[..slot.size] == reply.bytes && SizeOk(reply.bytes)
  }

  class Queue {
    const items: array<Slot>
    var head: nat
    var count: nat

    /** The queued replies, oldest first. */
    ghost var contents: seq<Reply>

    ghost predicate Valid()
      reads this, items
    {
      && items.Length == CAPACITY && head < CAPACITY && count <= CAPACITY && |contents| == count
      && (forall i :: 0 <= i < CAPACITY ==>
            |items[i].report| == InputReport.REPLY_SIZE && items[i].size <= InputReport.REPLY_SIZE)
      && (forall i :: 0 <= i < count ==> SlotHolds(items[RingIndex(head, i)], contents[i]))
    }

    constructor ()
      ensures Valid() && fresh(items) && contents == []
    {
      items := new Slot[CAPACITY](_ => Slot(0, InputReport.Zeros(InputReport.REPLY_SIZE), 0));
      head, count, contents := 0, 0, [];
    }

    method Init()
      requires Valid()
      modifies this, items
      ensures Valid() && contents == []
    {
      head, count, contents := 0, 0, [];
      for i := 0 to CAPACITY
        invariant Valid() && contents == []
      {
        items[i] := Slot(0, InputReport.Zeros(InputReport.REPLY_SIZE), 0);
      }
    }

    /** Appends a copy, unless its size is out of range or the ring is full. */
    method Enqueue(cid: U16, report: seq<U8>) returns (result: QueueResult)
      requires Valid()
      modifies this`count, this`contents, items
      ensures Valid()
      ensures result == if !SizeOk(report) then InvalidReportSize else if old(count) == CAPACITY then Full else Ok
      ensures contents == if result == Ok then old(contents) + [Reply(cid, report)] else old(contents)
    {
      if !SizeOk(report) {
        return InvalidReportSize;
      }
      if count >= CAPACITY {
        return Full;
      }
      var buffer := [];
      for i := 0 to |report|
        invariant buffer == report[..i]
      {
        buffer := buffer + [report[i]];
      }
      for i := |report| to InputReport.REPLY_SIZE
        invariant |buffer| == i && buffer[..|report|] == report
      {
        buffer := buffer + [0];
      }
      items[RingIndex(head, count)] := Slot(cid, buffer, |report|);
      RingIndexInjective(head);
      count, contents := count + 1, contents + [Reply(cid, report)];
      return Ok;
    }

    /** Hands the oldest reply to the sender, whose outcome is `sendOk`, and drops it only if
        the send succeeded. */
    method SendNext(sendOk: bool) returns (result: QueueResult, handed: Option<Reply>)
      requires Valid()
      modifies this, items
      ensures Valid()
      ensures handed == if old(count) == 0 then None else Some(old(contents)[0])
      ensures result == if old(count) == 0 then Empty else if sendOk then Ok else SendFailed
      ensures contents == if result == Ok then old(contents)[1..] else old(contents)
    {
      if count == 0 {
        return Empty, None;
      }
      var item := items[head];
      handed := Some(Reply(item.cid, item.report[..item.size]));
      RingIndexInjective(head);
      if !sendOk {
        return SendFailed, handed;
      }
      items[head] := Slot(0, InputReport.Zeros(InputReport.REPLY_SIZE), 0);
      head := RingIndex(head, 1);
      count, contents := count - 1, contents[1..];
      return Ok, handed;
    }
  }
}
