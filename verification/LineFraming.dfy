/** Cutting the byte stream of a connection into lines: at most one line per poll, the rest
    kept in a fixed buffer between polls. */
module LineFraming {
  import opened ControllerState
  import JsonScanner

  const NEWLINE: U8 := 10
  const LINE_MAX := JsonScanner.LINE_MAX
  /** The size of both the line buffer and the caller's buffer, with room for the terminator. */
  const LINE_SIZE := LINE_MAX + 1

  // ---- One poll ----

  datatype Outcome = Partial | Line(bytes: seq<U8>) | TooLong | Broken

  /** The outcome, what stays in the buffer, and how many bytes were taken from the socket. */
  datatype Poll = Poll(outcome: Outcome, held: seq<U8>, taken: nat)

  /** Reads what the socket has, up to a newline or one byte more than fits. */
  function ReadLine(held: seq<U8>, available: seq<U8>): (p: Poll)
    ensures p.taken <= |available| && !p.outcome.Broken?
    ensures |held| <= LINE_MAX ==> |p.held| <= LINE_MAX
    decreases |available|
  {
    if available == [] then Poll(Partial, held, 0)
    else if |held| + 1 >= LINE_SIZE then Poll(TooLong, [], 1)
    else
      var grown := held + [available[0]];
      if available[0] == NEWLINE then Poll(Line(grown), [], 1)
      else
        var rest := ReadLine(grown, available[1..]);
        rest.(taken := rest.taken + 1)
  }

  class Connection {
    const buffer: array<U8>
    var length: nat

    ghost predicate Valid()
      reads this, buffer
    {
      buffer.Length == LINE_SIZE && length <= LINE_MAX
    }

    ghost function Held(): seq<U8>
      requires Valid()
      reads this, buffer
    {
      buffer[..length]
    }

    constructor ()
      ensures Valid() && fresh(buffer) && Held() == []
    {
      buffer := new U8[LINE_SIZE](_ => 0);
      length := 0;
    }

    /** One call over the bytes the socket has ready, after which it may turn out broken. `line`
        is the caller's buffer; it holds the line and a terminator if there is one. */
    method ReadInto(available: seq<U8>, broken: bool, line: array<U8>) returns (outcome: Outcome, taken: nat)
      requires Valid() && line.Length == LINE_SIZE && line != buffer
      modifies this`length, buffer, line
      ensures Valid()
      ensures var p := ReadLine(old(Held()), available);
              if broken && p.outcome == Partial then outcome == Broken && Held() == old(Held()) && taken == |available|
              else Poll(outcome, Held(), taken) == p
      ensures outcome.Line? ==>
                var n := |outcome.bytes|; n < LINE_SIZE && line[..n] == outcome.bytes && line[n] == 0
      ensures !outcome.Line? ==> line[..] == old(line[..])
    {
      var used: nat := length;
      taken := 0;
      while taken < |available|
        invariant taken <= |available| && used <= LINE_MAX && buffer.Length == LINE_SIZE
        invariant var start, now := ReadLine(old(Held()), available), ReadLine(buffer[..used], available[taken..]);
                  start == now.(taken := taken + now.taken)
        invariant line[..] == old(line[..])
        invariant length == old(length) <= used && buffer[..length] == old(buffer[..length])
      {
        ghost var before := buffer[..used];
        var byte := available[taken];
        taken := taken + 1;
        if used + 1 >= LINE_SIZE {
          length := 0;
          buffer[0] := 0;
          return TooLong, taken;
        }
        buffer[used] := byte;
        used := used + 1;
        assert buffer[..used] == before + [byte];
        assert available[taken - 1..][1..] == available[taken..];
        if byte == NEWLINE {
          CopyLine(used, line);
          length := 0;
          buffer[0] := 0;
          return Line(line[..used]), taken;
        }
      }
      if broken {
        return Broken, taken;
      }
      length := used;
      buffer[used] := 0;
      return Partial, taken;
    }

    method CopyLine(n: nat, line: array<U8>)
      requires n <= LINE_MAX && buffer.Length == line.Length == LINE_SIZE && line != buffer
      modifies line
      ensures line[..n] == buffer[..n] && line[n] == 0
    {
      for i := 0 to n
        invariant line[..i] == buffer[..i]
      {
        line[i] := buffer[i];
      }
      line[n] := 0;
    }
  }

  // ---- What the lines of a stream are ----

  /** The newline-terminated pieces of a byte string, and what follows the last newline. */
  function Split(t: seq<U8>): (r: (seq<seq<U8>>, seq<U8>))
    decreases |t|
  {
    if t == [] then ([], []) else
    var (lines, rest) := Split(t[..|t| - 1]);
    var b := t[|t| - 1];
    if b == NEWLINE then (lines + [rest + [b]], []) else (lines, rest + [b])
  }

  function Flatten(lines: seq<seq<U8>>): seq<U8> {
    if lines == [] then [] else Flatten(lines[..|lines| - 1]) + lines[|lines| - 1]
  }

  predicate IsLine(l: seq<U8>) {
    l != [] && l[|l| - 1] == NEWLINE && forall i :: 0 <= i < |l| - 1 ==> l[i] != NEWLINE
  }

  lemma SplitSnoc(t: seq<U8>, b: U8)
    ensures Split(t + [b]) == if b == NEWLINE then (Split(t).0 + [Split(t).1 + [b]], [])
        else (Split(t).0, Split(t).1 + [b])
  {
    assert (t + [b])[..|t|] == t;
  }

  /** The pieces are lines that join up to the text, and the rest holds no newline. */
  predicate Exact(t: seq<U8>, lines: seq<seq<U8>>, rest: seq<U8>) {
    && Flatten(lines) + rest == t
    && (forall i :: 0 <= i < |lines| ==> IsLine(lines[i]))
    && (forall i :: 0 <= i < |rest| ==> rest[i] != NEWLINE)
  }

  lemma ExactNewline(t: seq<U8>, lines: seq<seq<U8>>, rest: seq<U8>)
    requires Exact(t, lines, rest)
    ensures Exact(t + [NEWLINE], lines + [rest + [NEWLINE]], [])
  {
    var line := rest + [NEWLINE];
    assert (lines + [line])[..|lines|] == lines;
    assert Flatten(lines + [line]) == Flatten(lines) + line;
    assert Flatten(lines) + line == t + [NEWLINE];
    assert IsLine(line);
  }

  lemma ExactOther(t: seq<U8>, lines: seq<seq<U8>>, rest: seq<U8>, b: U8)
    requires Exact(t, lines, rest) && b != NEWLINE
    ensures Exact(t + [b], lines, rest + [b])
  {
    assert Flatten(lines) + (rest + [b]) == t + [b];
  }

  /** Nothing is lost or moved, every piece is one line, and the rest holds no newline. */
  lemma {:induction false} SplitIsExact(t: seq<U8>)
    ensures Exact(t, Split(t).0, Split(t).1)
    decreases |t|
  {
    if t != [] {
      var before, b := t[..|t| - 1], t[|t| - 1];
      SplitIsExact(before);
      assert t == before + [b];
      if b == NEWLINE {
        ExactNewline(before, Split(before).0, Split(before).1);
      } else {
        ExactOther(before, Split(before).0, Split(before).1, b);
      }
    }
  }

  /** Some piece has no newline in its first 8192 bytes and another byte follows them. */
  predicate Overlong(t: seq<U8>) {
    exists k :: 0 <= k < |t| && |Split(t[..k]).1| >= 8192
  }

  // ---- Whole connections ----

  /** How far the stream has been read, and the lines handed on so far. */
  datatype Reader = Reader(pos: nat, held: seq<U8>, lines: seq<seq<U8>>, tooLong: bool)

  const NEW_READER := Reader(0, [], [], false)

  /** The reader after a poll over `available`. */
  function After(r: Reader, available: seq<U8>): Reader {
    var p := ReadLine(r.held, available);
    var lines := if p.outcome.Line? then r.lines + [p.outcome.bytes] else r.lines;
    Reader(r.pos + p.taken, p.held, lines, p.outcome.TooLong?)
  }

  /** One poll with the stream readable up to `limit`; nothing is polled after a too-long line,
      since the connection is closed. */
  function PollStep(stream: seq<U8>, r: Reader, limit: nat): Reader
    requires r.pos <= |stream|
  {
    if r.tooLong || !(r.pos <= limit <= |stream|) then r
    else After(r, stream[r.pos..limit])
  }

  function Polls(stream: seq<U8>, limits: seq<nat>): (r: Reader)
    ensures r.pos <= |stream|
  {
    if limits == [] then NEW_READER else PollStep(stream, Polls(stream, limits[..|limits| - 1]), limits[|limits| - 1])
  }

  /** The reader agrees with the split of what it has read. */
  predicate Agrees(t: seq<U8>, r: Reader) {
    if r.tooLong then
      t != [] && r.held == [] && r.lines == Split(t[..|t| - 1]).0 && |Split(t[..|t| - 1]).1| == LINE_MAX
    else
      (r.lines, r.held) == Split(t) && |r.held| <= LINE_MAX && !Overlong(t)
  }

  lemma OverlongSnoc(t: seq<U8>, b: U8)
    ensures Overlong(t + [b]) <==> Overlong(t) || |Split(t).1| >= LINE_MAX
  {
    var u := t + [b];
    if Overlong(u) {
      var k :| 0 <= k < |u| && |Split(u[..k]).1| >= LINE_MAX;
      assert u[..k] == t[..k];
      if k == |t| {
        assert t[..k] == t;
      }
    }
    if Overlong(t) {
      var k :| 0 <= k < |t| && |Split(t[..k]).1| >= LINE_MAX;
      assert u[..k] == t[..k];
    }
    if |Split(t).1| >= LINE_MAX {
      assert u[..|t|] == t;
    }
  }

  lemma {:induction false} PollAgrees(t: seq<U8>, r: Reader, available: seq<U8>)
    requires Agrees(t, r) && !r.tooLong
    ensures Agrees(t + available[..ReadLine(r.held, available).taken], After(r, available))
    decreases |available|
  {
    var p := ReadLine(r.held, available);
    if available == [] {
      assert t + available[..0] == t;
    } else {
      var b := available[0];
      var grown := r.held + [b];
      SplitSnoc(t, b);
      OverlongSnoc(t, b);
      if |r.held| + 1 >= LINE_SIZE || b == NEWLINE {
        assert available[..1] == [b];
        assert (t + [b])[..|t|] == t;
      } else {
        PollAgrees(t + [b], r.(held := grown), available[1..]);
        assert (t + [b]) + available[1..][..p.taken - 1] == t + available[..p.taken];
      }
    }
  }

  lemma {:induction false} PollsAgree(stream: seq<U8>, limits: seq<nat>)
    ensures Agrees(stream[..Polls(stream, limits).pos], Polls(stream, limits))
    decreases |limits|
  {
    if limits != [] {
      var before, limit := Polls(stream, limits[..|limits| - 1]), limits[|limits| - 1];
      PollsAgree(stream, limits[..|limits| - 1]);
      if !before.tooLong && before.pos <= limit <= |stream| {
        PollAgrees(stream[..before.pos], before, stream[before.pos..limit]);
        var n := ReadLine(before.held, stream[before.pos..limit]).taken;
        assert stream[..before.pos] + stream[before.pos..limit][..n] == stream[..before.pos + n];
      }
    }
  }

  lemma AgreesIff(t: seq<U8>, r: Reader)
    requires Agrees(t, r)
    ensures r.tooLong <==> Overlong(t)
    ensures r.lines == Split(if r.tooLong then t[..|t| - 1] else t).0
  {
  }

  /** However the stream is split across polls: the lines delivered are the newline-terminated
      pieces of what was read, in order, with the rest in the buffer, which never overflows;
      and too-long is reported exactly if some piece had no newline in its first 8192 bytes and
      another byte arrived, with every line before that piece delivered. */
  lemma LinesAreThePieces(stream: seq<U8>, limits: seq<nat>)
    ensures var r := Polls(stream, limits);
            var read := stream[..r.pos];
            && (r.tooLong <==> Overlong(read))
            && |r.held| <= 8192
            && (!r.tooLong ==> r.lines == Split(read).0 && r.held == Split(read).1 && Flatten(r.lines) + r.held == read)
            && (r.tooLong ==> r.lines == Split(read[..|read| - 1]).0 && |Split(read[..|read| - 1]).1| == 8192)
  {
    PollsAgree(stream, limits);
    var r := Polls(stream, limits);
    SplitIsExact(stream[..r.pos]);
  }

  /** Two schedules of polls that have read equally far have delivered the same lines. */
  lemma SplittingIsIrrelevant(stream: seq<U8>, a: seq<nat>, b: seq<nat>)
    requires Polls(stream, a).pos == Polls(stream, b).pos
    ensures Polls(stream, a) == Polls(stream, b)
  {
    LinesAreThePieces(stream, a);
    LinesAreThePieces(stream, b);
    PollsAgree(stream, a);
    PollsAgree(stream, b);
  }

  lemma {:induction false} ReadLineMoves(held: seq<U8>, available: seq<U8>)
    ensures available != [] ==> ReadLine(held, available).taken > 0
    ensures ReadLine(held, available).outcome.Partial? ==> ReadLine(held, available).taken == |available|
    decreases |available|
  {
    if available != [] && !(|held| + 1 >= LINE_SIZE) && available[0] != NEWLINE {
      ReadLineMoves(held + [available[0]], available[1..]);
    }
  }

  /** Nothing readable is ever left behind without a line: a poll that delivers none has read
      everything there was. */
  lemma PollsKeepUp(stream: seq<U8>, limits: seq<nat>, limit: nat)
    requires Polls(stream, limits).pos < limit <= |stream| && !Polls(stream, limits).tooLong
    ensures var before, after := Polls(stream, limits), PollStep(stream, Polls(stream, limits), limit);
            before.pos < after.pos && (after.lines == before.lines && !after.tooLong ==> after.pos == limit)
  {
    var r := Polls(stream, limits);
    ReadLineMoves(r.held, stream[r.pos..limit]);
  }
}
