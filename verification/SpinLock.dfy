/** Any number of threads running the domain's programs under the spin lock, one field of shared
    memory at a time, and the proof that what they see is a sequential run of whole operations.
    A thread takes the lock by compare-and-swap and gives it up where its program does; that
    nobody returns without giving it up, or touches anything after, is proved, not built in. */
module SpinLock {
  import opened ControllerState
  import opened Options
  import opened DomainModel
  import opened DomainPrograms

  // ---- The machine ----

  /** Where a thread is: outside, at the compare-and-swap loop, or in its program. `since` is how
      many operations had taken effect when the call began, which counts every call that had
      returned by then. `done` is the place in the order the call got when it unlocked. */
  datatype Thread =
    | Idle
    | Spinning(op: Op, since: nat)
    | Inside(op: Op, since: nat, pc: nat, local: Local, done: Option<nat>)

  /** An operation that has taken effect: its thread has unlocked. */
  datatype Effected = Effected(thread: nat, op: Op, since: nat)

  /** A call that has returned, with the answer its thread got. */
  datatype Call = Call(thread: nat, op: Op, since: nat, answer: Answer, done: Option<nat>)

  datatype Machine = Machine(
    locked: bool, shared: Domain, threads: seq<Thread>, order: seq<Effected>, calls: seq<Call>)

  /** `spurious` lets the weak compare-and-swap fail on a free lock. */
  datatype Event =
    | Invoke(thread: nat, op: Op)
    | TryLock(thread: nat, spurious: bool, junk: Local)
    | Work(thread: nat)

  predicate Enabled(m: Machine, e: Event) {
    && e.thread < |m.threads|
    && var t := m.threads[e.thread];
       match e
       case Invoke(_, _) => t.Idle?
       case TryLock(_, _, _) => t.Spinning?
       case Work(_) => t.Inside? && t.pc < END
  }

  function Step(m: Machine, e: Event): Machine
    requires Enabled(m, e)
  {
    var t := m.threads[e.thread];
    match e
    case Invoke(i, op) => m.(threads := m.threads[i := Spinning(op, |m.order|)])
    case TryLock(i, spurious, junk) =>
      if m.locked || spurious then m
      else m.(locked := true, threads := m.threads[i := Inside(t.op, t.since, 0, junk, None)])
    case Work(i) => WorkStep(m, i, t, Statement(t.op, Point(t.pc, m.shared, t.local)))
  }

  function WorkStep(m: Machine, i: nat, t: Thread, effect: Effect): Machine
    requires i < |m.threads| && t.Inside?
  {
    match effect
    case Moved(p) => m.(shared := p.shared, threads := m.threads[i := t.(pc := p.pc, local := p.local)])
    case Released(pc) =>
      m.(locked := false, threads := m.threads[i := t.(pc := pc, done := Some(|m.order|))],
         order := m.order + [Effected(i, t.op, t.since)])
    case Returned(answer) =>
      m.(threads := m.threads[i := Idle], calls := m.calls + [Call(i, t.op, t.since, answer, t.done)])
  }

  function Start(image: seq<U8>, threads: nat): Machine {
    Machine(false, Fresh(image), seq(threads, _ => Idle), [], [])
  }

  predicate Legal(m: Machine, es: seq<Event>)
    decreases |es|, 0
  {
    es != [] ==> Legal(m, es[..|es| - 1]) && Enabled(Run(m, es[..|es| - 1]), es[|es| - 1])
  }

  function Run(m: Machine, es: seq<Event>): Machine
    requires Legal(m, es)
    decreases |es|, 1
  {
    if es == [] then m else Step(Run(m, es[..|es| - 1]), es[|es| - 1])
  }

  // ---- What every run keeps ----

  function Ops(order: seq<Effected>): (ops: seq<Op>)
    ensures |ops| == |order|
  {
    seq(|order|, i requires 0 <= i < |order| => order[i].op)
  }

  /** The domain after the operations that have taken effect, one after the other. */
  function Sequential(image: seq<U8>, m: Machine): Domain {
    Replay(Fresh(image), Ops(m.order))
  }

  /** In the program and not yet past the unlock. */
  predicate Holding(t: Thread) {
    t.Inside? && t.done.None?
  }

  predicate MutualExclusion(m: Machine) {
    && (forall i :: 0 <= i < |m.threads| && Holding(m.threads[i]) ==> m.locked)
    && (forall i, j :: 0 <= i < j < |m.threads| ==> !(Holding(m.threads[i]) && Holding(m.threads[j])))
    && (m.locked ==> exists i :: 0 <= i < |m.threads| && Holding(m.threads[i]))
  }

  /** The thread that holds the lock is on its way from the sequential domain to what its whole
      operation makes of it, with one unlock to come. */
  predicate OnTheWay(image: seq<U8>, m: Machine, t: Thread) {
    Holding(t) ==>
      t.pc < END && Finish(t.op, Point(t.pc, m.shared, t.local)) ==
      Outcome(Apply(Sequential(image, m), t.op).0, Apply(Sequential(image, m), t.op).1, 1)
  }

  /** A thread past the unlock has only its return to do, with the sequential answer. */
  predicate OnTheWayOut(image: seq<U8>, m: Machine, i: nat, t: Thread) {
    t.Inside? && t.done.Some? ==>
      && t.pc < END && t.done.value < |m.order| && t.since <= t.done.value
      && m.order[t.done.value] == Effected(i, t.op, t.since)
      && Statement(t.op, Point(t.pc, m.shared, t.local)) == Returned(AnswerAt(Fresh(image), Ops(m.order), t.done.value))
  }

  predicate OnTrack(image: seq<U8>, m: Machine) {
    && (!m.locked ==> m.shared == Sequential(image, m))
    && (forall i :: 0 <= i < |m.threads| ==> OnTheWay(image, m, m.threads[i]) && OnTheWayOut(image, m, i, m.threads[i]))
    && (forall i :: 0 <= i < |m.threads| && !m.threads[i].Idle? ==> m.threads[i].since <= |m.order|)
  }

  /** The call took effect at its own place in the order, after everything that had taken effect
      when it began, and got the answer the sequential run gives it there. */
  predicate CallRight(image: seq<U8>, order: seq<Effected>, c: Call) {
    && c.done.Some? && c.since <= c.done.value < |order|
    && order[c.done.value] == Effected(c.thread, c.op, c.since)
    && c.answer == AnswerAt(Fresh(image), Ops(order), c.done.value)
  }

  predicate CallsRight(image: seq<U8>, m: Machine) {
    forall j :: 0 <= j < |m.calls| ==> CallRight(image, m.order, m.calls[j])
  }

  /** No two calls share a place in the order. */
  predicate PlacesDiffer(m: Machine) {
    && (forall j, k :: 0 <= j < k < |m.calls| ==> m.calls[j].done != m.calls[k].done)
    && (forall i, j :: 0 <= i < |m.threads| && 0 <= j < |m.calls| && m.threads[i].Inside? && m.threads[i].done.Some? ==>
          m.threads[i].done != m.calls[j].done)
  }

  predicate Inv(image: seq<U8>, m: Machine) {
    MutualExclusion(m) && OnTrack(image, m) && CallsRight(image, m) && PlacesDiffer(m)
  }

  // ---- One instruction of the thread that holds the lock, or has given it up ----

  /** A holding thread moves on or unlocks, and never returns. */
  lemma HolderWorks(image: seq<U8>, m: Machine, t: Thread)
    requires Holding(t) && OnTheWay(image, m, t)
    ensures var e := Statement(t.op, Point(t.pc, m.shared, t.local));
            && !e.Returned?
            && (e.Moved? ==> e.p.pc < END && Finish(t.op, e.p) == Finish(t.op, Point(t.pc, m.shared, t.local)))
            && (e.Released? ==>
                  && e.pc < END && m.shared == Apply(Sequential(image, m), t.op).0
                  && Statement(t.op, Point(e.pc, m.shared, t.local)) == Returned(Apply(Sequential(image, m), t.op).1))
  {
    var p := Point(t.pc, m.shared, t.local);
    var e := Statement(t.op, p);
    if e.Moved? {
      Go(t.op, p);
      assert Finish(t.op, e.p).unlocks == 1;
    } else if e.Released? {
      UnlockThenReturn(t.op, p);
      var q := p.(pc := e.pc);
      assert Finish(t.op, q) == Outcome(p.shared, Statement(t.op, q).answer, 0);
      assert Finish(t.op, p) == Finish(t.op, q).(unlocks := 1);
    }
  }

  lemma OrderSnoc(image: seq<U8>, order: seq<Effected>, x: Effected, k: nat)
    requires k < |order|
    ensures AnswerAt(Fresh(image), Ops(order + [x]), k) == AnswerAt(Fresh(image), Ops(order), k)
  {
    assert Ops(order + [x]) == Ops(order) + [x.op];
    ReplaySnoc(Fresh(image), Ops(order), x.op, k);
  }

  lemma OrderLast(image: seq<U8>, order: seq<Effected>, x: Effected)
    ensures Replay(Fresh(image), Ops(order + [x])) == Apply(Replay(Fresh(image), Ops(order)), x.op).0
    ensures AnswerAt(Fresh(image), Ops(order + [x]), |order|) == Apply(Replay(Fresh(image), Ops(order)), x.op).1
  {
    assert Ops(order + [x]) == Ops(order) + [x.op];
    ReplaySnoc(Fresh(image), Ops(order), x.op, |order|);
  }

  // ---- Preservation ----

  /** What a step does to the one thread it is about, as far as the lock goes. */
  lemma ExclusionKept(image: seq<U8>, m: Machine, e: Event)
    requires Enabled(m, e) && Inv(image, m)
    ensures MutualExclusion(Step(m, e))
  {
    var n, i := Step(m, e), e.thread;
    var t := m.threads[i];
    if e.Work? && Holding(t) {
      HolderWorks(image, m, t);
    }
    if n.locked {
      if m.locked {
        var j :| 0 <= j < |m.threads| && Holding(m.threads[j]);
        if j != i {
          assert Holding(n.threads[j]);
        } else {
          assert Holding(n.threads[i]);
        }
      } else {
        assert Holding(n.threads[i]);
      }
    }
  }

  /** A thread the step is not about, when the shared domain may have changed. */
  lemma OthersKept(image: seq<U8>, m: Machine, n: Machine, j: nat, t: Thread)
    requires m.order <= n.order && OnTheWayOut(image, m, j, t)
    requires |n.order| <= |m.order| + 1
    ensures OnTheWayOut(image, n, j, t)
  {
    if t.Inside? && t.done.Some? {
      ReturnIsLocal(t.op, Point(t.pc, m.shared, t.local), n.shared);
      if n.order != m.order {
        assert n.order == m.order + [n.order[|m.order|]];
        OrderSnoc(image, m.order, n.order[|m.order|], t.done.value);
      }
    }
  }

  lemma TrackInvoke(image: seq<U8>, m: Machine, e: Event)
    requires Enabled(m, e) && Inv(image, m) && !e.Work?
    ensures OnTrack(image, Step(m, e))
  {
    var n, i := Step(m, e), e.thread;
    if e.TryLock? && n.locked && !m.locked {
      ProgramsAreWhole(m.threads[i].op, m.shared, e.junk);
      forall j | 0 <= j < |n.threads| && j != i ensures OnTheWay(image, n, n.threads[j]) {
        assert !Holding(m.threads[j]);
      }
    }
    forall j | 0 <= j < |n.threads| ensures OnTheWayOut(image, n, j, n.threads[j]) {
      OthersKept(image, m, n, j, m.threads[j]);
    }
  }

  /** A holding thread writes, reads or jumps. */
  lemma TrackMove(image: seq<U8>, m: Machine, i: nat)
    requires Enabled(m, Work(i)) && Inv(image, m) && Holding(m.threads[i])
    requires Statement(m.threads[i].op, Point(m.threads[i].pc, m.shared, m.threads[i].local)).Moved?
    ensures OnTrack(image, Step(m, Work(i)))
  {
    var n, t := Step(m, Work(i)), m.threads[i];
    HolderWorks(image, m, t);
    forall j | 0 <= j < |n.threads|
      ensures OnTheWay(image, n, n.threads[j]) && OnTheWayOut(image, n, j, n.threads[j])
    {
      if j != i {
        assert !Holding(m.threads[j]);
        OthersKept(image, m, n, j, m.threads[j]);
      }
    }
  }

  lemma TrackUnlock(image: seq<U8>, m: Machine, i: nat)
    requires Enabled(m, Work(i)) && Inv(image, m) && Holding(m.threads[i])
    requires Statement(m.threads[i].op, Point(m.threads[i].pc, m.shared, m.threads[i].local)).Released?
    ensures OnTrack(image, Step(m, Work(i)))
  {
    var n, t := Step(m, Work(i)), m.threads[i];
    HolderWorks(image, m, t);
    OrderLast(image, m.order, Effected(i, t.op, t.since));
    forall j | 0 <= j < |n.threads|
      ensures OnTheWay(image, n, n.threads[j]) && OnTheWayOut(image, n, j, n.threads[j])
    {
      if j != i {
        assert !Holding(m.threads[j]);
        OthersKept(image, m, n, j, m.threads[j]);
      }
    }
  }

  lemma TrackReturn(image: seq<U8>, m: Machine, i: nat)
    requires Enabled(m, Work(i)) && Inv(image, m) && !Holding(m.threads[i])
    ensures OnTrack(image, Step(m, Work(i)))
  {
    var n := Step(m, Work(i));
    assert OnTheWayOut(image, m, i, m.threads[i]);
    assert n.order == m.order && n.shared == m.shared && n.locked == m.locked;
    forall j | 0 <= j < |n.threads|
      ensures OnTheWay(image, n, n.threads[j]) && OnTheWayOut(image, n, j, n.threads[j])
    {
      assert OnTheWay(image, m, m.threads[j]);
      OthersKept(image, m, n, j, m.threads[j]);
    }
  }

  lemma TrackKept(image: seq<U8>, m: Machine, e: Event)
    requires Enabled(m, e) && Inv(image, m)
    ensures OnTrack(image, Step(m, e))
  {
    if !e.Work? {
      TrackInvoke(image, m, e);
    } else if !Holding(m.threads[e.thread]) {
      TrackReturn(image, m, e.thread);
    } else {
      HolderWorks(image, m, m.threads[e.thread]);
      var t := m.threads[e.thread];
      if Statement(t.op, Point(t.pc, m.shared, t.local)).Moved? {
        TrackMove(image, m, e.thread);
      } else {
        TrackUnlock(image, m, e.thread);
      }
    }
  }

  lemma CallsKept(image: seq<U8>, m: Machine, e: Event)
    requires Enabled(m, e) && Inv(image, m)
    ensures CallsRight(image, Step(m, e))
  {
    var n, i := Step(m, e), e.thread;
    var t := m.threads[i];
    if e.Work? && Holding(t) {
      HolderWorks(image, m, t);
    }
    assert OnTheWayOut(image, m, i, t);
    forall j | 0 <= j < |n.calls| ensures CallRight(image, n.order, n.calls[j]) {
      if j < |m.calls| {
        assert CallRight(image, m.order, m.calls[j]);
        if n.order != m.order {
          OrderSnoc(image, m.order, n.order[|m.order|], m.calls[j].done.value);
        }
      }
    }
  }

  lemma PlacesKept(image: seq<U8>, m: Machine, e: Event)
    requires Enabled(m, e) && Inv(image, m)
    ensures PlacesDiffer(Step(m, e))
  {
    var t := m.threads[e.thread];
    if e.Work? && Holding(t) {
      HolderWorks(image, m, t);
    }
    assert OnTheWayOut(image, m, e.thread, t);
    forall j | 0 <= j < |m.calls| ensures m.calls[j].done.Some? && m.calls[j].done.value < |m.order| {
      assert CallRight(image, m.order, m.calls[j]);
    }
  }

  lemma {:induction false} InvRun(image: seq<U8>, threads: nat, es: seq<Event>)
    requires Legal(Start(image, threads), es)
    ensures Inv(image, Run(Start(image, threads), es))
    decreases |es|
  {
    if es != [] {
      var before, e := es[..|es| - 1], es[|es| - 1];
      var m := Run(Start(image, threads), before);
      InvRun(image, threads, before);
      ExclusionKept(image, m, e);
      TrackKept(image, m, e);
      CallsKept(image, m, e);
      PlacesKept(image, m, e);
    }
  }

  // ---- The theorems ----

  /** Every run of any number of threads: one thread holds the lock at a time, the lock is taken
      exactly while one does, and every call that has returned took effect at a place of its own in
      lock order, after every call that had returned when it began, with the answer the sequential
      run gives it there. */
  lemma RunsLinearize(image: seq<U8>, threads: nat, es: seq<Event>)
    requires Legal(Start(image, threads), es)
    ensures var m := Run(Start(image, threads), es);
            && MutualExclusion(m)
            && (!m.locked ==> m.shared == Sequential(image, m))
            && (forall j :: 0 <= j < |m.calls| ==> CallRight(image, m.order, m.calls[j]))
            && (forall j, k :: 0 <= j < k < |m.calls| ==> m.calls[j].done != m.calls[k].done)
  {
    InvRun(image, threads, es);
  }

  /** No thread returns while it holds the lock: whenever a step ends a call, the thread had given
      the lock up before, and the lock is as it was. */
  lemma NobodyReturnsHolding(image: seq<U8>, threads: nat, es: seq<Event>, e: Event)
    requires Legal(Start(image, threads), es) && Enabled(Run(Start(image, threads), es), e)
    ensures var m := Run(Start(image, threads), es);
            var n := Step(m, e);
            n.threads[e.thread].Idle? ==> !Holding(m.threads[e.thread]) && n.locked == m.locked && n.shared == m.shared
  {
    InvRun(image, threads, es);
    var m := Run(Start(image, threads), es);
    if Holding(m.threads[e.thread]) {
      HolderWorks(image, m, m.threads[e.thread]);
    }
  }

  /** A state read by any thread, whatever the others were doing field by field in the meantime, is
      the last accepted submission of the tenure in progress at its place in the order, or
      neutral: one whole submission, never parts of two. */
  lemma ConcurrentReadsAreWhole(image: seq<U8>, threads: nat, es: seq<Event>, k: nat)
    requires Legal(Start(image, threads), es)
    requires k < |Run(Start(image, threads), es).calls| && Run(Start(image, threads), es).calls[k].op == ReadState
    ensures var m := Run(Start(image, threads), es);
            var c := m.calls[k];
            c.done.Some? && c.done.value < |m.order| &&
            var last := LastAccepted(Fresh(image), Ops(m.order)[..c.done.value]);
            c.answer == StateAnswer(if last.Some? then last.value.state else NEUTRAL)
  {
    var m := Run(Start(image, threads), es);
    InvRun(image, threads, es);
    assert CallRight(image, m.order, m.calls[k]);
    StateIsFoldOfHistory(image, Ops(m.order)[..m.calls[k].done.value]);
  }

  // ---- Every path releases ----

  function Works(thread: nat, n: nat): seq<Event> {
    seq(n, _ => Work(thread))
  }

  lemma {:induction false} RunFromStep(m: Machine, e: Event, es: seq<Event>)
    requires Enabled(m, e) && Legal(Step(m, e), es)
    ensures Legal(m, [e] + es) && Run(m, [e] + es) == Run(Step(m, e), es)
    decreases |es|
  {
    if es == [] {
      assert [e] + es == [e] && [e][..0] == [];
      assert Legal(m, []);
    } else {
      RunFromStep(m, e, es[..|es| - 1]);
      assert ([e] + es)[..|es|] == [e] + es[..|es| - 1];
    }
  }

  /** How many turns a thread in its program needs to return, and where that leaves the lock. */
  lemma {:induction false} TurnsToReturn(m: Machine, i: nat) returns (turns: nat)
    requires i < |m.threads| && m.threads[i].Inside? && m.threads[i].pc < END
    requires var t := m.threads[i];
             Finish(t.op, Point(t.pc, m.shared, t.local)).unlocks == 1
    ensures turns <= END && Legal(m, Works(i, turns))
    ensures var n := Run(m, Works(i, turns));
            !n.locked && n.threads == m.threads[i := Idle] && |n.order| == |m.order| + 1 && |n.calls| == |m.calls| + 1
    ensures turns <= END - m.threads[i].pc
    decreases END - m.threads[i].pc
  {
    var t, e := m.threads[i], Work(i);
    var p := Point(t.pc, m.shared, t.local);
    var n := Step(m, e);
    match Statement(t.op, p)
    case Moved(q) =>
      Go(t.op, p);
      assert Finish(t.op, q).unlocks == 1;
      var rest := TurnsToReturn(n, i);
      turns := rest + 1;
      RunFromStep(m, e, Works(i, rest));
      assert [e] + Works(i, rest) == Works(i, turns);
      assert n.threads[i := Idle] == m.threads[i := Idle];
    case Released(pc) =>
      UnlockThenReturn(t.op, p);
      var done := Step(n, e);
      turns := 2;
      assert Legal(done, []) && Run(done, []) == done;
      RunFromStep(n, e, []);
      RunFromStep(m, e, [e] + []);
      assert [e] + ([e] + []) == Works(i, 2);
      assert n.threads[i := Idle] == m.threads[i := Idle];
    case Returned(_) =>
      assert false;
  }

  /** From any reachable machine, the thread that holds the lock gives it up and returns within a
      fixed number of turns of its own, on whichever path it is, and has taken effect once. */
  lemma EveryPathReleases(image: seq<U8>, threads: nat, es: seq<Event>, i: nat) returns (turns: nat)
    requires Legal(Start(image, threads), es)
    requires i < threads && i < |Run(Start(image, threads), es).threads| &&
        Holding(Run(Start(image, threads), es).threads[i])
    ensures var m := Run(Start(image, threads), es);
            turns <= END && Legal(m, Works(i, turns)) &&
            var n := Run(m, Works(i, turns));
            !n.locked && n.threads == m.threads[i := Idle] && |n.order| == |m.order| + 1 && |n.calls| == |m.calls| + 1
  {
    InvRun(image, threads, es);
    var m := Run(Start(image, threads), es);
    assert OnTheWay(image, m, m.threads[i]);
    turns := TurnsToReturn(m, i);
  }
}
