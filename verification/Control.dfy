/** The control surface over the domain: client calls pass through, direct calls take the lease
    under an id of their own and number themselves. */
module Control {
  import opened ControllerState
  import opened DomainModel
  import opened DomainObject

  const DIRECT: U32 := 0xFFFF_FFFF

  datatype ControlCode = Done | Busy | NotTheOwner | Invalid

  /** A stale sequence is reported as success. */
  function MapCode(code: Code): ControlCode {
    match code
    case Ok => Done
    case StaleSequence => Done
    case OwnerBusy => Busy
    case NotOwner => NotTheOwner
    case InvalidArgument => Invalid
  }

  class Surface {
    const app: App
    var nextDirectSequence: U64

    constructor (app: App)
      ensures this.app == app && nextDirectSequence == 0
    {
      this.app := app;
      nextDirectSequence := 0;
    }

    method AcquireClient(client: U32) returns (code: ControlCode)
      requires app.Valid()
      modifies app.lock, app.lease
      ensures app.Valid() && app.Value() == Apply(old(app.Value()), Op.Acquire(client)).0
      ensures code == MapCode(Apply(old(app.Value()), Op.Acquire(client)).1.code)
    {
      var c := app.Acquire(client);
      return MapCode(c);
    }

    method Revoke(reason: Reason, client: U32) returns (code: ControlCode)
      requires app.Valid()
      modifies app`state, app.lock, app.lease
      ensures app.Valid() && app.Value() == Apply(old(app.Value()), Op.Revoke(reason, client)).0
      ensures code == MapCode(Apply(old(app.Value()), Op.Revoke(reason, client)).1.code)
    {
      var c := app.Revoke(reason, client);
      return MapCode(c);
    }

    /** The submission is in force afterwards exactly if its sender owns the lease and it is
        not stale; the sender is only told about the first. */
    method SubmitClientState(client: U32, state: State, sequence: U64) returns (code: ControlCode)
      requires app.Valid()
      modifies app`state, app`metrics, app.lock, app.lease
      ensures app.Valid() && app.Value() == Apply(old(app.Value()), Op.SetState(client, state, sequence)).0
      ensures code == if Owns(old(app.Value()).lease, client) then Done else NotTheOwner
    {
      var c := app.SetState(client, state, sequence);
      return MapCode(c);
    }

    method SubmitState(state: State) returns (code: ControlCode)
      requires app.Valid() && nextDirectSequence < 0xFFFF_FFFF_FFFF_FFFF
      modifies this`nextDirectSequence, app`state, app`metrics, app.lock, app.lease
      ensures app.Valid()
      ensures var (taken, answer) := Apply(old(app.Value()), Op.Acquire(DIRECT));
              if answer == Plain(OwnerBusy) then
                code == Busy && app.Value() == old(app.Value()) && nextDirectSequence == old(nextDirectSequence)
              else
                && code == Done
                && nextDirectSequence == old(nextDirectSequence) + 1
                && app.Value() == Apply(taken, Op.SetState(DIRECT, state, nextDirectSequence)).0
    {
      var c := app.Acquire(DIRECT);
      if MapCode(c) != Done {
        return MapCode(c);
      }
      nextDirectSequence := nextDirectSequence + 1;
      c := app.SetState(DIRECT, state, nextDirectSequence);
      return MapCode(c);
    }
  }

  // ---- Direct submissions among everyone else's operations ----

  /** A direct submission is two domain operations, and others may come in between. */
  datatype Event = DirectAcquire | DirectSet(state: State) | Other(op: Op)

  /** `taking` says that the first half has succeeded and the second is to come. */
  datatype World = World(domain: Domain, next: U64, taking: bool)

  /** Nobody else uses the direct id to acquire or submit, and the counter does not wrap. */
  predicate Enabled(w: World, e: Event) {
    match e
    case DirectAcquire => !w.taking && w.next < 0xFFFF_FFFF_FFFF_FFFF
    case DirectSet(_) => w.taking && w.next < 0xFFFF_FFFF_FFFF_FFFF
    case Other(op) => (op.Acquire? || op.SetState?) ==> op.client != DIRECT
  }

  function OpOf(w: World, e: Event): Op
    requires Enabled(w, e)
  {
    match e
    case DirectAcquire => Op.Acquire(DIRECT)
    case DirectSet(state) => Op.SetState(DIRECT, state, w.next + 1)
    case Other(op) => op
  }

  function Step(w: World, e: Event): World
    requires Enabled(w, e)
  {
    var (domain, answer) := Apply(w.domain, OpOf(w, e));
    match e
    case DirectAcquire => World(domain, w.next, answer == Plain(Ok))
    case DirectSet(_) => World(domain, w.next + 1, false)
    case Other(_) => w.(domain := domain)
  }

  predicate Legal(w: World, es: seq<Event>)
    decreases |es|, 0
  {
    es != [] ==> Legal(w, es[..|es| - 1]) && Enabled(Run(w, es[..|es| - 1]), es[|es| - 1])
  }

  function Run(w: World, es: seq<Event>): World
    requires Legal(w, es)
    decreases |es|, 1
  {
    if es == [] then w else Step(Run(w, es[..|es| - 1]), es[|es| - 1])
  }

  predicate DirectIsAhead(w: World) {
    && (w.domain.lease.hasOwner && w.domain.lease.owner == DIRECT ==> w.domain.lease.lastSequence <= w.next)
    && (!w.domain.lease.hasOwner ==> w.domain.lease == FREE)
  }

  lemma {:induction false} AheadInRuns(image: seq<U8>, es: seq<Event>)
    requires Legal(World(Fresh(image), 0, false), es)
    ensures DirectIsAhead(Run(World(Fresh(image), 0, false), es))
    decreases |es|
  {
    if es != [] {
      AheadInRuns(image, es[..|es| - 1]);
    }
  }

  /** Whatever comes in between, a direct submission that still has the lease when its second
      half runs is stored, never stale; it is refused exactly if the lease was taken away. */
  lemma DirectIsNeverStale(image: seq<U8>, es: seq<Event>, state: State)
    requires Legal(World(Fresh(image), 0, false), es)
    requires Enabled(Run(World(Fresh(image), 0, false), es), DirectSet(state))
    ensures var w := Run(World(Fresh(image), 0, false), es);
            var answer := Apply(w.domain, OpOf(w, DirectSet(state))).1;
            && answer == Plain(if Owns(w.domain.lease, 0xFFFF_FFFF) then Ok else NotOwner)
            && (Owns(w.domain.lease, 0xFFFF_FFFF) ==> Step(w, DirectSet(state)).domain.state == state)
  {
    AheadInRuns(image, es);
  }
}
