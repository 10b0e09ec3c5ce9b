/**
 The connection pool as a concurrent protocol (src/adapters/cockroach_pool.rs). Every atomic
 operation, every push or pop of the shared list and every permit operation is one step; tasks and
 connection drivers interleave freely between them. The start state is a finished prewarm.
 */
module Pool {
  import opened Common

  // ----- state -----

  datatype ConnState = CheckedOut | Idle | Closed

  /** Where the connection object is reachable from: the shared list, one task, or nowhere. */
  datatype Place = Listed | HeldBy(task: nat) | Dropped

  datatype Leaver = ByTask(task: nat) | ByDriver

  /** Whether `open` still counts the connection, and who is about to stop that. */
  datatype Membership = Counted | LeavingBy(who: Leaver) | Left

  datatype DriverPc = Running | Ended | SubtractingOpen(wasIdle: bool) | SubtractingIdle | Finished

  /** `state` is the real atomic; the other fields record history that the proofs speak about. */
  datatype Conn = Conn(
    state: ConnState, place: Place, membership: Membership,
    contribution: int,               // additions minus subtractions of `idle` made for this connection
    driver: DriverPc,
    transactionOpen: bool)

  datatype Pc =
    | Waiting                        // no permit yet
    | Popping                        // about to pop the shared list
    | Popped(conn: nat)              // about to compare-exchange IDLE to CHECKED_OUT
    | TookIdle(conn: nat)            // about to subtract from `idle`
    | Inspecting(conn: nat)          // about to ask whether the client is closed
    | Discarding(conn: nat)          // about to swap in CLOSED
    | DiscardSub(conn: nat)          // about to subtract from `open`, then pop again
    | Opening                        // connecting
    | Holding(conn: nat, reusable: bool)
    | Returning(conn: nat, reusable: bool)   // in drop, about to compare-exchange
    | AddingIdle(conn: nat)          // about to add to `idle`
    | Pushing(conn: nat)             // about to push onto the shared list
    | EvictSub(conn: nat)            // about to subtract from `open`, then release
    | Releasing                      // about to give the permit back
    | Done

  datatype Pool = Pool(
    max: nat, conns: seq<Conn>, available: seq<nat>, permits: int, idle: int, open: int, tasks: seq<Pc>)

  const MODULUS := 0x1_0000_0000_0000_0000

  /** 64-bit wrap-around of the atomic counters. */
  function Wrap(x: int): (r: int)
    ensures 0 <= r < MODULUS
  {
    x % MODULUS
  }

  lemma WrapStep(x: int, d: int)
    ensures Wrap(Wrap(x) + d) == Wrap(x + d)
  {
    var q := x / MODULUS;
    assert x == q * MODULUS + x % MODULUS;
    assert x + d == (x % MODULUS + d) + q * MODULUS;
    WrapShift(x % MODULUS + d, q);
  }

  lemma WrapShift(a: int, q: int)
    ensures Wrap(a + q * MODULUS) == Wrap(a)
  {
    var b := a / MODULUS;
    assert a == b * MODULUS + a % MODULUS;
    assert a + q * MODULUS == (b + q) * MODULUS + a % MODULUS;
  }

  // ----- steps -----

  datatype Event =
    | Arrive
    | Acquire(task: nat) | TimeOut(task: nat) | Pop(task: nat) | PopNone(task: nat)
    | TakeCas(task: nat) | TakeSub(task: nat) | Inspect(task: nat) | Discard(task: nat) | DiscardOpen(task: nat)
    | OpenOk(task: nat) | OpenFail(task: nat)
    | Use(task: nat, reusable: bool, transactionOpen: bool)
    | DropBegin(task: nat) | ReturnCas(task: nat) | AddIdle(task: nat) | Push(task: nat)
    | EvictOpen(task: nat) | Release(task: nat)
    | DriverEnds(conn: nat) | DriverSwap(conn: nat) | DriverOpen(conn: nat) | DriverIdle(conn: nat)

  /** The connection a task is responsible for. */
  function Owned(pc: Pc): Option<nat> {
    match pc
    case Popped(c) => Some(c)
    case TookIdle(c) => Some(c)
    case Inspecting(c) => Some(c)
    case Discarding(c) => Some(c)
    case Holding(c, _) => Some(c)
    case Returning(c, _) => Some(c)
    case AddingIdle(c) => Some(c)
    case Pushing(c) => Some(c)
    case _ => None
  }

  /** The connection whose departure from `open` a task has yet to record. */
  function Debt(pc: Pc): Option<nat> {
    match pc
    case DiscardSub(c) => Some(c)
    case EvictSub(c) => Some(c)
    case _ => None
  }

  /** What the pool asks of a borrower: a checkout flagged reusable has no transaction open on it. */
  predicate CleanUse(reusable: bool, transactionOpen: bool) {
    reusable ==> !transactionOpen
  }

  predicate Can(p: Pool, ev: Event) {
    match ev
    case Arrive => true
    case Acquire(t) => t < |p.tasks| && p.tasks[t].Waiting? && p.permits > 0
    case TimeOut(t) => t < |p.tasks| && p.tasks[t].Waiting?
    case Pop(t) => t < |p.tasks| && p.tasks[t].Popping? && p.available != [] && p.available[|p.available| - 1] < |p.conns|
    case PopNone(t) => t < |p.tasks| && p.tasks[t].Popping? && p.available == []
    case TakeCas(t) => t < |p.tasks| && p.tasks[t].Popped? && p.tasks[t].conn < |p.conns|
    case TakeSub(t) => t < |p.tasks| && p.tasks[t].TookIdle? && p.tasks[t].conn < |p.conns|
    case Inspect(t) => t < |p.tasks| && p.tasks[t].Inspecting? && p.tasks[t].conn < |p.conns|
    case Discard(t) => t < |p.tasks| && p.tasks[t].Discarding? && p.tasks[t].conn < |p.conns|
    case DiscardOpen(t) => t < |p.tasks| && p.tasks[t].DiscardSub? && p.tasks[t].conn < |p.conns|
    case OpenOk(t) => t < |p.tasks| && p.tasks[t].Opening?
    case OpenFail(t) => t < |p.tasks| && p.tasks[t].Opening?
    case Use(t, reusable, open) =>
      t < |p.tasks| && p.tasks[t].Holding? && p.tasks[t].conn < |p.conns| && CleanUse(reusable, open)
    case DropBegin(t) => t < |p.tasks| && p.tasks[t].Holding? && p.tasks[t].conn < |p.conns|
    case ReturnCas(t) => t < |p.tasks| && p.tasks[t].Returning? && p.tasks[t].conn < |p.conns|
    case AddIdle(t) => t < |p.tasks| && p.tasks[t].AddingIdle? && p.tasks[t].conn < |p.conns|
    case Push(t) => t < |p.tasks| && p.tasks[t].Pushing? && p.tasks[t].conn < |p.conns|
    case EvictOpen(t) => t < |p.tasks| && p.tasks[t].EvictSub? && p.tasks[t].conn < |p.conns|
    case Release(t) => t < |p.tasks| && p.tasks[t].Releasing?
    case DriverEnds(c) => c < |p.conns| && p.conns[c].driver.Running?
    case DriverSwap(c) => c < |p.conns| && p.conns[c].driver.Ended?
    case DriverOpen(c) => c < |p.conns| && p.conns[c].driver.SubtractingOpen?
    case DriverIdle(c) => c < |p.conns| && p.conns[c].driver.SubtractingIdle?
  }

  function SetTask(p: Pool, t: nat, pc: Pc): Pool
    requires t < |p.tasks|
  {
    p.(tasks := p.tasks[t := pc])
  }

  function SetBoth(p: Pool, t: nat, pc: Pc, c: nat, k: Conn): Pool
    requires t < |p.tasks| && c < |p.conns|
  {
    p.(tasks := p.tasks[t := pc], conns := p.conns[c := k])
  }

  /** The connection's channel is closed once its driver future has completed. */
  predicate ClientClosed(k: Conn) {
    !k.driver.Running?
  }

  function Next(p: Pool, ev: Event): Pool
    requires Can(p, ev)
  {
    match ev
    case Arrive => p.(tasks := p.tasks + [Waiting])
    case Acquire(t) => SetTask(p, t, Popping).(permits := p.permits - 1)
    case TimeOut(t) => SetTask(p, t, Done)
    case Pop(t) =>
      var c := p.available[|p.available| - 1];
      SetBoth(p, t, Popped(c), c, p.conns[c].(place := HeldBy(t))).(available := p.available[..|p.available| - 1])
    case PopNone(t) => SetTask(p, t, Opening)
    case TakeCas(t) =>
      var c := p.tasks[t].conn;
      if p.conns[c].state.Idle? then SetBoth(p, t, TookIdle(c), c, p.conns[c].(state := CheckedOut))
      else SetBoth(p, t, Popping, c, p.conns[c].(place := Dropped))
    case TakeSub(t) =>
      var c := p.tasks[t].conn;
      SetBoth(p, t, Inspecting(c), c, p.conns[c].(contribution := p.conns[c].contribution - 1)).(idle := Wrap(p.idle - 1))
    case Inspect(t) =>
      var c := p.tasks[t].conn;
      SetTask(p, t, if ClientClosed(p.conns[c]) then Discarding(c) else Holding(c, true))
    case Discard(t) =>
      var c := p.tasks[t].conn;
      if p.conns[c].state.Closed? then SetBoth(p, t, Popping, c, p.conns[c].(place := Dropped))
      else SetBoth(p, t, DiscardSub(c), c, p.conns[c].(state := Closed, place := Dropped, membership := LeavingBy(ByTask(t))))
    case DiscardOpen(t) =>
      var c := p.tasks[t].conn;
      SetBoth(p, t, Popping, c, p.conns[c].(membership := Left)).(open := Wrap(p.open - 1))
    case OpenOk(t) =>
      SetTask(p, t, Holding(|p.conns|, true)).(
        conns := p.conns + [Conn(CheckedOut, HeldBy(t), Counted, 0, Running, false)], open := Wrap(p.open + 1))
    case OpenFail(t) => SetTask(p, t, Releasing)
    case Use(t, reusable, open) =>
      var c := p.tasks[t].conn;
      SetBoth(p, t, Holding(c, reusable), c, p.conns[c].(transactionOpen := open))
    case DropBegin(t) => SetTask(p, t, Returning(p.tasks[t].conn, p.tasks[t].reusable))
    case ReturnCas(t) =>
      var c := p.tasks[t].conn;
      if !p.conns[c].state.CheckedOut? then SetBoth(p, t, Releasing, c, p.conns[c].(place := Dropped))
      else if p.tasks[t].reusable then SetBoth(p, t, AddingIdle(c), c, p.conns[c].(state := Idle))
      else SetBoth(p, t, EvictSub(c), c, p.conns[c].(state := Closed, place := Dropped, membership := LeavingBy(ByTask(t))))
    case AddIdle(t) =>
      var c := p.tasks[t].conn;
      SetBoth(p, t, Pushing(c), c, p.conns[c].(contribution := p.conns[c].contribution + 1)).(idle := Wrap(p.idle + 1))
    case Push(t) =>
      var c := p.tasks[t].conn;
      SetBoth(p, t, Releasing, c, p.conns[c].(place := Listed)).(available := p.available + [c])
    case EvictOpen(t) =>
      var c := p.tasks[t].conn;
      SetBoth(p, t, Releasing, c, p.conns[c].(membership := Left)).(open := Wrap(p.open - 1))
    case Release(t) => SetTask(p, t, Done).(permits := p.permits + 1)
    case DriverEnds(c) => p.(conns := p.conns[c := p.conns[c].(driver := Ended)])
    case DriverSwap(c) =>
      var k := p.conns[c];
      p.(conns := p.conns[c := if k.state.Closed? then k.(driver := Finished)
                               else k.(state := Closed, membership := LeavingBy(ByDriver), driver := SubtractingOpen(k.state.Idle?))])
    case DriverOpen(c) =>
      var k := p.conns[c];
      p.(conns := p.conns[c := k.(membership := Left, driver := if k.driver.wasIdle then SubtractingIdle else Finished)],
         open := Wrap(p.open - 1))
    case DriverIdle(c) =>
      var k := p.conns[c];
      p.(conns := p.conns[c := k.(contribution := k.contribution - 1, driver := Finished)], idle := Wrap(p.idle - 1))
  }

  // ----- structure: every connection is in one place and owes what its place says -----

  /** The states a connection can be in while its task is at a given point. The driver may close it at any time. */
  predicate StateFits(pc: Pc, k: Conn) {
    match pc
    case Popped(_) => !k.state.CheckedOut? && !k.transactionOpen
    case TookIdle(_) => !k.state.Idle? && !k.transactionOpen
    case Inspecting(_) => !k.state.Idle? && !k.transactionOpen
    case Discarding(_) => !k.state.Idle?
    case Holding(_, reusable) => !k.state.Idle? && (reusable ==> !k.transactionOpen)
    case Returning(_, reusable) => !k.state.Idle? && (reusable ==> !k.transactionOpen)
    case AddingIdle(_) => !k.state.CheckedOut? && !k.transactionOpen
    case Pushing(_) => !k.state.CheckedOut? && !k.transactionOpen
    case _ => true
  }

  ghost predicate TaskOk(p: Pool, t: nat)
    requires t < |p.tasks|
  {
    var pc := p.tasks[t];
    && (Owned(pc).Some? ==>
          Owned(pc).value < |p.conns| && p.conns[Owned(pc).value].place == HeldBy(t) && StateFits(pc, p.conns[Owned(pc).value]))
    && (Debt(pc).Some? ==>
          && Debt(pc).value < |p.conns|
          && p.conns[Debt(pc).value].membership == LeavingBy(ByTask(t)) && p.conns[Debt(pc).value].place.Dropped?)
  }

  function One(b: bool): int {
    if b then 1 else 0
  }

  /** What `idle` should count for a connection, given which updates of it are still outstanding. */
  function Due(k: Conn, pc: Pc): int {
    One(k.state.Idle?) - One(pc.AddingIdle?) + One(pc.TookIdle?)
    + One(k.driver.SubtractingIdle? || (k.driver.SubtractingOpen? && k.driver.wasIdle))
  }

  ghost predicate ConnOk(p: Pool, c: nat)
    requires c < |p.conns|
  {
    var k := p.conns[c];
    && (k.state.Closed? <==> !k.membership.Counted?)
    && (k.place.Dropped? ==> k.state.Closed?)
    && (k.place.Listed? ==> !k.state.CheckedOut? && !k.transactionOpen)
    && (k.place.HeldBy? ==> k.place.task < |p.tasks| && Owned(p.tasks[k.place.task]) == Some(c))
    && (k.membership.LeavingBy? && k.membership.who.ByTask? ==>
          k.membership.who.task < |p.tasks| && Debt(p.tasks[k.membership.who.task]) == Some(c))
    && (k.membership == LeavingBy(ByDriver) <==> k.driver.SubtractingOpen?)
    && (k.driver.SubtractingIdle? ==> k.state.Closed?)
    && k.contribution == Due(k, if k.place.HeldBy? then p.tasks[k.place.task] else Waiting)
  }

  ghost predicate ListOk(p: Pool) {
    && (forall i :: 0 <= i < |p.available| ==> p.available[i] < |p.conns| && p.conns[p.available[i]].place.Listed?)
    && (forall i, j :: 0 <= i < j < |p.available| ==> p.available[i] != p.available[j])
  }

  ghost predicate Structured(p: Pool) {
    && (forall t: nat :: t < |p.tasks| ==> TaskOk(p, t))
    && (forall c: nat :: c < |p.conns| ==> ConnOk(p, c))
    && ListOk(p)
  }
}
