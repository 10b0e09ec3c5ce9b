/** Capacity and accounting of the connection pool in every interleaving (src/adapters/cockroach_pool.rs). */
module PoolInvariant {
  import opened Common
  import opened Sums
  import opened Pool

  // ----- structure is kept -----

  /** A task at a point where it is responsible for no connection. */
  predicate Free(pc: Pc) {
    Owned(pc).None? && Debt(pc).None?
  }

  predicate ConcernsOnly(pc: Pc, c: nat) {
    (Owned(pc) == None || Owned(pc) == Some(c)) && (Debt(pc) == None || Debt(pc) == Some(c))
  }

  /** A step of one task that touches no connection disturbs no other task and no connection. */
  lemma TaskMoves(p: Pool, p': Pool, t: nat, pc: Pc)
    requires Structured(p) && t < |p.tasks| && Free(p.tasks[t]) && Free(pc)
    requires p'.tasks == p.tasks[t := pc] && p'.conns == p.conns && p'.available == p.available
    ensures Structured(p')
  {
    forall u: nat | u < |p'.tasks| ensures TaskOk(p', u) { assert TaskOk(p, u); }
    forall c: nat | c < |p'.conns| ensures ConnOk(p', c) { assert ConnOk(p, c); }
  }

  /** A step of one task on one connection that nobody else is responsible for. */
  lemma TaskAndConnMove(p: Pool, p': Pool, t: nat, pc: Pc, c: nat, k: Conn)
    requires Structured(p) && t < |p.tasks| && c < |p.conns| && ConcernsOnly(p.tasks[t], c)
    requires p'.tasks == p.tasks[t := pc] && p'.conns == p.conns[c := k]
    requires if p.conns[c].place.Dropped? then k.place.Dropped? else p.conns[c].place == Listed || p.conns[c].place == HeldBy(t)
    requires k.membership == p.conns[c].membership || p.conns[c].membership.Counted? || p.conns[c].membership == LeavingBy(ByTask(t))
    requires ListOk(p') && TaskOk(p', t) && ConnOk(p', c)
    ensures Structured(p')
  {
    forall u: nat | u < |p'.tasks| ensures TaskOk(p', u) {
      if u != t { OtherTask(p, p', t, pc, c, k, u); }
    }
    forall d: nat | d < |p'.conns| ensures ConnOk(p', d) {
      if d != c { OtherConn(p, p', t, pc, c, k, d); }
    }
  }

  lemma OtherTask(p: Pool, p': Pool, t: nat, pc: Pc, c: nat, k: Conn, u: nat)
    requires Structured(p) && t < |p.tasks| && c < |p.conns| && u < |p.tasks| && u != t
    requires p'.tasks == p.tasks[t := pc] && p'.conns == p.conns[c := k]
    requires if p.conns[c].place.Dropped? then k.place.Dropped? else p.conns[c].place == Listed || p.conns[c].place == HeldBy(t)
    requires k.membership == p.conns[c].membership || p.conns[c].membership.Counted? || p.conns[c].membership == LeavingBy(ByTask(t))
    ensures TaskOk(p', u)
  {
    assert TaskOk(p, u);
  }

  lemma OtherConn(p: Pool, p': Pool, t: nat, pc: Pc, c: nat, k: Conn, d: nat)
    requires Structured(p) && t < |p.tasks| && c < |p.conns| && d < |p.conns| && d != c && ConcernsOnly(p.tasks[t], c)
    requires p'.tasks == p.tasks[t := pc] && p'.conns == p.conns[c := k]
    ensures ConnOk(p', d)
  {
    assert ConnOk(p, d);
  }

  /** A driver's step on its connection: it never moves the connection and never overrides a departure in progress. */
  lemma DriverMoves(p: Pool, p': Pool, c: nat, k: Conn)
    requires Structured(p) && c < |p.conns|
    requires p'.tasks == p.tasks && p'.conns == p.conns[c := k] && p'.available == p.available
    requires k.place == p.conns[c].place && k.transactionOpen == p.conns[c].transactionOpen
    requires k.state == p.conns[c].state || k.state.Closed?
    requires k.membership == p.conns[c].membership || p.conns[c].membership.Counted? || p.conns[c].membership == LeavingBy(ByDriver)
    requires ConnOk(p', c)
    ensures Structured(p')
  {
    forall u: nat | u < |p'.tasks| ensures TaskOk(p', u) { assert TaskOk(p, u); }
    forall d: nat | d < |p'.conns| ensures ConnOk(p', d) {
      if d != c { assert ConnOk(p, d); }
    }
  }

  predicate IsDriverEvent(ev: Event) {
    ev.DriverEnds? || ev.DriverSwap? || ev.DriverOpen? || ev.DriverIdle?
  }

  lemma DriverKeepsStructure(p: Pool, ev: Event)
    requires Structured(p) && Can(p, ev) && IsDriverEvent(ev)
    ensures Structured(Next(p, ev))
  {
    var p' := Next(p, ev);
    var c := ev.conn;
    assert ConnOk(p, c);
    DriverMoves(p, p', c, p'.conns[c]);
  }

  predicate IsFreeEvent(ev: Event) {
    ev.Acquire? || ev.TimeOut? || ev.PopNone? || ev.OpenFail? || ev.Release?
  }

  lemma FreeKeepsStructure(p: Pool, ev: Event)
    requires Structured(p) && Can(p, ev) && IsFreeEvent(ev)
    ensures Structured(Next(p, ev))
  {
    var p' := Next(p, ev);
    TaskMoves(p, p', ev.task, p'.tasks[ev.task]);
  }

  predicate IsOwnerEvent(ev: Event) {
    || ev.TakeCas? || ev.TakeSub? || ev.Inspect? || ev.Discard? || ev.DiscardOpen? || ev.Use? || ev.DropBegin?
    || ev.ReturnCas? || ev.AddIdle? || ev.EvictOpen?
  }

  /** What an owner's step does to its own task and connection, and that it touches nothing else. */
  ghost predicate OwnStep(p: Pool, ev: Event)
    requires Can(p, ev) && IsOwnerEvent(ev)
  {
    var p', t, c := Next(p, ev), ev.task, p.tasks[ev.task].conn;
    && p'.tasks == p.tasks[t := p'.tasks[t]] && p'.conns == p.conns[c := p'.conns[c]] && p'.available == p.available
    && TaskOk(p', t) && ConnOk(p', c)
    && (p'.conns[c].membership == p.conns[c].membership || p.conns[c].membership.Counted?
        || p.conns[c].membership == LeavingBy(ByTask(t)))
    && (p.conns[c].place.Dropped? ==> p'.conns[c].place.Dropped?)
  }

  lemma TakingOwnStep(p: Pool, ev: Event)
    requires Structured(p) && Can(p, ev) && (ev.TakeCas? || ev.TakeSub? || ev.Inspect?)
    ensures OwnStep(p, ev)
  {
    assert TaskOk(p, ev.task) && ConnOk(p, p.tasks[ev.task].conn);
  }

  lemma UsingOwnStep(p: Pool, ev: Event)
    requires Structured(p) && Can(p, ev) && (ev.Use? || ev.DropBegin? || ev.AddIdle?)
    ensures OwnStep(p, ev)
  {
    assert TaskOk(p, ev.task) && ConnOk(p, p.tasks[ev.task].conn);
  }

  lemma ReturningOwnStep(p: Pool, ev: Event)
    requires Structured(p) && Can(p, ev) && (ev.ReturnCas? || ev.Discard?)
    ensures OwnStep(p, ev)
  {
    assert TaskOk(p, ev.task) && ConnOk(p, p.tasks[ev.task].conn);
  }

  lemma LeavingOwnStep(p: Pool, ev: Event)
    requires Structured(p) && Can(p, ev) && (ev.DiscardOpen? || ev.EvictOpen?)
    ensures OwnStep(p, ev)
  {
    assert TaskOk(p, ev.task) && ConnOk(p, p.tasks[ev.task].conn);
  }

  lemma OwnerKeepsStructure(p: Pool, ev: Event)
    requires Structured(p) && Can(p, ev) && IsOwnerEvent(ev)
    requires OwnStep(p, ev)
    ensures Structured(Next(p, ev))
  {
    var p', t, c := Next(p, ev), ev.task, p.tasks[ev.task].conn;
    assert TaskOk(p, t);
    assert Owned(p.tasks[t]) == Some(c) || Debt(p.tasks[t]) == Some(c);
    StillListed(p, p', c);
    TaskAndConnMove(p, p', t, p'.tasks[t], c, p'.conns[c]);
  }

  lemma StillListed(p: Pool, p': Pool, c: nat)
    requires ListOk(p) && c < |p.conns| && !p.conns[c].place.Listed?
    requires p'.available == p.available && |p'.conns| == |p.conns| && p'.conns == p.conns[c := p'.conns[c]]
    ensures ListOk(p')
  {
  }

  lemma PopKeepsStructure(p: Pool, t: nat)
    requires Structured(p) && Can(p, Pop(t))
    ensures Structured(Next(p, Pop(t)))
  {
    var p' := Next(p, Pop(t));
    var n := |p.available| - 1;
    var c := p.available[n];
    assert TaskOk(p, t) && ConnOk(p, c);
    assert TaskOk(p', t) && ConnOk(p', c);
    assert ListOk(p');
    TaskAndConnMove(p, p', t, Popped(c), c, p'.conns[c]);
  }

  lemma PushKeepsStructure(p: Pool, t: nat)
    requires Structured(p) && Can(p, Push(t))
    ensures Structured(Next(p, Push(t)))
  {
    var p' := Next(p, Push(t));
    var c := p.tasks[t].conn;
    assert TaskOk(p, t) && ConnOk(p, c);
    assert TaskOk(p', t) && ConnOk(p', c);
    forall i | 0 <= i < |p.available| ensures p.available[i] != c { assert p.conns[p.available[i]].place.Listed?; }
    assert ListOk(p');
    TaskAndConnMove(p, p', t, Releasing, c, p'.conns[c]);
  }

  lemma OpenKeepsStructure(p: Pool, t: nat)
    requires Structured(p) && Can(p, OpenOk(t))
    ensures Structured(Next(p, OpenOk(t)))
  {
    var p' := Next(p, OpenOk(t));
    forall u: nat | u < |p'.tasks| ensures TaskOk(p', u) { assert TaskOk(p, u); }
    forall c: nat | c < |p'.conns| ensures ConnOk(p', c) {
      if c < |p.conns| { assert ConnOk(p, c); }
    }
  }

  lemma ArriveKeepsStructure(p: Pool)
    requires Structured(p)
    ensures Structured(Next(p, Arrive))
  {
    var p' := Next(p, Arrive);
    forall u: nat | u < |p'.tasks| ensures TaskOk(p', u) { if u < |p.tasks| { assert TaskOk(p, u); } }
    forall c: nat | c < |p'.conns| ensures ConnOk(p', c) { assert ConnOk(p, c); }
  }

  // ----- books are kept -----

  function CountedOf(k: Conn): int { One(!k.membership.Left?) }
  function ContributionOf(k: Conn): int { k.contribution }
  function ListedOf(k: Conn): int { One(k.place.Listed?) }
  function HeldOf(k: Conn): int { One(k.place.HeldBy?) }
  function LiveOf(k: Conn): int { One(!k.state.Closed?) }
  function IdleOf(k: Conn): int { One(k.state.Idle?) }
  function PermitOf(pc: Pc): int { One(!pc.Waiting? && !pc.Done?) }
  function OwnsOf(pc: Pc): int { One(Owned(pc).Some?) }
  function OpeningOf(pc: Pc): int { One(pc.Opening?) }
  function WeightOf(pc: Pc): int { One(Owned(pc).Some? || pc.Opening?) }

  /** The counters agree with the histories, permits are conserved, and occupied places fit in the pool. */
  ghost predicate Books(p: Pool) {
    && p.open == Wrap(Sum(p.conns, CountedOf))
    && p.idle == Wrap(Sum(p.conns, ContributionOf))
    && p.permits >= 0 && p.permits + Sum(p.tasks, PermitOf) == p.max
    && |p.available| == Sum(p.conns, ListedOf)
    && Sum(p.tasks, OwnsOf) == Sum(p.conns, HeldOf)
    && |p.available| + Sum(p.tasks, WeightOf) <= p.max
  }

  lemma WrapFollows(counter: int, sum: int, d: int, counter': int)
    requires counter == Wrap(sum) && counter' == if d == 0 then counter else Wrap(counter + d)
    ensures counter' == Wrap(sum + d)
  {
    WrapStep(sum, d);
  }

  /** The effect on every account of replacing one task's point and one connection. */
  ghost predicate Balanced(p: Pool, p': Pool, pc: Pc, pc': Pc, k: Conn, k': Conn) {
    && p'.max == p.max
    && p'.open == (if CountedOf(k') == CountedOf(k) then p.open else Wrap(p.open + CountedOf(k') - CountedOf(k)))
    && p'.idle == (if ContributionOf(k') == ContributionOf(k) then p.idle else Wrap(p.idle + ContributionOf(k') - ContributionOf(k)))
    && p'.permits >= 0 && p'.permits + PermitOf(pc') == p.permits + PermitOf(pc)
    && |p'.available| - |p.available| == ListedOf(k') - ListedOf(k)
    && OwnsOf(pc') - OwnsOf(pc) == HeldOf(k') - HeldOf(k)
    && |p'.available| + WeightOf(pc') <= |p.available| + WeightOf(pc)
  }

  lemma ConnSums(p: Pool, p': Pool, c: nat, k: Conn)
    requires c < |p.conns| && p'.conns == p.conns[c := k]
    ensures Sum(p'.conns, CountedOf) == Sum(p.conns, CountedOf) - CountedOf(p.conns[c]) + CountedOf(k)
    ensures Sum(p'.conns, ContributionOf) == Sum(p.conns, ContributionOf) - ContributionOf(p.conns[c]) + ContributionOf(k)
    ensures Sum(p'.conns, ListedOf) == Sum(p.conns, ListedOf) - ListedOf(p.conns[c]) + ListedOf(k)
    ensures Sum(p'.conns, HeldOf) == Sum(p.conns, HeldOf) - HeldOf(p.conns[c]) + HeldOf(k)
  {
    SumUpdate(p.conns, c, k, CountedOf);
    SumUpdate(p.conns, c, k, ContributionOf);
    SumUpdate(p.conns, c, k, ListedOf);
    SumUpdate(p.conns, c, k, HeldOf);
  }

  lemma TaskSums(p: Pool, p': Pool, t: nat, pc: Pc)
    requires t < |p.tasks| && p'.tasks == p.tasks[t := pc]
    ensures Sum(p'.tasks, PermitOf) == Sum(p.tasks, PermitOf) - PermitOf(p.tasks[t]) + PermitOf(pc)
    ensures Sum(p'.tasks, OwnsOf) == Sum(p.tasks, OwnsOf) - OwnsOf(p.tasks[t]) + OwnsOf(pc)
    ensures Sum(p'.tasks, WeightOf) == Sum(p.tasks, WeightOf) - WeightOf(p.tasks[t]) + WeightOf(pc)
  {
    SumUpdate(p.tasks, t, pc, PermitOf);
    SumUpdate(p.tasks, t, pc, OwnsOf);
    SumUpdate(p.tasks, t, pc, WeightOf);
  }

  lemma BooksFollow(p: Pool, p': Pool, t: nat, pc: Pc, c: nat, k: Conn)
    requires Books(p) && t < |p.tasks| && c < |p.conns|
    requires p'.tasks == p.tasks[t := pc] && p'.conns == p.conns[c := k]
    requires Balanced(p, p', p.tasks[t], pc, p.conns[c], k)
    ensures Books(p')
  {
    ConnSums(p, p', c, k);
    TaskSums(p, p', t, pc);
    WrapFollows(p.open, Sum(p.conns, CountedOf), CountedOf(k) - CountedOf(p.conns[c]), p'.open);
    WrapFollows(p.idle, Sum(p.conns, ContributionOf), ContributionOf(k) - ContributionOf(p.conns[c]), p'.idle);
  }

  ghost predicate OwnerView(p: Pool, ev: Event, pc: Pc, k: Conn) {
    && Can(p, ev) && IsOwnerEvent(ev) && p.permits >= 0
    && pc == p.tasks[ev.task] && k == p.conns[pc.conn]
    && (Owned(pc).Some? ==> k.place.HeldBy?)
    && (Debt(pc).Some? ==> k.membership.LeavingBy? && k.place.Dropped?)
    && (k.state.Closed? <==> !k.membership.Counted?)
  }

  lemma KeepingBalanced(p: Pool, ev: Event, pc: Pc, k: Conn)
    requires OwnerView(p, ev, pc, k) && (ev.TakeSub? || ev.Inspect? || ev.Use? || ev.DropBegin? || ev.AddIdle?)
    ensures Balanced(p, Next(p, ev), pc, Next(p, ev).tasks[ev.task], k, Next(p, ev).conns[pc.conn])
  {
  }

  lemma PartingBalanced(p: Pool, ev: Event, pc: Pc, k: Conn)
    requires OwnerView(p, ev, pc, k) && (ev.TakeCas? || ev.ReturnCas? || ev.Discard? || ev.DiscardOpen? || ev.EvictOpen?)
    ensures Balanced(p, Next(p, ev), pc, Next(p, ev).tasks[ev.task], k, Next(p, ev).conns[pc.conn])
  {
  }

  lemma OwnerKeepsBooks(p: Pool, ev: Event)
    requires Structured(p) && Books(p) && Can(p, ev) && IsOwnerEvent(ev) && OwnStep(p, ev)
    ensures Books(Next(p, ev))
  {
    var p', t, c := Next(p, ev), ev.task, p.tasks[ev.task].conn;
    assert TaskOk(p, t) && ConnOk(p, c);
    if ev.TakeSub? || ev.Inspect? || ev.Use? || ev.DropBegin? || ev.AddIdle? {
      KeepingBalanced(p, ev, p.tasks[t], p.conns[c]);
    } else {
      PartingBalanced(p, ev, p.tasks[t], p.conns[c]);
    }
    BooksFollow(p, p', t, p'.tasks[t], c, p'.conns[c]);
  }

  lemma ListKeepsBooks(p: Pool, ev: Event)
    requires Structured(p) && Books(p) && Can(p, ev) && (ev.Pop? || ev.Push?)
    ensures Books(Next(p, ev))
  {
    var p', t := Next(p, ev), ev.task;
    var c := if ev.Pop? then p.available[|p.available| - 1] else p.tasks[t].conn;
    assert TaskOk(p, t) && ConnOk(p, c);
    BooksFollow(p, p', t, p'.tasks[t], c, p'.conns[c]);
  }

  lemma WeightNeedsPermit(tasks: seq<Pc>)
    ensures 0 <= Sum(tasks, WeightOf) <= Sum(tasks, PermitOf)
  {
    SumAtMost(tasks, WeightOf, PermitOf);
    SumNonnegative(tasks, WeightOf);
  }

  lemma BooksFollowTask(p: Pool, p': Pool, t: nat, pc: Pc)
    requires Books(p) && t < |p.tasks| && p' == p.(tasks := p.tasks[t := pc], permits := p'.permits)
    requires p'.permits >= 0 && p'.permits + PermitOf(pc) == p.permits + PermitOf(p.tasks[t])
    requires OwnsOf(pc) == OwnsOf(p.tasks[t])
    requires p.available == [] || WeightOf(pc) <= WeightOf(p.tasks[t])
    ensures Books(p')
  {
    TaskSums(p, p', t, pc);
    WeightNeedsPermit(p'.tasks);
  }

  /** Opening only after seeing the list empty is what keeps a new connection within the pool's size. */
  lemma FreeKeepsBooks(p: Pool, ev: Event)
    requires Books(p) && Can(p, ev) && IsFreeEvent(ev)
    ensures Books(Next(p, ev))
  {
    BooksFollowTask(p, Next(p, ev), ev.task, Next(p, ev).tasks[ev.task]);
  }

  lemma OpenKeepsBooks(p: Pool, t: nat)
    requires Books(p) && Can(p, OpenOk(t))
    ensures Books(Next(p, OpenOk(t)))
  {
    var p' := Next(p, OpenOk(t));
    var k := Conn(CheckedOut, HeldBy(t), Counted, 0, Running, false);
    TaskSums(p, p', t, p'.tasks[t]);
    SumPush(p.conns, k, CountedOf);
    SumPush(p.conns, k, ContributionOf);
    SumPush(p.conns, k, ListedOf);
    SumPush(p.conns, k, HeldOf);
    WrapFollows(p.open, Sum(p.conns, CountedOf), 1, p'.open);
  }

  lemma DriverKeepsBooks(p: Pool, ev: Event)
    requires Structured(p) && Books(p) && Can(p, ev) && IsDriverEvent(ev)
    ensures Books(Next(p, ev))
  {
    assert ConnOk(p, ev.conn);
    BooksFollowConn(p, Next(p, ev), ev.conn, Next(p, ev).conns[ev.conn]);
  }

  lemma BooksFollowConn(p: Pool, p': Pool, c: nat, k: Conn)
    requires Books(p) && c < |p.conns| && p' == p.(conns := p.conns[c := k], open := p'.open, idle := p'.idle)
    requires k.place == p.conns[c].place
    requires p'.open == if CountedOf(k) == CountedOf(p.conns[c]) then p.open else Wrap(p.open + CountedOf(k) - CountedOf(p.conns[c]))
    requires p'.idle == if k.contribution == p.conns[c].contribution then p.idle
                        else Wrap(p.idle + k.contribution - p.conns[c].contribution)
    ensures Books(p')
  {
    ConnSums(p, p', c, k);
    WrapFollows(p.open, Sum(p.conns, CountedOf), CountedOf(k) - CountedOf(p.conns[c]), p'.open);
    WrapFollows(p.idle, Sum(p.conns, ContributionOf), ContributionOf(k) - ContributionOf(p.conns[c]), p'.idle);
  }

  lemma ArriveKeepsBooks(p: Pool)
    requires Books(p)
    ensures Books(Next(p, Arrive))
  {
    SumPush(p.tasks, Waiting, PermitOf);
    SumPush(p.tasks, Waiting, OwnsOf);
    SumPush(p.tasks, Waiting, WeightOf);
  }

  // ----- every interleaving -----

  ghost predicate Inv(p: Pool) {
    Structured(p) && Books(p)
  }

  lemma OwnerKeepsInv(p: Pool, ev: Event)
    requires Inv(p) && Can(p, ev) && IsOwnerEvent(ev)
    ensures Inv(Next(p, ev))
  {
    if ev.TakeCas? || ev.TakeSub? || ev.Inspect? { TakingOwnStep(p, ev); }
    else if ev.Use? || ev.DropBegin? || ev.AddIdle? { UsingOwnStep(p, ev); }
    else if ev.ReturnCas? || ev.Discard? { ReturningOwnStep(p, ev); }
    else { LeavingOwnStep(p, ev); }
    OwnerKeepsStructure(p, ev);
    OwnerKeepsBooks(p, ev);
  }

  /** No step of any task or driver breaks the invariant. */
  lemma EventKeepsInv(p: Pool, ev: Event)
    requires Inv(p) && Can(p, ev)
    ensures Inv(Next(p, ev))
  {
    if IsDriverEvent(ev) { DriverKeepsStructure(p, ev); DriverKeepsBooks(p, ev); }
    else if IsFreeEvent(ev) { FreeKeepsStructure(p, ev); FreeKeepsBooks(p, ev); }
    else if IsOwnerEvent(ev) { OwnerKeepsInv(p, ev); }
    else if ev.Pop? { PopKeepsStructure(p, ev.task); ListKeepsBooks(p, ev); }
    else if ev.Push? { PushKeepsStructure(p, ev.task); ListKeepsBooks(p, ev); }
    else if ev.OpenOk? { OpenKeepsStructure(p, ev.task); OpenKeepsBooks(p, ev.task); }
    else { ArriveKeepsStructure(p); ArriveKeepsBooks(p); }
  }
}
