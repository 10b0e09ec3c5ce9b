/** What the pool invariant means for its users (src/adapters/cockroach_pool.rs). */
module PoolTheorems {
  import opened Common
  import opened Sums
  import opened Pool
  import opened PoolInvariant

  // ----- runs -----

  const PREWARMED := Conn(Idle, Listed, Counted, 1, Running, false)

  /** A finished prewarm of `max` connections with every driver still running. */
  function Prewarmed(max: nat): Pool {
    Pool(max, seq(max, _ => PREWARMED), Range(max), max, Wrap(max), Wrap(max), [])
  }

  lemma {:induction false} SumConstant<T>(n: nat, x: T, f: T -> int)
    ensures Sum(seq(n, _ => x), f) == n * f(x)
  {
    if n > 0 {
      assert seq(n, _ => x)[..n - 1] == seq(n - 1, _ => x);
      SumConstant(n - 1, x, f);
    }
  }

  lemma PrewarmedInv(max: nat)
    ensures Inv(Prewarmed(max))
  {
    SumConstant(max, PREWARMED, CountedOf);
    SumConstant(max, PREWARMED, ContributionOf);
    SumConstant(max, PREWARMED, ListedOf);
    SumConstant(max, PREWARMED, HeldOf);
  }

  ghost predicate Moves(run: seq<Pool>, i: int)
    requires 0 <= i < |run| - 1
  {
    exists ev :: Can(run[i], ev) && run[i + 1] == Next(run[i], ev)
  }

  /** Any interleaving of acquisitions, uses, drops, driver deaths and reconnections. */
  ghost predicate Run(max: nat, run: seq<Pool>) {
    && run != [] && run[0] == Prewarmed(max)
    && forall i :: 0 <= i < |run| - 1 ==> Moves(run, i)
  }

  lemma {:induction false} RunInv(max: nat, run: seq<Pool>, i: nat)
    requires Run(max, run) && i < |run|
    ensures Inv(run[i]) && run[i].max == max
  {
    if i == 0 {
      PrewarmedInv(max);
    } else {
      RunInv(max, run, i - 1);
      assert Moves(run, i - 1);
      var ev :| Can(run[i - 1], ev) && run[i] == Next(run[i - 1], ev);
      EventKeepsInv(run[i - 1], ev);
    }
  }

  // ----- capacity -----

  function LiveCount(p: Pool): int { Sum(p.conns, LiveOf) }
  function OpeningCount(p: Pool): int { Sum(p.tasks, OpeningOf) }

  lemma LiveHasPlace(p: Pool)
    requires Structured(p)
    ensures LiveCount(p) <= Sum(p.conns, ListedOf) + Sum(p.conns, HeldOf)
  {
    var placed := (k: Conn) => ListedOf(k) + HeldOf(k);
    forall i | 0 <= i < |p.conns| ensures LiveOf(p.conns[i]) <= placed(p.conns[i]) { assert ConnOk(p, i); }
    SumAtMost(p.conns, LiveOf, placed);
    SumSplit(p.conns, ListedOf, HeldOf, placed);
  }

  /** Live connections plus connections being opened never exceed the configured maximum. */
  lemma CapacityHolds(max: nat, run: seq<Pool>, i: nat)
    requires Run(max, run) && i < |run|
    ensures LiveCount(run[i]) + OpeningCount(run[i]) <= max
  {
    RunInv(max, run, i);
    LiveHasPlace(run[i]);
    SumSplit(run[i].tasks, OwnsOf, OpeningOf, WeightOf);
  }

  // ----- accounting -----

  predicate TaskSettled(pc: Pc) {
    !pc.TookIdle? && !pc.DiscardSub? && !pc.EvictSub? && !pc.AddingIdle?
  }

  predicate DriverSettled(d: DriverPc) {
    !d.SubtractingOpen? && !d.SubtractingIdle?
  }

  /** Nobody is between changing a connection's state and updating a counter for it. */
  ghost predicate Quiescent(p: Pool) {
    && (forall t :: 0 <= t < |p.tasks| ==> TaskSettled(p.tasks[t]))
    && (forall c :: 0 <= c < |p.conns| ==> DriverSettled(p.conns[c].driver))
  }

  lemma SettledConn(p: Pool, c: nat)
    requires Structured(p) && Quiescent(p) && c < |p.conns|
    ensures p.conns[c].contribution == IdleOf(p.conns[c])
    ensures CountedOf(p.conns[c]) == LiveOf(p.conns[c])
  {
    assert ConnOk(p, c);
    var k := p.conns[c];
    if k.place.HeldBy? { assert TaskSettled(p.tasks[k.place.task]); }
    var debtor := if k.membership.LeavingBy? && k.membership.who.ByTask? then k.membership.who.task else 0;
    if debtor < |p.tasks| { assert TaskSettled(p.tasks[debtor]); }
    assert DriverSettled(k.driver);
  }

  /** At every quiescent point `idle` and `open` are the true numbers of idle and of unclosed connections. */
  lemma CountersTrueWhenQuiescent(max: nat, run: seq<Pool>, i: nat)
    requires Run(max, run) && i < |run| && max <= U64_MAX && Quiescent(run[i])
    ensures run[i].idle == Sum(run[i].conns, IdleOf)
    ensures run[i].open == LiveCount(run[i])
  {
    var p := run[i];
    RunInv(max, run, i);
    forall c: nat | c < |p.conns|
      ensures ContributionOf(p.conns[c]) == IdleOf(p.conns[c]) + 0
      ensures CountedOf(p.conns[c]) == LiveOf(p.conns[c]) + 0
    {
      SettledConn(p, c);
    }
    var zero := (k: Conn) => 0;
    SumSplit(p.conns, IdleOf, zero, ContributionOf);
    SumSplit(p.conns, LiveOf, zero, CountedOf);
    SumAtMost(p.conns, zero, IdleOf);
    SumAtMost(p.conns, IdleOf, LiveOf);
    SumZero(p.conns, zero);
    CapacityHolds(max, run, i);
    SumNonnegative(p.tasks, OpeningOf);
  }

  lemma {:induction false} SumZero<T>(s: seq<T>, f: T -> int)
    requires forall x :: f(x) == 0
    ensures Sum(s, f) == 0
  {
    if s != [] { SumZero(s[..|s| - 1], f); }
  }

  /** Steps of a connection's membership in `open`: it can only move forward, and only a departure in progress ends it. */
  predicate MembershipStep(before: Membership, after: Membership) {
    || after == before
    || (before.Counted? && after.LeavingBy?)
    || (before.LeavingBy? && after.Left?)
  }

  lemma StepMembership(p: Pool, ev: Event, c: nat)
    requires Inv(p) && Can(p, ev) && c < |p.conns|
    ensures c < |Next(p, ev).conns|
    ensures MembershipStep(p.conns[c].membership, Next(p, ev).conns[c].membership)
  {
    assert ConnOk(p, c);
    if ev.DiscardOpen? || ev.EvictOpen? { assert TaskOk(p, ev.task); }
    MembershipMoves(p, ev, c);
  }

  lemma MembershipMoves(p: Pool, ev: Event, c: nat)
    requires Can(p, ev) && c < |p.conns| && ConnOk(p, c)
    requires ev.DiscardOpen? || ev.EvictOpen? ==> TaskOk(p, ev.task)
    ensures c < |Next(p, ev).conns|
    ensures MembershipStep(p.conns[c].membership, Next(p, ev).conns[c].membership)
  {
  }

  /** Step `i` of the run completes the departure of connection `c`. */
  ghost predicate Departs(run: seq<Pool>, c: nat, i: int)
    requires 0 <= i < |run| - 1
  {
    && c < |run[i].conns| && c < |run[i + 1].conns|
    && !run[i].conns[c].membership.Left? && run[i + 1].conns[c].membership.Left?
  }

  /** How many of the first `n` steps complete a departure of connection `c`. */
  ghost function Departures(run: seq<Pool>, c: nat, n: nat): nat
    requires n < |run|
  {
    if n == 0 then 0 else Departures(run, c, n - 1) + if Departs(run, c, n - 1) then 1 else 0
  }

  predicate HasLeft(p: Pool, c: nat) {
    c < |p.conns| && p.conns[c].membership.Left?
  }

  lemma StepDeparts(max: nat, run: seq<Pool>, c: nat, i: nat)
    requires Run(max, run) && i + 1 < |run|
    ensures HasLeft(run[i], c) ==> HasLeft(run[i + 1], c)
    ensures !HasLeft(run[i], c) && HasLeft(run[i + 1], c) ==> Departs(run, c, i)
  {
    RunInv(max, run, i);
    assert Moves(run, i);
    var ev :| Can(run[i], ev) && run[i + 1] == Next(run[i], ev);
    if c < |run[i].conns| {
      StepMembership(run[i], ev, c);
    } else if c < |run[i + 1].conns| {
      NewIsCounted(run[i], ev, c);
    }
  }

  lemma NewIsCounted(p: Pool, ev: Event, c: nat)
    requires Can(p, ev) && |p.conns| <= c < |Next(p, ev).conns|
    ensures Next(p, ev).conns[c].membership.Counted?
  {
  }

  /**
   Each connection leaves the open count at most once in a run, whichever of drop, checkout or driver
   closes it first, and has left it exactly once by the time its departure is over.
   */
  lemma {:induction false} LeavesOnce(max: nat, run: seq<Pool>, c: nat, n: nat)
    requires Run(max, run) && n < |run|
    ensures Departures(run, c, n) == if HasLeft(run[n], c) then 1 else 0
  {
    if n > 0 {
      LeavesOnce(max, run, c, n - 1);
      StepDeparts(max, run, c, n - 1);
    }
  }

  /** The connection whose departure an event completes. */
  function Departing(p: Pool, ev: Event): Option<nat>
    requires Can(p, ev)
  {
    match ev
    case DiscardOpen(t) => Some(p.tasks[t].conn)
    case EvictOpen(t) => Some(p.tasks[t].conn)
    case DriverOpen(c) => Some(c)
    case _ => None
  }

  lemma LeftIffDeparting(p: Pool, ev: Event, c: nat)
    requires Can(p, ev) && c < |p.conns| && ConnOk(p, c)
    requires ev.DiscardOpen? || ev.EvictOpen? ==> TaskOk(p, ev.task)
    ensures c < |Next(p, ev).conns|
    ensures !p.conns[c].membership.Left? && Next(p, ev).conns[c].membership.Left? <==> Departing(p, ev) == Some(c)
  {
  }

  lemma OpenFollows(p: Pool, ev: Event)
    requires Can(p, ev)
    ensures Departing(p, ev).Some? ==> Next(p, ev).open == Wrap(p.open - 1)
    ensures Departing(p, ev).None? ==> Next(p, ev).open == p.open || Next(p, ev).open == Wrap(p.open + 1)
  {
  }

  /** A departure takes exactly one from `open`, nothing else does, and no two connections depart in one step. */
  lemma DepartureIsCounted(max: nat, run: seq<Pool>, i: nat)
    requires Run(max, run) && i + 1 < |run|
    ensures forall c: nat, d: nat :: Departs(run, c, i) && Departs(run, d, i) ==> c == d
    ensures if exists c: nat :: Departs(run, c, i) then run[i + 1].open == Wrap(run[i].open - 1)
            else run[i + 1].open == run[i].open || run[i + 1].open == Wrap(run[i].open + 1)
  {
    var p := run[i];
    RunInv(max, run, i);
    assert Moves(run, i);
    var ev :| Can(p, ev) && run[i + 1] == Next(p, ev);
    forall c: nat ensures Departs(run, c, i) <==> Departing(p, ev) == Some(c) { DepartsIff(run, i, ev, c); }
    OpenFollows(p, ev);
    if Departing(p, ev).Some? { assert Departs(run, Departing(p, ev).value, i); }
  }

  lemma DepartsIff(run: seq<Pool>, i: nat, ev: Event, c: nat)
    requires i + 1 < |run| && Inv(run[i]) && Can(run[i], ev) && run[i + 1] == Next(run[i], ev)
    ensures Departs(run, c, i) <==> Departing(run[i], ev) == Some(c)
  {
    var p := run[i];
    if ev.DiscardOpen? || ev.EvictOpen? { assert TaskOk(p, ev.task); }
    if c < |p.conns| {
      assert ConnOk(p, c);
      LeftIffDeparting(p, ev, c);
    }
  }

  /** A closed connection that no one is still accounting for has left. */
  lemma ClosedLeavesWhenQuiescent(max: nat, run: seq<Pool>, c: nat, n: nat)
    requires Run(max, run) && n < |run| && Quiescent(run[n]) && c < |run[n].conns|
    ensures Departures(run, c, n) == if run[n].conns[c].state.Closed? then 1 else 0
  {
    LeavesOnce(max, run, c, n);
    RunInv(max, run, n);
    SettledConn(run[n], c);
    assert ConnOk(run[n], c);
  }

  // ----- transactions -----

  /** No connection that could be handed out next has a transaction open on it. */
  lemma IdleHasNoTransaction(max: nat, run: seq<Pool>, i: nat, c: nat)
    requires Run(max, run) && i < |run| && c < |run[i].conns| && run[i].conns[c].state.Idle?
    ensures !run[i].conns[c].transactionOpen
  {
    RunInv(max, run, i);
    var p := run[i];
    assert ConnOk(p, c);
    if p.conns[c].place.HeldBy? { assert TaskOk(p, p.conns[c].place.task); }
  }

  /** A freshly acquired connection is not shared and has no transaction open on it. */
  lemma AcquiredIsExclusive(max: nat, run: seq<Pool>, i: nat, t: nat, u: nat)
    requires Run(max, run) && i < |run| && t < |run[i].tasks| && u < |run[i].tasks| && t != u
    requires run[i].tasks[t].Holding?
    ensures Owned(run[i].tasks[u]) != Some(run[i].tasks[t].conn)
    ensures run[i].tasks[t].reusable ==> run[i].tasks[t].conn < |run[i].conns| && !run[i].conns[run[i].tasks[t].conn].transactionOpen
  {
    RunInv(max, run, i);
    assert TaskOk(run[i], t) && TaskOk(run[i], u);
  }
}
