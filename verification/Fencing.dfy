/** What generations and owner tokens guarantee over whole runs (src/ports/storage.rs). */
module Fencing {
  import opened Tiling
  import opened Cutover

  predicate IsClaim(a: Action) {
    a.Claim? || a.ClaimCleanup?
  }

  /** Every successful claim starts a new generation; nothing else touches the number. */
  lemma ClaimsAdvance(c: Bucket, a: Action)
    requires Enabled(c, a)
    ensures Act(c, a).generation == c.generation + if IsClaim(a) then 1 else 0
  {
  }

  lemma OneActiveSession(c: Bucket, s: Session, t: Session)
    requires s.bucket == t.bucket && Active(c, s) && Active(c, t)
    ensures s == t
  {
  }

  /** A session that is no longer active cannot be revived by any action on its bucket. */
  lemma ActKeepsDead(c: Bucket, a: Action, s: Session)
    requires Enabled(c, a) && s.generation <= c.generation
    ensures Active(Act(c, a), s) ==> Active(c, s)
    ensures Holding(Act(c, a), s) ==> Holding(c, s) && Act(c, a) == c
  {
  }

  /** A published route never changes, and its bucket takes no more appends. */
  lemma ActKeepsArchived(c: Bucket, a: Action)
    requires Enabled(c, a) && c.state.Archived?
    ensures Act(c, a).state.Archived? && Act(c, a).state.objectKey == c.state.objectKey
    ensures !a.Append?
  {
  }

  // ----- one step -----

  lemma OccurFacts(cfg: Config, sys: System, ev: Event, b: BucketId)
    requires Allowed(cfg, sys, ev)
    ensures ev.OnBucket? && ev.bucket == b ==> At(Occur(cfg, sys, ev), b) == Act(At(sys, b), ev.action)
    ensures !(ev.OnBucket? && ev.bucket == b) ==> At(Occur(cfg, sys, ev), b) == At(sys, b)
    ensures LogOf(Occur(cfg, sys, ev), b) ==
            LogOf(sys, b) + if ev.OnBucket? && ev.bucket == b && ev.action.Append? then [ev.action.record] else []
    ensures sys.issued <= Occur(cfg, sys, ev).issued
  {
  }

  lemma StepFacts(cfg: Config, sys: System, sys': System, b: BucketId)
    requires Step(cfg, sys, sys')
    ensures At(sys', b) == At(sys, b) || exists a :: Enabled(At(sys, b), a) && At(sys', b) == Act(At(sys, b), a)
    ensures LogOf(sys, b) <= LogOf(sys', b)
    ensures At(sys, b).state.Archived? ==> LogOf(sys', b) == LogOf(sys, b)
    ensures sys.issued <= sys'.issued
  {
    if sys' != sys {
      var ev :| Allowed(cfg, sys, ev) && sys' == Occur(cfg, sys, ev);
      OccurFacts(cfg, sys, ev, b);
      if ev.OnBucket? && ev.bucket == b { assert Enabled(At(sys, b), ev.action); }
    }
  }

  /** What one step may do to a bucket, seen from a session issued before it. */
  ghost predicate FencedStep(c: Bucket, c': Bucket, s: Session) {
    && c.generation <= c'.generation
    && (Active(c', s) ==> Active(c, s))
    && (Holding(c', s) ==> Holding(c, s) && c' == c)
    && (c.state.Archived? ==> c'.state.Archived? && c'.state.objectKey == c.state.objectKey)
  }

  lemma StepIsFenced(cfg: Config, sys: System, sys': System, s: Session)
    requires Inv(cfg, sys) && Step(cfg, sys, sys') && s in sys.issued
    ensures FencedStep(At(sys, s.bucket), At(sys', s.bucket), s)
  {
    var b := s.bucket;
    StepFacts(cfg, sys, sys', b);
    if At(sys', b) != At(sys, b) {
      var a :| Enabled(At(sys, b), a) && At(sys', b) == Act(At(sys, b), a);
      ActKeepsDead(At(sys, b), a, s);
      if At(sys, b).state.Archived? { ActKeepsArchived(At(sys, b), a); }
    }
  }

  // ----- whole runs -----

  lemma FencedTransitive(c: Bucket, c': Bucket, c'': Bucket, s: Session)
    requires FencedStep(c, c', s) && FencedStep(c', c'', s)
    ensures FencedStep(c, c'', s)
  {
  }

  lemma RunStepFenced(cfg: Config, states: seq<System>, i: nat, s: Session)
    requires Fenced(cfg) && Run(cfg, states) && i + 1 < |states| && s in states[i].issued
    ensures s in states[i + 1].issued
    ensures FencedStep(At(states[i], s.bucket), At(states[i + 1], s.bucket), s)
  {
    RunKeepsInv(cfg, states, i);
    assert StepAt(cfg, states, i);
    StepFacts(cfg, states[i], states[i + 1], s.bucket);
    StepIsFenced(cfg, states[i], states[i + 1], s);
  }

  lemma {:induction false} RunIsFenced(cfg: Config, states: seq<System>, i: nat, j: nat, s: Session)
    requires Fenced(cfg) && Run(cfg, states) && i <= j < |states| && s in states[i].issued
    ensures s in states[j].issued
    ensures FencedStep(At(states[i], s.bucket), At(states[j], s.bucket), s)
    decreases j - i
  {
    if i < j {
      RunIsFenced(cfg, states, i, j - 1, s);
      RunStepFenced(cfg, states, j - 1, s);
      FencedTransitive(At(states[i], s.bucket), At(states[j - 1], s.bucket), At(states[j], s.bucket), s);
    }
  }

  /** Generations never go back, and a session overtaken by a newer generation is never accepted again. */
  lemma SupersededForever(cfg: Config, states: seq<System>, i: nat, j: nat, s: Session)
    requires Fenced(cfg) && Run(cfg, states) && i <= j < |states| && s in states[i].issued
    requires At(states[i], s.bucket).generation > s.generation
    ensures !Active(At(states[j], s.bucket), s)
  {
    RunIsFenced(cfg, states, i, j, s);
  }

  /** Once rejected for ownership, a session is rejected for ever. */
  lemma RejectedForever(cfg: Config, states: seq<System>, i: nat, j: nat, s: Session)
    requires Fenced(cfg) && Run(cfg, states) && i <= j < |states| && s in states[i].issued
    requires !Active(At(states[i], s.bucket), s)
    ensures !Active(At(states[j], s.bucket), s)
  {
    RunIsFenced(cfg, states, i, j, s);
  }

  /** A claim supersedes every session the bucket ever had. */
  lemma ClaimSupersedes(cfg: Config, sys: System, b: BucketId, a: Action, s: Session)
    requires Inv(cfg, sys) && Allowed(cfg, sys, OnBucket(b, a)) && IsClaim(a)
    requires s in sys.issued && s.bucket == b
    ensures s.generation < At(Occur(cfg, sys, OnBucket(b, a)), b).generation
    ensures exists t :: t in Occur(cfg, sys, OnBucket(b, a)).issued && Active(At(Occur(cfg, sys, OnBucket(b, a)), b), t)
  {
    ClaimsAdvance(At(sys, b), a);
    var sys' := Occur(cfg, sys, OnBucket(b, a));
    var t := Session(b, a.claimant, At(sys, b).generation + 1);
    assert t in sys'.issued && Active(At(sys', b), t);
  }

  /**
   From a session's accepted snapshot to its accepted publication the bucket does not change at
   all, so the snapshot is still the whole bucket.
   */
  lemma FrozenUntilPublish(cfg: Config, states: seq<System>, i: nat, k: nat, j: nat, s: Session)
    requires Fenced(cfg) && Run(cfg, states) && i <= k <= j < |states|
    requires s in states[i].issued && Holding(At(states[i], s.bucket), s)
    requires Holding(At(states[j], s.bucket), s)
    ensures At(states[k], s.bucket) == At(states[i], s.bucket)
    ensures At(states[i], s.bucket).records == Expected(states[j], s.bucket)
  {
    RunIsFenced(cfg, states, i, k, s);
    RunIsFenced(cfg, states, k, j, s);
    NothingLost(cfg, states, j, s.bucket);
  }

  /** Committed appends are never reordered or removed. */
  lemma {:induction false} LogGrows(cfg: Config, states: seq<System>, i: nat, j: nat, b: BucketId)
    requires Run(cfg, states) && i <= j < |states|
    ensures LogOf(states[i], b) <= LogOf(states[j], b)
    decreases j - i
  {
    if i < j {
      LogGrows(cfg, states, i, j - 1, b);
      assert StepAt(cfg, states, j - 1);
      StepFacts(cfg, states[j - 1], states[j], b);
    }
  }

  lemma ArchivedStep(cfg: Config, sys: System, sys': System, b: BucketId)
    requires Step(cfg, sys, sys') && At(sys, b).state.Archived?
    ensures At(sys', b).state.Archived? && At(sys', b).state.objectKey == At(sys, b).state.objectKey
    ensures LogOf(sys', b) == LogOf(sys, b)
  {
    StepFacts(cfg, sys, sys', b);
    if At(sys', b) != At(sys, b) {
      var a :| Enabled(At(sys, b), a) && At(sys', b) == Act(At(sys, b), a);
      ActKeepsArchived(At(sys, b), a);
    }
  }

  lemma {:induction false} RouteForever(cfg: Config, states: seq<System>, i: nat, j: nat, b: BucketId)
    requires Run(cfg, states) && i <= j < |states| && At(states[i], b).state.Archived?
    ensures At(states[j], b).state.Archived?
    ensures At(states[j], b).state.objectKey == At(states[i], b).state.objectKey
    ensures LogOf(states[j], b) == LogOf(states[i], b)
    decreases j - i
  {
    if i < j {
      RouteForever(cfg, states, i, j - 1, b);
      assert StepAt(cfg, states, j - 1);
      ArchivedStep(cfg, states[j - 1], states[j], b);
    }
  }

  /** Archived is absorbing: the published key and the content behind it never change again. */
  lemma ArchivedForever(cfg: Config, states: seq<System>, i: nat, j: nat, b: BucketId)
    requires Fenced(cfg) && Run(cfg, states) && i <= j < |states| && At(states[i], b).state.Archived?
    ensures At(states[j], b).state.Archived?
    ensures At(states[j], b).state.objectKey == At(states[i], b).state.objectKey
    ensures Content(states[j], b) == Content(states[i], b)
  {
    RouteForever(cfg, states, i, j, b);
    NothingLost(cfg, states, i, b);
    NothingLost(cfg, states, j, b);
  }
}
