/** Running totals of positive lengths: every position lies on exactly one step. */
module Staircase {
  ghost predicate Positive(len: int -> nat) {
    forall i :: len(i) > 0
  }

  /** Where step `p` begins, with step 0 beginning at 0. */
  function Begin(len: int -> nat, p: int): int
    decreases if p < 0 then -p else p
  {
    if p == 0 then 0
    else if p > 0 then Begin(len, p - 1) + len(p - 1)
    else Begin(len, p + 1) - len(p)
  }

  lemma BeginNext(len: int -> nat, p: int)
    ensures Begin(len, p + 1) == Begin(len, p) + len(p)
  {
  }

  lemma {:induction false} BeginIncreases(len: int -> nat, p: int, q: int)
    requires Positive(len) && p < q
    ensures Begin(len, p) < Begin(len, q)
    decreases q - p
  {
    BeginNext(len, q - 1);
    if p < q - 1 { BeginIncreases(len, p, q - 1); }
  }

  predicate Holds(len: int -> nat, p: int, x: int) {
    Begin(len, p) <= x < Begin(len, p + 1)
  }

  function ClimbTo(len: int -> nat, x: int, p: int): (q: int)
    requires Positive(len) && Begin(len, p) <= x
    ensures Holds(len, q, x)
    decreases x - Begin(len, p)
  {
    BeginNext(len, p);
    if x < Begin(len, p + 1) then p else ClimbTo(len, x, p + 1)
  }

  function DescendTo(len: int -> nat, x: int, p: int): (q: int)
    requires Positive(len) && x < Begin(len, p)
    ensures Holds(len, q, x)
    decreases Begin(len, p) - x
  {
    BeginNext(len, p - 1);
    if Begin(len, p - 1) <= x then p - 1 else DescendTo(len, x, p - 1)
  }

  function StepHolding(len: int -> nat, x: int): (q: int)
    requires Positive(len)
    ensures Holds(len, q, x)
  {
    if x < 0 then DescendTo(len, x, 0) else ClimbTo(len, x, 0)
  }

  lemma OneStepHolds(len: int -> nat, p: int, q: int, x: int)
    requires Positive(len) && Holds(len, p, x)
    ensures p == q <==> Holds(len, q, x)
  {
    if p < q - 1 { BeginIncreases(len, p + 1, q); }
    if q < p - 1 { BeginIncreases(len, q + 1, p); }
  }
}
