/** Sequences of check-outs and check-ins, as a caller performs them, with
    the caller's side of the books: which resources it holds and which
    resources the factory has produced. Over any such sequence in which only
    held resources are checked back in, the pool's invariant holds after
    every step and no resource is lost or duplicated. */
module PoolTrace {
  import opened Outcomes
  import opened PoolSpec

  datatype Op<R> = Borrow(create: Result<R, string>) | Return(resource: R)

  /** The pool, the resources the caller holds, and every resource that
      exists (those idle at the start plus those created since). */
  datatype Ledger<R> = Ledger(pool: Snapshot<R>, held: multiset<R>, made: multiset<R>)

  /** The books balance: the invariant holds, every held resource is
      counted as outstanding, and each existing resource is either idle or
      held. */
  ghost predicate Balanced<R>(l: Ledger<R>)
  {
    l.pool.Sound() &&
    |l.held| <= l.pool.outstanding &&
    multiset(l.pool.idle) + l.held == l.made
  }

  /** The books at the start: a pool with some idle resources and nothing
      lent out. */
  function Start<R>(pool: Snapshot<R>): Ledger<R>
  {
    Ledger(pool, multiset{}, multiset(pool.idle))
  }

  function Next<R>(l: Ledger<R>, op: Op<R>): Ledger<R>
  {
    match op
    case Borrow(create) =>
      var t := CheckOut(l.pool, create);
      var held := if t.result.Ok? then l.held + multiset{t.result.value} else l.held;
      var made := if t.result.Ok? && t.creates == 1 then l.made + multiset{t.result.value} else l.made;
      Ledger(t.after, held, made)
    case Return(r) =>
      Ledger(CheckIn(l.pool, r).after, l.held - multiset{r}, l.made)
  }

  function Run<R>(l: Ledger<R>, ops: seq<Op<R>>): Ledger<R>
    decreases |ops|
  {
    if ops == [] then l else Run(Next(l, ops[0]), ops[1..])
  }

  /** Only resources the caller holds are checked back in. */
  ghost predicate Lawful<R>(l: Ledger<R>, ops: seq<Op<R>>)
    decreases |ops|
  {
    ops == [] ||
    ((ops[0].Return? ==> ops[0].resource in l.held) && Lawful(Next(l, ops[0]), ops[1..]))
  }

  /** One lawful step keeps the books balanced. */
  lemma {:induction false} NextBalanced<R>(l: Ledger<R>, op: Op<R>)
    requires Balanced(l)
    requires op.Return? ==> op.resource in l.held
    ensures Balanced(Next(l, op))
  {
    match op
    case Borrow(create) =>
      if l.pool.Available() > 0 {
        BorrowIdleBalanced(l, create);
      } else if l.pool.Deficit() > 0 {
        CheckOutByCreation(l.pool, create);
      }
    case Return(r) =>
      ReturnBalanced(l, r);
  }

  /** Lending the top idle resource moves it from the idle stack to the
      caller's hands. */
  lemma {:induction false} BorrowIdleBalanced<R>(l: Ledger<R>, create: Result<R, string>)
    requires Balanced(l) && l.pool.Available() > 0
    ensures Balanced(Next(l, Borrow(create)))
  {
    var n := |l.pool.idle| - 1;
    assert l.pool.idle == l.pool.idle[..n] + [l.pool.idle[n]];
    CheckOutFromIdle(l.pool, create);
    assert multiset(l.pool.idle) == multiset(l.pool.idle[..n]) + multiset{l.pool.idle[n]};
  }

  /** Checking a held resource in moves it from the caller's hands to the
      idle stack. */
  lemma {:induction false} ReturnBalanced<R>(l: Ledger<R>, r: R)
    requires Balanced(l) && r in l.held
    ensures Balanced(Next(l, Return(r)))
  {
    CheckInPushes(l.pool, r);
    assert multiset(l.pool.idle + [r]) == multiset(l.pool.idle) + multiset{r};
    assert (l.held - multiset{r}) + multiset{r} == l.held;
  }

  /** Over a lawful sequence of operations the books balance after every
      prefix: the pool never holds more than its capacity, never counts
      below zero and never loses or duplicates a resource. */
  lemma {:induction false} RunBalanced<R>(l: Ledger<R>, ops: seq<Op<R>>)
    requires Balanced(l) && Lawful(l, ops)
    ensures forall k :: 0 <= k <= |ops| ==> Balanced(Run(l, ops[..k]))
    decreases |ops|
  {
    if ops != [] {
      NextBalanced(l, ops[0]);
      RunBalanced(Next(l, ops[0]), ops[1..]);
      forall k | 0 <= k <= |ops|
        ensures Balanced(Run(l, ops[..k]))
      {
        if k > 0 {
          assert ops[..k][1..] == ops[1..][..k - 1];
        }
      }
    }
  }

  /** Consequently the pool never creates more resources than its capacity:
      every resource that exists is idle or held, and both are bounded by
      the capacity. */
  lemma {:induction false} NeverOverCapacity<R>(pool: Snapshot<R>, ops: seq<Op<R>>)
    requires pool.Sound() && pool.outstanding == 0 && Lawful(Start(pool), ops)
    ensures |Run(Start(pool), ops).made| <= pool.size
    ensures Run(Start(pool), ops).pool.Sound()
  {
    RunBalanced(Start(pool), ops);
    assert ops[..|ops|] == ops;
    var l := Run(Start(pool), ops);
    assert |l.made| == |l.pool.idle| + |l.held|;
    assert l.pool.size == pool.size by { RunKeepsSize(Start(pool), ops); }
  }

  lemma {:induction false} RunKeepsSize<R>(l: Ledger<R>, ops: seq<Op<R>>)
    ensures Run(l, ops).pool.size == l.pool.size
    decreases |ops|
  {
    if ops != [] {
      RunKeepsSize(Next(l, ops[0]), ops[1..]);
    }
  }
}
