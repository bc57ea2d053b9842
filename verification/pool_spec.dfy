/** The bookkeeping of a bounded resource pool, as values.

    A `Snapshot` is what a `Pool` object holds at one instant: its fixed
    capacity, its stack of idle resources (top of the stack = last element)
    and its count of resources lent out. Each operation of the pool is a
    function from the snapshot before it to a `Transition`: the snapshot
    after it, what it returns, the notifications it emits and how many times
    it asked the factory for a new resource. The class in pool.dfy is proved
    to follow these functions step by step. */
module PoolSpec {
  import opened Outcomes

  datatype Snapshot<R> = Snapshot(size: nat, idle: seq<R>, outstanding: int)
  {
    /** The `available` getter: the number of idle resources. */
    function Available(): nat { |idle| }

    /** The `deficit` getter: how many resources may still be created. */
    function Deficit(): int { size - (outstanding + Available()) }

    /** The pool's invariant: nothing is lent out below zero, and idle plus
        lent-out resources never exceed the capacity. */
    predicate Sound() { 0 <= outstanding && Deficit() >= 0 }
  }

  /** The fresh pool: nothing idle, nothing lent out. */
  function Empty<R>(size: nat): (s: Snapshot<R>)
    ensures s.size == size && s.Available() == 0 && s.outstanding == 0
    ensures s.Sound() && s.Deficit() == size
  {
    Snapshot(size, [], 0)
  }

  datatype NoticeKind = CheckOutNotice | CheckInNotice

  /** A notification as an observer sees it: which one fired, and the pool's
      `outstanding` and `available` at the moment it fired. */
  datatype Notice = Notice(kind: NoticeKind, outstanding: int, available: nat)

  /** Why a pool operation failed. */
  datatype Failure =
    | MissingFactory        // the constructor was given no factory
    | Exhausted             // nothing idle and no room to create
    | CreateFailed(cause: string)  // the factory's create() failed
    | Thrown(cause: string)        // a borrower raised an error

  /** The effect of one operation started in some snapshot. */
  datatype Transition<R, T> =
    Transition(after: Snapshot<R>, result: Result<T, Failure>, notices: seq<Notice>, creates: nat)

  /** `track(n)`: change the counter by `n`, then notify. The notification
      reports the state after the change, and it is a check-out notice
      exactly when `n` is positive. */
  function Track<R>(s: Snapshot<R>, n: int): (t: (Snapshot<R>, Notice))
    ensures t.0.size == s.size && t.0.idle == s.idle
    ensures t.0.outstanding - s.outstanding == n
    ensures t.1.outstanding == t.0.outstanding && t.1.available == t.0.Available()
    ensures t.1.kind == CheckOutNotice <==> n > 0
  {
    var after := s.(outstanding := s.outstanding + n);
    (after, Notice(if n > 0 then CheckOutNotice else CheckInNotice, after.outstanding, after.Available()))
  }

  /** `checkOut()`, given what the factory's `create()` would produce if it
      were called. An idle resource is served first (the most recently
      returned one); otherwise, while there is a deficit, the counter is
      raised and the factory is asked; otherwise the call fails. */
  function CheckOut<R>(s: Snapshot<R>, create: Result<R, string>): (t: Transition<R, R>)
    ensures t.after.size == s.size
    ensures s.Sound() ==> t.after.Sound()
    ensures t.result == Err(Exhausted) <==> s.Available() == 0 && s.Deficit() <= 0
    ensures t.result.Ok? ==> t.after.outstanding == s.outstanding + 1
    ensures t.creates <= 1 && (t.creates == 1 <==> s.Available() == 0 && s.Deficit() > 0)
    ensures t.notices == if s.Available() == 0 && s.Deficit() <= 0 then []
                         else [Notice(CheckOutNotice, s.outstanding + 1, s.Available())]
    ensures s.Available() == 0 && s.Deficit() <= 0 ==> t.after == s
  {
    if s.Available() > 0 then
      var tracked := Track(s, 1);
      var top := |s.idle| - 1;
      Transition(tracked.0.(idle := s.idle[..top]), Ok(s.idle[top]), [tracked.1], 0)
    else if s.Deficit() > 0 then
      var tracked := Track(s, 1);
      var given := match create
        case Ok(r) => Ok(r)
        case Err(e) => Err(CreateFailed(e));
      Transition(tracked.0, given, [tracked.1], 1)
    else
      Transition(s, Err(Exhausted), [], 0)
  }

  /** `checkIn(resource)`: lower the counter, notify, then push the resource
      on top of the idle stack. Never fails and never hands the resource to
      anyone else. */
  function CheckIn<R>(s: Snapshot<R>, resource: R): (t: Transition<R, ()>)
    ensures t.after.size == s.size && t.result == Ok(())
    ensures t.after.Available() == s.Available() + 1 && t.after.idle[s.Available()] == resource
    ensures t.after.Deficit() == s.Deficit()
    ensures s.Sound() && s.outstanding > 0 ==> t.after.Sound()
    ensures t.notices == [Notice(CheckInNotice, s.outstanding - 1, s.Available())]
    ensures t.creates == 0
  {
    var tracked := Track(s, -1);
    Transition(tracked.0.(idle := s.idle + [resource]), Ok(()), [tracked.1], 0)
  }

  /** `with(borrower)`, for a borrower that ends with `outcome` (its value,
      or the error it raises) without using the pool itself: check out, run
      the borrower, and check the resource back in whatever the borrower's
      outcome, which is then passed on. When the check-out itself fails the
      borrower never runs and nothing is checked in. */
  function With<R, T>(s: Snapshot<R>, create: Result<R, string>, outcome: Result<T, string>): (t: Transition<R, T>)
    ensures t.after.size == s.size
    ensures s.Sound() ==> t.after.Sound()
    ensures t.creates == CheckOut(s, create).creates
    ensures CheckOut(s, create).result.Err? ==>
              t.after == CheckOut(s, create).after && t.result == Err(CheckOut(s, create).result.error) &&
              t.notices == CheckOut(s, create).notices
    ensures CheckOut(s, create).result.Ok? ==>
              t.after.outstanding == s.outstanding &&
              t.result == (if outcome.Ok? then Ok(outcome.value) else Err(Thrown(outcome.error)))
  {
    var out := CheckOut(s, create);
    match out.result
    case Err(e) => Transition(out.after, Err(e), out.notices, out.creates)
    case Ok(lent) =>
      var returned := match outcome
        case Ok(v) => Ok(v)
        case Err(cause) => Err(Thrown(cause));
      var back := CheckIn(out.after, lent);
      Transition(back.after, returned, out.notices + back.notices, out.creates)
  }

  // ---------------------------------------------------------------------
  // Properties of the single operations

  /** Served from the idle stack: the top resource is returned, the rest of
      the stack is untouched, one more resource is out, one fewer is idle,
      and the factory is not called. */
  lemma CheckOutFromIdle<R>(s: Snapshot<R>, create: Result<R, string>)
    requires s.Available() > 0
    ensures var t := CheckOut(s, create);
      t.result == Ok(s.idle[|s.idle| - 1]) &&
      t.after == Snapshot(s.size, s.idle[..|s.idle| - 1], s.outstanding + 1) &&
      t.after.Available() == s.Available() - 1 &&
      t.after.Deficit() == s.Deficit() &&
      t.creates == 0
  {
  }

  /** Served by creation: the factory's outcome is passed on, one more
      resource is out, the idle stack is untouched and the deficit drops by
      one -- also when `create()` fails, as nothing undoes the increment. */
  lemma CheckOutByCreation<R>(s: Snapshot<R>, create: Result<R, string>)
    requires s.Available() == 0 && s.Deficit() > 0
    ensures var t := CheckOut(s, create);
      (create.Ok? ==> t.result == Ok(create.value)) &&
      (create.Err? ==> t.result == Err(CreateFailed(create.error))) &&
      t.after == Snapshot(s.size, s.idle, s.outstanding + 1) &&
      t.after.Deficit() == s.Deficit() - 1 &&
      t.creates == 1
  {
  }

  /** A failed `create()` loses its slot for good: when it took the last
      free slot of a pool with nothing idle, the next check-out finds the
      pool full although the failed call lent nothing. */
  lemma FailedCreateKeepsSlot<R>(s: Snapshot<R>, cause: string, create: Result<R, string>)
    requires s.Available() == 0 && s.Deficit() == 1
    ensures var first := CheckOut(s, Err(cause));
      first.result == Err(CreateFailed(cause)) &&
      first.after.outstanding == s.outstanding + 1 &&
      CheckOut(first.after, create).result == Err(Exhausted)
  {
  }

  /** Checking a resource back in pushes it on top of the stack, lowers the
      counter by one and leaves the capacity and the rest of the stack
      alone; nothing is handed to another caller. */
  lemma CheckInPushes<R>(s: Snapshot<R>, resource: R)
    ensures CheckIn(s, resource).after == Snapshot(s.size, s.idle + [resource], s.outstanding - 1)
  {
  }

  /** Checking in a resource the pool never lent breaks the invariant:
      the counter goes below zero. */
  lemma CheckInUnlentBreaksInvariant<R>(s: Snapshot<R>, resource: R)
    requires s.outstanding == 0
    ensures !CheckIn(s, resource).after.Sound()
  {
  }

  /** Round trip: a check-out served from the idle stack, followed by the
      check-in of the same resource, restores the snapshot exactly. */
  lemma IdleRoundTrip<R>(s: Snapshot<R>, create: Result<R, string>)
    requires s.Available() > 0
    ensures var t := CheckOut(s, create);
      t.result.Ok? && CheckIn(t.after, t.result.value).after == s
  {
    var n := |s.idle| - 1;
    assert s.idle[..n] + [s.idle[n]] == s.idle;
  }

  /** The check-out notice of an idle check-out fires before the pop: an
      observer still counts the resource as idle, so with a full pool it
      reads a deficit of -1 at that moment. */
  lemma IdleNoticePrecedesPop<R>(s: Snapshot<R>, create: Result<R, string>)
    requires s.Sound() && s.Available() > 0 && s.Deficit() == 0
    ensures var t := CheckOut(s, create);
      |t.notices| == 1 &&
      s.size - (t.notices[0].outstanding + t.notices[0].available) == -1
  {
  }

  /** `with`, whether the borrower returns or raises: the resource is
      checked in exactly once, `outstanding` ends where it began, `available`
      is unchanged when the resource came from the idle stack and one higher
      when it was created, and the borrower's outcome is what `with` yields. */
  lemma WithRestoresCounter<R, T>(s: Snapshot<R>, create: Result<R, string>, outcome: Result<T, string>)
    requires s.Available() > 0 || s.Deficit() > 0
    requires s.Available() == 0 ==> create.Ok?
    ensures var t := With(s, create, outcome);
      t.after.size == s.size &&
      t.after.outstanding == s.outstanding &&
      (s.Available() > 0 ==> t.after.idle == s.idle && t.creates == 0) &&
      (s.Available() == 0 ==> t.after.idle == s.idle + [create.value] && t.creates == 1) &&
      (outcome.Ok? ==> t.result == Ok(outcome.value)) &&
      (outcome.Err? ==> t.result == Err(Thrown(outcome.error))) &&
      t.notices == [Notice(CheckOutNotice, s.outstanding + 1, s.Available()),
                    Notice(CheckInNotice, s.outstanding, s.Available() - (if s.Available() > 0 then 1 else 0))]
  {
    if s.Available() > 0 {
      IdleRoundTrip(s, create);
    }
  }

  /** `with` on a full pool fails without running the borrower and without
      touching the pool. */
  lemma WithOnFullPool<R, T>(s: Snapshot<R>, create: Result<R, string>, outcome: Result<T, string>)
    requires s.Available() == 0 && s.Deficit() <= 0
    ensures With(s, create, outcome) == Transition(s, Err(Exhausted), [], 0)
  {
  }
}
