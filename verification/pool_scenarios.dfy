/** The behaviours that lib/pool.test.js pins down, replayed on the model.
    Where a test's borrower itself borrows, the outer `with` is written out
    as the check-out, borrower and check-in that it performs. */
module PoolScenarios {
  import opened Outcomes
  import opened PoolSpec
  import opened Pools

  /** Constructing without a factory fails. */
  method ConstructWithoutFactory() returns (failed: bool)
    ensures failed
  {
    var r := NewPool<(), int>(None, None);
    failed := r.Err?;
  }

  /** Both notifications of one `with` report the counter after the change:
      1 at check-out, 0 at check-in. As in the tests, only the size is
      given, so the timeout is left open. */
  method NoticesAfterTracking(options: Options, resource: int) returns (pool: Pool<int>)
    requires options.size == 1
    ensures pool.notices == [Notice(CheckOutNotice, 1, 0), Notice(CheckInNotice, 0, 0)]
  {
    pool := new Pool<int>(Some(options));
    WithRestoresCounter<int, ()>(pool.State(), Ok(resource), Ok(()));
    var _ := pool.With(Ok(resource), Ok(()));
  }

  /** On a pool built with the default options, the resource a `with`
      lends is the one the factory created, and once the borrower is done it
      is the only idle resource. The `with` is written out as its check-out
      and check-in so that the lent resource can be named. */
  method GivenIsCreated(resource: int) returns (given: Result<int, Failure>, idle: seq<int>, outstanding: int)
    ensures given == Ok(resource)
    ensures idle == [resource] && outstanding == 0
  {
    var pool := new Pool<int>(None);
    CheckOutByCreation(pool.State(), Ok(resource));
    given := pool.CheckOut(Ok(resource));
    pool.CheckIn(given.value);
    idle, outstanding := pool.resources, pool.Outstanding();
  }

  /** A `with` nested in a `with` on a pool of one fails as the pool is full,
      and the outer borrow still returns its resource. */
  method NestedOverSizeFails(options: Options, a: int, b: int) returns (inner: Result<(), Failure>, available: nat, outstanding: int)
    requires options.size == 1
    ensures inner == Err(Exhausted) && available == 1 && outstanding == 0
  {
    var pool := new Pool<int>(Some(options));
    CheckOutByCreation(pool.State(), Ok(a));
    var outer := pool.CheckOut(Ok(a));
    inner := InnerWithOnFullPool(pool, b);
    pool.CheckIn(a);
    available, outstanding := pool.Available(), pool.Outstanding();
  }

  /** The inner `with` of the scenario above: it meets a full pool, fails
      and leaves the pool as it was. */
  method InnerWithOnFullPool(pool: Pool<int>, b: int) returns (inner: Result<(), Failure>)
    requires pool.resources == [] && pool.outstanding == 1 && pool.size == 1
    modifies pool
    ensures inner == Err(Exhausted)
    ensures pool.resources == [] && pool.outstanding == 1
  {
    WithOnFullPool<int, ()>(pool.State(), Ok(b), Ok(()));
    inner := pool.With(Ok(b), Ok(()));
  }

  /** A borrower that raises: its error surfaces, and the resource is back
      in the idle stack with nothing left outstanding. */
  method BorrowerFailureReturnsResource(options: Options, resource: int) returns (r: Result<(), Failure>, available: nat, outstanding: int)
    requires options.size == 1
    ensures r == Err(Thrown("oops")) && available == 1 && outstanding == 0
  {
    var pool := new Pool<int>(Some(options));
    WithRestoresCounter<int, ()>(pool.State(), Ok(resource), Err("oops"));
    r := pool.With(Ok(resource), Err("oops"));
    available, outstanding := pool.Available(), pool.Outstanding();
  }

  /** Two nested borrows on a pool of two: each creates a resource, the
      inner one returns first, and afterwards both are idle, nothing is out
      and the factory was asked twice. */
  method NestedBorrowsCreateTwo(options: Options, a: int, b: int) returns (idle: seq<int>, outstanding: int, deficit: int, ghost created: nat)
    requires options.size == 2
    ensures idle == [b, a] && outstanding == 0 && deficit == 0
    ensures created == 2
  {
    var pool := new Pool<int>(Some(options));
    CheckOutByCreation(pool.State(), Ok(a));
    var outer := pool.CheckOut(Ok(a));
    assert pool.Available() == 0 && pool.Outstanding() == 1 && pool.Deficit() == 1;
    WithRestoresCounter<int, ()>(pool.State(), Ok(b), Ok(()));
    var _ := pool.With(Ok(b), Ok(()));
    assert pool.Available() == 1 && pool.Outstanding() == 1 && pool.Deficit() == 0;
    pool.CheckIn(a);
    idle, outstanding, deficit := pool.resources, pool.Outstanding(), pool.Deficit();
    created := pool.creates;
  }
}
