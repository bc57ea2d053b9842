/** The `Pool` object of lib/pool.js: a capacity fixed at construction, a
    stack of idle resources and a counter of lent-out resources, updated in
    place by `track`, `checkOut`, `checkIn` and `with`. Each method is proved
    to move the object exactly as the matching function of `PoolSpec` moves
    a snapshot, so the properties proved there hold of the object. */
module Pools {
  import opened Outcomes
  import opened PoolSpec

  /** Construction options; without them a pool holds up to 20 resources
      and waits 5000 ms. */
  datatype Options = Options(size: nat, timeout: nat)

  const DefaultOptions := Options(20, 5000)

  class Pool<R> {
    const size: nat
    const timeout: nat          // only feeds the wait path, which is not modelled
    var resources: seq<R>       // idle stack; the top is the last element
    var outstanding: int
    ghost var notices: seq<Notice>  // every notification emitted so far
    ghost var creates: nat          // how many times the factory was asked

    /** The object's current state as a value. */
    function State(): Snapshot<R>
      reads this
    {
      Snapshot(size, resources, outstanding)
    }

    ghost predicate Valid()
      reads this
    {
      State().Sound()
    }

    /** The `available` getter; while the invariant holds it never exceeds
        the capacity. */
    function Available(): (n: nat)
      reads this
      ensures Valid() ==> n <= size
    {
      State().Available()
    }

    /** The `outstanding` getter; while the invariant holds it lies between
        zero and the capacity. */
    function Outstanding(): (n: int)
      reads this
      ensures Valid() ==> 0 <= n <= size
    {
      State().outstanding
    }

    /** The `deficit` getter; while the invariant holds it is never negative. */
    function Deficit(): (d: int)
      reads this
      ensures Valid() ==> d >= 0
    {
      State().Deficit()
    }

    /** A new pool with nothing idle and nothing lent out. Whether a factory
        was supplied is decided by `NewPool` before any state exists. */
    constructor (options: Option<Options>)
      ensures options.None? ==> size == DefaultOptions.size && timeout == DefaultOptions.timeout
      ensures options.Some? ==> size == options.value.size && timeout == options.value.timeout
      ensures resources == [] && outstanding == 0
      ensures notices == [] && creates == 0
      ensures Valid()
    {
      var chosen := if options.Some? then options.value else DefaultOptions;
      size := chosen.size;
      timeout := chosen.timeout;
      resources := [];
      outstanding := 0;
      notices := [];
      creates := 0;
    }

    method Track(n: int)
      modifies this
      ensures State() == PoolSpec.Track(old(State()), n).0
      ensures notices == old(notices) + [PoolSpec.Track(old(State()), n).1]
      ensures creates == old(creates)
    {
      outstanding := outstanding + n;
      if n > 0 {
        notices := notices + [Notice(CheckOutNotice, outstanding, |resources|)];
      } else {
        notices := notices + [Notice(CheckInNotice, outstanding, |resources|)];
      }
    }

    /** `checkOut()`; `create` is what the factory's `create()` yields if it
        is called. */
    method CheckOut(create: Result<R, string>) returns (r: Result<R, Failure>)
      modifies this
      ensures State() == PoolSpec.CheckOut(old(State()), create).after
      ensures r == PoolSpec.CheckOut(old(State()), create).result
      ensures notices == old(notices) + PoolSpec.CheckOut(old(State()), create).notices
      ensures creates == old(creates) + PoolSpec.CheckOut(old(State()), create).creates
      ensures old(Valid()) ==> Valid()
    {
      if Available() > 0 {
        Track(1);
        r := Ok(resources[|resources| - 1]);
        resources := resources[..|resources| - 1];
      } else if Deficit() > 0 {
        Track(1);
        creates := creates + 1;
        r := match create
          case Ok(resource) => Ok(resource)
          case Err(cause) => Err(CreateFailed(cause));
      } else {
        r := Err(Exhausted);
      }
    }

    /** `checkIn(resource)`. The source does not check that the resource
        was lent by this pool; the invariant survives when something was. */
    method CheckIn(resource: R)
      modifies this
      ensures State() == PoolSpec.CheckIn(old(State()), resource).after
      ensures notices == old(notices) + PoolSpec.CheckIn(old(State()), resource).notices
      ensures creates == old(creates)
      ensures old(Valid()) && old(outstanding) > 0 ==> Valid()
    {
      Track(-1);
      resources := resources + [resource];
    }

    /** `with(borrower)` for a borrower that does not use the pool and ends
        with `outcome`: its value, or the error it raises. */
    method With<T>(create: Result<R, string>, outcome: Result<T, string>) returns (r: Result<T, Failure>)
      modifies this
      ensures State() == PoolSpec.With(old(State()), create, outcome).after
      ensures r == PoolSpec.With(old(State()), create, outcome).result
      ensures notices == old(notices) + PoolSpec.With(old(State()), create, outcome).notices
      ensures creates == old(creates) + PoolSpec.With(old(State()), create, outcome).creates
      ensures old(Valid()) ==> Valid()
    {
      var lent := CheckOut(create);
      if lent.Err? {
        r := Err(lent.error);
        return;
      }
      // the borrower runs; whatever it ends with, the resource goes back
      r := match outcome
        case Ok(v) => Ok(v)
        case Err(cause) => Err(Thrown(cause));
      CheckIn(lent.value);
    }
  }

  /** `new Pool(factory, options)`: without a factory the construction fails
      before any pool exists. The factory itself is opaque; its `create()`
      outcomes are passed to each check-out. */
  method NewPool<F, R>(factory: Option<F>, options: Option<Options>) returns (r: Result<Pool<R>, Failure>)
    ensures r.Err? <==> factory.None?
    ensures r.Err? ==> r.error == MissingFactory
    ensures r.Ok? ==> fresh(r.value) && r.value.Valid() &&
                      r.value.resources == [] && r.value.outstanding == 0 &&
                      r.value.notices == [] && r.value.creates == 0 &&
                      r.value.size == (if options.Some? then options.value.size else DefaultOptions.size)
  {
    if factory.None? {
      return Err(MissingFactory);
    }
    var pool := new Pool<R>(options);
    r := Ok(pool);
  }
}
