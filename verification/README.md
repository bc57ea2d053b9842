# A bounded resource pool, modelled and verified

This project models the `Pool` class of `lib/pool.js`, a small generic
resource pool. A pool is built around a factory whose `create()` produces
resources, and it has a capacity (`size`). It keeps a stack of idle
resources and a counter of resources lent out (`outstanding`). Its getters
derive `available` (the number of idle resources) and `deficit`
(`size - (outstanding + available)`, the number of resources that may still
be created). It lends resources with `checkOut`, takes them back with
`checkIn`, and wraps a borrower between the two with `with`. Every change
of the counter goes through `track`, which emits a `checkOut` or `checkIn`
event afterwards.

The model has four modules:

- `Outcomes` (`outcomes.dfy`): `Option` and `Result`.
- `PoolSpec` (`pool_spec.dfy`): the pool's state as a value, a `Snapshot`
  of size, idle stack and counter. Each operation is a function from the
  snapshot before it to a `Transition`: the snapshot after, the result, the
  notifications emitted (each records the counter and `available` at the
  moment it fires) and the number of `create()` calls. The single-operation
  properties are lemmas about these functions.
- `Pools` (`pool.dfy`): the `Pool` class itself. Its fields are updated in
  place by `Track`, `CheckOut`, `CheckIn` and `With`, and each method is
  proved to move the object exactly as the matching `PoolSpec` function
  moves a snapshot. Check-out and `with` preserve the invariant
  `outstanding + available <= size` with a non-negative counter; a check-in
  does so only when something is lent out. `NewPool` is the constructor's
  factory check.
- `PoolTrace` (`pool_trace.dfy`): arbitrary sequences of check-outs and
  check-ins, together with the caller's books (resources held, resources
  ever created). Over any sequence that only checks in held resources, the
  books balance after every step. So the pool never creates more resources
  than its capacity, and no resource is lost or duplicated.
- `PoolScenarios` (`pool_scenarios.dfy`): the behaviours that
  `lib/pool.test.js` pins down, replayed on the class.

What the factory's `create()` yields and how a borrower ends are not
computed by the pool. They are parameters: `create` is the outcome of
`create()` should it be called, and `outcome` is the borrower's value or the
error it raises.

Points where the model follows the code as written rather than an
idealised pool:

- A failed `create()` is not rolled back. `checkOut` raises the counter
  before calling the factory, and nothing lowers it again. A pool whose
  factory fails therefore loses that slot for good (`FailedCreateKeepsSlot`).
- On a full pool `checkOut` does not wait. Its waiting branch starts by
  evaluating `this.checkout.bind(this)` (lib/pool.js:61), and `checkout` with
  a lower-case `o` is not a member of the class. So the promise is rejected at
  once, and no state has changed. The model makes this an immediate
  `Err(Exhausted)` with nothing changed. The tests only ask that this call
  fails.
- The idle branch emits its `checkOut` event before it pops the stack. At
  that moment an observer still counts the lent resource as idle
  (`IdleNoticePrecedesPop`).
- `checkIn` has no guard. It accepts resources the pool never lent, and then
  the counter goes below zero (`CheckInUnlentBreaksInvariant`).

## Model

| member | source | states |
|---|---|---|
| PoolSpec.Empty | lib/pool.js:21-23 | a new pool's state has the given size, nothing idle and a zero counter; it is sound, with its whole capacity as deficit |
| PoolSpec.Track | lib/pool.js:42-49 | only the counter changes, by exactly `n`; the notice carries the counter and `available` after the change; it is a check-out notice exactly when `n > 0` |
| PoolSpec.CheckOut | lib/pool.js:51-76 | keeps the capacity; preserves the invariant; fails with `Exhausted` exactly when nothing is idle and there is no deficit; a success raises the counter by one; `create()` is called at most once, and exactly when nothing is idle and there is a deficit; unless the pool is full it emits exactly one check-out notice with the raised counter and `available` read before the pop (also when `create()` fails); on a full pool the state is unchanged and nothing is emitted |
| PoolSpec.CheckIn | lib/pool.js:78-81 | never fails; pushes the resource on top (one more idle, the new top is the resource); deficit unchanged; preserves the invariant when something was lent; emits one check-in notice with the lowered counter, taken before the push |
| PoolSpec.With | lib/pool.js:83-91 | keeps the capacity and the invariant; calls `create()` exactly as its check-out does; a failed check-out is passed on with the state and notices it left; otherwise the counter is restored and the borrower's value or error is the result |
| PoolSpec.CheckOutFromIdle | lib/pool.js:52-54 | with idle resources: returns the top one, pops exactly it, counter +1, deficit unchanged, no `create()` |
| PoolSpec.CheckOutByCreation | lib/pool.js:55-57 | with nothing idle and a deficit: passes on `create()`'s value or failure, counter +1 in both cases, idle stack untouched, deficit -1, one `create()` |
| PoolSpec.FailedCreateKeepsSlot | lib/pool.js:55-57 | a failed `create()` that took the last slot leaves the counter raised, and the next check-out finds the pool full |
| PoolSpec.CheckInPushes | lib/pool.js:78-81 | check-in leaves the capacity, appends the resource to the idle stack and lowers the counter by one |
| PoolSpec.CheckInUnlentBreaksInvariant | lib/pool.js:78-81 | checking in with nothing lent out leaves an unsound state (negative counter) |
| PoolSpec.IdleRoundTrip | lib/pool.js:52-54 | an idle check-out followed by the check-in of the resource it returned restores the snapshot exactly |
| PoolSpec.IdleNoticePrecedesPop | lib/pool.js:52-54 | the idle check-out's one notice still counts the lent resource as idle: on a full pool the deficit it shows is -1 |
| PoolSpec.WithRestoresCounter | lib/pool.js:83-91 | when the check-out succeeds: counter restored; idle stack unchanged if served from idle, or one more (the created resource) if created; `create()` count; the borrower's value or error as the result; the exact two notices (counter +1, then back) |
| PoolSpec.WithOnFullPool | lib/pool.js:58-76 | on a full pool `with` fails with `Exhausted`, emits nothing, calls nothing and changes nothing |
| Pools.Pool.Available | lib/pool.js:30-32 | the number of idle resources, which never exceeds the capacity while the invariant holds |
| Pools.Pool.Outstanding | lib/pool.js:38-40 | the lent-out counter, which lies between zero and the capacity while the invariant holds |
| Pools.Pool.Deficit | lib/pool.js:34-36 | `size - (outstanding + available)`, non-negative while the invariant holds |
| Pools.Pool.constructor | lib/pool.js:10-24 | size and timeout default to 20 and 5000 when no options are given and are taken from the options otherwise; empty stack, zero counter, no notices; the invariant holds |
| Pools.NewPool | lib/pool.js:17 | fails with `MissingFactory` exactly when there is no factory; otherwise a new empty pool with the chosen size that satisfies the invariant |
| Pools.Pool.Track | lib/pool.js:42-49 | the object moves as `PoolSpec.Track` says, and its notice is appended to the log |
| Pools.Pool.CheckOut | lib/pool.js:51-76 | the object, result, notice log and `create()` count move as `PoolSpec.CheckOut` says; the invariant is preserved |
| Pools.Pool.CheckIn | lib/pool.js:78-81 | the object and notice log move as `PoolSpec.CheckIn` says; the invariant is preserved when something was lent |
| Pools.Pool.With | lib/pool.js:83-91 | the object, result, notice log and `create()` count move as `PoolSpec.With` says; the invariant is preserved |
| PoolTrace.NextBalanced | lib/pool.js:51-81 | one check-out, or one check-in of a held resource, keeps the books balanced: invariant, held resources counted as outstanding, every created resource either idle or held |
| PoolTrace.BorrowIdleBalanced | lib/pool.js:52-54 | an idle check-out moves the top resource from the stack to the caller's hands, keeping the books balanced |
| PoolTrace.ReturnBalanced | lib/pool.js:78-81 | checking in a held resource moves it from the caller's hands to the stack, keeping the books balanced |
| PoolTrace.RunBalanced | lib/pool.js:51-81 | over any lawful sequence of check-outs and check-ins the books balance after every prefix |
| PoolTrace.NeverOverCapacity | lib/pool.js:34-36 | from a sound pool with nothing lent, no lawful sequence makes the pool create more resources than its size, and the invariant holds at the end |
| PoolTrace.RunKeepsSize | lib/pool.js:26-28 | no sequence of operations changes the capacity |
| PoolScenarios.ConstructWithoutFactory | lib/pool.test.js:11-15 | constructing without a factory fails |
| PoolScenarios.NoticesAfterTracking | lib/pool.test.js:23-39 | on a pool of one, `with` emits a check-out notice that sees counter 1, then a check-in notice that sees counter 0 |
| PoolScenarios.GivenIsCreated | lib/pool.test.js:41-51 | on a pool constructed with the default options the lent resource is the factory's, and after the check-in it is the only idle resource with nothing out |
| PoolScenarios.NestedOverSizeFails | lib/pool.test.js:53-60 | a `with` nested in a `with` on a pool of one fails as the pool is full; afterwards one resource is idle and none is out |
| PoolScenarios.InnerWithOnFullPool | lib/pool.test.js:58 | the inner `with` on the full pool fails and leaves the pool as it was |
| PoolScenarios.BorrowerFailureReturnsResource | lib/pool.test.js:62-74 | a borrower's error surfaces as the result of `with`, and the resource is idle again with nothing out |
| PoolScenarios.NestedBorrowsCreateTwo | lib/pool.test.js:76-103 | two nested borrows on a pool of two call `create()` twice; afterwards both are idle (the inner one below the outer), nothing is out and the deficit is 0 |

## Left out

- The waiting branch of `checkOut` (lib/pool.js:59-74) is not modelled as a wait: as written it fails at once (see above), so FIFO waiters, the timeout timer and the `exceeded` errors do not arise. Failing at once is what the model does.
- The `timeout` option is stored by the constructor but is used only by the waiting branch, so nothing reads it.
- Event dispatch: `EventEmitter` listeners are not modelled. Each emitted event is recorded in the ghost `notices` log, with the state an observer would read at that moment. The "is an event emitter" test (lib/pool.test.js:17-21) is not modelled.
- Asynchrony: promises, `await` and interleaving between concurrent callers are not modelled. Operations run one after another, and a borrower's outcome, synchronous or not, is a value.
- Pools.Pool.With: the borrower is an outcome that does not itself use the pool. The tests whose borrower borrows again are written out as the check-out, inner `with` and check-in that the outer `with` performs.
- The factory object and its `destroy` are not modelled. `NewPool` only checks whether a factory is present, and `create()` outcomes are parameters of each check-out.
- Pools.NewPool: a factory is either present or absent. The source's `!factory` test also rejects other falsy values (`0`, `""`, `false`), which have no counterpart here.
- Pools.Pool.constructor: `size` is a natural number. The source accepts any number; with a fractional size (0.5: one resource is created and the deficit becomes -0.5) or a negative one, `deficit >= 0` fails in the source, and such sizes are not modelled.
- Pools.Pool.constructor: the options are either absent or carry both a size and a timeout. An options object without `size` (which leaves `size` undefined, so every comparison is false) is not modelled. An options object with only `size`, as the tests pass, is modelled by leaving the timeout an arbitrary parameter, since only the waiting branch would read it.
- The error objects of the source are not modelled. A failure is a `Failure` value. The full-pool rejection is really a `TypeError` from line 61, and here it is `Exhausted`.
