# API gateway circuit breaker and service registry

A Dafny model of the two stateful components of the project's Node.js API
gateway (`src/api_gateway/`):

- **`CircuitBreaker`** (`circuit_breaker.dfy`, module `Breaker`): a
  three-state machine (CLOSED, OPEN, HALF_OPEN) with a count of consecutive
  failures, a trip threshold `maxFailures` and a cool-down `resetTimeout`
  measured from the last recorded failure. `canRequest` lets a request
  through unless the breaker is OPEN and still cooling down, in which case it
  refuses; an OPEN breaker whose cool-down has run out moves to HALF_OPEN.
  `recordFailure` counts a failure, remembers its time and trips the breaker
  once the count reaches the threshold; `reset` clears the count and closes
  the breaker.
- **`ServiceDiscovery`** (`service_discovery.dfy`, module `Discovery`): a
  registry from service name to the list of its replica URLs, with a
  per-service cursor. `register` (re)binds a name and restarts its cursor,
  `getNextServiceUrl` returns the replica under the cursor and advances it
  round-robin (or null for an unknown name or an empty list), and
  `unregister` forgets the name.

Each component is modelled twice, on purpose. A datatype snapshot with pure
step functions (`StepCanRequest`, `StepRecordFailure`, `StepReset`;
`StepRegister`, `StepNext`, `StepUnregister`) is the specification, and the
lemmas are stated about it. A class with the source's fields
(`CircuitBreaker`, `ServiceDiscovery`) updates them in place, and each of its
methods is proved to produce exactly the snapshot the step function gives.
Each class keeps an invariant (`Valid()`, which is `Inv` of the snapshot):

- for the breaker, it is OPEN or HALF_OPEN only once the failure count has
  reached `maxFailures`;
- for the registry, both dictionaries have the same keys, and every cursor
  over a non-empty replica list points into that list.

The clock (`Date.now()`) is an integer parameter `now`. JavaScript's `null`
result is `None`.

## Model

| member | source | states |
|---|---|---|
| Breaker.Initial | src/api_gateway/circuitBreaker.js:2-8 | a fresh breaker is CLOSED with no failures and `lastAttemptTime == 0`, stores the configuration as given, and satisfies the invariant |
| Breaker.StepCanRequest | src/api_gateway/circuitBreaker.js:11-24 | a request is refused exactly when the breaker is OPEN and `now - lastAttemptTime < resetTimeout`; the answer is true exactly when the resulting state is not OPEN; CLOSED and HALF_OPEN allow and change nothing; a refusal changes nothing; the only possible change is OPEN to HALF_OPEN, with the failure count, times and configuration kept; the invariant is preserved |
| Breaker.StepRecordFailure | src/api_gateway/circuitBreaker.js:27-35 | the failure count grows by exactly one and `lastAttemptTime` becomes `now`; the breaker is OPEN if the new count reaches `maxFailures`, otherwise its state is kept; the configuration is kept and the invariant preserved |
| Breaker.StepReset | src/api_gateway/circuitBreaker.js:38-42 | the count is 0 and the state CLOSED; `lastAttemptTime` and the configuration are untouched; the invariant holds afterwards whatever held before |
| Breaker.FailureRunTrips | src/api_gateway/circuitBreaker.js:27-35 | a CLOSED breaker that sees a run of consecutive failures counts all of them and remembers the time of the last; it ends OPEN exactly when the run is non-empty and brings the count to `maxFailures`, and otherwise stays CLOSED |
| Breaker.FreshBreakerTripsAtThreshold | src/api_gateway/circuitBreaker.js:2-35 | a fresh breaker is OPEN after a run of failures exactly when there was at least one failure and at least `maxFailures` of them |
| Breaker.HalfOpenFailureRetrips | src/api_gateway/circuitBreaker.js:14-32 | a failure recorded in HALF_OPEN trips the breaker again, because the invariant already puts the count at the threshold; it then refuses every request for a full cool-down after that failure |
| Breaker.CoolDownMonotone | src/api_gateway/circuitBreaker.js:14-23 | a breaker that allows a request at some time allows it at every later time too |
| Breaker.CanRequestIdempotent | src/api_gateway/circuitBreaker.js:11-24 | asking twice at the same time gives the same answer and the same breaker as asking once |
| Breaker.CircuitBreaker.constructor | src/api_gateway/circuitBreaker.js:2-8 | the object's fields are `maxFailures` and `resetTimeout` as given, `failures == 0`, `lastAttemptTime == 0`, state CLOSED; the invariant holds |
| Breaker.CircuitBreaker.CanRequest | src/api_gateway/circuitBreaker.js:11-24 | updates only `state`, and both the answer and the new fields are those `StepCanRequest` gives; the invariant is kept |
| Breaker.CircuitBreaker.RecordFailure | src/api_gateway/circuitBreaker.js:27-35 | updates only `failures`, `lastAttemptTime` and `state`, and the new fields are those `StepRecordFailure` gives; the invariant is kept |
| Breaker.CircuitBreaker.Reset | src/api_gateway/circuitBreaker.js:38-42 | updates only `failures` and `state`, and the new fields are those `StepReset` gives; `lastAttemptTime` is untouched by the frame |
| Discovery.Empty | src/api_gateway/serviceDiscovery.js:4-7 | the new registry knows no name and satisfies the invariant |
| Discovery.StepRegister | src/api_gateway/serviceDiscovery.js:10-13 | `name` is bound to exactly the given replicas and its cursor is 0, overwriting any earlier registration; every other name's entry in both dictionaries is unchanged; the invariant is preserved |
| Discovery.StepNext | src/api_gateway/serviceDiscovery.js:16-30 | the result is null exactly for an unknown name or an empty list, and then nothing changes; otherwise it is the replica under the cursor, which is one of the registered replicas, and the cursor becomes `(old + 1) % length`; the replica lists and every other name's entry are never changed; the invariant (cursor in bounds, same keys) is preserved |
| Discovery.StepUnregister | src/api_gateway/serviceDiscovery.js:53-56 | `name` is absent from both dictionaries, every other entry is unchanged, and the invariant is preserved |
| Discovery.UnregisteredGivesNull | src/api_gateway/serviceDiscovery.js:16-20 | after `unregister(name)`, `getNextServiceUrl(name)` returns null and changes nothing |
| Discovery.Pulls | src/api_gateway/serviceDiscovery.js:16-30 | any number of consecutive `getNextServiceUrl` calls keeps the registry invariant |
| Discovery.PullsCursor | src/api_gateway/serviceDiscovery.js:23-27 | after `k` calls on a name with `n > 0` replicas its cursor has moved from `c` to `(c + k) % n`, and nothing else in the registry changed |
| Discovery.PullsCycle | src/api_gateway/serviceDiscovery.js:22-29 | `k` consecutive calls from cursor `c` return exactly `k` answers, the `i`-th being replica `(c + i) % n` |
| Discovery.RoundRobinAfterRegister | src/api_gateway/serviceDiscovery.js:10-29 | right after registering `n > 0` replicas, `n` consecutive calls return the replicas in order, `replicas[0]` to `replicas[n-1]` |
| Discovery.RoundRobinReturnsToStart | src/api_gateway/serviceDiscovery.js:10-29 | right after registering `n > 0` replicas, `n` consecutive calls leave the registry exactly as registration left it, with the cursor back at 0 |
| Discovery.EveryReplicaServed | src/api_gateway/serviceDiscovery.js:16-30 | from any reachable state, every replica of a service with `n` replicas is returned by one of the next `n` calls, and the lemma names which call |
| Discovery.ServiceDiscovery.constructor | src/api_gateway/serviceDiscovery.js:4-7 | both dictionaries start empty and the invariant holds |
| Discovery.ServiceDiscovery.Register | src/api_gateway/serviceDiscovery.js:10-13 | `services == old(services)[name := replicas]` and `indexes == old(indexes)[name := 0]`, which is the `StepRegister` snapshot; the invariant is kept |
| Discovery.ServiceDiscovery.GetNextServiceUrl | src/api_gateway/serviceDiscovery.js:16-30 | the answer and the new dictionaries are those `StepNext` gives, so `services` is unchanged; the invariant is kept |
| Discovery.ServiceDiscovery.Unregister | src/api_gateway/serviceDiscovery.js:53-56 | both dictionaries lose `name` and nothing else, which is the `StepUnregister` snapshot; the invariant is kept |

## Left out

- `ServiceDiscovery.checkServices` (src/api_gateway/serviceDiscovery.js:33-50) is left out. It sends an HTTP status probe to every replica with `axios` and waits on them with `Promise.all`, so it is network I/O and concurrency.
- `Date.now()` is not modelled. The current time is the integer parameter `now` of `CanRequest` and `RecordFailure`, and the model assumes nothing about how it moves between calls.
- The `console.log` messages of `recordFailure` and `reset` are left out. They are logging only.
- JavaScript numbers are modelled as unbounded integers. The model does not capture a failure count above 2^53, or a non-numeric, fractional or `NaN` configuration.
- The replica list passed to `register` is stored as an immutable sequence. The source stores the caller's array by reference, so the caller could later shrink it and push the cursor out of bounds; that aliasing is not modelled.
- Replica lists hold strings. A non-array value passed to `register` (for which JavaScript's `!replicas` and `.length` checks behave differently) is not modelled.
- Discovery.StepNext: requires the registry invariant, which every operation keeps. Without it the source would read an out-of-range index and yield `undefined`. The source keeps both dictionaries in plain objects, whose inherited keys such as `constructor` answer lookups with prototype values; the model uses maps with no such keys. On a fresh registry, `getNextServiceUrl('constructor')` or `getNextServiceUrl('hasOwnProperty')` gets past the check at src/api_gateway/serviceDiscovery.js:18, because the inherited function's `.length` is 1. It then returns `undefined` (:24), not null, and at :27 it creates an own `indexes` entry holding `NaN`. After that call, the source's two dictionaries no longer have the same keys. So for inherited names the model's "null exactly for an unknown name" and its same-keys invariant do not describe the source.
- Discovery.StepRegister, Discovery.StepNext, Discovery.StepUnregister: the service name `__proto__` is not modelled. In the source, `register('__proto__', replicas)` creates no entry in `services`: the assignment at src/api_gateway/serviceDiscovery.js:11 runs the prototype setter and makes the replica array the prototype of `services`, and the assignment to `indexes` at :12 is ignored. Afterwards, names that `services` now inherits from the replica array (such as `0`, `length` or `map`) no longer yield null at :18. `getNextServiceUrl('__proto__')` then reads `Object.prototype` as its cursor (through the `__proto__` getter of `indexes`), so `replicas[currentIndex]` is `undefined` at :23-24, and the `NaN` it writes back at :27 is ignored again. `unregister('__proto__')` at :54-55 undoes none of this. For that one name the model's frame property for `register`, its round-robin lemmas and `unregister` do not describe the source. The model treats `__proto__` as an ordinary key.
- The gateway module exports one shared `ServiceDiscovery` instance. The model is the class itself.
- src/api_gateway/app.js, the Flask services in src/UserService and src/FinanceService, their tests and the gRPC client are not part of this model. They are HTTP, cache, database and RPC plumbing, and nothing in them uses the two classes.
