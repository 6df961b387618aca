# Service-mesh simulator core in Dafny

This project models the core of a discrete-event simulator of a service mesh,
written in Java on an actor runtime. The core has four parts:

- **Requests and responses** (`messages.dfy`, module `Messages`). A request
  carries an id, a creation time, a per-hop attempt number and a return path.
  The return path is a stack of addresses: every hop pushes its own address
  before it forwards the request. A response pops the stack hop by hop on its
  way back.
- **The AIMD admission limiter** (`limiter.dfy`, module `Limiting`). It counts
  requests in flight and admits a request only below the current limit. Once
  per control interval it moves the limit: it jumps back to
  `floor(0.9 * limit)` (at least 1) after errors or high latency, and crawls up
  by 1 towards the top limit after an interval that hit the ceiling. Two
  signals drive the move: the error count, or the average latency against two
  triggers.
- **The service node** (`service.dfy`, module `Node`). It admits requests
  through its limiter. A leaf node computes each admitted request locally.
  Each tick advances every computation by the elapsed milliseconds, shared out
  when more requests compute than the available concurrency. A node with a
  downstream instead calls it with a one-second timeout, up to three retries,
  and a capped exponential backoff. The node's minimum and maximum backoff
  are both 100 ms, so every retry waits exactly 100 ms. The node answers every
  request along its return path and reports every non-discarded result to the
  limiter.
- **The least-busy router** (`group.dfy`, module `Routing`). It counts the
  requests it has forwarded to each downstream and not yet seen answered. It
  forwards every request to a downstream with the smallest count, and
  decrements the responder's count when a response comes back.

An actor's state is a Dafny `class`, and each message handler is one method
that runs to completion. An actor `tell` appends an `Envelope` (destination,
message, delay in nanoseconds) to the actor's `outbox`. A timer is an envelope
whose delay is the timer's duration. The clock is a parameter `now`, in
nanoseconds. A Java `HashMap`'s iteration order is a parameter `order`, which
must list every key exactly once. A thrown exception is a result of `false` or
`None` (a fault), and the model states what the state is after it.

The node's main invariant (`Node.Service.Valid`) is the conservation of
limiter slots. The limiter's in-flight count always equals the count when the
node took the limiter over, plus the requests computing, plus the requests
waiting for the downstream, plus a ghost counter `overwritten`. That counter
records one case in the source. A request can be put in the downstream map
under an id that is already waiting there. The source then replaces the entry,
and the slot taken for the replaced request is never released. The model keeps
this behaviour and accounts for the lost slot explicitly.

Two behaviours follow the code as written:

- The latency limiter refuses a configuration exactly when the increase
  trigger is above the decrease trigger (`Limiter.java:123`), although its
  error message reads "Decrease trigger cannot be larger than increase
  trigger" (`Limiter.java:124`).
- A self-addressed `SendDownstream` is forwarded to the downstream without
  checking the attempt number (`Service.java:197-199`). A resend scheduled
  for an attempt that has since been replaced is still sent. The attempt
  check applies only to responses (`Service.java:207-209`).

## Model

| member | source | states |
|---|---|---|
| Messages.NewRequest | src/main/java/org/workloads/Request.java:13-19 | A new request has the given id and attempt, is created at `now`, and has an empty return path. |
| Messages.GoDownstream | src/main/java/org/workloads/Request.java:28-32 | The downstream copy keeps id and creation time, takes the given attempt whatever the original's was, and has a path equal to the original's element by element. |
| Messages.GoDownstreamTwice | src/main/java/org/workloads/Request.java:28-37 | A copy of a copy is a copy of the original: only the attempt number ever differs. |
| Messages.Push | src/main/java/org/workloads/Group.java:68-70 | Pushing grows the path by one, puts the pusher on top and keeps the path below it. |
| Messages.ReplyRoute | src/main/java/org/workloads/Service.java:156-165 | Routing a reply succeeds iff the top of the path is the hop itself and a hop is left below it. On success, pushing the hop back gives the original path, and the reply goes to the new top. |
| Messages.ReturnPathIntegrity | src/main/java/org/workloads/Service.java:159-165 | A request leaving a sender with path `origin` and crossing any chain of hops that each push themselves comes back through all of them without a routing fault, with `origin` restored. |
| Limiting.Quot | src/main/java/org/workloads/Limiter.java:132 | Java's truncating division: the quotient times the divisor lies within one divisor of the dividend, on the side of zero. |
| Limiting.InitialLimit | src/main/java/org/workloads/Limiter.java:29-35 | The starting limit is at least 1, at most the top limit when that is at least 1, and exactly half the top limit (rounded down) when that is at least 2; below 2 it is exactly 1. |
| Limiting.Step | src/main/java/org/workloads/Limiter.java:45-60 | One control step keeps the limit at least 1 and within the top limit. A zero move keeps it. A negative move cuts it to `floor(0.9 * limit)`, and to 1 below that, strictly decreasing above 1. A positive move raises it by exactly 1 below the top limit and keeps it at the top. |
| Limiting.AverageLatency | src/main/java/org/workloads/Limiter.java:130-133 | The average is 0 with no responses, else the truncated quotient of the latency sum by the response count. |
| Limiting.Move | src/main/java/org/workloads/Limiter.java:89-144 | The move is -1, 0 or 1. By errors: -1 iff there was an error; +1 iff there was none and the ceiling was reached. By latency: -1 iff the average exceeds the decrease trigger; +1 iff it does not, the ceiling was reached, and the average is below the increase trigger. |
| Limiting.Observe | src/main/java/org/workloads/Limiter.java:102-153 | By errors, a result adds one error iff its status is not Ok. By latency, a result that is not Discarded adds one response and its latency since creation; a Discarded one changes nothing. |
| Limiting.IterateBounds | src/main/java/org/workloads/Limiter.java:51-60 | Any sequence of control moves keeps the limit in [1, top limit], or at exactly 1 when the top limit is below 1. |
| Limiting.ForwardCrawl | src/main/java/org/workloads/Limiter.java:58-60 | k saturated, error-free intervals raise the limit by exactly k, capped at the top limit. |
| Limiting.BackwardJumps | src/main/java/org/workloads/Limiter.java:51-56 | k intervals that call for a cut take at least k off the limit, unless it reaches 1. |
| Limiting.OneIsFloor | src/main/java/org/workloads/Limiter.java:52-55 | Once the limit is 1, further cuts keep it at 1. |
| Limiting.AimdLimiter.constructor | src/main/java/org/workloads/Limiter.java:29-35 | A new limiter starts at the initial limit with nothing in flight and the flag clear. Its first control step is due one interval later. |
| Limiting.AimdLimiter.ByErrorCount | src/main/java/org/workloads/Limiter.java:84-86 | The error-driven limiter is a valid limiter at the initial limit, with nothing in flight, the flag clear, empty statistics and its first check one interval ahead. |
| Limiting.AimdLimiter.ByAverageLatency | src/main/java/org/workloads/Limiter.java:118-126 | The latency limiter is refused iff the increase trigger exceeds the decrease trigger. Otherwise it is valid, keeps both triggers, and starts as the base limiter does: initial limit, nothing in flight, flag clear, empty statistics, first check one interval ahead. |
| Limiting.AimdLimiter.Acquire | src/main/java/org/workloads/Limiter.java:64-73 | A request is admitted iff fewer than the limit are in flight, and only then is one more counted. The ceiling flag is raised when this admission would fill the limit, even on a rejection. |
| Limiting.AimdLimiter.Push | src/main/java/org/workloads/Service.java:227 | Admission as the node asks for it: Acquire's decision, and an admitted request is queued for Poll. |
| Limiting.AimdLimiter.Poll | src/main/java/org/workloads/Service.java:138-140 | Poll returns the oldest queued request and removes it; with an empty queue it returns nothing. |
| Limiting.AimdLimiter.HasResult | src/main/java/org/workloads/Limiter.java:102-153 | A result releases exactly one slot and folds into the interval's statistics as Observe says. |
| Limiting.AimdLimiter.MoveLimit | src/main/java/org/workloads/Limiter.java:88-144 | The move is Move of the interval's statistics and ceiling flag; the statistics are then cleared. |
| Limiting.AimdLimiter.Tick | src/main/java/org/workloads/Limiter.java:39-61 | Before the next check is due nothing changes. Otherwise the next check is one interval ahead, the flag and statistics are cleared, and the limit takes one Step by the interval's Move. |
| Limiting.ErrorsScenario | src/main/java/org/workloads/Limiter.java:29-60 | With top limit 200: the limiter starts at 100, one saturated error-free interval takes it to 101, and an interval with one error takes it to 90. |
| Node.Backoff | src/main/java/org/workloads/Service.java:172-178 | The backoff is the minimum doubled once per attempt, capped at the maximum: never above either, and equal to one of them. |
| Node.BackoffDoubles | src/main/java/org/workloads/Service.java:172-174 | From one attempt to the next the backoff doubles until it reaches the cap. |
| Node.DoubledBackoff | src/main/java/org/workloads/Service.java:172-178 | The doubling loop computes Backoff, doubling nothing for a negative attempt. |
| Node.RetryBackoff | src/main/java/org/workloads/Service.java:171-178 | The backoff after an outstanding attempt is the smaller of the maximum and the minimum doubled once per attempt. With both bounds at 100 ms it is always exactly 100 ms. |
| Node.Retried | src/main/java/org/workloads/Service.java:180-181 | A retry keeps the request and raises the attempt by exactly one. The new deadline is a full timeout plus the attempt's backoff ahead, which is exactly 1.1 s. |
| Node.RetryBudget | src/main/java/org/workloads/Service.java:125-130 | An entry first sent at attempt 0 and retried k times keeps its request and is at attempt k. Its budget is spent iff k has reached 3. The last retry set the deadline a timeout plus the backoff of the replaced attempt ahead. |
| Node.AfterTimeouts | src/main/java/org/workloads/Service.java:117-131 | After the timeout check no entry is past its deadline. Every entry left was already waiting, for the same request, at the same attempt or the next one. |
| Node.Progress | src/main/java/org/workloads/Service.java:102-105 | The progress of a tick is never negative and never more than the elapsed whole milliseconds. |
| Node.ProgressShare | src/main/java/org/workloads/Service.java:102-105 | With no more computing requests than the available concurrency each gets the whole elapsed milliseconds. Otherwise together they get exactly the elapsed milliseconds times the concurrency, and none gets more than the elapsed time. |
| Node.Survivors | src/main/java/org/workloads/Service.java:107-115 | The computations kept after a tick are no more than before, and each still needs a positive amount of work. |
| Node.PartitionCount | src/main/java/org/workloads/Service.java:107-115 | The compute phase neither loses nor duplicates work: every entry either survives or finishes. |
| Node.SurvivorsMembers | src/main/java/org/workloads/Service.java:108-114 | The survivors are exactly the entries still positive after losing the progress, each reduced by exactly the progress. |
| Node.FinishedMembers | src/main/java/org/workloads/Service.java:108-114 | The answered requests are exactly those whose remaining work runs out. |
| Node.GaveUp | src/main/java/org/workloads/Service.java:125-128 | Each request given up on can be answered, and there are at most as many as entries visited. |
| Node.ExpireKeysUntouched | src/main/java/org/workloads/Service.java:117-131 | The timeout check leaves an entry it has not reached yet in place and unchanged. |
| Node.ExpireKeysSettles | src/main/java/org/workloads/Service.java:117-131 | Visiting distinct keys settles each by its own deadline and attempt. An entry is gone iff it expired with its budget spent. It is retried iff it expired otherwise. The others are unchanged. |
| Node.ExpireKeysShrinks | src/main/java/org/workloads/Service.java:125-127 | The timeout check shrinks the map by exactly one entry per request given up. |
| Node.ExpireAll | src/main/java/org/workloads/Service.java:117-131 | Over any iteration order the entry-by-entry check gives the same map, AfterTimeouts, and the map loses one entry per request given up. |
| Node.Service.constructor | src/main/java/org/workloads/Service.java:70-80 | A new node holds no work, has sent nothing, takes its duration in whole milliseconds truncated toward zero (as `Duration.toMillis` does, also for a negative duration), and satisfies the slot-conservation invariant. |
| Node.Service.InFlight | src/main/java/org/workloads/Service.java:81-83 | The requests the node is handling (computing plus waiting downstream) are exactly the limiter's slots taken since the node took it over, less those lost to overwrites. |
| Node.Service.Resend | src/main/java/org/workloads/Service.java:183-188 | A resend goes to the node itself after exactly the backoff of the attempt it replaces (100 ms), and carries the request at the next attempt. |
| Node.Service.SilentDownstream | src/main/java/org/workloads/Service.java:117-131 | A downstream that never answers: an entry first sent at attempt 0 and retried k times is, at its next expiry, resent for attempt k + 1 while k < 3, and dropped and answered DownstreamError once k reaches 3. So a request goes downstream at most 4 times. |
| Node.Service.ReplyIsReplyRoute | src/main/java/org/workloads/Service.java:156-165 | The node's reply is ReplyRoute applied with the node's own address: the node can answer iff ReplyRoute succeeds, and the reply goes to the address ReplyRoute names, carrying the path it pops. So ReturnPathIntegrity applies to the node's replies. |
| Node.Service.SendResponse | src/main/java/org/workloads/Service.java:156-169 | Answering succeeds iff the node is on top of the path with a hop below. The reply goes to that hop with the node popped. Every result but a discard releases a slot and is observed by the limiter; a fault sends nothing. |
| Node.Service.StartCalculation | src/main/java/org/workloads/Service.java:191-196 | A computation is appended with the configured duration in milliseconds. |
| Node.Service.StartExecution | src/main/java/org/workloads/Service.java:145-154 | A leaf starts computing. A node with a downstream records attempt 0 with a deadline one timeout ahead, and sends the attempt-0 copy through an immediate message to itself. An id already waiting is overwritten and counted. |
| Node.Service.StartAdmitted | src/main/java/org/workloads/Service.java:136-143 | Every queued admitted request is started, in queue order, and the queue ends empty. The work held grows by exactly the number started. |
| Node.Service.HandleSendDownstream | src/main/java/org/workloads/Service.java:197-199 | The self-message forwards the request to the downstream; without one it faults. |
| Node.Service.ResendDownstream | src/main/java/org/workloads/Service.java:171-189 | A retry raises the attempt by exactly one. The deadline becomes a timeout plus the backoff ahead, and the copy for the new attempt is sent to the node itself after the backoff. |
| Node.Service.HandleRequest | src/main/java/org/workloads/Service.java:224-232 | The node pushes itself and asks the limiter; admission iff below the limit. A rejected request is answered Discarded to the sender with its original path, and neither the slot count nor the statistics change. An admitted one takes one slot and is started. Slot conservation is kept. |
| Node.Service.HandleResponse | src/main/java/org/workloads/Service.java:202-222 | It faults unless the node is on top of the path. A response for no waiting entry, or for another attempt, changes nothing. Ok moves the request to computation with the work held, the slot count and the statistics unchanged. Otherwise the request gets a downstream error if its budget is spent, and a retry before, which leaves the slot count and the statistics unchanged. Slot conservation is kept. |
| Node.Service.AdvanceComputation | src/main/java/org/workloads/Service.java:107-115 | Every computation loses the progress. Exactly the finished ones are answered, in order, releasing one slot each and observed by the limiter; the rest are kept in order, reduced. |
| Node.Service.CheckEntry | src/main/java/org/workloads/Service.java:119-130 | An entry is untouched before its deadline has passed. After it, a spent entry is dropped and answered DownstreamError, releasing a slot; any other is retried. |
| Node.Service.CheckTimeouts | src/main/java/org/workloads/Service.java:117-131 | The downstream map becomes AfterTimeouts. The sends are the downstream errors and resends in iteration order. One slot is released and one result observed per request given up. |
| Node.Service.VisitEntries | src/main/java/org/workloads/Service.java:117-131 | The loop over the entries in iteration order leaves the map ExpireKeys gives, sends TimeoutEffects, and releases one slot and observes one result per request given up. |
| Node.Service.TrackedAfterTimeouts | src/main/java/org/workloads/Service.java:117-131 | The timeout check keeps every waiting entry well formed, with its attempt within the retry budget. |
| Node.Service.Settle | src/main/java/org/workloads/Service.java:107-131 | The two answering phases of a tick together: survivors kept, the downstream map settled, the replies then the timeout sends appended, and both observed by the limiter. One slot is released per finished computation and per request given up, and slot conservation is kept. |
| Node.Service.Tick | src/main/java/org/workloads/Service.java:95-134 | A tick runs the limiter's control step and advances computation by the shared elapsed time. It settles the downstream map, appends the replies and then the timeout sends, and releases exactly one slot per reply. No slot is lost to an overwrite during a tick, and slot conservation is kept. |
| Routing.Bump | src/main/java/org/workloads/Group.java:58 | Forwarding to a downstream raises its count by exactly one and leaves every other count alone. |
| Routing.LeastBusyFairness | src/main/java/org/workloads/Group.java:49-60 | From all-zero counts, consecutive least-busy picks with no response in between go to distinct downstreams while unused ones remain. Afterwards every picked downstream has count 1 and the rest 0. |
| Routing.PopAndReturnTop | src/main/java/org/workloads/Group.java:40-46 | The router as written pops the top of the path and addresses the popped element; it faults only on an empty path. |
| Routing.ResponseReturnsToRouter | src/main/java/org/workloads/Group.java:39-47 | On a path on which the router pushed itself, the as-written route sends the response back to the router, while ReplyRoute sends it to the hop below. |
| Routing.Router.constructor | src/main/java/org/workloads/Group.java:23-29 | Every downstream starts with an in-flight count of 0, and only the downstreams have counts. |
| Routing.Router.GetLeastBusy | src/main/java/org/workloads/Group.java:49-60 | The pick has a minimal count over all downstreams, and that count rises by one with the others unchanged. The first downstream is displaced only by a strictly smaller count. |
| Routing.Router.RoundRobin | src/main/java/org/workloads/Group.java:62-65 | The position moves to `(old + 1) mod size` and stays in [0, size); the downstream there is returned. With no downstream it faults. |
| Routing.Router.HandleRequest | src/main/java/org/workloads/Group.java:68-71 | The router pushes itself and forwards to a least-busy downstream whose count rises by one. With no downstream it faults and changes nothing. |
| Routing.Router.HandleResponseAsWritten | src/main/java/org/workloads/Group.java:39-47 | As written: it faults, changing nothing, on an empty path or a sender without a positive count. Otherwise it decrements the sender's count by one and sends the response, popped, to the popped address. |
| Routing.Router.HandleResponse | src/main/java/org/workloads/Group.java:39-47 | Corrected: it faults, changing nothing, on a routing error or a sender without a positive count, so no count goes negative. Otherwise it decrements the sender's count by one and sends the popped response to the hop below the router. |

## Findings

| source | as written | input that shows it | evidently intended | confidence | as-written member | corrected member |
|---|---|---|---|---|---|---|
| src/main/java/org/workloads/Group.java:40-46 | The router pops the top of the return path and sends the response to the popped address. That address is the router itself, because it pushed itself when it forwarded the request (Group.java:69). | A client at `c` sends through router `g` to node `n`. The response reaches `g` with path `[c, g]`, and `g` sends it to `g` with path `[c]`. On redelivery the sender is `g`, which has no count, and unboxing the missing count throws. `c` never gets the response. | Pop the router's own entry, then send to the new top `c`, as the node does (Service.java:159-165). | not executed | Routing.Router.HandleResponseAsWritten, Routing.ResponseReturnsToRouter | Routing.Router.HandleResponse |

## Left out

- The traffic generators (`Driver.java`, `Client.java`), topology wiring (`Main.java`) and error injectors (`Errors.java`) are not part of this model. The node takes a fixed `error` flag instead.
- The actor runtime: mailboxes, delivery, `Props`, timers and restarts. A handler is one atomic method, and a fault returns `false` or `None` instead of restarting the actor.
- Wall-clock reads become the parameter `now`. The random offset of the node's creation time is not modelled because nothing in the core reads it.
- IEEE doubles become `real`. `floor(0.9 * limit)` becomes `(9 * limit) / 10`, which is exact for the positive limits involved. Rounding of the shared progress is not modelled.
- Java `int` and `long` overflow is not modelled. Counts, attempts and nanosecond times are unbounded integers.
- The `Wait` admission reaction, the static and unlimited limiters, and sticky or ClusterIP balancing have no code here, and are not part of this model.
- `Limiter.java` defines no `push`/`poll`. Limiting.AimdLimiter.Push is Acquire plus a queue, and Poll takes from the front of that queue. The queue is always empty between two handler runs.
- The limiter is never null. The null guards at `Service.java:100` and `Service.java:166` are not modelled, because the node's other calls (`Service.java:138`, `Service.java:227`) have no guard.
- Requests are values. The source mutates a request's path in place and shares it between the limiter queue and the node's maps; the model copies instead. Only the path that each send carries is modelled.
- The Java `HashMap` iteration order in the timeout check is the `order` parameter. In the router the `order` parameter is required to list the keys, so the tie-break among equal counts other than the first downstream is left to it.
- Node.Service.HandleRequest: requires a non-empty incoming path. Every sender pushes itself before sending, so an empty path never arrives. With one, the source would fault only when it answers.
- Node.Service.Tick: the shared progress is stated through Progress and Node.ProgressShare, not re-derived inside the tick's contract.
- The router's counts after a fault are stated as unchanged, which matches the source: both faults are raised before the count is written.
