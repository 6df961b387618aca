/**
 * A simulated service node. It admits requests through its limiter, computes
 * them locally (sharing its CPU among all computing requests) or, when it has
 * a downstream, calls the downstream with a timeout, a retry budget and a
 * capped exponential backoff, and answers each request along its return path.
 * Each handler runs to completion; its sends are appended to `outbox`.
 */
module Node {
  import opened Messages
  import opened Limiting

  /** A request computing locally, with the milliseconds of work it still needs. */
  datatype InProgress = InProgress(request: Request, msToWait: real)

  /** A request waiting for its downstream call: the outstanding attempt and its deadline (ns). */
  datatype InDownstream = InDownstream(request: Request, attempt: int, deadline: int)

  const NanosPerMilli: int := 1_000_000
  const DownstreamTimeout: int := 1_000_000_000
  const DownstreamRetries: int := 3
  const DownstreamMinBackoff: int := 100_000_000
  const DownstreamMaxBackoff: int := 100_000_000

  function Pow2(n: nat): (p: nat)
    ensures p >= 1
  {
    if n == 0 then 1 else 2 * Pow2(n - 1)
  }

  /** The backoff before the retry that follows `attempt`: the minimum doubled `attempt` times, capped at the maximum. */
  function Backoff(minBackoff: int, maxBackoff: int, attempt: nat): (b: int)
    ensures b <= maxBackoff && b <= minBackoff * Pow2(attempt)
    ensures b == maxBackoff || b == minBackoff * Pow2(attempt)
  {
    if minBackoff * Pow2(attempt) > maxBackoff then maxBackoff else minBackoff * Pow2(attempt)
  }

  /** The schedule doubles from one retry to the next until it reaches the cap. */
  lemma BackoffDoubles(minBackoff: int, maxBackoff: int, attempt: nat)
    requires 0 <= minBackoff && 0 <= maxBackoff
    ensures var b := Backoff(minBackoff, maxBackoff, attempt);
            Backoff(minBackoff, maxBackoff, attempt + 1) == if 2 * b > maxBackoff then maxBackoff else 2 * b
  {
    var x := minBackoff * Pow2(attempt);
    assert minBackoff * Pow2(attempt + 1) == 2 * x;
    assert x <= 2 * x;
  }

  /** The backoff doubling loop: `minBackoff` doubled `attempt` times (none for a negative attempt), then capped. */
  method DoubledBackoff(minBackoff: int, maxBackoff: int, attempt: int) returns (backoff: int)
    ensures backoff == Backoff(minBackoff, maxBackoff, if attempt < 0 then 0 else attempt)
  {
    backoff := minBackoff;
    var i := 0;
    while i < attempt
      invariant 0 <= i && (attempt >= 0 ==> i <= attempt) && (attempt < 0 ==> i == 0)
      invariant backoff == minBackoff * Pow2(i)
    {
      backoff := backoff * 2;
      i := i + 1;
    }
    if backoff > maxBackoff {
      backoff := maxBackoff;
    }
  }

  /** The backoff after the outstanding attempt `attempt`; a negative attempt doubles nothing. */
  function RetryBackoff(attempt: int): (b: int)
    ensures b == DownstreamMaxBackoff || b == DownstreamMinBackoff * Pow2(if attempt < 0 then 0 else attempt)
    ensures b <= DownstreamMaxBackoff && b <= DownstreamMinBackoff * Pow2(if attempt < 0 then 0 else attempt)
    ensures b == DownstreamMaxBackoff
  {
    Backoff(DownstreamMinBackoff, DownstreamMaxBackoff, if attempt < 0 then 0 else attempt)
  }

  /**
   * The milliseconds of work every computing request gets for an elapsed
   * time: the elapsed whole milliseconds, or, when more requests compute than
   * the available concurrency, that share of them, so that all computing
   * requests together get `elapsed * availableConcurrency`.
   */
  function Progress(elapsedNanos: int, computing: nat, availableConcurrency: int): (p: real)
    ensures elapsedNanos >= 0 && availableConcurrency >= 0 ==>
              0.0 <= p <= Quot(elapsedNanos, NanosPerMilli) as real
  {
    var elapsedMillis := Quot(elapsedNanos, NanosPerMilli) as real;
    if 0 < computing && availableConcurrency < computing then
      var c := computing as real;
      var a := availableConcurrency as real;
      assert elapsedNanos >= 0 && a >= 0.0 ==> 0.0 <= elapsedMillis / c * a <= elapsedMillis by {
        if elapsedNanos >= 0 && a >= 0.0 {
          assert 0.0 <= elapsedMillis / c;
          assert elapsedMillis / c * a <= elapsedMillis / c * c;
        }
      }
      elapsedMillis / c * a
    else
      elapsedMillis
  }

  /**
   * Processor sharing: with no more requests than the available concurrency
   * each gets the whole elapsed milliseconds; otherwise all of them together
   * get exactly the elapsed milliseconds times the available concurrency, and
   * none gets more than the elapsed milliseconds.
   */
  lemma ProgressShare(elapsedNanos: int, computing: nat, availableConcurrency: int)
    requires elapsedNanos >= 0 && availableConcurrency >= 0
    ensures var ms := Quot(elapsedNanos, NanosPerMilli) as real;
            && (computing <= availableConcurrency ==> Progress(elapsedNanos, computing, availableConcurrency) == ms)
            && (availableConcurrency < computing ==>
                  Progress(elapsedNanos, computing, availableConcurrency) * (computing as real)
                  == ms * (availableConcurrency as real))
            && 0.0 <= Progress(elapsedNanos, computing, availableConcurrency) <= ms
  {
    var ms := Quot(elapsedNanos, NanosPerMilli) as real;
    if availableConcurrency < computing {
      var c := computing as real;
      var a := availableConcurrency as real;
      assert Progress(elapsedNanos, computing, availableConcurrency) == ms / c * a;
      assert ms / c * a * c == ms * a;
      assert 0.0 <= ms / c;
      assert ms / c * a <= ms / c * c;
    }
  }

  /** A computing entry after `p` milliseconds of progress. */
  function Advanced(e: InProgress, p: real): InProgress
  {
    e.(msToWait := e.msToWait - p)
  }

  /** The entries still computing after progress `p`, in order, with their remaining time reduced. */
  function Survivors(es: seq<InProgress>, p: real): (kept: seq<InProgress>)
    ensures |kept| <= |es|
    ensures forall i :: 0 <= i < |kept| ==> kept[i].msToWait > 0.0
    decreases |es|
  {
    if es == [] then []
    else
      var rest := Survivors(es[..|es| - 1], p);
      var e := Advanced(es[|es| - 1], p);
      if e.msToWait <= 0.0 then rest else rest + [e]
  }

  /** The requests whose computation completes with progress `p`, in order. */
  function Finished(es: seq<InProgress>, p: real): (done: seq<Request>)
    decreases |es|
  {
    if es == [] then []
    else
      var rest := Finished(es[..|es| - 1], p);
      if es[|es| - 1].msToWait - p <= 0.0 then rest + [es[|es| - 1].request] else rest
  }

  /** One more entry: the survivors grow by that entry, reduced, if it is still positive. */
  lemma SurvivorsStep(es: seq<InProgress>, i: int, p: real)
    requires 0 <= i < |es|
    ensures Survivors(es[..i + 1], p)
            == if es[i].msToWait - p <= 0.0 then Survivors(es[..i], p) else Survivors(es[..i], p) + [Advanced(es[i], p)]
  {
    assert es[..i + 1][..i] == es[..i];
  }

  /** One more entry: the finished requests grow by its request if its remaining time runs out. */
  lemma FinishedStep(es: seq<InProgress>, i: int, p: real)
    requires 0 <= i < |es|
    ensures Finished(es[..i + 1], p)
            == if es[i].msToWait - p <= 0.0 then Finished(es[..i], p) + [es[i].request] else Finished(es[..i], p)
  {
    assert es[..i + 1][..i] == es[..i];
  }

  /** The compute phase neither loses nor duplicates entries: every entry either survives or finishes. */
  lemma {:induction false} PartitionCount(es: seq<InProgress>, p: real)
    ensures |Survivors(es, p)| + |Finished(es, p)| == |es|
    decreases |es|
  {
    if es != [] {
      PartitionCount(es[..|es| - 1], p);
    }
  }

  /** The survivors are exactly the entries still positive after losing `p`, each reduced by exactly `p`. */
  lemma {:induction false} SurvivorsMembers(es: seq<InProgress>, p: real)
    ensures forall e :: e in Survivors(es, p) <==>
              exists i :: 0 <= i < |es| && e == Advanced(es[i], p) && e.msToWait > 0.0
    decreases |es|
  {
    if es != [] {
      var n := |es|;
      var init := es[..n - 1];
      SurvivorsMembers(init, p);
      assert forall i :: 0 <= i < n - 1 ==> es[i] == init[i];
      forall e | e in Survivors(es, p)
        ensures exists i :: 0 <= i < n && e == Advanced(es[i], p) && e.msToWait > 0.0
      {
        if e in Survivors(init, p) {
          var i :| 0 <= i < n - 1 && e == Advanced(init[i], p) && e.msToWait > 0.0;
          assert es[i] == init[i];
        } else {
          assert e == Advanced(es[n - 1], p);
        }
      }
    }
  }

  /** The finished requests are exactly those of the entries whose remaining time runs out. */
  lemma {:induction false} FinishedMembers(es: seq<InProgress>, p: real)
    ensures forall r :: r in Finished(es, p) <==>
              exists i :: 0 <= i < |es| && r == es[i].request && es[i].msToWait - p <= 0.0
    decreases |es|
  {
    if es != [] {
      var n := |es|;
      var init := es[..n - 1];
      FinishedMembers(init, p);
      assert forall i :: 0 <= i < n - 1 ==> es[i] == init[i];
      forall r | r in Finished(es, p)
        ensures exists i :: 0 <= i < n && r == es[i].request && es[i].msToWait - p <= 0.0
      {
        if r in Finished(init, p) {
          var i :| 0 <= i < n - 1 && r == init[i].request && init[i].msToWait - p <= 0.0;
          assert es[i] == init[i];
        } else {
          assert r == es[n - 1].request;
        }
      }
    }
  }

  /** A request's path with the node's own entry popped. */
  function Answered(r: Request, status: Status): Response
    requires |r.returnPath| >= 2
  {
    Response(r.(returnPath := r.returnPath[..|r.returnPath| - 1]), status)
  }

  /** The reply to `r`: addressed to the hop below the node, sent at once, carrying the popped path. */
  function Reply(r: Request, status: Status): Envelope
    requires |r.returnPath| >= 2
  {
    var path := r.returnPath[..|r.returnPath| - 1];
    Envelope(Top(path), Resp(Answered(r, status)), 0)
  }

  predicate Replyable(rs: seq<Request>)
  {
    forall i :: 0 <= i < |rs| ==> |rs[i].returnPath| >= 2
  }

  /** The replies to a sequence of requests, in order. */
  function Replies(rs: seq<Request>, status: Status): seq<Envelope>
    requires Replyable(rs)
    decreases |rs|
  {
    if rs == [] then [] else Replies(rs[..|rs| - 1], status) + [Reply(rs[|rs| - 1], status)]
  }

  /** The responses the limiter observes for a sequence of replies, in order. */
  function Answers(rs: seq<Request>, status: Status): seq<Response>
    requires Replyable(rs)
    decreases |rs|
  {
    if rs == [] then [] else Answers(rs[..|rs| - 1], status) + [Answered(rs[|rs| - 1], status)]
  }

  /** One more reply: both the sends and the observed responses grow by that request's. */
  lemma RepliesStep(rs: seq<Request>, r: Request, status: Status)
    requires Replyable(rs) && |r.returnPath| >= 2
    ensures Replyable(rs + [r])
    ensures Replies(rs + [r], status) == Replies(rs, status) + [Reply(r, status)]
    ensures Answers(rs + [r], status) == Answers(rs, status) + [Answered(r, status)]
  {
    assert (rs + [r])[..|rs|] == rs;
  }

  /** A downstream call is past its deadline (strictly). */
  predicate Expired(d: InDownstream, now: int)
  {
    d.deadline < now
  }

  /** The retry budget of a downstream call is used up. */
  predicate Spent(d: InDownstream)
  {
    d.attempt >= DownstreamRetries
  }

  /** A downstream entry after a retry: the next attempt, with a deadline that counts the backoff. */
  function Retried(d: InDownstream, now: int): (r: InDownstream)
    ensures r.request == d.request && r.attempt == d.attempt + 1
    ensures now + DownstreamTimeout < r.deadline <= now + DownstreamTimeout + DownstreamMaxBackoff
    ensures r.deadline == now + DownstreamTimeout + RetryBackoff(d.attempt) == now + DownstreamTimeout + DownstreamMaxBackoff
  {
    InDownstream(d.request, d.attempt + 1, now + DownstreamTimeout + RetryBackoff(d.attempt))
  }

  /** A waiting entry after one retry at each of the clock readings `nows`, in order. */
  function RetriedAt(d: InDownstream, nows: seq<int>): InDownstream
    decreases |nows|
  {
    if nows == [] then d else Retried(RetriedAt(d, nows[..|nows| - 1]), nows[|nows| - 1])
  }

  /**
   * The retry budget: an entry first sent at attempt 0 and retried k times
   * still carries its request, is at attempt k, and has its budget spent
   * exactly once k reaches DownstreamRetries. The last retry set the deadline
   * a timeout plus the backoff of the attempt it replaced ahead.
   */
  lemma {:induction false} RetryBudget(d: InDownstream, nows: seq<int>)
    requires d.attempt == 0
    ensures RetriedAt(d, nows).request == d.request
    ensures RetriedAt(d, nows).attempt == |nows|
    ensures !Spent(RetriedAt(d, nows)) <==> |nows| < DownstreamRetries
    ensures nows != [] ==>
              RetriedAt(d, nows).deadline == nows[|nows| - 1] + DownstreamTimeout + RetryBackoff(|nows| - 1)
    decreases |nows|
  {
    if nows != [] {
      RetryBudget(d, nows[..|nows| - 1]);
    }
  }

  /** The timeout check's new map: entries not past their deadline stay, spent ones go, the others are retried. */
  function AfterTimeouts(m: map<RequestId, InDownstream>, now: int): (a: map<RequestId, InDownstream>)
    ensures a.Keys <= m.Keys
    ensures forall id :: id in a ==> a[id].request == m[id].request && !Expired(a[id], now)
    ensures forall id :: id in a ==> a[id].attempt == m[id].attempt || a[id].attempt == m[id].attempt + 1
  {
    map id | id in m && !(Expired(m[id], now) && Spent(m[id])) ::
      if Expired(m[id], now) then Retried(m[id], now) else m[id]
  }

  predicate KeysIn(m: map<RequestId, InDownstream>, keys: seq<RequestId>)
  {
    forall i :: 0 <= i < |keys| ==> keys[i] in m
  }

  /** Every waiting request has a hop below the node to answer to. */
  predicate Answerable(m: map<RequestId, InDownstream>)
  {
    forall id :: id in m ==> |m[id].request.returnPath| >= 2
  }

  /** The map after the timeout check has visited `keys`, in order, each once. */
  function ExpireKeys(m: map<RequestId, InDownstream>, keys: seq<RequestId>, now: int): map<RequestId, InDownstream>
    requires KeysIn(m, keys)
    decreases |keys|
  {
    if keys == [] then m
    else
      var k := keys[|keys| - 1];
      var rest := ExpireKeys(m, keys[..|keys| - 1], now);
      if !Expired(m[k], now) then rest
      else if Spent(m[k]) then rest - {k}
      else rest[k := Retried(m[k], now)]
  }

  /** The requests the timeout check gives up on, in the order it visits them. */
  function GaveUp(m: map<RequestId, InDownstream>, keys: seq<RequestId>, now: int): (rs: seq<Request>)
    requires KeysIn(m, keys) && Answerable(m)
    ensures Replyable(rs) && |rs| <= |keys|
    decreases |keys|
  {
    if keys == [] then []
    else
      var d := m[keys[|keys| - 1]];
      GaveUp(m, keys[..|keys| - 1], now) + (if Expired(d, now) && Spent(d) then [d.request] else [])
  }

  /** The timeout check's map after one more key. */
  lemma ExpireKeysStep(m: map<RequestId, InDownstream>, keys: seq<RequestId>, i: int, now: int)
    requires KeysIn(m, keys) && 0 <= i < |keys|
    ensures KeysIn(m, keys[..i]) && KeysIn(m, keys[..i + 1])
    ensures var k := keys[i];
            var rest := ExpireKeys(m, keys[..i], now);
            ExpireKeys(m, keys[..i + 1], now)
            == if !Expired(m[k], now) then rest
               else if Spent(m[k]) then rest - {k}
               else rest[k := Retried(m[k], now)]
  {
    assert keys[..i + 1][..i] == keys[..i];
  }

  /** The requests given up after one more key. */
  lemma GaveUpStep(m: map<RequestId, InDownstream>, keys: seq<RequestId>, i: int, now: int)
    requires KeysIn(m, keys) && Answerable(m) && 0 <= i < |keys|
    ensures KeysIn(m, keys[..i]) && KeysIn(m, keys[..i + 1])
    ensures var d := m[keys[i]];
            GaveUp(m, keys[..i + 1], now)
            == if Expired(d, now) && Spent(d) then GaveUp(m, keys[..i], now) + [d.request] else GaveUp(m, keys[..i], now)
  {
    assert keys[..i + 1][..i] == keys[..i];
  }

  /** An entry the timeout check has visited: gone iff expired and spent, retried iff expired otherwise, else unchanged. */
  predicate Visited(m: map<RequestId, InDownstream>, e: map<RequestId, InDownstream>, id: RequestId, now: int)
    requires id in m
  {
    && (id in e <==> !(Expired(m[id], now) && Spent(m[id])))
    && (id in e ==> e[id] == if Expired(m[id], now) then Retried(m[id], now) else m[id])
  }

  /** An entry the timeout check has not reached yet is still there, unchanged. */
  lemma {:induction false} ExpireKeysUntouched(m: map<RequestId, InDownstream>, keys: seq<RequestId>, k: RequestId, now: int)
    requires KeysIn(m, keys) && k in m && k !in keys
    ensures k in ExpireKeys(m, keys, now) && ExpireKeys(m, keys, now)[k] == m[k]
    decreases |keys|
  {
    if keys != [] {
      ExpireKeysUntouched(m, keys[..|keys| - 1], k, now);
    }
  }

  /**
   * Visiting distinct keys settles exactly those entries, each by its own
   * deadline and attempt, and leaves the others alone.
   */
  lemma {:induction false} ExpireKeysSettles(m: map<RequestId, InDownstream>, keys: seq<RequestId>, now: int)
    requires KeysIn(m, keys) && Distinct(keys) && Answerable(m)
    ensures var e := ExpireKeys(m, keys, now);
            && e.Keys <= m.Keys
            && (forall id :: id in m && id in keys ==> Visited(m, e, id, now))
            && (forall id :: id in m && id !in keys ==> id in e && e[id] == m[id])
    decreases |keys|
  {
    if keys != [] {
      var n := |keys|;
      var init := keys[..n - 1];
      var k := keys[n - 1];
      ExpireKeysSettles(m, init, now);
      assert k !in init by {
        forall j | 0 <= j < n - 1 ensures init[j] != k {
          assert init[j] == keys[j];
        }
      }
      var rest := ExpireKeys(m, init, now);
      var e := ExpireKeys(m, keys, now);
      assert k in rest && rest[k] == m[k];
      forall id | id in m && id in keys
        ensures Visited(m, e, id, now)
      {
        if id != k {
          assert id in init by {
            var j :| 0 <= j < n && keys[j] == id;
            assert j < n - 1 && init[j] == id;
          }
        }
      }
    }
  }

  /** Visiting distinct keys shrinks the map by one per request given up. */
  lemma {:induction false} ExpireKeysShrinks(m: map<RequestId, InDownstream>, keys: seq<RequestId>, now: int)
    requires KeysIn(m, keys) && Distinct(keys) && Answerable(m)
    ensures |ExpireKeys(m, keys, now)| == |m| - |GaveUp(m, keys, now)|
    decreases |keys|
  {
    if keys != [] {
      var n := |keys|;
      var init := keys[..n - 1];
      var k := keys[n - 1];
      ExpireKeysShrinks(m, init, now);
      assert k !in init by {
        forall j | 0 <= j < n - 1 ensures init[j] != k {
          assert init[j] == keys[j];
        }
      }
      ExpireKeysUntouched(m, init, k, now);
      var rest := ExpireKeys(m, init, now);
      var e := ExpireKeys(m, keys, now);
      if Expired(m[k], now) && Spent(m[k]) {
        assert e.Keys == rest.Keys - {k};
      } else {
        assert e.Keys == rest.Keys;
      }
    }
  }

  /** Over a full iteration order, visiting the keys one by one gives the timeout check's map. */
  lemma ExpireAll(m: map<RequestId, InDownstream>, order: seq<RequestId>, now: int)
    requires IterationOrder(order, m) && Answerable(m)
    ensures KeysIn(m, order)
    ensures ExpireKeys(m, order, now) == AfterTimeouts(m, now)
    ensures |AfterTimeouts(m, now)| == |m| - |GaveUp(m, order, now)|
  {
    ExpireKeysSettles(m, order, now);
    ExpireKeysShrinks(m, order, now);
    var e := ExpireKeys(m, order, now);
    var a := AfterTimeouts(m, now);
    forall id | id in m
      ensures id in e <==> id in a
      ensures id in e ==> e[id] == a[id]
    {
      assert id in order;
      assert Visited(m, e, id, now);
    }
    assert e == a;
  }

  class Service {
    const self: Address
    const downstream: Option<Address>
    const availableConcurrency: int
    const calcMillis: int
    const error: bool
    const limiter: AimdLimiter
    /** The limiter's in-flight count when this node took it over. */
    ghost const slotBase: int

    var lastTick: int
    var inProgress: seq<InProgress>
    var inDownstream: map<RequestId, InDownstream>
    var outbox: seq<Envelope>
    /**
     * How many times a request was put in `inDownstream` under an id that was
     * already waiting there: the entry is replaced and the limiter slot taken
     * for the replaced request is never released.
     */
    ghost var overwritten: nat

    /** Answers a request this node holds, with a result the limiter counts. */
    method Answer(req: Request, status: Status, now: int)
      requires limiter.Valid() && Routable(req) && status != Discarded
      modifies this`outbox, limiter`inFlight, limiter`stats
      ensures limiter.Valid()
      ensures outbox == old(outbox) + [Reply(req, status)]
      ensures limiter.inFlight == old(limiter.inFlight) - 1
      ensures limiter.stats == Observe(limiter.signal, old(limiter.stats), Answered(req, status), now)
    {
      var ok := SendResponse(req, status, now);
    }

    /**
     * Answer, seen from a loop that has already answered `done` and logged
     * `log` after `base`: the reply extends the log and the limiter has
     * observed one more response.
     */
    method AnswerLogged(req: Request, status: Status, now: int,
                        ghost base: seq<Envelope>, ghost log: seq<Envelope>, ghost s0: Stats, ghost done: seq<Request>)
      requires limiter.Valid() && Routable(req) && status != Discarded && Replyable(done)
      requires outbox == base + log
      requires limiter.stats == ObserveAll(limiter.signal, s0, Answers(done, status), now)
      modifies this`outbox, limiter`inFlight, limiter`stats
      ensures limiter.Valid() && Replyable(done + [req])
      ensures outbox == base + (log + [Reply(req, status)])
      ensures limiter.inFlight == old(limiter.inFlight) - 1
      ensures limiter.stats == ObserveAll(limiter.signal, s0, Answers(done + [req], status), now)
    {
      RepliesStep(done, req, status);
      ObserveAllStep(limiter.signal, s0, Answers(done, status), Answered(req, status), now);
      AppendAssoc(base, log, [Reply(req, status)]);
      Answer(req, status, now);
    }

    /** The node's own address is on top of the path, with a hop below it to answer to. */
    predicate Routable(r: Request)
    {
      |r.returnPath| >= 2 && Top(r.returnPath) == self
    }

    /**
     * The node's reply is the return-path routing every hop uses: it can
     * answer exactly when ReplyRoute succeeds for this node, and then the reply
     * goes to the address ReplyRoute names, carrying the path it pops.
     */
    lemma ReplyIsReplyRoute(r: Request, status: Status)
      ensures Routable(r) <==> ReplyRoute(r.returnPath, self).Some?
      ensures Routable(r) ==>
                var route := ReplyRoute(r.returnPath, self).value;
                Reply(r, status) == Envelope(route.1, Resp(Response(r.(returnPath := route.0), status)), 0)
    {
    }

    /** A well-formed downstream entry under key `id`; its attempt never exceeds the retry budget. */
    predicate Tracked(id: RequestId, d: InDownstream)
    {
      d.request.id == id && Routable(d.request) && 0 <= d.attempt <= DownstreamRetries
    }

    /**
     * The node's invariant. Conservation: every slot the limiter counts is
     * a request computing or waiting downstream (or one lost to an overwrite).
     * Every stored request can be answered, and admitted requests never wait
     * in the limiter between two messages.
     */
    ghost predicate Valid()
      reads this, limiter
    {
      && limiter.Valid()
      && limiter.pending == []
      && limiter.inFlight == slotBase + |inProgress| + |inDownstream| + overwritten
      && (forall i :: 0 <= i < |inProgress| ==> Routable(inProgress[i].request))
      && (forall id :: id in inDownstream ==> Tracked(id, inDownstream[id]))
      && (downstream.None? ==> inDownstream == map[])
    }

    /** Requests being handled: computing plus waiting for the downstream. */
    function InFlight(): (n: nat)
      reads this, limiter
      ensures Valid() ==> n == limiter.inFlight - slotBase - overwritten
    {
      |inProgress| + |inDownstream|
    }

    /** The status of a completed computation. */
    function ComputeStatus(): Status
    {
      if error then Error else Ok
    }

    /** A request as this node holds it after arrival: its own address pushed on the path. */
    function Arrived(r: Request): Request
    {
      r.(returnPath := Push(r.returnPath, self))
    }

    /** The self-addressed resend of a downstream entry, delayed by the backoff. */
    function Resend(d: InDownstream): (e: Envelope)
      ensures e.to == self && 0 < e.delay <= DownstreamMaxBackoff
      ensures e.delay == RetryBackoff(d.attempt) == DownstreamMaxBackoff
      ensures e.msg.SendDownstream? && e.msg.request == d.request.(attempt := d.attempt + 1)
    {
      Envelope(self, SendDownstream(GoDownstream(d.request, d.attempt + 1)), RetryBackoff(d.attempt))
    }

    /** What the timeout check sends, in iteration order: a downstream error or a resend per expired entry. */
    function TimeoutEffects(m: map<RequestId, InDownstream>, keys: seq<RequestId>, now: int): seq<Envelope>
      requires KeysIn(m, keys) && Answerable(m)
      decreases |keys|
    {
      if keys == [] then []
      else
        var d := m[keys[|keys| - 1]];
        TimeoutEffects(m, keys[..|keys| - 1], now)
          + (if !Expired(d, now) then []
             else if Spent(d) then [Reply(d.request, DownstreamError)]
             else [Resend(d)])
    }

    /** What the timeout check sends after one more key. */
    lemma TimeoutEffectsStep(m: map<RequestId, InDownstream>, keys: seq<RequestId>, i: int, now: int)
      requires KeysIn(m, keys) && Answerable(m) && 0 <= i < |keys|
      ensures KeysIn(m, keys[..i]) && KeysIn(m, keys[..i + 1])
      ensures var d := m[keys[i]];
              TimeoutEffects(m, keys[..i + 1], now)
              == if !Expired(d, now) then TimeoutEffects(m, keys[..i], now)
                 else if Spent(d) then TimeoutEffects(m, keys[..i], now) + [Reply(d.request, DownstreamError)]
                 else TimeoutEffects(m, keys[..i], now) + [Resend(d)]
    {
      assert keys[..i + 1][..i] == keys[..i];
    }

    /**
     * A downstream that never answers: an entry first sent at attempt 0 and
     * retried at each of the timeouts `nows` is, when it expires again, resent
     * for the next attempt while fewer than DownstreamRetries retries were
     * made, and answered DownstreamError and dropped after that. So a request
     * goes downstream at most DownstreamRetries + 1 times.
     */
    lemma SilentDownstream(id: RequestId, d: InDownstream, nows: seq<int>, now: int)
      requires d.attempt == 0 && |d.request.returnPath| >= 2
      requires Expired(RetriedAt(d, nows), now)
      ensures var e := RetriedAt(d, nows);
              && KeysIn(map[id := e], [id]) && Answerable(map[id := e])
              && TimeoutEffects(map[id := e], [id], now)
                 == (if |nows| < DownstreamRetries then [Resend(e)] else [Reply(d.request, DownstreamError)])
              && AfterTimeouts(map[id := e], now)
                 == (if |nows| < DownstreamRetries then map[id := RetriedAt(d, nows + [now])] else map[])
              && Resend(e).msg == SendDownstream(d.request.(attempt := |nows| + 1))
    {
      RetryBudget(d, nows);
      var e := RetriedAt(d, nows);
      assert [id][..0] == [];
      assert (nows + [now])[..|nows|] == nows;
      assert RetriedAt(d, nows + [now]) == Retried(e, now);
    }

    /** The entries a sequence of admitted requests starts computing with. */
    function Launched(rs: seq<Request>): seq<InProgress>
      decreases |rs|
    {
      if rs == [] then [] else Launched(rs[..|rs| - 1]) + [InProgress(rs[|rs| - 1], calcMillis as real)]
    }

    /** The downstream map after a sequence of admitted requests start waiting, the later one winning on a shared id. */
    function Awaiting(m: map<RequestId, InDownstream>, rs: seq<Request>, now: int): map<RequestId, InDownstream>
      decreases |rs|
    {
      if rs == [] then m
      else Awaiting(m, rs[..|rs| - 1], now)[rs[|rs| - 1].id := InDownstream(rs[|rs| - 1], 0, now + DownstreamTimeout)]
    }

    /** The first sends of a sequence of admitted requests, each a self-addressed immediate message for attempt 0. */
    function FirstSends(rs: seq<Request>): seq<Envelope>
      decreases |rs|
    {
      if rs == [] then [] else FirstSends(rs[..|rs| - 1]) + [Envelope(self, SendDownstream(GoDownstream(rs[|rs| - 1], 0)), 0)]
    }

    /** A single admitted request starts the way StartExecution starts it. */
    lemma StartOne(r: Request, m: map<RequestId, InDownstream>, now: int)
      ensures Launched([r]) == [InProgress(r, calcMillis as real)]
      ensures Awaiting(m, [r], now) == m[r.id := InDownstream(r, 0, now + DownstreamTimeout)]
      ensures FirstSends([r]) == [Envelope(self, SendDownstream(GoDownstream(r, 0)), 0)]
    {
      assert [r][..0] == [];
    }

    constructor (self: Address, downstream: Option<Address>, availableConcurrency: int,
                 limiter: AimdLimiter, calcDurationNanos: int, error: bool, now: int)
      requires limiter.Valid() && limiter.pending == []
      ensures Valid()
      ensures this.self == self && this.downstream == downstream && this.limiter == limiter
      ensures this.availableConcurrency == availableConcurrency && this.error == error
      ensures calcMillis == Quot(calcDurationNanos, NanosPerMilli)
      ensures inProgress == [] && inDownstream == map[] && outbox == [] && lastTick == now
    {
      this.self := self;
      this.downstream := downstream;
      this.availableConcurrency := availableConcurrency;
      this.limiter := limiter;
      calcMillis := Quot(calcDurationNanos, NanosPerMilli);
      this.error := error;
      slotBase := limiter.inFlight;
      lastTick := now;
      inProgress := [];
      inDownstream := map[];
      outbox := [];
      overwritten := 0;
    }

    /**
     * Answers `req`: pops the top of its path, faults unless that was this
     * node or if nothing is left below, sends the response to the new top, and
     * reports every result except a discard to the limiter.
     */
    method SendResponse(req: Request, status: Status, now: int) returns (ok: bool)
      requires limiter.Valid()
      modifies this`outbox, limiter`inFlight, limiter`stats
      ensures limiter.Valid()
      ensures ok <==> Routable(req)
      ensures ok ==> outbox == old(outbox) + [Reply(req, status)]
      ensures !ok ==> outbox == old(outbox)
      ensures ok && status != Discarded ==>
                limiter.inFlight == old(limiter.inFlight) - 1
                && limiter.stats == Observe(limiter.signal, old(limiter.stats), Answered(req, status), now)
      ensures !ok || status == Discarded ==>
                limiter.inFlight == old(limiter.inFlight) && limiter.stats == old(limiter.stats)
    {
      var path := req.returnPath;
      if path == [] {
        return false;
      }
      var last := path[|path| - 1];
      path := path[..|path| - 1];
      if last != self {
        return false;
      }
      if path == [] {
        return false;
      }
      var resp := Response(req.(returnPath := path), status);
      outbox := outbox + [Envelope(path[|path| - 1], Resp(resp), 0)];
      if status != Discarded {
        limiter.HasResult(resp, now);
      }
      ok := true;
    }

    /** Starts the local computation of `r` with the configured duration in whole milliseconds. */
    method StartCalculation(r: Request)
      modifies this`inProgress
      ensures inProgress == old(inProgress) + [InProgress(r, calcMillis as real)]
    {
      inProgress := inProgress + [InProgress(r, calcMillis as real)];
    }

    /**
     * Starts an admitted request: a leaf computes it; a node with a downstream
     * records attempt 0 with a deadline one timeout ahead and sends the
     * downstream copy through an immediate message to itself.
     */
    method StartExecution(r: Request, now: int)
      modifies this`inProgress, this`inDownstream, this`outbox, this`overwritten
      ensures downstream.None? ==>
                && inProgress == old(inProgress) + [InProgress(r, calcMillis as real)]
                && inDownstream == old(inDownstream) && outbox == old(outbox)
                && overwritten == old(overwritten)
      ensures downstream.Some? ==>
                && inProgress == old(inProgress)
                && inDownstream == old(inDownstream)[r.id := InDownstream(r, 0, now + DownstreamTimeout)]
                && outbox == old(outbox) + [Envelope(self, SendDownstream(GoDownstream(r, 0)), 0)]
                && overwritten == old(overwritten) + (if r.id in old(inDownstream) then 1 else 0)
    {
      if downstream.None? {
        StartCalculation(r);
      } else {
        var s := SendDownstream(GoDownstream(r, 0));
        var d := InDownstream(r, 0, now + DownstreamTimeout);
        if r.id in inDownstream {
          overwritten := overwritten + 1;
        }
        inDownstream := inDownstream[r.id := d];
        outbox := outbox + [Envelope(self, s, 0)];
      }
    }

    /** Starts every request the limiter has admitted and not yet handed out, in the order it hands them out. */
    method StartAdmitted(now: int)
      modifies this`inProgress, this`inDownstream, this`outbox, this`overwritten, limiter`pending
      ensures limiter.pending == []
      ensures old(limiter.pending) == [] ==>
                && inProgress == old(inProgress) && inDownstream == old(inDownstream)
                && outbox == old(outbox) && overwritten == old(overwritten)
      ensures downstream.None? ==>
                && inProgress == old(inProgress) + Launched(old(limiter.pending))
                && inDownstream == old(inDownstream) && outbox == old(outbox)
      ensures downstream.Some? ==>
                && inProgress == old(inProgress)
                && inDownstream == Awaiting(old(inDownstream), old(limiter.pending), now)
                && outbox == old(outbox) + FirstSends(old(limiter.pending))
      ensures |inProgress| + |inDownstream| + overwritten
              == old(|inProgress| + |inDownstream| + overwritten) + |old(limiter.pending)|
    {
      ghost var queued := limiter.pending;
      ghost var k := 0;
      while true
        invariant 0 <= k <= |queued| && limiter.pending == queued[k..]
        invariant downstream.None? ==>
                    && inProgress == old(inProgress) + Launched(queued[..k])
                    && inDownstream == old(inDownstream) && outbox == old(outbox)
        invariant downstream.Some? ==>
                    && inProgress == old(inProgress)
                    && inDownstream == Awaiting(old(inDownstream), queued[..k], now)
                    && outbox == old(outbox) + FirstSends(queued[..k])
        invariant |inProgress| + |inDownstream| + overwritten
                  == old(|inProgress| + |inDownstream| + overwritten) + k
        decreases |limiter.pending|
      {
        var next := limiter.Poll();
        if next.None? {
          break;
        }
        assert queued[..k + 1] == queued[..k] + [next.value];
        ghost var before := inDownstream;
        StartExecution(next.value, now);
        if downstream.Some? {
          assert inDownstream.Keys == before.Keys + {next.value.id};
        }
        k := k + 1;
      }
      assert queued[..k] == queued;
    }

    /** The message a node sends itself to call its downstream: the request goes to the downstream. */
    method HandleSendDownstream(r: Request) returns (ok: bool)
      modifies this`outbox
      ensures ok <==> downstream.Some?
      ensures ok ==> outbox == old(outbox) + [Envelope(downstream.value, Req(r), 0)]
      ensures !ok ==> outbox == old(outbox)
    {
      if downstream.None? {
        return false;
      }
      outbox := outbox + [Envelope(downstream.value, Req(r), 0)];
      ok := true;
    }

    /**
     * A retry: the backoff follows the attempt being replaced, the attempt
     * goes up by exactly one, the deadline is a timeout plus the backoff
     * ahead, and the resend is delayed by the backoff (immediate when it is zero).
     */
    method ResendDownstream(id: RequestId, now: int)
      requires id in inDownstream
      modifies this`inDownstream, this`outbox
      ensures inDownstream == old(inDownstream)[id := Retried(old(inDownstream)[id], now)]
      ensures outbox == old(outbox) + [Resend(old(inDownstream)[id])]
    {
      var req := inDownstream[id];
      var backoff := DoubledBackoff(DownstreamMinBackoff, DownstreamMaxBackoff, req.attempt);
      var attempt := req.attempt + 1;
      inDownstream := inDownstream[id := InDownstream(req.request, attempt, now + DownstreamTimeout + backoff)];
      // A zero backoff is an immediate send, i.e. a delay of 0.
      outbox := outbox + [Envelope(self, SendDownstream(GoDownstream(req.request, attempt)), backoff)];
    }

    /**
     * A request arrives: the node pushes itself on the path and asks the
     * limiter. A rejected request is answered Discarded at once, to the
     * sender, carrying the path it arrived with, and the limiter's count and
     * statistics are untouched; an admitted one is started.
     */
    method HandleRequest(r: Request, now: int) returns (admitted: bool)
      requires Valid()
      requires r.returnPath != []
      modifies this`inProgress, this`inDownstream, this`outbox, this`overwritten,
               limiter`inFlight, limiter`reachedTop, limiter`pending, limiter`stats
      ensures Valid()
      ensures limiter.stats == old(limiter.stats)
      ensures admitted <==> old(limiter.inFlight) < limiter.currentLimit
      ensures limiter.reachedTop == (old(limiter.reachedTop) || old(limiter.inFlight) + 1 >= limiter.currentLimit)
      ensures !admitted ==>
                && inProgress == old(inProgress) && inDownstream == old(inDownstream)
                && outbox == old(outbox) + [Envelope(Top(r.returnPath), Resp(Response(r, Discarded)), 0)]
                && limiter.inFlight == old(limiter.inFlight)
      ensures admitted ==> limiter.inFlight == old(limiter.inFlight) + 1
      ensures admitted && downstream.None? ==>
                && inProgress == old(inProgress) + [InProgress(Arrived(r), calcMillis as real)]
                && inDownstream == old(inDownstream) && outbox == old(outbox)
      ensures admitted && downstream.Some? ==>
                && inProgress == old(inProgress)
                && inDownstream == old(inDownstream)[r.id := InDownstream(Arrived(r), 0, now + DownstreamTimeout)]
                && outbox == old(outbox) + [Envelope(self, SendDownstream(GoDownstream(Arrived(r), 0)), 0)]
    {
      var arrived := r.(returnPath := r.returnPath + [self]);
      assert arrived == Arrived(r);
      admitted := limiter.Push(arrived);
      if !admitted {
        var ok := SendResponse(arrived, Discarded, now);
        assert arrived.(returnPath := r.returnPath) == r;
        return;
      }
      assert limiter.pending == [arrived];
      StartOne(arrived, inDownstream, now);
      StartAdmitted(now);
    }

    /**
     * A response from the downstream. It faults unless the top of its path is
     * this node. A response for no waiting entry, or for another attempt than
     * the outstanding one, is stale and changes nothing. Ok moves the request
     * to local computation; any other status gives a downstream error once the
     * retry budget is spent, and a retry before.
     */
    method HandleResponse(resp: Response, now: int) returns (ok: bool)
      requires Valid()
      modifies this`inProgress, this`inDownstream, this`outbox, limiter`inFlight, limiter`stats
      ensures Valid()
      ensures ok <==> resp.request.returnPath != [] && Top(resp.request.returnPath) == self
      ensures var id := resp.request.id;
              !ok || id !in old(inDownstream) || old(inDownstream)[id].attempt != resp.request.attempt ==>
                && inProgress == old(inProgress) && inDownstream == old(inDownstream) && outbox == old(outbox)
                && limiter.inFlight == old(limiter.inFlight) && limiter.stats == old(limiter.stats)
      ensures var id := resp.request.id;
              ok && id in old(inDownstream) && old(inDownstream)[id].attempt == resp.request.attempt ==>
                var d := old(inDownstream)[id];
                && (resp.status == Ok ==>
                      && inDownstream == old(inDownstream) - {id}
                      && inProgress == old(inProgress) + [InProgress(d.request, calcMillis as real)]
                      && outbox == old(outbox) && InFlight() == old(InFlight())
                      && limiter.inFlight == old(limiter.inFlight) && limiter.stats == old(limiter.stats))
                && (resp.status != Ok && d.attempt >= DownstreamRetries ==>
                      && inDownstream == old(inDownstream) - {id} && inProgress == old(inProgress)
                      && outbox == old(outbox) + [Reply(d.request, DownstreamError)]
                      && limiter.inFlight == old(limiter.inFlight) - 1
                      && limiter.stats == Observe(limiter.signal, old(limiter.stats), Answered(d.request, DownstreamError), now))
                && (resp.status != Ok && d.attempt < DownstreamRetries ==>
                      && inDownstream == old(inDownstream)[id := Retried(d, now)] && inProgress == old(inProgress)
                      && outbox == old(outbox) + [Resend(d)]
                      && limiter.inFlight == old(limiter.inFlight) && limiter.stats == old(limiter.stats))
    {
      var path := resp.request.returnPath;
      if path == [] || path[|path| - 1] != self {
        return false;
      }
      ok := true;
      var id := resp.request.id;
      if id !in inDownstream || inDownstream[id].attempt != resp.request.attempt {
        return;
      }
      var inD := inDownstream[id];
      if resp.status == Ok {
        inDownstream := inDownstream - {id};
        assert inDownstream.Keys == old(inDownstream).Keys - {id};
        StartCalculation(inD.request);
        return;
      }
      if inD.attempt >= DownstreamRetries {
        inDownstream := inDownstream - {id};
        assert inDownstream.Keys == old(inDownstream).Keys - {id};
        var sent := SendResponse(inD.request, DownstreamError, now);
      } else {
        ResendDownstream(id, now);
        assert inDownstream.Keys == old(inDownstream).Keys;
      }
    }

    /** The compute phase: every entry loses `p` milliseconds; those reaching zero are answered and dropped. */
    method AdvanceComputation(p: real, now: int)
      requires limiter.Valid()
      requires forall i :: 0 <= i < |inProgress| ==> Routable(inProgress[i].request)
      modifies this`inProgress, this`outbox, limiter`inFlight, limiter`stats
      ensures limiter.Valid()
      ensures forall i :: 0 <= i < |inProgress| ==> Routable(inProgress[i].request)
      ensures Replyable(Finished(old(inProgress), p))
      ensures inProgress == Survivors(old(inProgress), p)
      ensures outbox == old(outbox) + Replies(Finished(old(inProgress), p), ComputeStatus())
      ensures limiter.inFlight == old(limiter.inFlight) - |Finished(old(inProgress), p)|
      ensures limiter.stats
              == ObserveAll(limiter.signal, old(limiter.stats), Answers(Finished(old(inProgress), p), ComputeStatus()), now)
    {
      var es := inProgress;
      var status := if error then Error else Ok;
      var kept: seq<InProgress> := [];
      ghost var done: seq<Request> := [];
      for i := 0 to |es|
        invariant limiter.Valid()
        invariant forall k :: 0 <= k < |kept| ==> Routable(kept[k].request)
        invariant Replyable(done)
        invariant kept == Survivors(es[..i], p) && done == Finished(es[..i], p)
        invariant outbox == old(outbox) + Replies(done, status)
        invariant limiter.inFlight == old(limiter.inFlight) - |done|
        invariant limiter.stats == ObserveAll(limiter.signal, old(limiter.stats), Answers(done, status), now)
      {
        SurvivorsStep(es, i, p);
        FinishedStep(es, i, p);
        var r := es[i];
        assert Routable(r.request);
        var left := r.msToWait - p;
        if left <= 0.0 {
          RepliesStep(done, r.request, status);
          AnswerLogged(r.request, status, now, old(outbox), Replies(done, status), old(limiter.stats), done);
          done := done + [r.request];
        } else {
          assert InProgress(r.request, left) == Advanced(es[i], p);
          kept := kept + [InProgress(r.request, left)];
        }
      }
      assert es[..|es|] == es;
      inProgress := kept;
    }

    /**
     * The timeout check of one waiting request, seen from a loop that has
     * logged `log` after `base` and answered `gone`: nothing happens before
     * its deadline has passed; after it, a spent request is dropped and
     * answered DownstreamError, any other is retried.
     */
    method CheckEntry(id: RequestId, now: int,
                      ghost base: seq<Envelope>, ghost log: seq<Envelope>, ghost s0: Stats, ghost gone: seq<Request>)
      requires limiter.Valid() && Replyable(gone)
      requires id in inDownstream && Tracked(id, inDownstream[id])
      requires outbox == base + log
      requires limiter.stats == ObserveAll(limiter.signal, s0, Answers(gone, DownstreamError), now)
      modifies this`inDownstream, this`outbox, limiter`inFlight, limiter`stats
      ensures limiter.Valid()
      ensures var d := old(inDownstream)[id];
              && (!Expired(d, now) ==>
                    inDownstream == old(inDownstream) && outbox == old(outbox)
                    && limiter.inFlight == old(limiter.inFlight) && limiter.stats == old(limiter.stats))
              && (Expired(d, now) && Spent(d) ==>
                    && Replyable(gone + [d.request])
                    && inDownstream == old(inDownstream) - {id}
                    && outbox == base + (log + [Reply(d.request, DownstreamError)])
                    && limiter.inFlight == old(limiter.inFlight) - 1
                    && limiter.stats == ObserveAll(limiter.signal, s0, Answers(gone + [d.request], DownstreamError), now))
              && (Expired(d, now) && !Spent(d) ==>
                    inDownstream == old(inDownstream)[id := Retried(d, now)] && outbox == base + (log + [Resend(d)])
                    && limiter.inFlight == old(limiter.inFlight) && limiter.stats == old(limiter.stats))
    {
      var req := inDownstream[id];
      if !(req.deadline < now) {
        return;
      }
      if req.attempt >= DownstreamRetries {
        inDownstream := inDownstream - {id};
        AnswerLogged(req.request, DownstreamError, now, base, log, s0, gone);
      } else {
        ResendDownstream(id, now);
        AppendAssoc(base, log, [Resend(req)]);
      }
    }

    /**
     * The timeout phase, visiting the entries in the map's iteration order
     * `order`: an entry whose deadline is not strictly before `now` is left
     * alone; an expired one whose attempts are spent is dropped and answered
     * DownstreamError; any other expired one is retried.
     */
    method CheckTimeouts(now: int, order: seq<RequestId>)
      requires limiter.Valid()
      requires IterationOrder(order, inDownstream)
      requires forall id :: id in inDownstream ==> Tracked(id, inDownstream[id])
      modifies this`inDownstream, this`outbox, limiter`inFlight, limiter`stats
      ensures limiter.Valid()
      ensures forall id :: id in inDownstream ==> Tracked(id, inDownstream[id])
      ensures KeysIn(old(inDownstream), order) && Answerable(old(inDownstream))
      ensures inDownstream == AfterTimeouts(old(inDownstream), now)
      ensures |inDownstream| == |old(inDownstream)| - |GaveUp(old(inDownstream), order, now)|
      ensures outbox == old(outbox) + TimeoutEffects(old(inDownstream), order, now)
      ensures limiter.inFlight == old(limiter.inFlight) - |GaveUp(old(inDownstream), order, now)|
      ensures limiter.stats
              == ObserveAll(limiter.signal, old(limiter.stats), Answers(GaveUp(old(inDownstream), order, now), DownstreamError), now)
    {
      ghost var m := inDownstream;
      assert Answerable(m);
      VisitEntries(now, order);
      ExpireAll(m, order, now);
      TrackedAfterTimeouts(m, now);
    }

    /** The loop of the timeout phase: the entries of `order` checked one by one. */
    method VisitEntries(now: int, order: seq<RequestId>)
      requires limiter.Valid() && Answerable(inDownstream)
      requires KeysIn(inDownstream, order) && Distinct(order)
      requires forall id :: id in inDownstream ==> Tracked(id, inDownstream[id])
      modifies this`inDownstream, this`outbox, limiter`inFlight, limiter`stats
      ensures limiter.Valid()
      ensures inDownstream == ExpireKeys(old(inDownstream), order, now)
      ensures outbox == old(outbox) + TimeoutEffects(old(inDownstream), order, now)
      ensures limiter.inFlight == old(limiter.inFlight) - |GaveUp(old(inDownstream), order, now)|
      ensures limiter.stats
              == ObserveAll(limiter.signal, old(limiter.stats), Answers(GaveUp(old(inDownstream), order, now), DownstreamError), now)
    {
      ghost var m := inDownstream;
      ghost var gone: seq<Request> := [];
      for i := 0 to |order|
        invariant limiter.Valid()
        invariant inDownstream == ExpireKeys(m, order[..i], now)
        invariant gone == GaveUp(m, order[..i], now)
        invariant outbox == old(outbox) + TimeoutEffects(m, order[..i], now)
        invariant limiter.inFlight == old(limiter.inFlight) - |gone|
        invariant limiter.stats == ObserveAll(limiter.signal, old(limiter.stats), Answers(gone, DownstreamError), now)
      {
        var id := order[i];
        DistinctPrefix(order, i);
        ExpireKeysStep(m, order, i, now);
        GaveUpStep(m, order, i, now);
        TimeoutEffectsStep(m, order, i, now);
        ExpireKeysUntouched(m, order[..i], id, now);
        ghost var d := m[id];
        assert Tracked(id, d);
        CheckEntry(id, now, old(outbox), TimeoutEffects(m, order[..i], now), old(limiter.stats), gone);
        if Expired(d, now) && Spent(d) {
          gone := gone + [d.request];
        }
      }
      assert order[..|order|] == order;
    }

    /** The timeout check keeps every waiting entry well formed. */
    lemma TrackedAfterTimeouts(m: map<RequestId, InDownstream>, now: int)
      requires forall id :: id in m ==> Tracked(id, m[id])
      ensures forall id :: id in AfterTimeouts(m, now) ==> Tracked(id, AfterTimeouts(m, now)[id])
    {
      forall id | id in AfterTimeouts(m, now)
        ensures Tracked(id, AfterTimeouts(m, now)[id])
      {
        assert Tracked(id, m[id]);
      }
    }

    /**
     * The two phases of a tick that answer requests: computation advances by
     * `p` milliseconds each, then the downstream calls are checked for timeouts
     * in the iteration order `order`.
     */
    method Settle(p: real, now: int, order: seq<RequestId>)
      requires Valid()
      requires IterationOrder(order, inDownstream)
      modifies this`inProgress, this`inDownstream, this`outbox, limiter`inFlight, limiter`stats
      ensures Valid()
      ensures KeysIn(old(inDownstream), order) && Answerable(old(inDownstream))
      ensures Replyable(Finished(old(inProgress), p))
      ensures inProgress == Survivors(old(inProgress), p)
      ensures inDownstream == AfterTimeouts(old(inDownstream), now)
      ensures outbox == old(outbox) + (Replies(Finished(old(inProgress), p), ComputeStatus())
                                       + TimeoutEffects(old(inDownstream), order, now))
      ensures limiter.inFlight
              == old(limiter.inFlight) - |Finished(old(inProgress), p)| - |GaveUp(old(inDownstream), order, now)|
      ensures limiter.stats
              == ObserveAll(limiter.signal,
                            ObserveAll(limiter.signal, old(limiter.stats), Answers(Finished(old(inProgress), p), ComputeStatus()), now),
                            Answers(GaveUp(old(inDownstream), order, now), DownstreamError), now)
    {
      ghost var computing := inProgress;
      ghost var waiting := inDownstream;
      ghost var sent := outbox;
      ghost var done := Finished(computing, p);
      PartitionCount(inProgress, p);
      AdvanceComputation(p, now);
      assert |inProgress| == |computing| - |done|;
      CheckTimeouts(now, order);
      AppendAssoc(sent, Replies(done, ComputeStatus()), TimeoutEffects(waiting, order, now));
    }

    /**
     * The periodic tick. The limiter runs its control step; the elapsed time
     * since the last tick is shared among the computing requests; expired
     * downstream calls are given up or retried; admitted requests are started.
     * `order` is the iteration order of the downstream map.
     */
    method Tick(now: int, order: seq<RequestId>)
      requires Valid()
      requires IterationOrder(order, inDownstream)
      modifies this`lastTick, this`inProgress, this`inDownstream, this`outbox, this`overwritten,
               limiter`inFlight, limiter`stats, limiter`currentLimit, limiter`reachedTop,
               limiter`nextCheck, limiter`pending
      ensures Valid()
      ensures lastTick == now && overwritten == old(overwritten)
      ensures now < old(limiter.nextCheck) ==>
                limiter.currentLimit == old(limiter.currentLimit) && limiter.nextCheck == old(limiter.nextCheck)
                && limiter.reachedTop == old(limiter.reachedTop)
      ensures now >= old(limiter.nextCheck) ==>
                && limiter.nextCheck == now + limiter.checkFrequency && !limiter.reachedTop
                && limiter.currentLimit
                   == Step(old(limiter.currentLimit), limiter.topLimit,
                           Move(limiter.signal, old(limiter.stats), old(limiter.reachedTop)))
      ensures KeysIn(old(inDownstream), order) && Answerable(old(inDownstream))
      ensures inDownstream == AfterTimeouts(old(inDownstream), now)
      ensures var p := Progress(now - old(lastTick), |old(inProgress)|, availableConcurrency);
              limiter.inFlight
              == old(limiter.inFlight) - |Finished(old(inProgress), p)| - |GaveUp(old(inDownstream), order, now)|
      ensures var p := Progress(now - old(lastTick), |old(inProgress)|, availableConcurrency);
              && Replyable(Finished(old(inProgress), p))
              && inProgress == Survivors(old(inProgress), p)
              && outbox == old(outbox) + (Replies(Finished(old(inProgress), p), ComputeStatus())
                                          + TimeoutEffects(old(inDownstream), order, now))
      ensures var p := Progress(now - old(lastTick), |old(inProgress)|, availableConcurrency);
              && Replyable(Finished(old(inProgress), p))
              && limiter.stats
                 == ObserveAll(limiter.signal,
                               ObserveAll(limiter.signal, if now < old(limiter.nextCheck) then old(limiter.stats) else NoStats,
                                          Answers(Finished(old(inProgress), p), ComputeStatus()), now),
                               Answers(GaveUp(old(inDownstream), order, now), DownstreamError), now)
    {
      var sinceLastTick := now - lastTick;
      lastTick := now;
      limiter.Tick(now);
      var computeProgressedBy := Progress(sinceLastTick, |inProgress|, availableConcurrency);
      Settle(computeProgressedBy, now, order);
      StartAdmitted(now);
    }
  }
}
