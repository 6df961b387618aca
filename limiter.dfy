/**
 * The AIMD concurrency limiter of a node: an admission gate on an in-flight
 * count, and a control step run once per interval that cuts the limit by 10%
 * (never below 1) on a bad interval or raises it by 1 (never above the top
 * limit) on a saturated good one. The two signal sources, error counting and
 * average latency, are the two values of `Signal`.
 */
module Limiting {
  import opened Messages

  /** What the limiter reacts to; the latency triggers are in nanoseconds. */
  datatype Signal = ByErrors | ByLatency(decreaseTrigger: int, increaseTrigger: int)

  /** The statistics gathered during one control interval. */
  datatype Stats = Stats(errors: int, responses: int, latencyNanos: int)

  const NoStats: Stats := Stats(0, 0, 0)

  /** The control interval: one second, in nanoseconds. */
  const CheckFrequency: int := 1_000_000_000

  /** Integer division that truncates toward zero, as in Java. */
  function Quot(a: int, b: int): (q: int)
    requires b > 0
    ensures 0 <= a ==> 0 <= q * b <= a < q * b + b
    ensures a < 0 ==> q * b - b < a <= q * b <= 0
  {
    if a >= 0 then
      FloorBounds(a, b);
      a / b
    else
      FloorBounds(-a, b);
      assert (-((-a) / b)) * b == -(((-a) / b) * b);
      -((-a) / b)
  }

  /** Euclidean division of a non-negative number: the quotient times the divisor is within one divisor below it. */
  lemma FloorBounds(a: int, b: int)
    requires 0 <= a && 0 < b
    ensures 0 <= a / b
    ensures 0 <= (a / b) * b <= a < (a / b) * b + b
  {
    var q := a / b;
    var r := a % b;
    assert a == q * b + r && 0 <= r < b;
    assert 0 <= q * b;
  }

  /** The limit a fresh limiter starts with: half the top limit, at least 1. */
  function InitialLimit(topLimit: int): (c: int)
    ensures c >= 1
    ensures topLimit >= 1 ==> c <= topLimit
    ensures topLimit >= 2 ==> c == topLimit / 2
    ensures topLimit < 2 ==> c == 1
  {
    var half := Quot(topLimit, 2);
    if half < 1 then 1 else half
  }

  /** The latency configuration is accepted iff the increase trigger is not above the decrease trigger. */
  predicate ValidSignal(signal: Signal)
  {
    signal.ByLatency? ==> signal.increaseTrigger <= signal.decreaseTrigger
  }

  /**
   * One control step. A negative move is the backward jump to
   * floor(0.9 * current), at least 1; a positive move is the forward crawl
   * by 1 while below the top limit; a zero move keeps the limit.
   */
  function Step(current: int, topLimit: int, move: int): (next: int)
    requires current >= 1
    ensures next >= 1
    ensures current <= topLimit ==> next <= topLimit
    ensures current == 1 && topLimit < 1 ==> next == 1
    ensures move == 0 ==> next == current
    ensures move < 0 ==> next <= current && (current > 1 ==> next < current)
    ensures move < 0 && 9 * current >= 10 ==> 10 * next <= 9 * current < 10 * next + 10
    ensures move < 0 && 9 * current < 10 ==> next == 1
    ensures move > 0 && current < topLimit ==> next == current + 1
    ensures move > 0 && current >= topLimit ==> next == current
  {
    if move == 0 then current
    else if move < 0 then
      var cut := (9 * current) / 10;
      if cut < 1 then 1 else cut
    else if current < topLimit then current + 1
    else current
  }

  /** The average latency of an interval (truncated), 0 when nothing was answered. */
  function AverageLatency(s: Stats): (avg: int)
    ensures s.responses <= 0 ==> avg == 0
    ensures s.responses > 0 && s.latencyNanos >= 0 ==>
              0 <= avg * s.responses <= s.latencyNanos < avg * s.responses + s.responses
  {
    if s.responses > 0 then Quot(s.latencyNanos, s.responses) else 0
  }

  /**
   * The signed move an interval's statistics call for.
   * By errors: -1 if any error, else +1 if the ceiling was reached, else 0.
   * By latency: -1 if the average is above the decrease trigger, else +1 if
   * the ceiling was reached and the average is below the increase trigger, else 0.
   */
  function Move(signal: Signal, s: Stats, reachedTop: bool): (move: int)
    ensures -1 <= move <= 1
    ensures signal.ByErrors? ==> (move == -1 <==> s.errors > 0)
    ensures signal.ByErrors? ==> (move == 1 <==> s.errors <= 0 && reachedTop)
    ensures signal.ByLatency? ==> (move == -1 <==> AverageLatency(s) > signal.decreaseTrigger)
    ensures signal.ByLatency? ==>
              (move == 1 <==> AverageLatency(s) <= signal.decreaseTrigger && reachedTop
                              && AverageLatency(s) < signal.increaseTrigger)
  {
    match signal
    case ByErrors =>
      if s.errors > 0 then -1 else if reachedTop then 1 else 0
    case ByLatency(decreaseTrigger, increaseTrigger) =>
      var avg := AverageLatency(s);
      if avg > decreaseTrigger then -1
      else if reachedTop && avg < increaseTrigger then 1
      else 0
  }

  /**
   * What one result adds to the interval's statistics: by errors, one error
   * iff the status is not Ok; by latency, one response and its latency since
   * the request was first created iff the status is not Discarded.
   */
  function Observe(signal: Signal, s: Stats, resp: Response, now: int): (t: Stats)
    ensures signal.ByErrors? ==> t.responses == s.responses && t.latencyNanos == s.latencyNanos
    ensures signal.ByErrors? ==> t.errors == s.errors + (if resp.status == Ok then 0 else 1)
    ensures signal.ByLatency? ==> t.errors == s.errors
    ensures signal.ByLatency? && resp.status == Discarded ==> t == s
    ensures signal.ByLatency? && resp.status != Discarded ==>
              t.responses == s.responses + 1 && t.latencyNanos == s.latencyNanos + (now - resp.request.created)
  {
    match signal
    case ByErrors =>
      if resp.status != Ok then s.(errors := s.errors + 1) else s
    case ByLatency(_, _) =>
      if resp.status != Discarded then
        s.(responses := s.responses + 1, latencyNanos := s.latencyNanos + (now - resp.request.created))
      else s
  }

  /** The statistics after observing a sequence of results, first to last. */
  function ObserveAll(signal: Signal, s: Stats, rs: seq<Response>, now: int): Stats
    decreases |rs|
  {
    if rs == [] then s else Observe(signal, ObserveAll(signal, s, rs[..|rs| - 1], now), rs[|rs| - 1], now)
  }

  /** Observing one more response folds it into the statistics of the earlier ones. */
  lemma ObserveAllStep(signal: Signal, s: Stats, rs: seq<Response>, r: Response, now: int)
    ensures ObserveAll(signal, s, rs + [r], now) == Observe(signal, ObserveAll(signal, s, rs, now), r, now)
  {
    assert (rs + [r])[..|rs|] == rs;
  }

  /** The limit after a sequence of control moves, first to last. */
  function Iterate(current: int, topLimit: int, moves: seq<int>): int
    requires current >= 1
    decreases |moves|
  {
    if moves == [] then current else Iterate(Step(current, topLimit, moves[0]), topLimit, moves[1..])
  }

  /** The bounds hold for any sequence of moves: at least 1, and at most the top limit when that is at least 1. */
  lemma {:induction false} IterateBounds(current: int, topLimit: int, moves: seq<int>)
    requires 1 <= current && (current <= topLimit || current == 1)
    ensures var c := Iterate(current, topLimit, moves); 1 <= c && (c <= topLimit || c == 1)
    decreases |moves|
  {
    if moves != [] {
      IterateBounds(Step(current, topLimit, moves[0]), topLimit, moves[1..]);
    }
  }

  /** Forward crawl: k saturated, error-free intervals raise the limit by k, up to the top limit. */
  lemma {:induction false} ForwardCrawl(current: int, topLimit: int, k: nat)
    requires 1 <= current <= topLimit
    ensures Iterate(current, topLimit, seq(k, _ => 1)) == if current + k <= topLimit then current + k else topLimit
    decreases k
  {
    if k > 0 {
      var moves := seq(k, _ => 1);
      assert moves[1..] == seq(k - 1, _ => 1);
      ForwardCrawl(Step(current, topLimit, 1), topLimit, k - 1);
    }
  }

  /** Backward jumps: k intervals with errors take at least k off the limit, until it reaches 1. */
  lemma {:induction false} BackwardJumps(current: int, topLimit: int, k: nat)
    requires 1 <= current
    ensures var c := Iterate(current, topLimit, seq(k, _ => -1)); c == 1 || c <= current - k
    decreases k
  {
    if k > 0 {
      var moves := seq(k, _ => -1);
      assert moves[1..] == seq(k - 1, _ => -1);
      var next := Step(current, topLimit, -1);
      BackwardJumps(next, topLimit, k - 1);
      if next == 1 {
        OneIsFloor(topLimit, k - 1);
      }
    }
  }

  /** Once at 1, further cuts keep the limit at 1. */
  lemma {:induction false} OneIsFloor(topLimit: int, k: nat)
    ensures Iterate(1, topLimit, seq(k, _ => -1)) == 1
    decreases k
  {
    if k > 0 {
      var moves := seq(k, _ => -1);
      assert moves[1..] == seq(k - 1, _ => -1);
      OneIsFloor(topLimit, k - 1);
    }
  }

  /**
   * An AIMD limiter. `pending` holds the requests admitted by `Push` that the
   * node has not yet taken with `Poll`.
   */
  class AimdLimiter {
    const topLimit: int
    const checkFrequency: int
    const signal: Signal
    var inFlight: int
    var currentLimit: int
    var reachedTop: bool
    var nextCheck: int
    var stats: Stats
    var pending: seq<Request>

    /** The limit stays within [1, topLimit] (exactly 1 when topLimit < 1); each signal keeps only its own counters. */
    ghost predicate Valid()
      reads this
    {
      && 1 <= currentLimit
      && (currentLimit <= topLimit || currentLimit == 1)
      && (signal.ByErrors? ==> stats.responses == 0 && stats.latencyNanos == 0)
      && (signal.ByLatency? ==> stats.errors == 0)
    }

    /** A limiter created at clock reading `now`; its first control step is due one interval later. */
    constructor (topLimit: int, signal: Signal, now: int)
      requires ValidSignal(signal)
      ensures Valid()
      ensures this.topLimit == topLimit && this.signal == signal && checkFrequency == CheckFrequency
      ensures currentLimit == InitialLimit(topLimit)
      ensures inFlight == 0 && !reachedTop && nextCheck == now + CheckFrequency
      ensures stats == NoStats && pending == []
    {
      this.topLimit := topLimit;
      this.signal := signal;
      checkFrequency := CheckFrequency;
      var half := Quot(topLimit, 2);
      currentLimit := if half < 1 then 1 else half;
      inFlight := 0;
      reachedTop := false;
      nextCheck := now + CheckFrequency;
      stats := NoStats;
      pending := [];
    }

    /** A limiter reacting to errors. */
    static method ByErrorCount(topLimit: int, now: int) returns (l: AimdLimiter)
      ensures fresh(l) && l.Valid() && l.signal == ByErrors && l.topLimit == topLimit
      ensures l.currentLimit == InitialLimit(topLimit) && l.inFlight == 0 && l.pending == []
      ensures !l.reachedTop && l.stats == NoStats && l.nextCheck == now + CheckFrequency
    {
      l := new AimdLimiter(topLimit, ByErrors, now);
    }

    /** A limiter reacting to latency; the configuration is refused iff the increase trigger exceeds the decrease trigger. */
    static method ByAverageLatency(topLimit: int, decreaseTrigger: int, increaseTrigger: int, now: int)
      returns (l: Option<AimdLimiter>)
      ensures l.None? <==> increaseTrigger > decreaseTrigger
      ensures l.Some? ==> fresh(l.value) && l.value.Valid() && l.value.topLimit == topLimit
      ensures l.Some? ==> l.value.signal == ByLatency(decreaseTrigger, increaseTrigger)
      ensures l.Some? ==> l.value.currentLimit == InitialLimit(topLimit) && l.value.inFlight == 0 && l.value.pending == []
      ensures l.Some? ==> !l.value.reachedTop && l.value.stats == NoStats && l.value.nextCheck == now + CheckFrequency
    {
      if increaseTrigger > decreaseTrigger {
        return None;
      }
      var made := new AimdLimiter(topLimit, ByLatency(decreaseTrigger, increaseTrigger), now);
      l := Some(made);
    }

    /**
     * The admission gate: admits iff fewer than currentLimit requests are in
     * flight, and only then counts one more. The ceiling flag is raised
     * whenever this admission would fill the limit, even on a rejection.
     */
    method Acquire() returns (admitted: bool)
      modifies this`inFlight, this`reachedTop
      ensures admitted <==> old(inFlight) < currentLimit
      ensures inFlight == if admitted then old(inFlight) + 1 else old(inFlight)
      ensures reachedTop == (old(reachedTop) || old(inFlight) + 1 >= currentLimit)
    {
      if inFlight + 1 >= currentLimit {
        reachedTop := true;
      }
      admitted := inFlight < currentLimit;
      if admitted {
        inFlight := inFlight + 1;
      }
    }

    /** Admission as the node asks for it: an admitted request is queued for `Poll`. */
    method Push(r: Request) returns (admitted: bool)
      modifies this`inFlight, this`reachedTop, this`pending
      ensures admitted <==> old(inFlight) < currentLimit
      ensures inFlight == if admitted then old(inFlight) + 1 else old(inFlight)
      ensures reachedTop == (old(reachedTop) || old(inFlight) + 1 >= currentLimit)
      ensures pending == if admitted then old(pending) + [r] else old(pending)
    {
      admitted := Acquire();
      if admitted {
        pending := pending + [r];
      }
    }

    /** The next admitted request not yet started, if any. */
    method Poll() returns (next: Option<Request>)
      modifies this`pending
      ensures old(pending) == [] ==> next.None? && pending == []
      ensures old(pending) != [] ==> next == Some(old(pending)[0]) && pending == old(pending)[1..]
    {
      if pending == [] {
        next := None;
      } else {
        next := Some(pending[0]);
        pending := pending[1..];
      }
    }

    /** A result releases one slot and feeds the interval's statistics. */
    method HasResult(resp: Response, now: int)
      requires Valid()
      modifies this`inFlight, this`stats
      ensures Valid()
      ensures inFlight == old(inFlight) - 1
      ensures stats == Observe(signal, old(stats), resp, now)
    {
      match signal {
        case ByErrors =>
          if resp.status != Ok {
            stats := stats.(errors := stats.errors + 1);
          }
        case ByLatency(_, _) =>
          if resp.status != Discarded {
            stats := stats.(responses := stats.responses + 1,
                            latencyNanos := stats.latencyNanos + (now - resp.request.created));
          }
      }
      inFlight := inFlight - 1;
    }

    /** The interval's move, computed from its statistics, which are then cleared. */
    method MoveLimit() returns (move: int)
      requires Valid()
      modifies this`stats
      ensures Valid()
      ensures move == Move(signal, old(stats), reachedTop)
      ensures stats == NoStats
    {
      match signal {
        case ByErrors =>
          var lastErrors := stats.errors;
          stats := NoStats;
          if lastErrors > 0 {
            move := -1;
          } else if reachedTop {
            move := 1;
          } else {
            move := 0;
          }
        case ByLatency(decreaseTrigger, increaseTrigger) =>
          var avgLatency := 0;
          if stats.responses > 0 {
            avgLatency := Quot(stats.latencyNanos, stats.responses);
          }
          stats := NoStats;
          if avgLatency > decreaseTrigger {
            move := -1;
          } else if reachedTop && avgLatency < increaseTrigger {
            move := 1;
          } else {
            move := 0;
          }
      }
    }

    /**
     * The control step. Before the next check is due nothing changes.
     * Otherwise the next check is set one interval ahead, the statistics and
     * the ceiling flag are cleared, and the limit takes one AIMD step.
     */
    method Tick(now: int)
      requires Valid()
      modifies this`currentLimit, this`reachedTop, this`nextCheck, this`stats
      ensures Valid()
      ensures now < old(nextCheck) ==>
                currentLimit == old(currentLimit) && reachedTop == old(reachedTop)
                && nextCheck == old(nextCheck) && stats == old(stats)
      ensures now >= old(nextCheck) ==>
                && nextCheck == now + checkFrequency && !reachedTop && stats == NoStats
                && currentLimit == Step(old(currentLimit), topLimit, Move(signal, old(stats), old(reachedTop)))
    {
      if now < nextCheck {
        return;
      }
      nextCheck := now + checkFrequency;
      var move := MoveLimit();
      reachedTop := false;
      if move == 0 {
        return;
      }
      if move < 0 {
        currentLimit := (9 * currentLimit) / 10;
        if currentLimit < 1 {
          currentLimit := 1;
        }
        return;
      }
      if currentLimit < topLimit {
        currentLimit := currentLimit + 1;
      }
    }
  }

  /**
   * The error-driven limiter with top limit 200 starts at 100; a saturated
   * interval without errors takes it to 101; an interval with one error then
   * takes it to floor(101 * 0.9) = 90.
   */
  method ErrorsScenario(request: Request) returns (initial: int, afterCrawl: int, afterJump: int)
    ensures initial == 100 && afterCrawl == 101 && afterJump == 90
  {
    var start := 0;
    var l := new AimdLimiter(200, ByErrors, start);
    initial := l.currentLimit;
    var admitted := 0;
    while admitted < 100
      invariant 0 <= admitted <= 100
      invariant l.Valid() && l.currentLimit == 100 && l.inFlight == admitted
      invariant l.reachedTop <==> admitted == 100
      invariant l.stats == NoStats && l.nextCheck == start + CheckFrequency
    {
      var ok := l.Acquire();
      admitted := admitted + 1;
    }
    l.Tick(start + CheckFrequency);
    afterCrawl := l.currentLimit;
    l.HasResult(Response(request, Error), start + CheckFrequency);
    l.Tick(start + 2 * CheckFrequency);
    afterJump := l.currentLimit;
  }
}
