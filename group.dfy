/**
 * The least-busy router in front of a group of downstream nodes. It counts
 * the requests it has forwarded to each downstream and not yet seen answered,
 * forwards every request to a downstream with the smallest count, and
 * decrements the responder's count when a response comes back.
 */
module Routing {
  import opened Messages

  /** `a` has the smallest count of all entries of `counts`. */
  predicate IsLeastBusy(counts: map<Address, int>, a: Address)
  {
    a in counts && forall b :: b in counts ==> counts[a] <= counts[b]
  }

  /** The counts after one more request is forwarded to `a`. */
  function Bump(counts: map<Address, int>, a: Address): (c: map<Address, int>)
    ensures c.Keys == counts.Keys
    ensures a in counts ==> c[a] == counts[a] + 1
    ensures forall b :: b in counts && b != a ==> c[b] == counts[b]
  {
    if a in counts then counts[a := counts[a] + 1] else counts
  }

  /** The counts after requests are forwarded to `picks`, in order, with no response in between. */
  function Counts(counts: map<Address, int>, picks: seq<Address>): (c: map<Address, int>)
    ensures c.Keys == counts.Keys
    decreases |picks|
  {
    if picks == [] then counts else Bump(Counts(counts, picks[..|picks| - 1]), picks[|picks| - 1])
  }

  /** Every pick is least busy under the counts left by the picks before it. */
  predicate LeastBusyRun(counts: map<Address, int>, picks: seq<Address>)
  {
    forall i :: 0 <= i < |picks| ==> IsLeastBusy(Counts(counts, picks[..i]), picks[i])
  }

  /** A sequence has no more distinct elements than entries. */
  lemma {:induction false} ElementsBound(xs: seq<Address>)
    ensures |set x | x in xs| <= |xs|
  {
    if xs != [] {
      var init := xs[..|xs| - 1];
      ElementsBound(init);
      assert (set x | x in xs) == (set x | x in init) + {xs[|xs| - 1]};
    }
  }

  /** Fewer picks than keys leave some key unpicked. */
  lemma Unpicked(counts: map<Address, int>, picks: seq<Address>) returns (y: Address)
    requires |picks| < |counts|
    ensures y in counts && y !in picks
  {
    var picked := set x | x in picks;
    ElementsBound(picks);
    if counts.Keys <= picked {
      SubsetBound(counts.Keys, picked);
      assert false;
    }
    y :| y in counts.Keys && y !in picked;
  }

  /** A subset is no larger than its superset. */
  lemma {:induction false} SubsetBound(a: set<Address>, b: set<Address>)
    requires a <= b
    ensures |a| <= |b|
    decreases |a|
  {
    if a != {} {
      var x :| x in a;
      SubsetBound(a - {x}, b - {x});
    }
  }

  /** An element of a non-empty sequence is in its prefix or is its last element. */
  lemma InitOrLast(xs: seq<Address>, a: Address)
    requires xs != []
    ensures a in xs <==> a in xs[..|xs| - 1] || a == xs[|xs| - 1]
  {
    assert xs == xs[..|xs| - 1] + [xs[|xs| - 1]];
  }

  /**
   * Fairness: from all-zero counts, consecutive least-busy picks with no
   * response in between go to distinct downstreams while there are unused
   * ones, and leave a count of 1 on every picked downstream and 0 elsewhere.
   */
  lemma {:induction false} LeastBusyFairness(counts: map<Address, int>, picks: seq<Address>)
    requires forall a :: a in counts ==> counts[a] == 0
    requires LeastBusyRun(counts, picks) && |picks| <= |counts|
    ensures Distinct(picks)
    ensures forall a :: a in counts ==> Counts(counts, picks)[a] == if a in picks then 1 else 0
  {
    if picks != [] {
      var n := |picks| - 1;
      var init := picks[..n];
      var x := picks[n];
      forall i | 0 <= i < |init|
        ensures IsLeastBusy(Counts(counts, init[..i]), init[i])
      {
        assert init[..i] == picks[..i];
      }
      LeastBusyFairness(counts, init);
      var before := Counts(counts, init);
      assert IsLeastBusy(before, x) by {
        assert picks[..n] == init;
      }
      var y := Unpicked(counts, init);
      assert before[y] == 0;
      assert x !in init;
      forall i, j | 0 <= i < j < |picks|
        ensures picks[i] != picks[j]
      {
        if j == n {
          assert picks[i] in init;
        } else {
          assert picks[i] == init[i] && picks[j] == init[j];
        }
      }
      forall a | a in counts
        ensures Counts(counts, picks)[a] == if a in picks then 1 else 0
      {
        InitOrLast(picks, a);
      }
    }
  }

  /**
   * How the router routes a response back as written: it pops the top of the
   * return path and sends to the popped address. `None` is the fault of
   * popping an empty path.
   */
  function PopAndReturnTop(path: seq<Address>): (r: Option<(seq<Address>, Address)>)
    ensures r.Some? <==> path != []
    ensures r.Some? ==> Push(r.value.0, r.value.1) == path
  {
    if path == [] then None else Some((path[..|path| - 1], path[|path| - 1]))
  }

  /**
   * The response route as written sends a response back to the router that
   * pushed itself, while routing by ReplyRoute reaches the hop below it: the
   * two disagree exactly when the hop below is some other address.
   */
  lemma ResponseReturnsToRouter(origin: seq<Address>, self: Address)
    requires origin != []
    ensures PopAndReturnTop(Push(origin, self)) == Some((origin, self))
    ensures ReplyRoute(Push(origin, self), self) == Some((origin, Top(origin)))
  {
    assert Push(origin, self)[..|origin|] == origin;
  }

  class Router {
    const self: Address
    const downstream: seq<Address>
    /** The round-robin position. */
    var counter: int
    /** The in-flight count of each downstream. */
    var active: map<Address, int>
    var outbox: seq<Envelope>

    /** The counts are kept for exactly the downstreams, and none is negative. */
    ghost predicate Valid()
      reads this
    {
      && (forall a :: a in active <==> a in downstream)
      && (forall a :: a in active ==> active[a] >= 0)
      && 0 <= counter
      && (downstream == [] ==> counter == 0)
      && (downstream != [] ==> counter < |downstream|)
    }

    /** Every downstream starts with an in-flight count of 0. */
    constructor(self: Address, downstream: seq<Address>)
      ensures Valid()
      ensures this.self == self && this.downstream == downstream
      ensures counter == 0 && outbox == []
      ensures forall a :: a in active ==> active[a] == 0
    {
      this.self := self;
      this.downstream := downstream;
      counter := 0;
      outbox := [];
      var counts: map<Address, int> := map[];
      var i := 0;
      while i < |downstream|
        invariant 0 <= i <= |downstream|
        invariant forall a :: a in counts <==> a in downstream[..i]
        invariant forall a :: a in counts ==> counts[a] == 0
      {
        assert downstream[..i + 1] == downstream[..i] + [downstream[i]];
        counts := counts[downstream[i] := 0];
        i := i + 1;
      }
      assert downstream[..i] == downstream;
      active := counts;
    }

    /**
     * Picks a downstream with the smallest count, scanning the counts in
     * `order` and starting from the first downstream, which only a strictly
     * smaller count displaces; the pick's count rises by one.
     */
    method GetLeastBusy(order: seq<Address>) returns (chosen: Address)
      requires Valid() && downstream != [] && IterationOrder(order, active)
      modifies this`active
      ensures Valid()
      ensures IsLeastBusy(old(active), chosen)
      ensures chosen != downstream[0] ==> old(active)[chosen] < old(active)[downstream[0]]
      ensures active == Bump(old(active), chosen)
    {
      chosen := downstream[0];
      var count := active[chosen];
      var i := 0;
      while i < |order|
        invariant 0 <= i <= |order|
        invariant chosen in active && count == active[chosen]
        invariant forall j :: 0 <= j < i ==> count <= active[order[j]]
        invariant chosen != downstream[0] ==> count < active[downstream[0]]
      {
        var a := order[i];
        if active[a] < count {
          count := active[a];
          chosen := a;
        }
        i := i + 1;
      }
      forall b | b in active
        ensures count <= active[b]
      {
        var j :| 0 <= j < |order| && order[j] == b;
      }
      active := active[chosen := count + 1];
    }

    /**
     * Advances the round-robin position and returns the downstream there;
     * with no downstream the modulo faults and nothing changes.
     */
    method RoundRobin() returns (next: Option<Address>)
      requires Valid()
      modifies this`counter
      ensures Valid()
      ensures downstream == [] ==> next == None && counter == old(counter)
      ensures downstream != [] ==>
                counter == (old(counter) + 1) % |downstream| && next == Some(downstream[counter])
    {
      if downstream == [] {
        return None;
      }
      counter := (counter + 1) % |downstream|;
      next := Some(downstream[counter]);
    }

    /**
     * Pushes the router onto the request's return path and forwards it to the
     * least-busy downstream; with no downstream the pick faults and nothing changes.
     */
    method HandleRequest(r: Request, order: seq<Address>) returns (target: Option<Address>)
      requires Valid() && IterationOrder(order, active)
      modifies this`active, this`outbox
      ensures Valid()
      ensures target.None? <==> downstream == []
      ensures target.None? ==> active == old(active) && outbox == old(outbox)
      ensures target.Some? ==>
                && IsLeastBusy(old(active), target.value)
                && active == Bump(old(active), target.value)
                && outbox == old(outbox) + [Envelope(target.value, Req(r.(returnPath := Push(r.returnPath, self))), 0)]
    {
      var forwarded := r.(returnPath := Push(r.returnPath, self));
      if downstream == [] {
        return None;
      }
      var chosen := GetLeastBusy(order);
      outbox := outbox + [Envelope(chosen, Req(forwarded), 0)];
      target := Some(chosen);
    }

    /**
     * A response from `sender` as the router handles it: it pops the top of
     * the return path and sends the response to the popped address, after
     * decrementing the sender's count. It faults, changing nothing, on an
     * empty path, on a sender without a count and on a count that is not positive.
     */
    method HandleResponseAsWritten(resp: Response, sender: Address) returns (ok: bool)
      requires Valid()
      modifies this`active, this`outbox
      ensures Valid()
      ensures ok <==> resp.request.returnPath != [] && sender in old(active) && old(active)[sender] > 0
      ensures !ok ==> active == old(active) && outbox == old(outbox)
      ensures ok ==>
                var route := PopAndReturnTop(resp.request.returnPath).value;
                && active == old(active)[sender := old(active)[sender] - 1]
                && outbox == old(outbox) + [Envelope(route.1, Resp(resp.(request := resp.request.(returnPath := route.0))), 0)]
    {
      var route := PopAndReturnTop(resp.request.returnPath);
      if route.None? || sender !in active || active[sender] <= 0 {
        return false;
      }
      active := active[sender := active[sender] - 1];
      var popped := resp.(request := resp.request.(returnPath := route.value.0));
      outbox := outbox + [Envelope(route.value.1, Resp(popped), 0)];
      ok := true;
    }

    /**
     * A response from `sender`, routed the way a node answers: the top of the
     * return path must be the router, which pops itself and sends the response
     * to the hop below; the sender's count is decremented. It faults, changing
     * nothing, on a routing error, on a sender without a count and on a count
     * that is not positive, so no count ever goes negative.
     */
    method HandleResponse(resp: Response, sender: Address) returns (ok: bool)
      requires Valid()
      modifies this`active, this`outbox
      ensures Valid()
      ensures ok <==> ReplyRoute(resp.request.returnPath, self).Some? && sender in old(active) && old(active)[sender] > 0
      ensures !ok ==> active == old(active) && outbox == old(outbox)
      ensures ok ==>
                var route := ReplyRoute(resp.request.returnPath, self).value;
                && active == old(active)[sender := old(active)[sender] - 1]
                && outbox == old(outbox) + [Envelope(route.1, Resp(resp.(request := resp.request.(returnPath := route.0))), 0)]
    {
      var route := ReplyRoute(resp.request.returnPath, self);
      if route.None? || sender !in active || active[sender] <= 0 {
        return false;
      }
      active := active[sender := active[sender] - 1];
      var popped := resp.(request := resp.request.(returnPath := route.value.0));
      outbox := outbox + [Envelope(route.value.1, Resp(popped), 0)];
      ok := true;
    }
  }
}
