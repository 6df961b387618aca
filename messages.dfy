/**
 * The values that travel between the simulated actors: requests with their
 * return-path stack, responses with their terminal status, and the envelopes
 * a handler emits in place of an actor `tell`.
 */
module Messages {

  /** Identity of an actor (an actor reference); only equality is used. */
  type Address(==, !new)

  /** A request identifier (a random UUID in the system); only equality is used. */
  type RequestId(==, !new)

  datatype Option<+T> = None | Some(value: T)

  /**
   * A request. `id` and `created` (a clock reading in nanoseconds) are fixed
   * when the request is first built, `attempt` numbers the try at the current
   * hop, and `returnPath` is a stack of addresses whose top is its last element.
   */
  datatype Request = Request(id: RequestId, created: int, attempt: int, returnPath: seq<Address>)

  /** The terminal outcome a response carries. */
  datatype Status = Ok | Discarded | Error | DownstreamError

  datatype Response = Response(request: Request, status: Status)

  /** The messages the node and the router handle. */
  datatype Message =
    | Req(request: Request)
    | Resp(response: Response)
    | SendDownstream(request: Request)

  /** One `tell`: destination, message, and delay in nanoseconds (0 for an immediate send). */
  datatype Envelope = Envelope(to: Address, msg: Message, delay: int)

  /** A new request with a given id: `created` is the clock reading `now`, the return path is empty. */
  function NewRequest(id: RequestId, attempt: int, now: int): (r: Request)
    ensures r.id == id && r.attempt == attempt && r.created == now
    ensures r.returnPath == []
  {
    Request(id, now, attempt, [])
  }

  /**
   * The copy of a request sent to the next hop: same id and creation time,
   * the given attempt number, and a path equal to the original element by
   * element. Requests are values, so later pushes or pops on the copy's path
   * cannot reach the original's.
   */
  function GoDownstream(r: Request, attempt: int): (d: Request)
    ensures d.id == r.id && d.created == r.created && d.attempt == attempt
    ensures |d.returnPath| == |r.returnPath|
    ensures forall i :: 0 <= i < |r.returnPath| ==> d.returnPath[i] == r.returnPath[i]
  {
    r.(attempt := attempt)
  }

  /** Re-sending a copy only replaces the attempt number: the copy of a copy is a copy of the original. */
  lemma GoDownstreamTwice(r: Request, a: int, b: int)
    ensures GoDownstream(GoDownstream(r, a), b) == GoDownstream(r, b)
  {
  }

  /** Appending is associative; stated once so that send logs can be extended step by step. */
  lemma AppendAssoc<T>(a: seq<T>, b: seq<T>, c: seq<T>)
    ensures a + b + c == a + (b + c)
  {
  }

  /** No element occurs twice. */
  predicate Distinct<T(==)>(xs: seq<T>)
  {
    forall i, j :: 0 <= i < j < |xs| ==> xs[i] != xs[j]
  }

  /** `order` lists every key of `m` exactly once: one iteration order of a hash map. */
  predicate IterationOrder<K(==), V>(order: seq<K>, m: map<K, V>)
  {
    && (forall k :: k in m ==> k in order)
    && (forall i :: 0 <= i < |order| ==> order[i] in m)
    && Distinct(order)
  }

  /** In a sequence without repeats, no element occurs before its own position. */
  lemma DistinctPrefix<T>(xs: seq<T>, i: int)
    requires Distinct(xs) && 0 <= i < |xs|
    ensures xs[i] !in xs[..i]
  {
    forall j | 0 <= j < i
      ensures xs[..i][j] != xs[i]
    {
      assert xs[..i][j] == xs[j];
    }
  }

  /** The address on top of a return path. */
  function Top(path: seq<Address>): Address
    requires path != []
  {
    path[|path| - 1]
  }

  /** A hop pushes its own address before forwarding. */
  function Push(path: seq<Address>, a: Address): (p: seq<Address>)
    ensures |p| == |path| + 1 && Top(p) == a
    ensures p[..|path|] == path
  {
    path + [a]
  }

  /**
   * How a hop routes a response back: it pops the top of the path, which must
   * be its own address, and sends to the new top. `None` is the routing fault:
   * the top is some other address, or nothing is left to reply to.
   * On success the result is the popped path and the destination.
   */
  function ReplyRoute(path: seq<Address>, self: Address): (r: Option<(seq<Address>, Address)>)
    ensures r.Some? <==> |path| >= 2 && Top(path) == self
    ensures r.Some? ==> Push(r.value.0, self) == path
    ensures r.Some? ==> r.value.0 != [] && r.value.1 == Top(r.value.0)
  {
    if |path| >= 2 && path[|path| - 1] == self then
      Some((path[..|path| - 1], path[|path| - 2]))
    else
      None
  }

  /**
   * A response travelling back through `hops` (the addresses that pushed
   * themselves, deepest last): each hop, deepest first, applies ReplyRoute to
   * the path it receives. The result is the path the response carries when it
   * leaves the shallowest hop, or `None` if some hop faults.
   */
  function Unwind(path: seq<Address>, hops: seq<Address>): Option<seq<Address>>
    decreases |hops|
  {
    if hops == [] then Some(path)
    else
      match ReplyRoute(path, hops[|hops| - 1])
      case None => None
      case Some(route) => Unwind(route.0, hops[..|hops| - 1])
  }

  /**
   * Return-path integrity: a request that leaves a sender with path `origin`
   * and crosses `hops` carries one more entry per hop at the deepest point,
   * and its response unwinds hop by hop without a routing fault, each reply
   * addressed to the hop below, until it reaches the sender with `origin` again.
   */
  lemma {:induction false} ReturnPathIntegrity(origin: seq<Address>, hops: seq<Address>)
    requires origin != []
    ensures |origin + hops| == |origin| + |hops|
    ensures Unwind(origin + hops, hops) == Some(origin)
  {
    if hops == [] {
      assert origin + hops == origin;
    } else {
      var n := |hops|;
      var below := origin + hops[..n - 1];
      assert origin + hops == below + [hops[n - 1]];
      assert ReplyRoute(origin + hops, hops[n - 1]) == Some((below, Top(below)));
      ReturnPathIntegrity(origin, hops[..n - 1]);
    }
  }
}
