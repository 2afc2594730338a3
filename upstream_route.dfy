/** Model of the failover route over a deployment's upstreams (UpstreamRoute),
    as its tests pin it down.

    A route allows one attempt per configured upstream. Each successful
    `Next` picks an upstream not tried before, holds it as the current one
    and counts the attempt; once every upstream has been tried, `Next`
    fails, drops the current upstream and leaves the count alone. `Fail`
    records the upstream's answer and does not end the route. The random,
    weighted choice is modelled as an arbitrary choice among the untried
    upstreams. */
module Upstreams {
  import opened Common

  datatype Upstream = Upstream(endpoint: string, weight: int)

  /** An upstream's failure as reported to the route: status and retry-after hint (-1: none). */
  datatype Failure = Failure(status: int, retryAfter: int)

  datatype RouteError = Exhausted

  /** The indices `0 .. n-1`. */
  function Range(n: nat): set<nat> {
    if n == 0 then {} else Range(n - 1) + {n - 1}
  }

  lemma {:induction false} RangeMembers(n: nat)
    ensures forall i: nat :: i in Range(n) <==> i < n
  {
    if n > 0 {
      RangeMembers(n - 1);
    }
  }

  lemma {:induction false} RangeSize(n: nat)
    ensures |Range(n)| == n
  {
    if n > 0 {
      RangeMembers(n - 1);
      RangeSize(n - 1);
    }
  }

  lemma {:induction false} SubsetSize<T>(a: set<T>, b: set<T>)
    requires a <= b
    ensures |a| <= |b|
    decreases |a|
  {
    if a != {} {
      var x :| x in a;
      SubsetSize(a - {x}, b - {x});
    }
  }

  /** Fewer tried indices than upstreams leaves an untried one. */
  lemma UntriedExists(tried: set<nat>, n: nat)
    requires tried <= Range(n) && |tried| < n
    ensures exists i: nat :: i < n && i !in tried
  {
    RangeSize(n);
    RangeMembers(n);
    if forall i: nat :: i < n ==> i in tried {
      assert Range(n) <= tried;
      SubsetSize(Range(n), tried);
      assert false;
    }
  }

  /** As many tried indices as upstreams means every upstream was tried. */
  lemma AllTried(tried: set<nat>, n: nat)
    requires tried <= Range(n) && |tried| == n
    ensures tried == Range(n)
  {
    RangeSize(n);
    if tried != Range(n) {
      var i :| i in Range(n) && i !in tried;
      assert tried <= Range(n) - {i};
      SubsetSize(tried, Range(n) - {i});
      assert false;
    }
  }

  class UpstreamRoute {
    const upstreams: seq<Upstream>
    var tried: set<nat>
    var current: Option<nat>
    var attemptCount: nat
    var lastFailure: Option<Failure>

    ghost predicate Valid()
      reads this
    {
      |tried| == attemptCount
      && tried <= Range(|upstreams|)
      && (current.Some? ==> current.value in tried && current.value < |upstreams|)
    }

    constructor (upstreams: seq<Upstream>)
      ensures Valid() && this.upstreams == upstreams
      ensures tried == {} && current == None && attemptCount == 0 && lastFailure == None
    {
      this.upstreams := upstreams;
      tried := {};
      current := None;
      attemptCount := 0;
      lastFailure := None;
    }

    /** Whether the route holds a current upstream. */
    predicate Available()
      reads this
    {
      current.Some?
    }

    /** The current upstream, if any. */
    function Get(): (u: Option<Upstream>)
      requires Valid()
      reads this
      ensures u.Some? <==> Available()
      ensures u.Some? ==> u.value in upstreams
    {
      match current
      case Some(i) => Some(upstreams[i])
      case None => None
    }

    /** Draws an upstream not tried before, or fails once all were tried. */
    method Next() returns (r: Result<Upstream, RouteError>)
      requires Valid()
      modifies this`tried, this`current, this`attemptCount
      ensures Valid()
      ensures old(attemptCount) < |upstreams| ==>
                r.Ok? && current.Some? && current.value !in old(tried)
                && r.value == upstreams[current.value]
                && tried == old(tried) + {current.value}
                && attemptCount == old(attemptCount) + 1
      ensures old(attemptCount) >= |upstreams| ==>
                r == Err(Exhausted) && current == None
                && tried == old(tried) && attemptCount == old(attemptCount)
    {
      if attemptCount < |upstreams| {
        UntriedExists(tried, |upstreams|);
        var i: nat :| i < |upstreams| && i !in tried;
        RangeMembers(|upstreams|);
        tried := tried + {i};
        current := Some(i);
        attemptCount := attemptCount + 1;
        return Ok(upstreams[i]);
      }
      current := None;
      return Err(Exhausted);
    }

    /** Records an upstream failure; the route itself goes on. */
    method Fail(status: int, retryAfter: int)
      modifies this`lastFailure
      ensures lastFailure == Some(Failure(status, retryAfter))
    {
      lastFailure := Some(Failure(status, retryAfter));
    }
  }

  /** A route over N upstreams allows exactly N successful draws, each of a
      different upstream and each followed by a failure report, and the next
      draw fails: afterwards the route is unavailable and the count stays N.
      `picked[k]` is the index of the upstream handed out by the k-th draw. */
  method DriveToExhaustion(route: UpstreamRoute, status: int, retryAfter: int)
      returns (drawn: seq<Upstream>, picked: seq<nat>, last: Result<Upstream, RouteError>)
    requires route.Valid() && route.attemptCount == 0
    modifies route
    ensures route.Valid()
    ensures |drawn| == |picked| == |route.upstreams|
    ensures forall k :: 0 <= k < |picked| ==> picked[k] < |route.upstreams| && drawn[k] == route.upstreams[picked[k]]
    ensures forall k, l :: 0 <= k < l < |picked| ==> picked[k] != picked[l]
    ensures forall k :: 0 <= k < |drawn| ==> drawn[k] in route.upstreams
    ensures last == Err(Exhausted)
    ensures route.tried == Range(|route.upstreams|)
    ensures !route.Available() && route.Get() == None && route.attemptCount == |route.upstreams|
  {
    drawn, picked := [], [];
    while route.attemptCount < |route.upstreams|
      invariant route.Valid() && |drawn| == |picked| == route.attemptCount <= |route.upstreams|
      invariant route.attemptCount > 0 ==> route.Available()
      invariant forall k :: 0 <= k < |picked| ==>
                  picked[k] in route.tried && picked[k] < |route.upstreams| && drawn[k] == route.upstreams[picked[k]]
      invariant forall k, l :: 0 <= k < l < |picked| ==> picked[k] != picked[l]
      decreases |route.upstreams| - route.attemptCount
    {
      var r := route.Next();
      drawn := drawn + [r.value];
      picked := picked + [route.current.value];
      route.Fail(status, retryAfter);
    }
    AllTried(route.tried, |route.upstreams|);
    last := route.Next();
  }

  /** The four-upstream scenario: four draws succeed with counts 1..4, the
      route stays available after the fourth, the fifth draw fails. */
  method FourUpstreamsWithRetry() returns (route: UpstreamRoute)
    ensures route.Valid() && !route.Available() && route.Get() == None && route.attemptCount == 4
    ensures route.lastFailure == Some(Failure(502, -1))
  {
    route := new UpstreamRoute([Upstream("endpoint1", 1), Upstream("endpoint2", 1),
                                Upstream("endpoint3", 1), Upstream("endpoint4", 1)]);
    var k := 1;
    while k <= 4
      invariant 1 <= k <= 5 && route.Valid() && |route.upstreams| == 4
      invariant route.attemptCount == k - 1
      invariant k > 1 ==> route.lastFailure == Some(Failure(502, -1))
    {
      var r := route.Next();
      assert r.Ok? && route.Available() && route.Get().Some? && route.attemptCount == k;
      route.Fail(502, -1);
      k := k + 1;
    }
    var last := route.Next();
    assert last.Err?;
  }

  /** The two-upstream scenario with 429 failures carrying a 30-second hint. */
  method TwoUpstreamsWithRetry() returns (route: UpstreamRoute)
    ensures route.Valid() && !route.Available() && route.Get() == None && route.attemptCount == 2
    ensures route.lastFailure == Some(Failure(429, 30))
  {
    route := new UpstreamRoute([Upstream("endpoint1", 1), Upstream("endpoint2", 1)]);
    var first := route.Next();
    assert first.Ok? && route.Available() && route.attemptCount == 1;
    route.Fail(429, 30);
    var second := route.Next();
    assert second.Ok? && route.Available() && route.attemptCount == 2;
    route.Fail(429, 30);
    var third := route.Next();
    assert third.Err?;
  }
}
