/** Which pool a new client websocket goes to. */
module WebsocketFactory {

  class ClientPool {
    var clientsCount: nat

    constructor ()
      ensures clientsCount == 0
    {
      clientsCount := 0;
    }

    method NewClient()
      modifies this
      ensures clientsCount == old(clientsCount) + 1
    {
      clientsCount := clientsCount + 1;
    }

    /** The destructor of one of its clients. */
    method ClientGone()
      requires clientsCount > 0
      modifies this
      ensures clientsCount == old(clientsCount) - 1
    {
      clientsCount := clientsCount - 1;
    }
  }

  // ---------------------------------------------------------------------------------------
  // The counts of all the pools
  // ---------------------------------------------------------------------------------------

  /** The first of the smallest. */
  predicate FirstSmallest(counts: seq<nat>, i: nat) {
    && i < |counts|
    && (forall j :: 0 <= j < |counts| ==> counts[i] <= counts[j])
    && (forall j :: 0 <= j < i ==> counts[i] < counts[j])
  }

  function Sum(counts: seq<nat>): nat {
    if counts == [] then 0 else counts[0] + Sum(counts[1..])
  }

  datatype Event = Allocate | Release(pool: nat)

  function Selected(counts: seq<nat>): (i: nat)
    requires counts != []
    ensures FirstSmallest(counts, i)
  {
    if |counts| == 1 then 0
    else
      var i := Selected(counts[1..]) + 1;
      assert counts[i] == counts[1..][i - 1];
      assert forall j :: 1 <= j < |counts| ==> counts[j] == counts[1..][j - 1];
      if counts[0] <= counts[i] then 0 else i
  }

  predicate Possible(counts: seq<nat>, e: Event) {
    e.Release? ==> e.pool < |counts| && counts[e.pool] > 0
  }

  function Next(counts: seq<nat>, e: Event): (next: seq<nat>)
    requires counts != [] && Possible(counts, e)
    ensures |next| == |counts|
  {
    match e
    case Allocate => counts[Selected(counts) := counts[Selected(counts)] + 1]
    case Release(p) => counts[p := counts[p] - 1]
  }

  ghost predicate Legal(counts: seq<nat>, es: seq<Event>)
    requires counts != []
    decreases |es|
  {
    es == [] || (Possible(counts, es[0]) && Legal(Next(counts, es[0]), es[1..]))
  }

  ghost function After(counts: seq<nat>, es: seq<Event>): (end: seq<nat>)
    requires counts != [] && Legal(counts, es)
    ensures |end| == |counts|
    decreases |es|
  {
    if es == [] then counts else After(Next(counts, es[0]), es[1..])
  }

  function Zeros(k: nat): seq<nat> {
    seq(k, i => 0)
  }

  lemma SelectedIs(counts: seq<nat>, i: nat)
    requires FirstSmallest(counts, i)
    ensures Selected(counts) == i
  {
    var j := Selected(counts);
    assert counts[i] == counts[j];
  }

  // ---------------------------------------------------------------------------------------
  // Allocations only: round robin
  // ---------------------------------------------------------------------------------------

  /** After n allocations: the first n mod k pools have one client more than the others. */
  function Fair(k: nat, n: nat): seq<nat>
    requires k > 0
  {
    seq(k, i => n / k + (if i < n % k then 1 else 0))
  }

  lemma FairNext(k: nat, n: nat)
    requires k > 0
    ensures Selected(Fair(k, n)) == n % k
    ensures Next(Fair(k, n), Allocate) == Fair(k, n + 1)
  {
    SelectedIs(Fair(k, n), n % k);
    var q, r := n / k, n % k;
    assert n + 1 == q * k + (r + 1);
    if r + 1 < k {
      Quotient(n + 1, k, q, r + 1);
    } else {
      assert (q + 1) * k == q * k + k;
      Quotient(n + 1, k, q + 1, 0);
    }
  }

  lemma Quotient(n: nat, k: nat, q: nat, r: nat)
    requires 0 < k && r < k && n == q * k + r
    ensures n / k == q && n % k == r
  {
    var d := n / k - q;
    assert n == (n / k) * k + n % k;
    assert (n / k) * k - q * k == d * k;
    Multiples(d, k);
  }

  lemma Multiples(d: int, k: nat)
    ensures d > 0 ==> d * k >= k
    ensures d < 0 ==> d * k + k <= 0
  {
  }

  /** As long as no client goes away, the n-th allocation (from 0) over k new pools goes to pool
      n mod k, and the counts never differ by more than one. */
  lemma {:induction false} RoundRobin(k: nat, n: nat, es: seq<Event>)
    requires k > 0 && |es| == n && forall i :: 0 <= i < n ==> es[i] == Allocate
    ensures Legal(Fair(k, 0), es) && After(Fair(k, 0), es) == Fair(k, n)
    ensures Fair(k, 0) == Zeros(k) && Selected(Fair(k, n)) == n % k
    ensures forall i, j :: 0 <= i < k && 0 <= j < k ==> Fair(k, n)[i] <= Fair(k, n)[j] + 1
  {
    RunsFair(k, 0, es);
    FairNext(k, n);
    Quotient(0, k, 0, 0);
  }

  lemma {:induction false} RunsFair(k: nat, n: nat, es: seq<Event>)
    requires k > 0 && forall i :: 0 <= i < |es| ==> es[i] == Allocate
    ensures Legal(Fair(k, n), es) && After(Fair(k, n), es) == Fair(k, n + |es|)
    decreases |es|
  {
    if es != [] {
      FairNext(k, n);
      assert es[0] == Allocate && forall i :: 0 <= i < |es[1..]| ==> es[1..][i] == es[i + 1];
      RunsFair(k, n + 1, es[1..]);
    }
  }

  // ---------------------------------------------------------------------------------------
  // Clients come and go
  // ---------------------------------------------------------------------------------------

  lemma {:induction false} SumUpdate(counts: seq<nat>, i: nat, v: nat)
    requires i < |counts|
    ensures Sum(counts[i := v]) == Sum(counts) - counts[i] + v
    decreases |counts|
  {
    if i == 0 {
      assert counts[i := v][1..] == counts[1..];
    } else {
      assert counts[i := v][1..] == counts[1..][i - 1 := v];
      SumUpdate(counts[1..], i - 1, v);
    }
  }

  lemma {:induction false} SumAtLeast(counts: seq<nat>, m: nat)
    requires forall i :: 0 <= i < |counts| ==> counts[i] >= m
    ensures Sum(counts) >= |counts| * m
    decreases |counts|
  {
    if counts != [] {
      SumAtLeast(counts[1..], m);
      assert |counts| * m == (|counts| - 1) * m + m;
    }
  }

  /** No pool has more than `fair` clients, and there have never been more than that many for
      each pool. */
  ghost predicate Bounded(counts: seq<nat>, fair: nat) {
    forall i :: 0 <= i < |counts| ==> counts[i] <= fair
  }

  /** At no point of the run there are more than that many clients. */
  ghost predicate Peak(counts: seq<nat>, es: seq<Event>, most: nat)
    requires counts != [] && Legal(counts, es)
    decreases |es|
  {
    Sum(counts) <= most && (es == [] || Peak(Next(counts, es[0]), es[1..], most))
  }

  lemma StepStaysBounded(counts: seq<nat>, e: Event, fair: nat)
    requires counts != [] && Possible(counts, e) && Bounded(counts, fair)
    requires Sum(Next(counts, e)) <= |counts| * fair
    ensures Bounded(Next(counts, e), fair)
  {
    if e.Allocate? {
      var i := Selected(counts);
      if counts[i] == fair {
        SumAtLeast(counts, fair);
        SumUpdate(counts, i, fair + 1);
      }
    }
  }

  /** Whatever the order in which clients come and go: if there are never more than k * fair
      clients in k pools, no pool ever has more than `fair` of them. */
  lemma {:induction false} NoPoolIsOverloaded(counts: seq<nat>, es: seq<Event>, fair: nat)
    requires counts != [] && Legal(counts, es) && Bounded(counts, fair) && Peak(counts, es, |counts| * fair)
    ensures Bounded(After(counts, es), fair)
    decreases |es|
  {
    if es != [] {
      StepStaysBounded(counts, es[0], fair);
      NoPoolIsOverloaded(Next(counts, es[0]), es[1..], fair);
    }
  }

  // ---------------------------------------------------------------------------------------
  // The factory
  // ---------------------------------------------------------------------------------------

  class WebsocketFactory {
    var pools: seq<ClientPool>

    ghost predicate Valid()
      reads this
    {
      forall i, j :: 0 <= i < j < |pools| ==> pools[i] != pools[j]
    }

    function Counts(): (counts: seq<nat>)
      reads this, pools
      ensures |counts| == |pools|
    {
      seq(|pools|, i requires 0 <= i < |pools| reads this, pools => pools[i].clientsCount)
    }

    constructor ()
      ensures Valid() && pools == []
    {
      pools := [];
    }

    /** Can be done only once. */
    method SetClientPoolCount(count: nat) returns (ok: bool)
      requires Valid()
      modifies this
      ensures Valid() && ok == (old(pools) == [] && count > 0)
      ensures if ok then |pools| == count && Counts() == Zeros(count) && fresh(pools) else pools == old(pools)
    {
      ok := false;
      if pools == [] && count > 0 {
        var i := 0;
        while i < count
          invariant 0 <= i <= count && |pools| == i && Valid() && fresh(pools)
          invariant forall j :: 0 <= j < i ==> pools[j].clientsCount == 0
        {
          var pool := new ClientPool();
          pools := pools + [pool];
          i := i + 1;
        }
        ok := true;
      }
    }

    /** The new client goes to the first of the pools with the fewest clients. */
    method NewClientFromPool() returns (selected: int)
      requires Valid()
      modifies pools
      ensures Valid() && pools == old(pools)
      ensures if pools == [] then selected == -1
              else selected == Selected(old(Counts())) && Counts() == Next(old(Counts()), Allocate)
    {
      selected := -1;
      if pools != [] {
        selected := 0;
        var i := 0;
        while i < |pools|
          invariant 0 <= i <= |pools| && 0 <= selected < |pools| && (selected < i || selected == 0)
          invariant forall j :: 0 <= j < i ==> pools[selected].clientsCount <= pools[j].clientsCount
          invariant forall j :: 0 <= j < selected ==> pools[selected].clientsCount < pools[j].clientsCount
        {
          if pools[i].clientsCount < pools[selected].clientsCount {
            selected := i;
          }
          i := i + 1;
        }
        SelectedIs(Counts(), selected);
        pools[selected].NewClient();
        assert Counts() == Next(old(Counts()), Allocate);
      }
    }
  }
}
