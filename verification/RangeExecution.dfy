/** Running the tests of one executable in several worker processes: how a script splits them
    into ranges, and which tests a worker then executes. */
module RangeExecution {

  // ---------------------------------------------------------------------------------------
  // The script
  // ---------------------------------------------------------------------------------------

  datatype Range = Range(first: nat, last: nat)

  function CeilDiv(a: nat, b: nat): nat
    requires b > 0
  {
    (a + b - 1) / b
  }

  /** The pieces of `[i, i + 1, ..., num]` that have `n` elements, the last one perhaps fewer. */
  function Pieces(i: nat, n: nat, num: nat): seq<Range>
    requires n > 0
    decreases num + 1 - i
  {
    if i > num then []
    else [Range(i, if i + n - 1 <= num then i + n - 1 else num)] + Pieces(i + n, n, num)
  }

  /** The ranges for that many tests and cores. */
  function Ranges(num: nat, cores: nat): seq<Range>
    requires cores > 0
  {
    Pieces(1, CeilDiv(num + 1, cores), num)
  }

  predicate Within(k: nat, r: Range) {
    r.first <= k <= r.last
  }

  lemma {:induction false} PiecesPartition(i: nat, n: nat, num: nat)
    requires n > 0 && i > 0
    ensures var ps := Pieces(i, n, num);
            && (forall p :: 0 <= p < |ps| ==> i <= ps[p].first <= ps[p].last <= num && ps[p].last - ps[p].first < n)
            && (forall p :: 0 <= p < |ps| - 1 ==> ps[p + 1].first == ps[p].last + 1)
            && (ps != [] ==> ps[0].first == i && ps[|ps| - 1].last == num)
            && (i <= num ==> ps != [] && (|ps| - 1) * n <= num - i)
    decreases num + 1 - i
  {
    if i <= num {
      PiecesPartition(i + n, n, num);
      var more := Pieces(i + n, n, num);
      if more != [] {
        assert (|more| - 1) * n + n == |more| * n;
      }
    }
  }

  lemma NoMoreThanCores(pieces: nat, n: nat, num: nat, cores: nat)
    requires cores > 0 && n == CeilDiv(num + 1, cores) && pieces > 0 && (pieces - 1) * n <= num - 1
    ensures pieces <= cores
  {
    assert cores * n >= num + 1;
    ProductGrows(pieces - 1, cores, n);
  }

  lemma ProductGrows(a: int, b: int, n: nat)
    ensures a >= b ==> a * n >= b * n
  {
  }

  /** The ranges are at most as many as there are cores, follow one another without a gap, and
      cover 1 to `num`, each number once. */
  lemma RangesPartition(num: nat, cores: nat, k: nat) returns (p: nat)
    requires cores > 0 && 1 <= k <= num
    ensures var rs := Ranges(num, cores);
            && |rs| <= cores && p < |rs| && Within(k, rs[p])
            && (forall q :: 0 <= q < |rs| && Within(k, rs[q]) ==> q == p)
  {
    var n := CeilDiv(num + 1, cores);
    PiecesPartition(1, n, num);
    var rs := Ranges(num, cores);
    NoMoreThanCores(|rs|, n, num, cores);
    p := 0;
    while rs[p].last < k
      invariant p < |rs| && rs[p].first <= k
      decreases |rs| - p
    {
      p := p + 1;
    }
    Separate(rs, p, k);
  }

  lemma Separate(rs: seq<Range>, p: nat, k: nat)
    requires p < |rs| && Within(k, rs[p])
    requires forall q :: 0 <= q < |rs| - 1 ==> rs[q + 1].first == rs[q].last + 1
    requires forall q :: 0 <= q < |rs| ==> rs[q].first <= rs[q].last
    ensures forall q :: 0 <= q < |rs| && Within(k, rs[q]) ==> q == p
  {
    forall q | 0 <= q < |rs| && q != p ensures !Within(k, rs[q]) {
      if q < p { Later(rs, q, p); } else { Later(rs, p, q); }
    }
  }

  lemma {:induction false} Later(rs: seq<Range>, p: nat, q: nat)
    requires p < q < |rs|
    requires forall q :: 0 <= q < |rs| - 1 ==> rs[q + 1].first == rs[q].last + 1
    requires forall q :: 0 <= q < |rs| ==> rs[q].first <= rs[q].last
    ensures rs[p].last < rs[q].first
    decreases q
  {
    if p + 1 < q {
      Later(rs, p, q - 1);
    }
  }

  // ---------------------------------------------------------------------------------------
  // A worker
  // ---------------------------------------------------------------------------------------

  /** How many of the first `t` tests pass the filters. */
  function Count(passing: seq<bool>, t: nat): (n: nat)
    requires t <= |passing|
    ensures n <= t
  {
    if t == 0 then 0 else Count(passing, t - 1) + (if passing[t - 1] then 1 else 0)
  }

  function Total(passing: seq<bool>): nat {
    Count(passing, |passing|)
  }

  /** The window has no upper end if that would be before its beginning. */
  predicate InWindow(k: nat, r: Range) {
    r.first <= k && (r.last < r.first || k <= r.last)
  }

  /** A worker executes a test that passes the filters if its number among these is in range. */
  predicate Executes(passing: seq<bool>, r: Range, t: nat) {
    t < |passing| && passing[t] && InWindow(Count(passing, t + 1), r)
  }

  /** The loop over the tests, given which of them pass the filters. */
  method Run(passing: seq<bool>, first: nat, last: nat) returns (executed: seq<bool>, numPassing: nat)
    ensures numPassing == Total(passing)
    ensures |executed| == |passing| && forall t :: 0 <= t < |passing| ==>
            executed[t] == Executes(passing, Range(first, last), t)
  {
    executed, numPassing := [], 0;
    var t := 0;
    while t < |passing|
      invariant 0 <= t <= |passing| == |executed| + (|passing| - t) && numPassing == Count(passing, t)
      invariant forall u :: 0 <= u < t ==> executed[u] == Executes(passing, Range(first, last), u)
    {
      var skip := !passing[t];
      if !skip {
        numPassing := numPassing + 1;
      }
      if (last < numPassing && first <= last) || first > numPassing {
        skip := true;
      }
      executed := executed + [!skip];
      t := t + 1;
    }
  }

  /** Which tests the workers execute when the script has counted `num`: of those that pass the
      workers' own filters the first `num`, each by exactly one worker. */
  lemma ExecutedByOne(passing: seq<bool>, num: nat, cores: nat, t: nat)
    requires cores > 0 && t < |passing|
    ensures var rs := Ranges(num, cores);
            && ((exists p :: 0 <= p < |rs| && Executes(passing, rs[p], t)) <==>
                passing[t] && Count(passing, t + 1) <= num)
            && (forall p, q ::
                  0 <= p < |rs| && 0 <= q < |rs| && Executes(passing, rs[p], t) && Executes(passing, rs[q], t) ==>
                    p == q)
  {
    var rs := Ranges(num, cores);
    var k := Count(passing, t + 1);
    PiecesPartition(1, CeilDiv(num + 1, cores), num);
    if passing[t] && k <= num {
      var p := RangesPartition(num, cores, k);
      assert Executes(passing, rs[p], t);
    }
  }

  lemma {:induction false} CountGrows(passing: seq<bool>, t: nat, u: nat)
    requires t <= u <= |passing|
    ensures Count(passing, t) <= Count(passing, u)
    decreases u
  {
    if t < u {
      CountGrows(passing, t, u - 1);
    }
  }

  /** When the script counts with the workers' filters, each passing test is executed by exactly
      one worker, and no other test is. */
  lemma EachPassingTestOnce(passing: seq<bool>, cores: nat, t: nat)
    requires cores > 0 && t < |passing|
    ensures var rs := Ranges(Total(passing), cores);
            && |rs| <= cores
            && ((exists p :: 0 <= p < |rs| && Executes(passing, rs[p], t)) <==> passing[t])
            && (forall p, q ::
                  0 <= p < |rs| && 0 <= q < |rs| && Executes(passing, rs[p], t) && Executes(passing, rs[q], t) ==>
                    p == q)
  {
    ExecutedByOne(passing, Total(passing), cores, t);
    CountGrows(passing, t + 1, |passing|);
    if Total(passing) > 0 {
      var _ := RangesPartition(Total(passing), cores, 1);
    }
  }

  // ---------------------------------------------------------------------------------------
  // Extra filters, which the script counts with but does not hand on
  // ---------------------------------------------------------------------------------------

  ghost predicate Refines(wanted: seq<bool>, passing: seq<bool>) {
    |wanted| == |passing| && forall t :: 0 <= t < |wanted| && wanted[t] ==> passing[t]
  }

  ghost predicate SomeWorkerExecutes(passing: seq<bool>, num: nat, cores: nat, t: nat)
    requires cores > 0
  {
    exists p :: 0 <= p < |Ranges(num, cores)| && Executes(passing, Ranges(num, cores)[p], t)
  }

  lemma {:induction false} CountRefined(wanted: seq<bool>, passing: seq<bool>, t: nat, x: nat)
    requires Refines(wanted, passing) && t <= |wanted|
    ensures Count(wanted, t) <= Count(passing, t)
    ensures x < t && passing[x] && !wanted[x] ==> Count(wanted, t) < Count(passing, t)
    decreases t
  {
    if t > 0 {
      CountRefined(wanted, passing, t - 1, x);
    }
  }

  lemma {:induction false} NothingAfter(wanted: seq<bool>, t: nat)
    requires t <= |wanted| && forall u :: t <= u < |wanted| ==> !wanted[u]
    ensures Total(wanted) == Count(wanted, t)
    decreases |wanted| - t
  {
    if t < |wanted| {
      NothingAfter(wanted, t + 1);
    }
  }

  /** The workers then execute just the wanted tests if and only if each of these is among the
      first as many of all the tests. */
  lemma ExtraFiltersIff(wanted: seq<bool>, passing: seq<bool>, cores: nat)
    requires cores > 0 && Refines(wanted, passing)
    ensures (forall t :: 0 <= t < |wanted| ==> (SomeWorkerExecutes(passing, Total(wanted), cores, t) <==> wanted[t]))
            <==> (forall t :: 0 <= t < |wanted| && wanted[t] ==> Count(passing, t + 1) <= Total(wanted))
  {
    var num := Total(wanted);
    forall t | 0 <= t < |wanted|
      ensures SomeWorkerExecutes(passing, num, cores, t) <==> passing[t] && Count(passing, t + 1) <= num
    {
      ExecutedByOne(passing, num, cores, t);
    }
    if forall t :: 0 <= t < |wanted| && wanted[t] ==> Count(passing, t + 1) <= num {
      forall t | 0 <= t < |wanted| && passing[t] && Count(passing, t + 1) <= num ensures wanted[t] {
        if !wanted[t] {
          NotAllInFront(wanted, passing, t);
        }
      }
    }
  }

  /** If the wanted tests are all in front, none of those in front is unwanted. */
  lemma NotAllInFront(wanted: seq<bool>, passing: seq<bool>, x: nat)
    requires Refines(wanted, passing) && x < |wanted| && passing[x] && !wanted[x]
             && Count(passing, x + 1) <= Total(wanted)
    ensures exists t :: 0 <= t < |wanted| && wanted[t] && Count(passing, t + 1) > Total(wanted)
  {
    var num := Total(wanted);
    CountRefined(wanted, passing, |wanted|, x);
    var t := |wanted|;
    while Count(passing, t) > num
      invariant t <= |wanted| && x < t && (forall u :: t <= u < |wanted| && passing[u] ==> Count(passing, u + 1) > num)
      decreases t
    {
      assert t - 1 > x;
      t := t - 1;
    }
    if forall u :: t <= u < |wanted| ==> !wanted[u] {
      NothingAfter(wanted, t);
      CountRefined(wanted, passing, t, x);
    } else {
      var u :| t <= u < |wanted| && wanted[u];
      assert Count(passing, u + 1) > num;
    }
  }

  /** For instance: when only the second of two tests is wanted, the first one is executed. */
  lemma WrongTestExecuted()
    ensures var wanted, passing := [false, true], [true, true];
            !SomeWorkerExecutes(passing, Total(wanted), 1, 1) && SomeWorkerExecutes(passing, Total(wanted), 1, 0)
  {
    var wanted, passing := [false, true], [true, true];
    assert Count(wanted, 1) == 0 && Count(wanted, 2) == 1 && Count(passing, 1) == 1 && Count(passing, 2) == 2;
    ExecutedByOne(passing, 1, 1, 0);
    ExecutedByOne(passing, 1, 1, 1);
  }
}
