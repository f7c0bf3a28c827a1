/** `assign_balanced` of `bench/nfs_scan.py`: longest-first greedy scheduling and how good it is. */
module Balance {
  import opened Arithmetic
  import opened Partitions

  // ---------------------------------------------------------------- assignments and their loads

  /** Total weight of the jobs that assignment `a` puts on stream `m`. */
  function Load(weights: seq<nat>, a: seq<nat>, m: nat): nat
    requires |weights| == |a|
  {
    if a == [] then 0
    else
      var n := |a| - 1;
      Load(weights[..n], a[..n], m) + if a[n] == m then weights[n] else 0
  }

  function Sum(weights: seq<nat>): nat {
    if weights == [] then 0 else Sum(weights[..|weights| - 1]) + weights[|weights| - 1]
  }

  /** The loads of streams 0 .. n - 1 together. */
  function TotalLoad(weights: seq<nat>, a: seq<nat>, n: nat): nat
    requires |weights| == |a|
  {
    if n == 0 then 0 else TotalLoad(weights, a, n - 1) + Load(weights, a, n - 1)
  }

  ghost predicate IsAssignment(a: seq<nat>, jobs: nat, n: nat) {
    |a| == jobs && forall j :: 0 <= j < |a| ==> a[j] < n
  }

  lemma {:induction false} TotalLoadStep(weights: seq<nat>, a: seq<nat>, n: nat)
    requires |weights| == |a| > 0
    ensures var k := |a| - 1;
            TotalLoad(weights, a, n) == TotalLoad(weights[..k], a[..k], n) + if a[k] < n then weights[k] else 0
  {
    if n > 0 {
      TotalLoadStep(weights, a, n - 1);
    }
  }

  lemma {:induction false} EmptyLoads(n: nat)
    ensures TotalLoad([], [], n) == 0
  {
    if n > 0 {
      EmptyLoads(n - 1);
    }
  }

  /** Each job is on one stream, so the loads add up to all the work. */
  lemma {:induction false} LoadsAddUp(weights: seq<nat>, a: seq<nat>, n: nat)
    requires IsAssignment(a, |weights|, n)
    ensures TotalLoad(weights, a, n) == Sum(weights)
  {
    if a == [] {
      EmptyLoads(n);
    } else {
      LoadsAddUp(weights[..|a| - 1], a[..|a| - 1], n);
      TotalLoadStep(weights, a, n);
    }
  }

  lemma {:induction false} TotalAtMost(weights: seq<nat>, a: seq<nat>, n: nat, bound: nat)
    requires |weights| == |a| && forall m :: 0 <= m < n ==> Load(weights, a, m) <= bound
    ensures TotalLoad(weights, a, n) <= n * bound
  {
    if n > 0 {
      TotalAtMost(weights, a, n - 1, bound);
      assert n * bound == (n - 1) * bound + bound;
    }
  }

  lemma {:induction false} TotalAtLeast(weights: seq<nat>, a: seq<nat>, n: nat, bound: nat)
    requires |weights| == |a| && forall m :: 0 <= m < n ==> bound <= Load(weights, a, m)
    ensures n * bound <= TotalLoad(weights, a, n)
  {
    if n > 0 {
      TotalAtLeast(weights, a, n - 1, bound);
      assert n * bound == (n - 1) * bound + bound;
    }
  }

  lemma {:induction false} OneJobFits(weights: seq<nat>, a: seq<nat>, j: nat)
    requires j < |weights| == |a|
    ensures weights[j] <= Load(weights, a, a[j])
  {
    if j < |a| - 1 {
      OneJobFits(weights[..|a| - 1], a[..|a| - 1], j);
    }
  }

  // ---------------------------------------------------------------- the greedy rule

  /** `load.index(min(load))` over streams 0 .. n - 1: the first one of least load. */
  function FirstLeast(jobs: seq<nat>, a: seq<nat>, n: nat): (m: nat)
    requires |jobs| == |a| && 0 < n
    ensures m < n
    ensures forall i :: 0 <= i < n ==> Load(jobs, a, m) <= Load(jobs, a, i)
    ensures forall i :: 0 <= i < m ==> Load(jobs, a, m) < Load(jobs, a, i)
  {
    if n == 1 then 0
    else
      var best := FirstLeast(jobs, a, n - 1);
      if Load(jobs, a, n - 1) < Load(jobs, a, best) then n - 1 else best
  }

  /** Each job in turn goes to the stream with the least work so far. */
  function Greedy(jobs: seq<nat>, n: nat): (a: seq<nat>)
    requires 0 < n
    ensures IsAssignment(a, |jobs|, n)
  {
    if jobs == [] then []
    else
      var before := Greedy(jobs[..|jobs| - 1], n);
      before + [FirstLeast(jobs[..|jobs| - 1], before, n)]
  }

  ghost predicate Descending(jobs: seq<nat>) {
    forall i, j :: 0 <= i < j < |jobs| ==> jobs[j] <= jobs[i]
  }

  /** `other` spreads the jobs over `n` streams with no load above `best`. */
  ghost predicate Schedule(jobs: seq<nat>, other: seq<nat>, n: nat, best: nat) {
    IsAssignment(other, |jobs|, n) && forall m :: 0 <= m < n ==> Load(jobs, other, m) <= best
  }

  lemma ShorterSchedule(jobs: seq<nat>, other: seq<nat>, n: nat, best: nat)
    requires jobs != [] && Schedule(jobs, other, n, best)
    ensures Schedule(jobs[..|jobs| - 1], other[..|jobs| - 1], n, best)
    ensures jobs[|jobs| - 1] <= best
  {
    var k := |jobs| - 1;
    OneJobFits(jobs, other, k);
    forall m | 0 <= m < n
      ensures Load(jobs[..k], other[..k], m) <= Load(jobs, other, m)
    {
    }
  }

  /** The stream that receives the last job had at most an average share of the rest. */
  lemma LastJobBound(jobs: seq<nat>, other: seq<nat>, n: nat, best: nat)
    requires 0 < n && jobs != [] && Schedule(jobs, other, n, best)
    ensures var k := |jobs| - 1;
            var a := Greedy(jobs[..k], n);
            n * Load(jobs[..k], a, FirstLeast(jobs[..k], a, n)) + jobs[k] <= n * best
  {
    var k := |jobs| - 1;
    var a := Greedy(jobs[..k], n);
    var least := Load(jobs[..k], a, FirstLeast(jobs[..k], a, n));
    TotalAtLeast(jobs[..k], a, n, least);
    LoadsAddUp(jobs[..k], a, n);
    LoadsAddUp(jobs, other, n);
    TotalAtMost(jobs, other, n, best);
  }

  lemma GreedyLoads(jobs: seq<nat>, n: nat, m: nat)
    requires 0 < n && jobs != [] && m < n
    ensures var k := |jobs| - 1;
            var a := Greedy(jobs[..k], n);
            Load(jobs, Greedy(jobs, n), m)
            == Load(jobs[..k], a, m) + if m == FirstLeast(jobs[..k], a, n) then jobs[k] else 0
  {
    var k := |jobs| - 1;
    var a := Greedy(jobs, n);
    assert a == Greedy(jobs[..k], n) + [FirstLeast(jobs[..k], Greedy(jobs[..k], n), n)];
    hide Greedy, FirstLeast, Load;
    assert a[..k] == Greedy(jobs[..k], n);
    LoadLast(jobs, a, m);
  }

  lemma LoadLast(weights: seq<nat>, a: seq<nat>, m: nat)
    requires |weights| == |a| > 0
    ensures var k := |a| - 1;
            Load(weights, a, m) == Load(weights[..k], a[..k], m) + if a[k] == m then weights[k] else 0
  {
  }

  /** List scheduling in any order: no stream gets more than 2 - 1/n times the least possible maximum. */
  lemma {:induction false} ListSchedulingBound(jobs: seq<nat>, other: seq<nat>, n: nat, best: nat, m: nat)
    requires m < n && Schedule(jobs, other, n, best)
    ensures n * Load(jobs, Greedy(jobs, n), m) <= (2 * n - 1) * best
  {
    NoLoad(n, m);
    hide *;
    if jobs != [] {
      var k := |jobs| - 1;
      var a := Greedy(jobs[..k], n);
      ScheduleLength(jobs, other, n, best);
      ShorterSchedule(jobs, other, n, best);
      ListSchedulingBound(jobs[..k], other[..k], n, best, m);
      LastJobBound(jobs, other, n, best);
      GreedyLoads(jobs, n, m);
      if m == FirstLeast(jobs[..k], a, n) {
        TwiceBound(n, Load(jobs[..k], a, m), jobs[k], best);
      }
    } else {
      Product(2 * n - 1, best);
    }
  }

  lemma NoLoad(n: nat, m: nat)
    requires 0 < n
    ensures Load([], Greedy([], n), m) == 0
  {
  }

  lemma ScheduleLength(jobs: seq<nat>, other: seq<nat>, n: nat, best: nat)
    requires Schedule(jobs, other, n, best)
    ensures |other| == |jobs|
  {
  }

  lemma Product(a: nat, b: nat)
    ensures 0 <= a * b
  {
  }

  lemma TwiceBound(n: nat, least: nat, p: nat, best: nat)
    requires 0 < n && n * least + p <= n * best && p <= best
    ensures n * (least + p) <= (2 * n - 1) * best
  {
    MulMonotone(p, best, n - 1);
    Spread(n, least, p);
    Spread(n, 0, best);
    assert (2 * n - 1) * best == n * best + (n - 1) * best;
  }

  /** A stream's share and one job, counted `n` times. */
  lemma Spread(n: nat, x: nat, p: nat)
    requires 0 < n
    ensures n * (x + p) == n * x + (n - 1) * p + p
  {
  }

  // ---------------------------------------------------------------- longest first

  /** A job counts double if it cannot share a stream with `p` below `best`. */
  function Weight(q: nat, p: nat, best: nat): nat {
    if q + p > best then 2 else 1
  }

  function Weights(jobs: seq<nat>, p: nat, best: nat): (w: seq<nat>)
    ensures |w| == |jobs|
    ensures forall j :: 0 <= j < |jobs| ==> w[j] == Weight(jobs[j], p, best)
  {
    seq(|jobs|, j requires 0 <= j < |jobs| => Weight(jobs[j], p, best))
  }

  /** A stream too full for `p` carries weight at least 2. */
  lemma {:induction false} FullStreamsWeigh(jobs: seq<nat>, a: seq<nat>, m: nat, p: nat, best: nat)
    requires |jobs| == |a| && p <= best
    ensures Load(Weights(jobs, p, best), a, m) == 0 ==> Load(jobs, a, m) == 0
    ensures Load(Weights(jobs, p, best), a, m) == 1 ==> Load(jobs, a, m) + p <= best
  {
    if jobs != [] {
      var k := |jobs| - 1;
      FullStreamsWeigh(jobs[..k], a[..k], m, p, best);
      assert Weights(jobs, p, best)[..k] == Weights(jobs[..k], p, best);
    }
  }

  /** Among jobs no shorter than p > best / 3, a stream of load at most `best` carries weight at most 2. */
  lemma {:induction false} LightStreamsWeigh(jobs: seq<nat>, a: seq<nat>, m: nat, p: nat, best: nat)
    requires |jobs| == |a| && p <= best < 3 * p && forall j :: 0 <= j < |jobs| ==> p <= jobs[j]
    ensures LeastLoad(Load(Weights(jobs, p, best), a, m), p, best) <= Load(jobs, a, m)
  {
    if jobs != [] {
      var k := |jobs| - 1;
      LightStreamsWeigh(jobs[..k], a[..k], m, p, best);
      assert Weights(jobs, p, best)[..k] == Weights(jobs[..k], p, best);
    }
  }

  /** The least load that jobs of total weight `w` can have. */
  function LeastLoad(w: nat, p: nat, best: nat): int {
    if w == 0 then 0
    else if w == 1 then p
    else if w == 2 then (if 2 * p <= best - p + 1 then 2 * p else best - p + 1)
    else best + 1
  }

  /** A job longer than a third of the best maximum always finds a stream where it stays below that maximum. */
  lemma LongJobFits(jobs: seq<nat>, other: seq<nat>, n: nat, best: nat)
    requires 0 < n && jobs != [] && Descending(jobs) && Schedule(jobs, other, n, best)
    requires best < 3 * jobs[|jobs| - 1]
    ensures var k := |jobs| - 1;
            var a := Greedy(jobs[..k], n);
            Load(jobs[..k], a, FirstLeast(jobs[..k], a, n)) + jobs[k] <= best
  {
    var k, p := |jobs| - 1, jobs[|jobs| - 1];
    var a := Greedy(jobs[..k], n);
    var least := FirstLeast(jobs[..k], a, n);
    ShorterSchedule(jobs, other, n, best);
    if Load(jobs[..k], a, least) + p > best {
      assert p <= best && |other| == |jobs| && forall j :: 0 <= j < |jobs| ==> p <= jobs[j];
      assert forall m :: 0 <= m < n ==> Load(jobs, other, m) <= best;
      assert forall m :: 0 <= m < n ==> Load(jobs[..k], a, least) <= Load(jobs[..k], a, m);
      var w, w' := Weights(jobs, p, best), Weights(jobs[..k], p, best);
      assert w[..k] == w';
      hide Load, Greedy, FirstLeast, Descending, Schedule;
      forall m | 0 <= m < n
        ensures 2 <= Load(w', a, m) && Load(w, other, m) <= 2
      {
        FullStreamsWeigh(jobs[..k], a, m, p, best);
        LightStreamsWeigh(jobs, other, m, p, best);
      }
      TotalAtLeast(w', a, n, 2);
      TotalAtMost(w, other, n, 2);
      LoadsAddUp(w', a, n);
      LoadsAddUp(w, other, n);
    }
  }

  /** Longest first: no stream gets more than 4/3 - 1/(3n) times the least possible maximum. */
  lemma {:induction false} LongestFirstBound(jobs: seq<nat>, other: seq<nat>, n: nat, best: nat, m: nat)
    requires m < n && Descending(jobs) && Schedule(jobs, other, n, best)
    ensures 3 * n * Load(jobs, Greedy(jobs, n), m) <= (4 * n - 1) * best
  {
    if jobs != [] {
      hide Load, Greedy, Schedule;
      var k := |jobs| - 1;
      var a := Greedy(jobs[..k], n);
      ShorterSchedule(jobs, other, n, best);
      LongestFirstBound(jobs[..k], other[..k], n, best, m);
      LastJobBound(jobs, other, n, best);
      GreedyLoads(jobs, n, m);
      if m == FirstLeast(jobs[..k], a, n) {
        if best < 3 * jobs[k] {
          LongJobFits(jobs, other, n, best);
        }
        FourThirdsBound(n, Load(jobs[..k], a, m), jobs[k], best);
      }
    } else {
      Product(4 * n - 1, best);
    }
  }

  lemma Regroup(n: nat, x: nat)
    ensures 3 * n * x == 3 * (n * x) && n * x == x * n
  {
  }

  lemma FourTimes(n: nat, best: nat)
    requires 0 < n
    ensures (4 * n - 1) * best == 3 * (n * best) + (n - 1) * best
    ensures n * best == best * n && (n - 1) * best == best * (n - 1)
  {
  }

  lemma TripleOut(a: nat, p: nat)
    ensures a * (3 * p) == 3 * (a * p) == (3 * p) * a
  {
  }

  lemma FourThirdsBound(n: nat, least: nat, p: nat, best: nat)
    requires 0 < n && n * least + p <= n * best
    requires best < 3 * p ==> least + p <= best
    ensures 3 * n * (least + p) <= (4 * n - 1) * best
  {
    Regroup(n, least + p);
    FourTimes(n, best);
    if best < 3 * p {
      MulMonotone(least + p, best, n);
      Product(n - 1, best);
    } else {
      Spread(n, least, p);
      MulMonotone(3 * p, best, n - 1);
      TripleOut(n - 1, p);
    }
  }

  /** Two streams and jobs 3, 3, 2, 2, 2: the bound is met exactly (7 against 6), so it cannot be improved. */
  lemma LongestFirstBoundIsTight()
    ensures var jobs := [3, 3, 2, 2, 2];
            && Descending(jobs) && Schedule(jobs, [0, 0, 1, 1, 1], 2, 6)
            && 3 * 2 * Load(jobs, Greedy(jobs, 2), 0) == (4 * 2 - 1) * 6
  {
    hide Load, Greedy, FirstLeast;
    Nothing();
    var j: seq<nat>, greedy: seq<nat>, best: seq<nat> := [], [], [];
    j, greedy, best := GrowBoth(j, greedy, best, 3, 0, 0);
    j, greedy, best := GrowBoth(j, greedy, best, 3, 1, 0);
    j, greedy, best := GrowBoth(j, greedy, best, 2, 0, 1);
    j, greedy, best := GrowBoth(j, greedy, best, 2, 1, 1);
    j, greedy, best := GrowBoth(j, greedy, best, 2, 0, 1);
    assert j == [3, 3, 2, 2, 2] && best == [0, 0, 1, 1, 1];
  }

  lemma GrowBoth(jobs: seq<nat>, greedy: seq<nat>, best: seq<nat>, job: nat, g: nat, b: nat)
    returns (jobs': seq<nat>, greedy': seq<nat>, best': seq<nat>)
    requires |jobs| == |greedy| == |best| && greedy == Greedy(jobs, 2)
    requires g == if Load(jobs, greedy, 1) < Load(jobs, greedy, 0) then 1 else 0
    ensures jobs' == jobs + [job] && greedy' == Greedy(jobs', 2) && best' == best + [b] && |jobs'| == |greedy'| == |best'|
    ensures Load(jobs', greedy', 0) == Load(jobs, greedy, 0) + if g == 0 then job else 0
    ensures Load(jobs', greedy', 1) == Load(jobs, greedy, 1) + if g == 1 then job else 0
    ensures Load(jobs', best', 0) == Load(jobs, best, 0) + if b == 0 then job else 0
    ensures Load(jobs', best', 1) == Load(jobs, best, 1) + if b == 1 then job else 0
  {
    hide Load, FirstLeast;
    Grow(jobs, greedy, job, g);
    Grow(jobs, best, job, b);
    return jobs + [job], greedy + [g], best + [b];
  }

  lemma Nothing()
    ensures Load([], [], 0) == 0 && Load([], [], 1) == 0 && Greedy([], 2) == []
  {
  }

  /** One more job: its effect on the loads, and on the greedy assignment. */
  lemma Grow(jobs: seq<nat>, a: seq<nat>, job: nat, m: nat)
    requires |jobs| == |a|
    ensures Load(jobs + [job], a + [m], 0) == Load(jobs, a, 0) + if 0 == m then job else 0
    ensures Load(jobs + [job], a + [m], 1) == Load(jobs, a, 1) + if 1 == m then job else 0
    ensures a == Greedy(jobs, 2) ==>
              Greedy(jobs + [job], 2) == a + [if Load(jobs, a, 1) < Load(jobs, a, 0) then 1 else 0]
  {
    hide Load;
    assert (jobs + [job])[..|jobs|] == jobs && (a + [m])[..|a|] == a;
    GrowLoad(jobs, a, job, m, 0);
    GrowLoad(jobs, a, job, m, 1);
  }

  lemma GrowLoad(jobs: seq<nat>, a: seq<nat>, job: nat, m: nat, i: nat)
    requires |jobs| == |a|
    ensures Load(jobs + [job], a + [m], i) == Load(jobs, a, i) + if i == m then job else 0
  {
    assert (jobs + [job])[..|jobs|] == jobs && (a + [m])[..|a|] == a;
  }

  // ---------------------------------------------------------------- sorting

  /** Keeps a descending list descending; `p` goes behind its equals, as a stable sort requires. */
  function Insert(sorted: seq<Partition>, p: Partition): (r: seq<Partition>)
    ensures multiset(r) == multiset(sorted) + multiset{p}
  {
    if sorted == [] then [p]
    else
      var n := |sorted| - 1;
      assert sorted == sorted[..n] + [sorted[n]];
      if p.length <= sorted[n].length then sorted + [p] else Insert(sorted[..n], p) + [sorted[n]]
  }

  /** `sorted(partitions, key=lambda p: p.length, reverse=True)` */
  function LongestFirst(parts: seq<Partition>): (r: seq<Partition>)
    ensures multiset(r) == multiset(parts)
  {
    if parts == [] then []
    else
      var n := |parts| - 1;
      assert parts == parts[..n] + [parts[n]];
      Insert(LongestFirst(parts[..n]), parts[n])
  }

  function Sizes(parts: seq<Partition>): (s: seq<nat>)
    ensures |s| == |parts| && forall i :: 0 <= i < |parts| ==> s[i] == parts[i].length
  {
    seq(|parts|, i requires 0 <= i < |parts| => parts[i].length)
  }

  ghost predicate LengthsDescend(parts: seq<Partition>) {
    forall i, j :: 0 <= i < j < |parts| ==> parts[j].length <= parts[i].length
  }

  lemma {:induction false} InsertDescending(sorted: seq<Partition>, p: Partition)
    requires LengthsDescend(sorted)
    ensures LengthsDescend(Insert(sorted, p))
  {
    hide Insert;
    InsertLast(sorted, p);
    if sorted != [] {
      var n := |sorted| - 1;
      var front := Insert(sorted[..n], p);
      InsertDescending(sorted[..n], p);
      forall i | 0 <= i < |front|
        ensures sorted[n].length <= p.length ==> sorted[n].length <= front[i].length
      {
        InsertElement(sorted[..n], p, i);
      }
    }
  }

  lemma {:induction false} InsertElement(sorted: seq<Partition>, p: Partition, i: nat)
    requires i < |Insert(sorted, p)|
    ensures Insert(sorted, p)[i] == p || Insert(sorted, p)[i] in sorted
  {
    assert Insert(sorted, p)[i] in multiset(Insert(sorted, p));
    hide Insert;
    assert multiset(Insert(sorted, p)) == multiset(sorted) + multiset{p};
  }

  lemma {:induction false} LongestFirstDescending(parts: seq<Partition>)
    ensures LengthsDescend(LongestFirst(parts))
  {
    if parts != [] {
      LongestFirstDescending(parts[..|parts| - 1]);
      InsertDescending(LongestFirst(parts[..|parts| - 1]), parts[|parts| - 1]);
    }
  }

  function OfLength(parts: seq<Partition>, length: nat): seq<Partition> {
    if parts == [] then []
    else OfLength(parts[..|parts| - 1], length) + if parts[|parts| - 1].length == length then [parts[|parts| - 1]] else []
  }

  lemma OfLengthLast(parts: seq<Partition>, p: Partition, length: nat)
    ensures OfLength(parts + [p], length) == OfLength(parts, length) + if p.length == length then [p] else []
  {
    assert (parts + [p])[..|parts|] == parts;
  }

  lemma {:induction false} InsertStable(sorted: seq<Partition>, p: Partition, length: nat)
    ensures OfLength(Insert(sorted, p), length) == OfLength(sorted, length) + if p.length == length then [p] else []
  {
    hide OfLength;
    if sorted == [] || p.length <= sorted[|sorted| - 1].length {
      assert Insert(sorted, p) == sorted + [p];
      OfLengthLast(sorted, p, length);
    } else {
      var n := |sorted| - 1;
      InsertStable(sorted[..n], p, length);
      OfLengthLast(Insert(sorted[..n], p), sorted[n], length);
      OfLengthLast(sorted[..n], sorted[n], length);
      assert sorted == sorted[..n] + [sorted[n]];
    }
  }

  /** Pieces of equal length keep their order. */
  lemma {:induction false} LongestFirstStable(parts: seq<Partition>, length: nat)
    ensures OfLength(LongestFirst(parts), length) == OfLength(parts, length)
  {
    if parts != [] {
      LongestFirstStable(parts[..|parts| - 1], length);
      InsertStable(LongestFirst(parts[..|parts| - 1]), parts[|parts| - 1], length);
    }
  }

  // ---------------------------------------------------------------- the method

  /** The pieces that assignment `a` puts on stream `m`, in order. */
  function Share(parts: seq<Partition>, a: seq<nat>, m: nat): seq<Partition>
    requires |parts| == |a|
  {
    if a == [] then []
    else
      var n := |a| - 1;
      Share(parts[..n], a[..n], m) + if a[n] == m then [parts[n]] else []
  }

  /** `load.index(min(load))` */
  method IndexOfMin(load: array<nat>) returns (target: nat)
    requires 0 < load.Length
    ensures target < load.Length
    ensures forall i :: 0 <= i < load.Length ==> load[target] <= load[i]
    ensures forall i :: 0 <= i < target ==> load[target] < load[i]
  {
    target := 0;
    for i := 1 to load.Length
      invariant target < i
      invariant forall j :: 0 <= j < i ==> load[target] <= load[j]
      invariant forall j :: 0 <= j < target ==> load[target] < load[j]
    {
      if load[i] < load[target] {
        target := i;
      }
    }
  }

  /** Deals the pieces out longest first, each to the stream with the least bytes so far. */
  method AssignBalanced(partitions: seq<Partition>, nstreams: nat)
    returns (buckets: array<seq<Partition>>, load: array<nat>)
    requires 0 < nstreams
    ensures fresh(buckets) && fresh(load) && buckets.Length == load.Length == nstreams
    ensures var sorted := LongestFirst(partitions);
            var a := Greedy(Sizes(sorted), nstreams);
            forall m :: 0 <= m < nstreams ==> buckets[m] == Share(sorted, a, m) && load[m] == Load(Sizes(sorted), a, m)
  {
    hide *;
    buckets, load := NoWork(nstreams);
    var sorted := LongestFirst(partitions);
    NothingDealt(buckets[..], load[..], sorted);
    for k := 0 to |sorted|
      invariant Streams(buckets[..], load[..], sorted, k)
    {
      Deal(buckets, load, sorted, k);
    }
    AllDealt(buckets[..], load[..], sorted);
  }

  method Deal(buckets: array<seq<Partition>>, load: array<nat>, sorted: seq<Partition>, k: nat)
    requires 0 < buckets.Length == load.Length && k < |sorted| && Streams(buckets[..], load[..], sorted, k)
    modifies buckets, load
    ensures Streams(buckets[..], load[..], sorted, k + 1)
  {
    hide Streams;
    ghost var bs, ls := buckets[..], load[..];
    var target := IndexOfMin(load);
    DealNext(bs, ls, sorted, k, target);
    buckets[target] := buckets[target] + [sorted[k]];
    load[target] := load[target] + sorted[k].length;
    assert buckets[..] == bs[target := bs[target] + [sorted[k]]];
    assert load[..] == ls[target := ls[target] + sorted[k].length];
  }

  method NoWork(nstreams: nat) returns (buckets: array<seq<Partition>>, load: array<nat>)
    ensures fresh(buckets) && fresh(load) && buckets.Length == load.Length == nstreams
    ensures forall m :: 0 <= m < nstreams ==> buckets[m] == [] && load[m] == 0
  {
    buckets := new seq<Partition>[nstreams](_ => []);
    load := new nat[nstreams](_ => 0);
  }

  /** The streams after the first `k` pieces: what each got and how much that is. */
  ghost predicate Streams(bs: seq<seq<Partition>>, ls: seq<nat>, sorted: seq<Partition>, k: nat)
    requires 0 < |bs| == |ls| && k <= |sorted|
  {
    var jobs := Sizes(sorted)[..k];
    var a := Greedy(jobs, |bs|);
    forall m :: 0 <= m < |bs| ==> bs[m] == Share(sorted[..k], a, m) && ls[m] == Load(jobs, a, m)
  }

  lemma NothingDealt(bs: seq<seq<Partition>>, ls: seq<nat>, sorted: seq<Partition>)
    requires 0 < |bs| == |ls| && forall m :: 0 <= m < |bs| ==> bs[m] == [] && ls[m] == 0
    ensures Streams(bs, ls, sorted, 0)
  {
  }

  lemma AllDealt(bs: seq<seq<Partition>>, ls: seq<nat>, sorted: seq<Partition>)
    requires 0 < |bs| == |ls| && Streams(bs, ls, sorted, |sorted|)
    ensures forall m :: 0 <= m < |bs| ==>
              && bs[m] == Share(sorted, Greedy(Sizes(sorted), |bs|), m)
              && ls[m] == Load(Sizes(sorted), Greedy(Sizes(sorted), |bs|), m)
  {
    assert sorted[..|sorted|] == sorted && Sizes(sorted)[..|sorted|] == Sizes(sorted);
  }

  /** Giving the next piece to the first stream of least load is the greedy rule. */
  lemma DealNext(bs: seq<seq<Partition>>, ls: seq<nat>, sorted: seq<Partition>, k: nat, target: nat)
    requires 0 < |bs| == |ls| && k < |sorted| && Streams(bs, ls, sorted, k) && target < |ls|
    requires forall i :: 0 <= i < |ls| ==> ls[target] <= ls[i]
    requires forall i :: 0 <= i < target ==> ls[target] < ls[i]
    ensures Streams(bs[target := bs[target] + [sorted[k]]], ls[target := ls[target] + sorted[k].length], sorted, k + 1)
  {
    var jobs, n := Sizes(sorted), |bs|;
    var a := Greedy(jobs[..k], n);
    assert forall m :: 0 <= m < n ==> bs[m] == Share(sorted[..k], a, m) && ls[m] == Load(jobs[..k], a, m);
    hide Share, Load, Greedy, FirstLeast, Sizes;
    TargetIsLeast(jobs[..k], a, n, ls, target);
    GreedyGrows(jobs, k, n);
    forall m | 0 <= m < n
      ensures Share(sorted[..k + 1], a + [target], m) == bs[m] + if m == target then [sorted[k]] else []
      ensures Load(jobs[..k + 1], a + [target], m) == ls[m] + if m == target then sorted[k].length else 0
    {
      StreamGrows(sorted, jobs, k, a, target, m);
    }
  }

  lemma TargetIsLeast(jobs: seq<nat>, a: seq<nat>, n: nat, ls: seq<nat>, target: nat)
    requires |jobs| == |a| && 0 < n == |ls| && target < n && forall m :: 0 <= m < n ==> ls[m] == Load(jobs, a, m)
    requires forall i :: 0 <= i < |ls| ==> ls[target] <= ls[i]
    requires forall i :: 0 <= i < target ==> ls[target] < ls[i]
    ensures FirstLeast(jobs, a, n) == target
  {
    var least := FirstLeast(jobs, a, n);
    assert ls[target] <= ls[least] && ls[least] == Load(jobs, a, least) && ls[target] == Load(jobs, a, target);
    hide Load;
  }

  lemma GreedyGrows(jobs: seq<nat>, k: nat, n: nat)
    requires 0 < n && k < |jobs|
    ensures var a := Greedy(jobs[..k], n);
            Greedy(jobs[..k + 1], n) == a + [FirstLeast(jobs[..k], a, n)]
  {
    assert jobs[..k + 1][..k] == jobs[..k];
  }

  lemma StreamGrows(sorted: seq<Partition>, jobs: seq<nat>, k: nat, a: seq<nat>, at: nat, m: nat)
    requires jobs == Sizes(sorted) && k < |sorted| && |a| == k
    ensures Share(sorted[..k + 1], a + [at], m)
            == Share(sorted[..k], a, m) + if m == at then [sorted[k]] else []
    ensures Load(jobs[..k + 1], a + [at], m) == Load(jobs[..k], a, m) + if m == at then sorted[k].length else 0
  {
    assert sorted[..k + 1][..k] == sorted[..k] && jobs[..k + 1][..k] == jobs[..k] && (a + [at])[..k] == a;
  }

  // ---------------------------------------------------------------- what balancing guarantees

  function AllShares(parts: seq<Partition>, a: seq<nat>, n: nat): multiset<Partition>
    requires |parts| == |a|
  {
    if n == 0 then multiset{} else AllShares(parts, a, n - 1) + multiset(Share(parts, a, n - 1))
  }

  lemma {:induction false} AllSharesStep(parts: seq<Partition>, a: seq<nat>, n: nat)
    requires |parts| == |a| > 0
    ensures var k := |a| - 1;
            AllShares(parts, a, n) == AllShares(parts[..k], a[..k], n) + if a[k] < n then multiset{parts[k]} else multiset{}
  {
    hide Share;
    if n > 0 {
      AllSharesStep(parts, a, n - 1);
      ShareStep(parts, a, n - 1);
    }
  }

  lemma ShareStep(parts: seq<Partition>, a: seq<nat>, m: nat)
    requires |parts| == |a| > 0
    ensures var k := |a| - 1;
            multiset(Share(parts, a, m)) == multiset(Share(parts[..k], a[..k], m)) + if a[k] == m then multiset{parts[k]} else multiset{}
  {
  }

  lemma {:induction false} EmptyShares(n: nat)
    ensures AllShares([], [], n) == multiset{}
  {
    if n > 0 {
      EmptyShares(n - 1);
    }
  }

  /** The streams' pieces together are the given pieces: none lost, none doubled. */
  lemma {:induction false} SharesArePartition(parts: seq<Partition>, a: seq<nat>, n: nat)
    requires IsAssignment(a, |parts|, n)
    ensures AllShares(parts, a, n) == multiset(parts)
  {
    if parts == [] {
      EmptyShares(n);
    } else {
      var k := |parts| - 1;
      SharesArePartition(parts[..k], a[..k], n);
      AllSharesStep(parts, a, n);
      assert parts == parts[..k] + [parts[k]];
    }
  }

  /** A load counter is the number of bytes in its bucket. */
  lemma {:induction false} LoadIsShareLength(parts: seq<Partition>, a: seq<nat>, m: nat)
    requires |parts| == |a|
    ensures Load(Sizes(parts), a, m) == Lengths(Share(parts, a, m))
  {
    if parts != [] {
      var k := |parts| - 1;
      LoadIsShareLength(parts[..k], a[..k], m);
      assert Sizes(parts)[..k] == Sizes(parts[..k]);
      var before := Share(parts[..k], a[..k], m);
      LengthsAppend(before, parts[k]);
      assert before + [] == before;
    }
  }

  lemma LoadOfLast(parts: seq<Partition>, p: Partition, a: seq<nat>, at: nat)
    requires |parts| == |a|
    ensures forall m :: Load(Sizes(parts + [p]), a + [at], m)
                        == Load(Sizes(parts), a, m) + if m == at then p.length else 0
  {
    assert Sizes(parts + [p])[..|parts|] == Sizes(parts) && (a + [at])[..|a|] == a;
  }

  lemma InsertLast(sorted: seq<Partition>, p: Partition)
    ensures var k := |sorted| - 1;
            Insert(sorted, p) == if sorted == [] || p.length <= sorted[k].length then sorted + [p]
                                 else Insert(sorted[..k], p) + [sorted[k]]
  {
  }

  /** Wherever sorting puts a piece, some assignment of the sorted list has the same loads. */
  lemma {:induction false} InsertAssignment(sorted: seq<Partition>, p: Partition, a: seq<nat>, at: nat, n: nat)
    returns (a': seq<nat>)
    requires IsAssignment(a, |sorted|, n) && at < n
    ensures IsAssignment(a', |Insert(sorted, p)|, n)
    ensures forall m :: Load(Sizes(Insert(sorted, p)), a', m)
                        == Load(Sizes(sorted), a, m) + if m == at then p.length else 0
  {
    hide Load, Sizes, Insert;
    var k := |sorted| - 1;
    InsertLast(sorted, p);
    if sorted == [] || p.length <= sorted[k].length {
      a' := a + [at];
      LoadOfLast(sorted, p, a, at);
    } else {
      var front := InsertAssignment(sorted[..k], p, a[..k], at, n);
      a' := front + [a[k]];
      assert sorted == sorted[..k] + [sorted[k]] && a == a[..k] + [a[k]];
      LoadOfLast(Insert(sorted[..k], p), sorted[k], front, a[k]);
      LoadOfLast(sorted[..k], sorted[k], a[..k], a[k]);
    }
  }

  lemma SortLast(parts: seq<Partition>)
    ensures var k := |parts| - 1;
            LongestFirst(parts) == if parts == [] then [] else Insert(LongestFirst(parts[..k]), parts[k])
  {
    hide Insert;
  }

  lemma {:induction false} SortAssignment(parts: seq<Partition>, a: seq<nat>, n: nat) returns (a': seq<nat>)
    requires IsAssignment(a, |parts|, n)
    ensures IsAssignment(a', |LongestFirst(parts)|, n)
    ensures forall m :: Load(Sizes(LongestFirst(parts)), a', m) == Load(Sizes(parts), a, m)
  {
    SortLast(parts);
    hide Load, Sizes, Insert, LongestFirst;
    if parts == [] {
      a' := a;
    } else {
      var k := |parts| - 1;
      var front := SortAssignment(parts[..k], a[..k], n);
      a' := InsertAssignment(LongestFirst(parts[..k]), parts[k], front, a[k], n);
      assert parts == parts[..k] + [parts[k]] && a == a[..k] + [a[k]];
      LoadOfLast(parts[..k], parts[k], a[..k], a[k]);
    }
  }

  /**
   The streams that `AssignBalanced` builds hold exactly the given pieces, their counters are the bytes they hold, and
   against any other way `other` of spreading the same pieces over as many streams they meet both of Graham's bounds:
   2 - 1/n, and because pieces go longest first 4/3 - 1/(3n), times its heaviest load.
   */
  lemma BalancedWell(partitions: seq<Partition>, n: nat, other: seq<nat>, best: nat, m: nat)
    requires m < n && Schedule(Sizes(partitions), other, n, best)
    ensures var sorted := LongestFirst(partitions);
            var a := Greedy(Sizes(sorted), n);
            && AllShares(sorted, a, n) == multiset(partitions)
            && Load(Sizes(sorted), a, m) == Lengths(Share(sorted, a, m))
            && n * Load(Sizes(sorted), a, m) <= (2 * n - 1) * best
            && 3 * n * Load(Sizes(sorted), a, m) <= (4 * n - 1) * best
  {
    var sorted := LongestFirst(partitions);
    var a := Greedy(Sizes(sorted), n);
    SharesArePartition(sorted, a, n);
    LoadIsShareLength(sorted, a, m);
    LongestFirstDescending(partitions);
    var other' := SortAssignment(partitions, other, n);
    ListSchedulingBound(Sizes(sorted), other', n, best, m);
    LongestFirstBound(Sizes(sorted), other', n, best, m);
  }
}
