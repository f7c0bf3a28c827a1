/** The launcher's shards and the adapters' indices name the same GPUs. */
module ShardAgreement {
  import opened Arithmetic
  import opened Bytes
  import opened Shards

  // ---------------------------------------------------------------- the trainer side

  /** What an adapter derives from its global rank: node, shard on the node, place in the shard. */
  datatype Place = Place(node: nat, shard: nat, tpRank: nat)

  function AdapterPlace(rank: nat, local: nat, tp: nat): Place
    requires 0 < local && 0 < tp
  {
    Place(rank / local, rank % local / tp, rank % local % tp)
  }

  /** `_build_shard_tp_group`: the one contiguous group of `tp` ranks that has `rank` in it, and its first rank. */
  method BuildShardTpGroup(rank: nat, worldSize: nat, tp: nat) returns (ok: bool, group: seq<nat>)
    requires 0 < tp && rank < worldSize
    ensures ok <==> worldSize % tp == 0
    ensures ok ==> |group| == tp && forall t :: 0 <= t < tp ==> group[t] == rank - rank % tp + t
  {
    if worldSize % tp != 0 {
      return false, [];
    }
    group := [];
    var base := 0;
    while base < worldSize
      invariant base % tp == 0 && base <= worldSize
      invariant rank < base ==> |group| == tp && forall t :: 0 <= t < tp ==> group[t] == rank - rank % tp + t
    {
      var ranks := seq(tp, t => base + t);
      NextMultiple(base, worldSize, tp);
      if rank in ranks {
        InBlock(rank, base, tp);
        group := ranks;
      }
      if base <= rank < base + tp {
        assert ranks[rank - base] == rank;
      }
      base := base + tp;
    }
    ok := true;
  }

  lemma NextMultiple(base: nat, n: nat, tp: nat)
    requires 0 < tp && base % tp == 0 && n % tp == 0 && base < n
    ensures (base + tp) % tp == 0 && base + tp <= n
  {
    ModSum(base, tp, tp);
    ModDifference(n, base, tp);
    if n < base + tp {
      DivModUnique(n - base, tp, 0, n - base);
    }
  }

  lemma InBlock(x: nat, base: nat, tp: nat)
    requires 0 < tp && base % tp == 0 && base <= x < base + tp
    ensures x % tp == x - base && x / tp == base / tp
  {
    var d := x - base;
    var q := base / tp;
    assert base == q * tp;
    assert x == q * tp + d;
    DivModUnique(x, tp, q, d);
  }

  // ---------------------------------------------------------------- a contiguous layout

  /** Ranks fill the nodes in order, `local` to a node; replicas of `width` ranks and nodes consist of whole shards. */
  datatype Cluster = Cluster(infos: seq<Worker>, nodes: seq<string>, local: nat, width: nat, tp: nat, offset: nat) {
    ghost predicate Valid() {
      && 0 < tp && 0 < local && 0 < width
      && local % tp == 0 && width % tp == 0
      && |infos| == |nodes| * local && |infos| % width == 0
      && (forall i, j :: 0 <= i < j < |nodes| ==> nodes[i] != nodes[j])
      && forall r :: 0 <= r < |infos| ==> r / local < |nodes| && infos[r].node == nodes[r / local]
    }

    function Gpus(a: nat, b: nat): (g: seq<string>)
      requires a <= b <= |infos|
      ensures |g| == b - a
    {
      seq(b - a, i requires 0 <= i < b - a => infos[a + i].gpu)
    }
  }

  /** The `local` ranks from `from` on are those on the node. */
  ghost predicate Owns(c: Cluster, node: string, from: nat)
    requires 0 < c.tp
  {
    && from + c.local <= |c.infos| && from % c.tp == 0
    && forall r :: 0 <= r < |c.infos| ==> (c.infos[r].node == node <==> from <= r < from + c.local)
  }

  lemma ClusterShape(c: Cluster)
    requires c.Valid()
    ensures 0 < c.tp && 0 < c.local && 0 < c.width && c.local % c.tp == 0 && c.width % c.tp == 0
    ensures |c.infos| == |c.nodes| * c.local && |c.infos| % c.width == 0
  {
  }

  /** A rank is on the node that its quotient says, and on no other. */
  lemma RankOnNode(c: Cluster, r: nat, j: nat, from: nat)
    requires c.Valid() && r < |c.infos| && j < |c.nodes| && from == j * c.local
    ensures r / c.local < |c.nodes| && c.infos[r].node == c.nodes[r / c.local]
    ensures c.infos[r].node == c.nodes[j] <==> from <= r < from + c.local
  {
    var q := r / c.local;
    assert q < |c.nodes| && c.infos[r].node == c.nodes[q];
    assert c.nodes[q] == c.nodes[j] <==> q == j;
    ClusterShape(c);
    hide *;
    QuotientRange(r, c.local, j);
  }

  lemma NodeOwns(c: Cluster, j: nat)
    requires c.Valid() && j < |c.nodes|
    ensures Owns(c, c.nodes[j], j * c.local)
  {
    hide Cluster.Valid;
    ClusterShape(c);
    RoomForShard(j, |c.nodes|, c.local);
    ModProduct(j, c.local, c.tp);
    var from := j * c.local;
    forall r | 0 <= r < |c.infos|
      ensures c.infos[r].node == c.nodes[j] <==> from <= r < from + c.local
    {
      RankOnNode(c, r, j, from);
    }
  }

  /** The GPUs of the ranks [lo, hi) that are on the node. */
  lemma {:induction false} SegmentGpus(c: Cluster, node: string, from: nat, lo: nat, hi: nat)
    requires 0 < c.tp && Owns(c, node, from) && lo <= hi <= |c.infos|
    ensures GpusOn(c.infos[lo..hi], node) == Part(c, from, lo, hi)
    decreases hi
  {
    hide *;
    OwnsInRange(c, node, from);
    if lo == hi {
      EmptySegment(c, node, from, lo);
    } else {
      var w := c.infos[hi - 1];
      SegmentGpus(c, node, from, lo, hi - 1);
      assert c.infos[lo..hi] == c.infos[lo..hi - 1] + [w];
      NextWorker(c.infos[lo..hi - 1], w);
      OwnsRank(c, node, from, hi - 1);
      PartGrows(c, from, lo, hi);
    }
  }

  lemma EmptySegment(c: Cluster, node: string, from: nat, lo: nat)
    requires from + c.local <= |c.infos| && lo <= |c.infos|
    ensures GpusOn(c.infos[lo..lo], node) == [] == Part(c, from, lo, lo)
  {
  }

  lemma OwnsRank(c: Cluster, node: string, from: nat, r: nat)
    requires 0 < c.tp && Owns(c, node, from) && r < |c.infos|
    ensures c.infos[r].node == node <==> from <= r < from + c.local
  {
  }

  /** Those among the ranks [lo, hi) that are on the node beginning at `from`. */
  function Part(c: Cluster, from: nat, lo: nat, hi: nat): seq<string>
    requires from + c.local <= |c.infos| && lo <= hi <= |c.infos|
  {
    var a, b := Max(lo, from), Min(hi, from + c.local);
    if a < b then c.Gpus(a, b) else []
  }

  lemma PartGrows(c: Cluster, from: nat, lo: nat, hi: nat)
    requires from + c.local <= |c.infos| && lo < hi <= |c.infos|
    ensures Part(c, from, lo, hi)
            == Part(c, from, lo, hi - 1) + if from <= hi - 1 < from + c.local then [c.infos[hi - 1].gpu] else []
  {
  }

  /** `specs` are the shards of the ranks [from, end) of a node beginning at `from`. */
  ghost predicate Sliced(c: Cluster, specs: seq<Spec>, from: nat, end: nat)
    requires 0 < c.tp && 0 < c.width && end <= |c.infos|
  {
    if specs == [] then end == from
    else
      var last := specs[|specs| - 1];
      from + c.tp <= end && ShardAt(c, last, from, end - c.tp) && Sliced(c, specs[..|specs| - 1], from, end - c.tp)
  }

  /** `s` is the shard of ranks [x, x + tp): their GPUs, their replica, and their place in its part on the node. */
  ghost predicate ShardAt(c: Cluster, s: Spec, from: nat, x: nat)
    requires 0 < c.tp && 0 < c.width && x + c.tp <= |c.infos|
  {
    && s.gpus == c.Gpus(x, x + c.tp)
    && s.replicaRank == c.offset + x / c.width
    && s.rankOffset == x - Max(x - x % c.width, from)
  }

  /** Slicing one replica's GPUs on a node continues the node's shards; the replica begins at `lo`. */
  lemma {:induction false} SlicesContinue(c: Cluster, specs: seq<Spec>, from: nat, k: nat, lo: nat, a: nat, b: nat,
                                          gpus: seq<string>, n: nat, m: nat)
    requires 0 < c.tp && 0 < c.width && lo == k * c.width && a <= b <= |c.infos| && gpus == c.Gpus(a, b)
    requires a == Max(lo, from) && b <= lo + c.width && m == n * c.tp <= |gpus|
    requires Sliced(c, specs, from, a)
    ensures a + m <= |c.infos| && Sliced(c, specs + Slices(gpus, c.tp, c.offset + k, n), from, a + m)
  {
    hide Sliced, ShardAt, Slices, Cluster.Gpus;
    if n == 0 {
      NoSlices(gpus, c.tp, c.offset + k);
      assert specs + [] == specs;
    } else {
      RoomForShard(n - 1, n, c.tp);
      SlicesContinue(c, specs, from, k, lo, a, b, gpus, n - 1, m - c.tp);
      NextShard(c, from, k, lo, a, b, m - c.tp);
      LastSlice(gpus, c.tp, c.offset + k, n, m);
      var s := Spec(c.offset + k, gpus[m - c.tp..m], m - c.tp);
      var before := Slices(gpus, c.tp, c.offset + k, n - 1);
      AppendShard(c, specs + before, s, from, a + m);
      assert specs + (before + [s]) == specs + before + [s];
    }
  }

  lemma NoSlices(gpus: seq<string>, tp: nat, replicaRank: nat)
    ensures Slices(gpus, tp, replicaRank, 0) == []
  {
  }

  lemma AppendShard(c: Cluster, specs: seq<Spec>, s: Spec, from: nat, end: nat)
    requires 0 < c.tp && 0 < c.width && from + c.tp <= end <= |c.infos|
    requires Sliced(c, specs, from, end - c.tp) && ShardAt(c, s, from, end - c.tp)
    ensures Sliced(c, specs + [s], from, end)
  {
    assert (specs + [s])[..|specs|] == specs;
  }

  lemma LastSlice(gpus: seq<string>, tp: nat, replicaRank: nat, n: nat, m: nat)
    requires 0 < n && m == n * tp <= |gpus| && (n - 1) * tp + tp == m
    ensures Slices(gpus, tp, replicaRank, n)
            == Slices(gpus, tp, replicaRank, n - 1) + [Spec(replicaRank, gpus[m - tp..m], m - tp)]
  {
  }

  /** The shard that the launcher cuts at position `i` of a replica's GPUs. */
  lemma NextShard(c: Cluster, from: nat, k: nat, lo: nat, a: nat, b: nat, i: nat)
    requires 0 < c.tp && 0 < c.width && lo == k * c.width && a <= b <= |c.infos| && i + c.tp <= b - a
    requires a == Max(lo, from) && b <= lo + c.width
    ensures ShardAt(c, Spec(c.offset + k, c.Gpus(a, b)[i..i + c.tp], i), from, a + i)
  {
    var x := a + i;
    assert c.Gpus(a, b)[i..i + c.tp] == c.Gpus(x, x + c.tp);
    DivModUnique(x, c.width, k, x - lo);
  }

  // ---------------------------------------------------------------- every node

  /** Where the shards of a node end once all ranks below `lo` were handled. */
  function Reached(c: Cluster, from: nat, lo: nat): int {
    Max(from, Min(lo, from + c.local))
  }

  lemma WholeShardsOnNode(c: Cluster, node: string, from: nat, k: nat, lo: nat, hi: nat)
    requires c.Valid() && Owns(c, node, from) && lo == k * c.width && hi == lo + c.width <= |c.infos|
    ensures Reached(c, from, lo) <= Reached(c, from, hi) <= |c.infos|
    ensures (Reached(c, from, hi) - Reached(c, from, lo)) % c.tp == 0
    ensures |GpusOn(c.infos[lo..hi], node)| == Reached(c, from, hi) - Reached(c, from, lo)
    ensures Reached(c, from, lo) < Reached(c, from, hi) ==>
              && Reached(c, from, lo) == Max(lo, from) && Reached(c, from, hi) <= hi
              && GpusOn(c.infos[lo..hi], node) == c.Gpus(Reached(c, from, lo), Reached(c, from, hi))
  {
    SegmentGpus(c, node, from, lo, hi);
    hide GpusOn;
    ModProduct(k, c.width, c.tp);
    ModSum(lo, c.width, c.tp);
    ModSum(from, c.local, c.tp);
    ModDifference(Reached(c, from, hi), Reached(c, from, lo), c.tp);
  }

  lemma ReplicaOnNode(c: Cluster, node: string, from: nat, k: nat, lo: nat, hi: nat, specs: seq<Spec>)
    requires c.Valid() && Owns(c, node, from) && lo == k * c.width && hi == lo + c.width <= |c.infos|
    requires Reached(c, from, lo) <= |c.infos| && Sliced(c, specs, from, Reached(c, from, lo))
    ensures Reached(c, from, hi) <= |c.infos|
    ensures Sliced(c, specs + ReplicaSpecs(c.infos[lo..hi], c.tp, c.offset + k, node), from, Reached(c, from, hi))
  {
    var a, b := Reached(c, from, lo), Reached(c, from, hi);
    var gpus := GpusOn(c.infos[lo..hi], node);
    WholeShardsOnNode(c, node, from, k, lo, hi);
    assert 0 < c.tp && 0 < c.width;
    hide *;
    CutReplica(c, from, k, lo, a, b, specs, gpus);
  }

  /** Cutting `gpus` into as many shards as fit, when they are the GPUs of ranks [a, b) or there are none. */
  lemma CutReplica(c: Cluster, from: nat, k: nat, lo: nat, a: nat, b: nat, specs: seq<Spec>, gpus: seq<string>)
    requires 0 < c.tp && 0 < c.width && lo == k * c.width && a <= b <= |c.infos|
    requires |gpus| == b - a && |gpus| % c.tp == 0
    requires a < b ==> a == Max(lo, from) && b <= lo + c.width && gpus == c.Gpus(a, b)
    requires Sliced(c, specs, from, a)
    ensures |gpus| / c.tp * c.tp <= |gpus|
    ensures Sliced(c, specs + Slices(gpus, c.tp, c.offset + k, |gpus| / c.tp), from, b)
  {
    hide *;
    var n := |gpus| / c.tp;
    WholeShards(|gpus|, c.tp);
    assert n * c.tp == |gpus|;
    if a < b {
      SlicesContinue(c, specs, from, k, lo, a, b, gpus, n, |gpus|);
    } else {
      DivModUnique(0, c.tp, 0, 0);
      NoSlices(gpus, c.tp, c.offset + k);
      assert specs + [] == specs;
    }
  }

  /** One replica more. */
  lemma ReplicaSpecsLast(c: Cluster, node: string, k: nat, lo: nat, hi: nat)
    requires 0 < c.tp && 0 < c.width && 0 < k <= |c.infos| / c.width
    requires lo == (k - 1) * c.width && hi == lo + c.width <= |c.infos|
    ensures NodeSpecs(Replicas(c.infos, c.width, k), c.tp, c.offset, node)
            == NodeSpecs(Replicas(c.infos, c.width, k - 1), c.tp, c.offset, node)
               + ReplicaSpecs(c.infos[lo..hi], c.tp, c.offset + (k - 1), node)
  {
    ReplicasLength(c.infos, c.width, k);
    hide ReplicaSpecs, Replicas;
  }

  lemma OwnsInRange(c: Cluster, node: string, from: nat)
    requires 0 < c.tp && Owns(c, node, from)
    ensures from + c.local <= |c.infos|
  {
  }

  lemma ReachedInRange(c: Cluster, from: nat, lo: nat)
    requires from + c.local <= |c.infos|
    ensures from <= Reached(c, from, lo) <= |c.infos|
  {
  }

  lemma NoSpecsYet(c: Cluster, node: string, from: nat)
    requires 0 < c.tp && 0 < c.width && from <= |c.infos|
    ensures Reached(c, from, 0) == from
    ensures Sliced(c, NodeSpecs(Replicas(c.infos, c.width, 0), c.tp, c.offset, node), from, from)
  {
  }

  lemma {:induction false} NodeIsSliced(c: Cluster, node: string, from: nat, k: nat, lo: nat)
    requires c.Valid() && Owns(c, node, from) && k <= |c.infos| / c.width && lo == k * c.width
    ensures lo <= |c.infos| && Reached(c, from, lo) <= |c.infos|
    ensures Sliced(c, NodeSpecs(Replicas(c.infos, c.width, k), c.tp, c.offset, node), from, Reached(c, from, lo))
  {
    hide *;
    ClusterShape(c);
    MulMonotone(k, |c.infos| / c.width, c.width);
    OwnsInRange(c, node, from);
    NoSpecsYet(c, node, from);
    ReachedInRange(c, from, lo);
    if k > 0 {
      RoomForShard(k - 1, k, c.width);
      ReplicaSpecsLast(c, node, k, lo - c.width, lo);
      NodeIsSliced(c, node, from, k - 1, lo - c.width);
      ReplicaOnNode(c, node, from, k - 1, lo - c.width, lo, NodeSpecs(Replicas(c.infos, c.width, k - 1), c.tp, c.offset, node));
    }
  }

  /** A node's shards tile the ranks [from, end). */
  lemma {:induction false} SlicedLength(c: Cluster, specs: seq<Spec>, from: nat, end: nat)
    requires 0 < c.tp && 0 < c.width && end <= |c.infos| && Sliced(c, specs, from, end)
    ensures end - from == |specs| * c.tp
  {
    if specs != [] {
      var n := |specs| - 1;
      SlicedLength(c, specs[..n], from, end - c.tp);
      hide *;
      RoomForShard(n, n + 1, c.tp);
    }
  }

  /** Shard `i` is that of the ranks from `from + i * tp` on. */
  lemma {:induction false} SlicedAt(c: Cluster, specs: seq<Spec>, from: nat, end: nat, i: nat, x: nat)
    requires 0 < c.tp && 0 < c.width && end <= |c.infos| && Sliced(c, specs, from, end)
    requires i < |specs| && x == from + i * c.tp
    ensures x + c.tp <= end && ShardAt(c, specs[i], from, x)
  {
    var n := |specs| - 1;
    if i == n {
      SlicedLength(c, specs[..n], from, end - c.tp);
    } else {
      SlicedAt(c, specs[..n], from, end - c.tp, i, x);
    }
  }

  /** The shards that the launcher starts on node `j`. */
  function ShardsOf(c: Cluster, j: nat): seq<Spec>
    requires 0 < c.tp && 0 < c.width && j < |c.nodes|
  {
    NodeSpecs(Replicas(c.infos, c.width, |c.infos| / c.width), c.tp, c.offset, c.nodes[j])
  }

  lemma ShardsAreSliced(c: Cluster, j: nat, from: nat)
    requires c.Valid() && j < |c.nodes| && from == j * c.local
    ensures from + c.local <= |c.infos| && Sliced(c, ShardsOf(c, j), from, from + c.local)
  {
    var k := |c.infos| / c.width;
    NodeOwns(c, j);
    assert k * c.width == |c.infos|;
    AllReached(c, c.nodes[j], from);
    assert 0 < c.tp && 0 < c.width;
    hide Reached, Sliced, NodeSpecs, Replicas, Owns, Cluster.Valid;
    NodeIsSliced(c, c.nodes[j], from, k, |c.infos|);
  }

  /** Every node gets one shard per `tp` of its ranks, in rank order. */
  lemma NodeShards(c: Cluster, j: nat, i: nat, from: nat, x: nat)
    requires c.Valid() && j < |c.nodes| && from == j * c.local && x == from + i * c.tp
    ensures |ShardsOf(c, j)| == c.local / c.tp
    ensures i < |ShardsOf(c, j)| ==> x + c.tp <= |c.infos| && ShardAt(c, ShardsOf(c, j)[i], from, x)
  {
    ShardsAreSliced(c, j, from);
    var specs := ShardsOf(c, j);
    assert 0 < c.tp && 0 < c.width;
    hide *;
    SlicedLength(c, specs, from, from + c.local);
    DivModUnique(c.local, c.tp, |specs|, 0);
    if i < |specs| {
      SlicedAt(c, specs, from, from + c.local, i, x);
    }
  }

  lemma AllReached(c: Cluster, node: string, from: nat)
    requires c.Valid() && Owns(c, node, from)
    ensures Reached(c, from, |c.infos|) == from + c.local
  {
  }

  /** The first of the `tp` ranks that form a group with `rank`. */
  function GroupStart(rank: nat, tp: nat): (start: nat)
    requires 0 < tp
    ensures start <= rank < start + tp
  {
    rank - rank % tp
  }

  /** The shard and the place that the adapter of `rank` computes hold that rank's GPU, and the shard is its TP group. */
  lemma TrainerAndLauncherAgree(c: Cluster, rank: nat)
    requires c.Valid() && rank < |c.infos|
    ensures var p, start := AdapterPlace(rank, c.local, c.tp), GroupStart(rank, c.tp);
            && p.node < |c.nodes| && c.infos[rank].node == c.nodes[p.node]
            && p.shard < |ShardsOf(c, p.node)|
            && start + c.tp <= |c.infos|
            && ShardsOf(c, p.node)[p.shard].gpus == c.Gpus(start, start + c.tp)
            && p.tpRank < c.tp && ShardsOf(c, p.node)[p.shard].gpus[p.tpRank] == c.infos[rank].gpu
  {
    var p, start := AdapterPlace(rank, c.local, c.tp), GroupStart(rank, c.tp);
    var from := p.node * c.local;
    var x := from + p.shard * c.tp;
    PlaceOfRank(rank, c.local, c.tp, p, x);
    NodeShards(c, p.node, p.shard, from, x);
    ShardInRange(p.shard, c.local / c.tp, c.tp, c.local, rank % c.local);
    hide ShardsOf, Cluster.Valid;
  }

  lemma ShardInRange(shard: nat, n: nat, tp: nat, local: nat, place: nat)
    requires 0 < tp && shard == place / tp && place < local && local % tp == 0 && n == local / tp
    ensures shard < n
  {
    if n <= shard {
      MulMonotone(n, shard, tp);
    }
  }

  lemma PlaceOfRank(rank: nat, local: nat, tp: nat, p: Place, x: nat)
    requires 0 < local && 0 < tp && local % tp == 0 && p == AdapterPlace(rank, local, tp)
    requires x == p.node * local + p.shard * tp
    ensures x + p.tpRank == rank && p.tpRank < tp && x == rank - rank % tp
  {
    ModProduct(p.node, local, tp);
    MultipleMod(p.shard, tp);
    ModSum(p.node * local, p.shard * tp, tp);
    InBlock(rank, x, tp);
  }

  // ---------------------------------------------------------------- the launch succeeds

  lemma {:induction false} ReplicasAreRanks(infos: seq<Worker>, width: nat, k: nat)
    requires 0 < width && k <= |infos| / width
    ensures k * width <= |infos| && Flatten(Replicas(infos, width, k)) == infos[..k * width]
  {
    hide *;
    MulMonotone(k, |infos| / width, width);
    if k == 0 {
      NothingLaunched(infos, width, 1, 0);
      NothingFlat();
      assert infos[..0] == [];
    } else {
      RoomForShard(k - 1, k, width);
      ReplicasAreRanks(infos, width, k - 1);
      var lo := (k - 1) * width;
      OneMoreReplica(infos, width, k - 1, 1, 0, infos[lo..lo + width]);
      assert infos[..lo + width] == infos[..lo] + infos[lo..lo + width];
    }
  }

  lemma NothingFlat()
    ensures Flatten<Worker>([]) == []
  {
  }

  /** How many nodes the first `r` ranks touch. */
  function Touched(r: nat, local: nat): nat
    requires 0 < local
  {
    if r == 0 then 0 else (r - 1) / local + 1
  }

  lemma {:induction false} NodesInOrder(c: Cluster, r: nat)
    requires c.Valid() && r <= |c.infos|
    ensures Touched(r, c.local) <= |c.nodes| && NodeOrder(c.infos[..r]) == c.nodes[..Touched(r, c.local)]
  {
    hide *;
    ClusterShape(c);
    NoNodes(c.infos);
    NothingTouched(c.local);
    if r > 0 {
      var j := (r - 1) / c.local;
      NodesInOrder(c, r - 1);
      assert c.infos[..r] == c.infos[..r - 1] + [c.infos[r - 1]];
      NextWorker(c.infos[..r - 1], c.infos[r - 1]);
      NextTouched(r, c.local);
      NodesDiffer(c, r - 1, j);
      if Touched(r - 1, c.local) == j {
        assert c.nodes[..j] + [c.nodes[j]] == c.nodes[..j + 1];
      } else {
        assert c.nodes[..j + 1][j] == c.nodes[j];
      }
    }
  }

  lemma NodesDiffer(c: Cluster, r: nat, j: nat)
    requires c.Valid() && r < |c.infos| && j == r / c.local
    ensures j < |c.nodes| && c.infos[r].node == c.nodes[j] && c.nodes[j] !in c.nodes[..j]
  {
  }

  lemma NothingTouched(local: nat)
    requires 0 < local
    ensures Touched(0, local) == 0
  {
  }

  lemma NextTouched(r: nat, local: nat)
    requires 0 < local && 0 < r
    ensures Touched(r, local) == (r - 1) / local + 1
    ensures Touched(r - 1, local) == (r - 1) / local || Touched(r - 1, local) == (r - 1) / local + 1
  {
    if 1 < r {
      var q := (r - 2) / local;
      var d := (r - 2) % local;
      assert r - 2 == q * local + d;
      if d + 1 < local {
        DivModUnique(r - 1, local, q, d + 1);
      } else {
        DivModUnique(r - 1, local, q + 1, 0);
      }
    } else {
      DivModUnique(0, local, 0, 0);
    }
  }

  lemma WholeOnKnownNode(c: Cluster, k: nat, lo: nat, j: nat)
    requires c.Valid() && lo == k * c.width && lo + c.width <= |c.infos| && j < |c.nodes|
    ensures |GpusOn(c.infos[lo..lo + c.width], c.nodes[j])| % c.tp == 0
  {
    var from := j * c.local;
    NodeOwns(c, j);
    assert 0 < c.tp;
    hide *;
    WholeShardsOnNode(c, c.nodes[j], from, k, lo, lo + c.width);
  }

  lemma NoneOnUnknownNode(infos: seq<Worker>, lo: nat, hi: nat, node: string)
    requires lo <= hi <= |infos| && node !in NodeOrder(infos)
    ensures GpusOn(infos[lo..hi], node) == []
  {
    hide *;
    var part := infos[lo..hi];
    assert infos[..lo] + part == infos[..hi];
    assert infos[..hi] + infos[hi..] == infos;
    NodeOrderGrows(infos[..lo], part, node);
    NodeOrderGrows(infos[..hi], infos[hi..], node);
    NoGpusElsewhere(part, node);
  }

  lemma OnlyKnownNodes(c: Cluster, node: string)
    requires c.Valid() && node in NodeOrder(c.infos)
    ensures node in c.nodes
  {
    NodesInOrder(c, |c.infos|);
    assert c.infos[..|c.infos|] == c.infos;
  }

  lemma ReplicaIsSliceable(c: Cluster, k: nat, lo: nat)
    requires c.Valid() && lo == k * c.width && lo + c.width <= |c.infos|
    ensures Sliceable(c.infos[lo..lo + c.width], c.tp)
  {
    assert 0 < c.tp;
    hide GpusOn, NodeOrder, Cluster.Valid;
    var part := c.infos[lo..lo + c.width];
    forall node
      ensures |GpusOn(part, node)| % c.tp == 0
    {
      if node in NodeOrder(c.infos) {
        OnlyKnownNodes(c, node);
        var j :| 0 <= j < |c.nodes| && c.nodes[j] == node;
        WholeOnKnownNode(c, k, lo, j);
      } else {
        NoneOnUnknownNode(c.infos, lo, lo + c.width, node);
        DivModUnique(0, c.tp, 0, 0);
      }
    }
  }

  lemma {:induction false} ReplicasAreSliceable(c: Cluster, k: nat)
    requires c.Valid() && k <= |c.infos| / c.width
    ensures forall replica :: replica in Replicas(c.infos, c.width, k) ==> Sliceable(replica, c.tp)
  {
    hide *;
    ClusterShape(c);
    NothingLaunched(c.infos, c.width, c.tp, 0);
    if k > 0 {
      var lo := (k - 1) * c.width;
      RoomForShard(k - 1, k, c.width);
      MulMonotone(k, |c.infos| / c.width, c.width);
      ReplicaIsSliceable(c, k - 1, lo);
      ReplicasAreSliceable(c, k - 1);
      OneMoreReplica(c.infos, c.width, k - 1, c.tp, 0, c.infos[lo..lo + c.width]);
    }
  }

  /** The sum of the specification counts over the first `n` nodes. */
  function ShardCount(c: Cluster, n: nat): nat
    requires 0 < c.tp && 0 < c.width && n <= |c.nodes|
  {
    if n == 0 then 0 else ShardCount(c, n - 1) + |ShardsOf(c, n - 1)|
  }

  lemma {:induction false} ShardsPerNode(c: Cluster, n: nat)
    requires c.Valid() && n <= |c.nodes|
    ensures ShardCount(c, n) * c.tp == n * c.local
  {
    if n > 0 {
      ShardsPerNode(c, n - 1);
      ShardsOnNode(c, n - 1);
      hide ShardsOf, Cluster.Valid;
      MulSum(ShardCount(c, n - 1), |ShardsOf(c, n - 1)|, c.tp);
      MulSum(n - 1, 1, c.local);
    }
  }

  lemma ShardsOnNode(c: Cluster, j: nat)
    requires c.Valid() && j < |c.nodes|
    ensures |ShardsOf(c, j)| * c.tp == c.local
  {
    assert 0 < c.tp && 0 < c.width && c.local / c.tp * c.tp == c.local;
    hide *;
    var from := j * c.local;
    NodeShards(c, j, 0, from, from);
  }

  lemma MulSum(a: nat, b: nat, n: nat)
    ensures (a + b) * n == a * n + b * n
  {
  }

  /** A contiguous layout is launched on its nodes in order, with one engine per `tp` ranks. */
  method LaunchCluster(ghost c: Cluster, infos: seq<Worker>, width: nat, tp: nat, offset: nat)
    returns (ok: bool, nodeOrder: seq<string>, nodeToSpecs: map<string, seq<Spec>>)
    requires c.Valid() && infos == c.infos && width == c.width && tp == c.tp && offset == c.offset
    ensures ok && nodeOrder == c.nodes
    ensures forall j :: 0 <= j < |c.nodes| ==> c.nodes[j] in nodeToSpecs && nodeToSpecs[c.nodes[j]] == ShardsOf(c, j)
    ensures ShardCount(c, |c.nodes|) * tp == |infos|
  {
    var k := |infos| / width;
    assert k * width == |infos|;
    ReplicasAreSliceable(c, k);
    ReplicasAreRanks(infos, width, k);
    NodesInOrder(c, |infos|);
    AllTouched(c);
    ShardsPerNode(c, |c.nodes|);
    assert infos[..|infos|] == infos;
    assert c.nodes[..|c.nodes|] == c.nodes;
    hide NodeOrder, NodeSpecs, Replicas, Sliceable;
    ok, nodeOrder, nodeToSpecs := LaunchPool(infos, width, tp, offset);
  }

  lemma AllTouched(c: Cluster)
    requires c.Valid()
    ensures Touched(|c.infos|, c.local) == |c.nodes|
  {
    var n := |c.nodes|;
    if n > 0 {
      RoomForShard(n - 1, n, c.local);
      DivModUnique(|c.infos| - 1, c.local, n - 1, c.local - 1);
    }
  }

  // ---------------------------------------------------------------- socket names

  /** The part of a socket's name that varies: a replica and a rank. */
  datatype Socket = Socket(replica: nat, rank: nat)

  /** The name a standalone adapter sends to. */
  function SenderName(c: Cluster, rank: nat): Socket
    requires 0 < c.width && 0 < c.local
  {
    Socket(c.offset + rank / c.width, rank % c.width % c.local)
  }

  /** The name the engine on the rank's GPU listens on: what its specification carries, and its TP rank. */
  function ReceiverName(c: Cluster, rank: nat): Socket
    requires c.Valid() && rank < |c.infos|
  {
    TrainerAndLauncherAgree(c, rank);
    var p := AdapterPlace(rank, c.local, c.tp);
    var spec := ShardsOf(c, p.node)[p.shard];
    Socket(spec.replicaRank, spec.rankOffset + p.tpRank)
  }

  /** The first rank of the rank's replica, and of its node. */
  function BlockStart(rank: nat, size: nat): (start: nat)
    requires 0 < size
    ensures start <= rank < start + size
  {
    rank - rank % size
  }

  /** The sender and the engine meet exactly when the rank's replica does not continue from the middle of an earlier node. */
  lemma SocketsPair(c: Cluster, rank: nat)
    requires c.Valid() && rank < |c.infos|
    ensures SenderName(c, rank) == ReceiverName(c, rank) <==>
            var first := BlockStart(rank, c.width);
            BlockStart(rank, c.local) <= first || first % c.local == 0
  {
    hide *;
    ClusterShape(c);
    var from, x := ShardOfRank(rank, c.local, c.width, c.tp);
    var p := AdapterPlace(rank, c.local, c.tp);
    TrainerAndLauncherAgree(c, rank);
    NodeShards(c, p.node, p.shard, from, x);
    ReceiverOfShard(c, rank, p, from, x);
    SenderAt(c, rank, BlockStart(rank, c.width));
  }

  /** The first rank on the rank's node and the first rank of its shard, and what they say about both socket names. */
  lemma ShardOfRank(rank: nat, local: nat, width: nat, tp: nat) returns (from: nat, x: nat)
    requires 0 < tp && 0 < local && 0 < width && local % tp == 0 && width % tp == 0
    ensures var p, first := AdapterPlace(rank, local, tp), BlockStart(rank, width);
            && from == BlockStart(rank, local) == p.node * local && x == from + p.shard * tp && x + p.tpRank == rank
            && x - x % width == first && x / width == rank / width
            && ((rank - first) % local == rank - Max(first, from) <==> from <= first || first % local == 0)
  {
    hide *;
    var p := AdapterPlace(rank, local, tp);
    from := BlockStart(rank, local);
    x := from + p.shard * tp;
    BlockStartIsMultiple(rank, local);
    NodeOfPlace(rank, local, tp);
    PlaceOfRank(rank, local, tp, p, x);
    SameReplica(rank, x, width, tp);
    SenderRank(rank, BlockStart(rank, width), from, local);
  }

  lemma NodeOfPlace(rank: nat, local: nat, tp: nat)
    requires 0 < local && 0 < tp
    ensures AdapterPlace(rank, local, tp).node == rank / local
  {
  }

  lemma SenderAt(c: Cluster, rank: nat, first: nat)
    requires 0 < c.width && 0 < c.local && first == BlockStart(rank, c.width)
    ensures SenderName(c, rank) == Socket(c.offset + rank / c.width, (rank - first) % c.local)
  {
  }

  lemma ReceiverOfShard(c: Cluster, rank: nat, p: Place, from: nat, x: nat)
    requires c.Valid() && rank < |c.infos| && p == AdapterPlace(rank, c.local, c.tp)
    requires p.node < |c.nodes| && p.shard < |ShardsOf(c, p.node)|
    requires x + c.tp <= |c.infos| && ShardAt(c, ShardsOf(c, p.node)[p.shard], from, x) && x + p.tpRank == rank
    requires x - x % c.width == BlockStart(rank, c.width) && x / c.width == rank / c.width
    ensures ReceiverName(c, rank) == Socket(c.offset + rank / c.width, rank - Max(BlockStart(rank, c.width), from))
  {
    hide ShardsOf, Cluster.Gpus, BlockStart;
  }

  lemma BlockStartIsMultiple(rank: nat, size: nat)
    requires 0 < size
    ensures BlockStart(rank, size) == rank / size * size && BlockStart(rank, size) % size == 0
  {
    MultipleMod(rank / size, size);
  }

  lemma NotInShard(lo: nat, x: nat, rank: nat, tp: nat)
    requires 0 < tp && lo % tp == 0 && x % tp == 0 && lo <= rank < x + tp
    ensures lo <= x
  {
    if x < lo {
      ModDifference(lo, x, tp);
      DivModUnique(lo - x, tp, 0, lo - x);
    }
  }

  /** A shard lies in one replica. */
  lemma SameReplica(rank: nat, x: nat, width: nat, tp: nat)
    requires 0 < tp && 0 < width && width % tp == 0 && x == rank - rank % tp
    ensures x / width == rank / width && x - x % width == BlockStart(rank, width)
  {
    var q := rank / width;
    var lo := q * width;
    ModProduct(q, width, tp);
    BlockStartIsMultiple(rank, tp);
    BlockStartIsMultiple(rank, width);
    hide BlockStart;
    NotInShard(lo, x, rank, tp);
    DivModUnique(x, width, q, x - lo);
  }

  lemma SenderRank(rank: nat, first: nat, from: nat, local: nat)
    requires 0 < local && from <= rank < from + local && from % local == 0 && first <= rank
    ensures (rank - first) % local == rank - Max(first, from) <==> from <= first || first % local == 0
  {
    if from <= first {
      DivModUnique(rank - first, local, 0, rank - first);
    } else {
      var d, e := rank - from, first % local;
      var q := (from - first) / local;
      DivModUnique(rank, local, from / local, d);
      if e == 0 {
        ModDifference(from, first, local);
        DivModUnique(rank - first, local, q, d);
      } else if (rank - first) % local == d {
        ModDifferenceOfEqual(rank, first, local);
      }
    }
  }

  lemma ModDifferenceOfEqual(a: nat, b: nat, n: nat)
    requires 0 < n && b <= a && (a - b) % n == a % n
    ensures b % n == 0
  {
    var p, q := a / n, (a - b) / n;
    assert b == (p - q) * n;
    MultipleMod(p - q, n);
  }

  /** Replicas that fill nodes, or nodes that fill replicas, always pair. */
  lemma DivisibleLayoutsPair(c: Cluster, rank: nat)
    requires c.Valid() && rank < |c.infos| && (c.width % c.local == 0 || c.local % c.width == 0)
    ensures SenderName(c, rank) == ReceiverName(c, rank)
  {
    SocketsPair(c, rank);
    var from, first := BlockStart(rank, c.local), BlockStart(rank, c.width);
    BlockStartIsMultiple(rank, c.width);
    BlockStartIsMultiple(rank, c.local);
    assert 0 < c.width && 0 < c.local;
    hide Cluster.Valid, ReceiverName, SenderName, BlockStart;
    if c.width % c.local == 0 {
      ModProduct(rank / c.width, c.width, c.local);
    } else if first < from {
      ModProduct(rank / c.local, c.local, c.width);
      MultipleMod(rank / c.width, c.width);
      ModDifference(from, first, c.width);
      DivModUnique(from - first, c.width, 0, from - first);
    }
  }

  /** Twelve ranks, four to a node, in replicas of six: the second replica begins inside the second node. */
  function UnevenCluster(): Cluster {
    var nodes := ["a", "b", "c"];
    Cluster(seq(12, r requires 0 <= r < 12 => Worker(nodes[r / 4], "gpu")), nodes, 4, 6, 2, 0)
  }

  lemma UnevenLayoutMispairs()
    ensures UnevenCluster().Valid() && SenderName(UnevenCluster(), 8) != ReceiverName(UnevenCluster(), 8)
  {
    assert UnevenCluster().Valid() by {
      assert "a"[0] != "b"[0] && "b"[0] != "c"[0] && "a"[0] != "c"[0];
    }
    SocketsPair(UnevenCluster(), 8);
  }

  /** Ranks on one node never send to one name. */
  lemma NamesDifferOnANode(c: Cluster, r: nat, s: nat)
    requires 0 < c.width && 0 < c.local && r / c.local == s / c.local
    requires SenderName(c, r) == SenderName(c, s)
    ensures r == s
  {
    SameBlock(r, s, c.width);
    CloseRanks(r, s, c.local);
    SameRemainder(r % c.width, s % c.width, c.local);
  }

  lemma SameBlock(r: nat, s: nat, n: nat)
    requires 0 < n && r / n == s / n
    ensures r % n - s % n == r - s
  {
    assert r == r / n * n + r % n && s == s / n * n + s % n;
  }

  lemma CloseRanks(r: nat, s: nat, n: nat)
    requires 0 < n && r / n == s / n
    ensures r < s + n && s < r + n
  {
    SameBlock(r, s, n);
  }

  lemma SameRemainder(a: nat, b: nat, n: nat)
    requires 0 < n && a % n == b % n && a < b + n && b < a + n
    ensures a == b
  {
    var d := a / n - b / n;
    assert a - b == d * n;
    if d > 0 {
      MulMonotone(1, d, n);
    } else if d < 0 {
      MulMonotone(d, -1, n);
    }
  }
}
