/**
 Where the GPUs of a rank go: the launcher's slicing of each node into tensor-parallel shards
 (`dynamo_async_server.py`) against the indices the trainer-side adapters compute from the global rank
 (`dynamo_sglang_rollout.py`, `dynamo_vllm_rollout.py`).
 */
module Shards {
  import opened Arithmetic
  import opened Bytes

  datatype Worker = Worker(node: string, gpu: string)

  /** One engine to launch. */
  datatype Spec = Spec(replicaRank: nat, gpus: seq<string>, rankOffset: nat)

  // ---------------------------------------------------------------- the launcher

  /** The GPUs of those workers that are on `node`, in rank order. */
  function GpusOn(infos: seq<Worker>, node: string): seq<string> {
    if infos == [] then []
    else
      var n := |infos| - 1;
      GpusOn(infos[..n], node) + if infos[n].node == node then [infos[n].gpu] else []
  }

  /** The first `n` whole shards of `gpus`. */
  function Slices(gpus: seq<string>, tp: nat, replicaRank: nat, n: nat): seq<Spec>
    requires n * tp <= |gpus|
  {
    if n == 0 then []
    else
      assert (n - 1) * tp <= n * tp;
      Slices(gpus, tp, replicaRank, n - 1) + [Spec(replicaRank, gpus[(n - 1) * tp..n * tp], (n - 1) * tp)]
  }

  /** The shards of one replica on a node. */
  function ReplicaSpecs(replica: seq<Worker>, tp: nat, replicaRank: nat, node: string): seq<Spec>
    requires 0 < tp
  {
    var gpus := GpusOn(replica, node);
    WholeShards(|gpus|, tp);
    Slices(gpus, tp, replicaRank, |gpus| / tp)
  }

  lemma WholeShards(n: nat, tp: nat)
    requires 0 < tp
    ensures n / tp * tp <= n
  {
  }

  /** The shards of all replicas on a node, in launch order. */
  function NodeSpecs(replicas: seq<seq<Worker>>, tp: nat, offset: nat, node: string): seq<Spec>
    requires 0 < tp
  {
    if replicas == [] then []
    else
      var n := |replicas| - 1;
      NodeSpecs(replicas[..n], tp, offset, node) + ReplicaSpecs(replicas[n], tp, offset + n, node)
  }

  /** The nodes in order of first appearance. */
  function NodeOrder(infos: seq<Worker>): seq<string> {
    if infos == [] then []
    else
      var n := |infos| - 1;
      var before := NodeOrder(infos[..n]);
      if infos[n].node in before then before else before + [infos[n].node]
  }

  /** A replica's GPUs on every node make whole shards. */
  ghost predicate Sliceable(replica: seq<Worker>, tp: nat)
    requires 0 < tp
  {
    forall node :: |GpusOn(replica, node)| % tp == 0
  }

  lemma {:induction false} NodeOrderDistinct(infos: seq<Worker>)
    ensures forall i, j :: 0 <= i < j < |NodeOrder(infos)| ==> NodeOrder(infos)[i] != NodeOrder(infos)[j]
  {
    if infos != [] {
      NodeOrderDistinct(infos[..|infos| - 1]);
    }
  }

  /** One worker more. */
  lemma NextWorker(infos: seq<Worker>, w: Worker)
    ensures NodeOrder(infos + [w]) == if w.node in NodeOrder(infos) then NodeOrder(infos) else NodeOrder(infos) + [w.node]
    ensures forall node :: GpusOn(infos + [w], node) == GpusOn(infos, node) + if w.node == node then [w.gpu] else []
  {
    assert (infos + [w])[..|infos|] == infos;
  }

  lemma {:induction false} NoGpusElsewhere(infos: seq<Worker>, node: string)
    ensures GpusOn(infos, node) == [] <==> node !in NodeOrder(infos)
  {
    if infos != [] {
      NoGpusElsewhere(infos[..|infos| - 1], node);
    }
  }

  lemma {:induction false} NodeOrderGrows(a: seq<Worker>, b: seq<Worker>, node: string)
    ensures node in NodeOrder(a + b) <==> node in NodeOrder(a) || node in NodeOrder(b)
  {
    if b == [] {
      assert a + b == a;
    } else {
      var n := |b| - 1;
      assert (a + b)[..|a + b| - 1] == a + b[..n];
      NodeOrderGrows(a, b[..n], node);
    }
  }

  lemma RoomForShard(k: nat, n: nat, width: nat)
    requires k < n
    ensures k * width + width == (k + 1) * width <= n * width
  {
  }

  /** A node that no replica touched has no shards. */
  lemma {:induction false} NoSpecsElsewhere(replicas: seq<seq<Worker>>, tp: nat, offset: nat, node: string)
    requires 0 < tp && node !in NodeOrder(Flatten(replicas))
    ensures NodeSpecs(replicas, tp, offset, node) == []
  {
    if replicas != [] {
      var n := |replicas| - 1;
      NodeOrderGrows(Flatten(replicas[..n]), replicas[n], node);
      NoSpecsElsewhere(replicas[..n], tp, offset, node);
      NoGpusElsewhere(replicas[n], node);
    }
  }

  /** The innermost loop: cuts a node's GPUs of one replica into shards. */
  method SliceNode(gpus: seq<string>, tp: nat, replicaRank: nat) returns (specs: seq<Spec>)
    requires 0 < tp
    ensures |gpus| / tp * tp <= |gpus| && specs == Slices(gpus, tp, replicaRank, |gpus| / tp)
  {
    WholeShards(|gpus|, tp);
    specs := [];
    for shard := 0 to |gpus| / tp
      invariant shard * tp <= |gpus| && specs == Slices(gpus, tp, replicaRank, shard)
    {
      RoomForShard(shard, |gpus| / tp, tp);
      specs := specs + [Spec(replicaRank, gpus[shard * tp..(shard + 1) * tp], shard * tp)];
    }
  }

  /** The first inner loop: groups a replica's GPUs by node and meets new nodes. */
  method GroupByNode(replica: seq<Worker>, nodeOrder: seq<string>, ghost before: seq<Worker>)
    returns (order: seq<string>, gpusOn: map<string, seq<string>>, nodeOrder': seq<string>)
    requires nodeOrder == NodeOrder(before)
    ensures order == NodeOrder(replica) && nodeOrder' == NodeOrder(before + replica)
    ensures forall node :: node in gpusOn <==> node in order
    ensures forall node :: node in gpusOn ==> gpusOn[node] == GpusOn(replica, node)
  {
    NoNodes([]);
    hide GpusOn, NodeOrder;
    order, gpusOn, nodeOrder' := [], map[], nodeOrder;
    assert before + replica[..0] == before;
    for i := 0 to |replica|
      invariant order == NodeOrder(replica[..i]) && nodeOrder' == NodeOrder(before + replica[..i])
      invariant forall node :: node in gpusOn <==> node in order
      invariant forall node :: node in gpusOn ==> gpusOn[node] == GpusOn(replica[..i], node)
    {
      var node := replica[i].node;
      assert replica[..i + 1] == replica[..i] + [replica[i]];
      assert before + replica[..i + 1] == before + replica[..i] + [replica[i]];
      NextWorker(replica[..i], replica[i]);
      NextWorker(before + replica[..i], replica[i]);
      if node !in nodeOrder' {
        nodeOrder' := nodeOrder' + [node];
      }
      NoGpusElsewhere(replica[..i], node);
      if node !in gpusOn {
        order := order + [node];
        gpusOn := gpusOn[node := []];
      }
      gpusOn := gpusOn[node := gpusOn[node] + [replica[i].gpu]];
    }
    assert replica[..|replica|] == replica;
  }

  /** The second inner loop: appends the shards of one replica, or fails on a partial one. */
  method AppendReplica(gpusOn: map<string, seq<string>>, order: seq<string>, tp: nat, replicaRank: nat,
                       nodeToSpecs: map<string, seq<Spec>>)
    returns (ok: bool, nodeToSpecs': map<string, seq<Spec>>)
    requires 0 < tp && forall i :: 0 <= i < |order| ==> order[i] in gpusOn && order[i] in nodeToSpecs
    requires forall i, j :: 0 <= i < j < |order| ==> order[i] != order[j]
    ensures ok <==> forall i :: 0 <= i < |order| ==> |gpusOn[order[i]]| % tp == 0
    ensures ok ==> nodeToSpecs'.Keys == nodeToSpecs.Keys
    ensures ok ==> forall node :: node in nodeToSpecs && node !in order ==> nodeToSpecs'[node] == nodeToSpecs[node]
    ensures ok ==> forall i :: 0 <= i < |order| ==>
                     var gpus := gpusOn[order[i]];
                     && |gpus| / tp * tp <= |gpus|
                     && nodeToSpecs'[order[i]]
                        == nodeToSpecs[order[i]] + Slices(gpus, tp, replicaRank, |gpus| / tp)
  {
    hide Slices;
    nodeToSpecs' := nodeToSpecs;
    for n := 0 to |order|
      invariant forall i :: 0 <= i < n ==> |gpusOn[order[i]]| % tp == 0
      invariant nodeToSpecs'.Keys == nodeToSpecs.Keys
      invariant forall node :: node in nodeToSpecs && node !in order[..n] ==> nodeToSpecs'[node] == nodeToSpecs[node]
      invariant forall i :: 0 <= i < n ==>
                  var gpus := gpusOn[order[i]];
                  && |gpus| / tp * tp <= |gpus|
                  && nodeToSpecs'[order[i]] == nodeToSpecs[order[i]] + Slices(gpus, tp, replicaRank, |gpus| / tp)
    {
      var node := order[n];
      if |gpusOn[node]| % tp != 0 {
        return false, nodeToSpecs';
      }
      var specs := SliceNode(gpusOn[node], tp, replicaRank);
      assert node !in order[..n];
      nodeToSpecs' := nodeToSpecs'[node := nodeToSpecs'[node] + specs];
    }
    ok := true;
  }

  lemma NoNodes(infos: seq<Worker>)
    ensures NodeOrder(infos[..0]) == []
  {
  }

  /** What the inner loops find about a replica is what its specification says of all nodes. */
  lemma ReplicaOutcome(replica: seq<Worker>, tp: nat, replicaRank: nat, order: seq<string>, gpusOn: map<string, seq<string>>)
    requires 0 < tp && order == NodeOrder(replica)
    requires forall node :: node in order ==> node in gpusOn && gpusOn[node] == GpusOn(replica, node)
    ensures (forall i :: 0 <= i < |order| ==> |gpusOn[order[i]]| % tp == 0) <==> Sliceable(replica, tp)
    ensures forall node :: node !in order ==> ReplicaSpecs(replica, tp, replicaRank, node) == []
  {
    hide GpusOn, NodeOrder;
    forall node | node !in order
      ensures ReplicaSpecs(replica, tp, replicaRank, node) == [] && |GpusOn(replica, node)| % tp == 0
    {
      NoGpusElsewhere(replica, node);
    }
    if forall i :: 0 <= i < |order| ==> |gpusOn[order[i]]| % tp == 0 {
      forall node
        ensures |GpusOn(replica, node)| % tp == 0
      {
        if node in order {
          var i :| 0 <= i < |order| && order[i] == node;
          assert |gpusOn[order[i]]| % tp == 0;
        }
      }
    } else {
      var i :| 0 <= i < |order| && |gpusOn[order[i]]| % tp != 0;
      assert |GpusOn(replica, order[i])| % tp != 0;
    }
  }

  /** Appends a replica's shards on every node it touches. */
  method AddReplica(ghost replica: seq<Worker>, gpusOn: map<string, seq<string>>, order: seq<string>, tp: nat,
                    replicaRank: nat, nodeToSpecs: map<string, seq<Spec>>)
    returns (ok: bool, nodeToSpecs': map<string, seq<Spec>>)
    requires 0 < tp && order == NodeOrder(replica)
    requires forall node :: node in order ==> node in gpusOn && gpusOn[node] == GpusOn(replica, node)
    requires forall node :: node in order ==> node in nodeToSpecs
    ensures ok <==> Sliceable(replica, tp)
    ensures ok ==> nodeToSpecs'.Keys == nodeToSpecs.Keys
    ensures ok ==> forall node :: node in nodeToSpecs ==>
                     nodeToSpecs'[node] == nodeToSpecs[node] + ReplicaSpecs(replica, tp, replicaRank, node)
  {
    hide GpusOn, Slices, NodeOrder, Sliceable;
    NodeOrderDistinct(replica);
    ReplicaOutcome(replica, tp, replicaRank, order, gpusOn);
    ok, nodeToSpecs' := AppendReplica(gpusOn, order, tp, replicaRank, nodeToSpecs);
    if ok {
      forall node | node in nodeToSpecs
        ensures nodeToSpecs'[node] == nodeToSpecs[node] + ReplicaSpecs(replica, tp, replicaRank, node)
      {
        if node in order {
          var i :| 0 <= i < |order| && order[i] == node;
          assert gpusOn[order[i]] == GpusOn(replica, node);
        }
      }
    }
  }

  /** Logical replica `k`: `width` consecutive ranks. */
  function Replica(infos: seq<Worker>, width: nat, k: nat): seq<Worker>
    requires k * width + width <= |infos|
  {
    infos[k * width..k * width + width]
  }

  /** The first `k` logical replicas. */
  function Replicas(infos: seq<Worker>, width: nat, k: nat): seq<seq<Worker>>
    requires 0 < width && k <= |infos| / width
  {
    if k == 0 then []
    else
      assert (k - 1) * width + width == k * width <= |infos| / width * width;
      Replicas(infos, width, k - 1) + [Replica(infos, width, k - 1)]
  }

  lemma {:induction false} ReplicasLength(infos: seq<Worker>, width: nat, k: nat)
    requires 0 < width && k <= |infos| / width
    ensures |Replicas(infos, width, k)| == k
    ensures k > 0 ==> Replicas(infos, width, k)[..k - 1] == Replicas(infos, width, k - 1)
    ensures k > 0 ==> (k - 1) * width + width <= |infos|
    ensures k > 0 ==> Replicas(infos, width, k)[k - 1] == Replica(infos, width, k - 1)
  {
    if k > 0 {
      RoomForShard(k - 1, k, width);
      MulMonotone(k, |infos| / width, width);
      ReplicasLength(infos, width, k - 1);
    }
  }

  /** Launches the pool; fails on ranks that do not make whole replicas and on the assertion about partial shards. */
  method LaunchPool(infos: seq<Worker>, width: nat, tp: nat, offset: nat)
    returns (ok: bool, nodeOrder: seq<string>, nodeToSpecs: map<string, seq<Spec>>)
    requires 0 < tp && 0 < width
    ensures ok <==>
            && |infos| % width == 0
            && forall replica :: replica in Replicas(infos, width, |infos| / width) ==> Sliceable(replica, tp)
    ensures ok ==> nodeOrder == NodeOrder(Flatten(Replicas(infos, width, |infos| / width)))
    ensures ok ==> forall node :: node in nodeToSpecs <==> node in nodeOrder
    ensures ok ==> forall node :: node in nodeToSpecs ==>
                     nodeToSpecs[node] == NodeSpecs(Replicas(infos, width, |infos| / width), tp, offset, node)
  {
    hide *;
    ok, nodeOrder, nodeToSpecs := true, [], map[];
    if |infos| % width != 0 {
      return false, nodeOrder, nodeToSpecs;
    }
    NothingLaunched(infos, width, tp, offset);
    for k := 0 to |infos| / width
      invariant ok && forall replica :: replica in Replicas(infos, width, k) ==> Sliceable(replica, tp)
      invariant nodeOrder == NodeOrder(Flatten(Replicas(infos, width, k)))
      invariant forall node :: node in nodeToSpecs <==> node in nodeOrder
      invariant forall node :: node in nodeToSpecs ==>
                  nodeToSpecs[node] == NodeSpecs(Replicas(infos, width, k), tp, offset, node)
    {
      ghost var before := Replicas(infos, width, k);
      ReplicasLength(infos, width, k + 1);
      RoomForShard(k, k + 1, width);
      var replica := infos[k * width..(k + 1) * width];
      OneMoreReplica(infos, width, k, tp, offset, replica);
      var order, gpusOn;
      order, gpusOn, nodeOrder := GroupByNode(replica, nodeOrder, Flatten(before));
      nodeToSpecs := MeetNodes(before, replica, tp, offset, nodeOrder, nodeToSpecs);
      forall node | node in order
        ensures node in nodeOrder
      {
        NodeOrderGrows(Flatten(before), replica, node);
      }
      ok, nodeToSpecs := AddReplica(replica, gpusOn, order, tp, offset + k, nodeToSpecs);
      if !ok {
        EarlierReplicas(infos, width, k + 1, |infos| / width, replica);
        return;
      }
    }
  }

  lemma NothingLaunched(infos: seq<Worker>, width: nat, tp: nat, offset: nat)
    requires 0 < tp && 0 < width
    ensures Replicas(infos, width, 0) == [] && NodeOrder(Flatten(Replicas(infos, width, 0))) == []
  {
  }

  lemma OneMoreReplica(infos: seq<Worker>, width: nat, k: nat, tp: nat, offset: nat, replica: seq<Worker>)
    requires 0 < tp && 0 < width && k < |infos| / width
    requires k * width + width <= |infos| && replica == infos[k * width..k * width + width]
    ensures Replicas(infos, width, k + 1) == Replicas(infos, width, k) + [replica]
    ensures Flatten(Replicas(infos, width, k + 1)) == Flatten(Replicas(infos, width, k)) + replica
    ensures forall node :: NodeSpecs(Replicas(infos, width, k + 1), tp, offset, node)
                           == NodeSpecs(Replicas(infos, width, k), tp, offset, node)
                              + ReplicaSpecs(replica, tp, offset + k, node)
  {
    ReplicasLength(infos, width, k + 1);
    ReplicasLength(infos, width, k);
    hide ReplicaSpecs;
    assert Replicas(infos, width, k + 1)[..k] == Replicas(infos, width, k);
  }

  lemma {:induction false} EarlierReplicas(infos: seq<Worker>, width: nat, k: nat, n: nat, replica: seq<Worker>)
    requires 0 < width && k <= n <= |infos| / width && replica in Replicas(infos, width, k)
    ensures replica in Replicas(infos, width, n)
  {
    if k < n {
      EarlierReplicas(infos, width, k, n - 1, replica);
    }
  }

  /** `ensure_node`: a node met for the first time starts with no shards. */
  method MeetNodes(ghost before: seq<seq<Worker>>, ghost replica: seq<Worker>, ghost tp: nat, ghost offset: nat,
                   nodeOrder: seq<string>, nodeToSpecs: map<string, seq<Spec>>)
    returns (nodeToSpecs': map<string, seq<Spec>>)
    requires 0 < tp && nodeOrder == NodeOrder(Flatten(before) + replica)
    requires forall node :: node in nodeToSpecs <==> node in NodeOrder(Flatten(before))
    requires forall node :: node in nodeToSpecs ==> nodeToSpecs[node] == NodeSpecs(before, tp, offset, node)
    ensures forall node :: node in nodeToSpecs' <==> node in nodeOrder
    ensures forall node :: node in nodeToSpecs' ==> nodeToSpecs'[node] == NodeSpecs(before, tp, offset, node)
  {
    hide NodeOrder, NodeSpecs;
    nodeToSpecs' := map node | node in nodeOrder :: if node in nodeToSpecs then nodeToSpecs[node] else [];
    forall node | node in nodeOrder && node !in nodeToSpecs
      ensures NodeSpecs(before, tp, offset, node) == []
    {
      NoSpecsElsewhere(before, tp, offset, node);
    }
  }

  // ---------------------------------------------------------------- every GPU is served

  /** The GPUs of some shards one after the other. */
  function GpusOf(specs: seq<Spec>): seq<string> {
    if specs == [] then [] else GpusOf(specs[..|specs| - 1]) + specs[|specs| - 1].gpus
  }

  ghost predicate AllWide(specs: seq<Spec>, tp: nat) {
    forall k :: 0 <= k < |specs| ==> |specs[k].gpus| == tp
  }

  lemma {:induction false} GpusOfConcat(a: seq<Spec>, b: seq<Spec>)
    ensures GpusOf(a + b) == GpusOf(a) + GpusOf(b)
  {
    if b == [] {
      assert a + b == a;
    } else {
      var n := |b| - 1;
      assert (a + b)[..|a + b| - 1] == a + b[..n];
      GpusOfConcat(a, b[..n]);
    }
  }

  lemma {:induction false} GpusOnConcat(a: seq<Worker>, b: seq<Worker>, node: string)
    ensures GpusOn(a + b, node) == GpusOn(a, node) + GpusOn(b, node)
  {
    if b == [] {
      assert a + b == a;
    } else {
      var n := |b| - 1;
      assert (a + b)[..|a + b| - 1] == a + b[..n];
      GpusOnConcat(a, b[..n], node);
    }
  }

  lemma {:induction false} SlicesCover(gpus: seq<string>, tp: nat, replicaRank: nat, n: nat)
    requires n * tp <= |gpus|
    ensures GpusOf(Slices(gpus, tp, replicaRank, n)) == gpus[..n * tp] && AllWide(Slices(gpus, tp, replicaRank, n), tp)
  {
    if n > 0 {
      RoomForShard(n - 1, n, tp);
      SlicesCover(gpus, tp, replicaRank, n - 1);
      var before := Slices(gpus, tp, replicaRank, n - 1);
      var spec := Spec(replicaRank, gpus[(n - 1) * tp..n * tp], (n - 1) * tp);
      assert Slices(gpus, tp, replicaRank, n) == before + [spec];
      assert (before + [spec])[..|before|] == before;
      assert gpus[..n * tp] == gpus[..(n - 1) * tp] + gpus[(n - 1) * tp..n * tp];
    }
  }

  lemma ReplicaIsServed(replica: seq<Worker>, tp: nat, replicaRank: nat, node: string)
    requires 0 < tp && Sliceable(replica, tp)
    ensures GpusOf(ReplicaSpecs(replica, tp, replicaRank, node)) == GpusOn(replica, node)
    ensures AllWide(ReplicaSpecs(replica, tp, replicaRank, node), tp)
  {
    hide *;
    var gpus := GpusOn(replica, node);
    WholeShards(|gpus|, tp);
    NodeIsWhole(replica, tp, node);
    ReplicaSpecsAre(replica, tp, replicaRank, node);
    SlicesCover(gpus, tp, replicaRank, |gpus| / tp);
    assert gpus[..|gpus|] == gpus;
  }

  lemma NodeIsWhole(replica: seq<Worker>, tp: nat, node: string)
    requires 0 < tp && Sliceable(replica, tp)
    ensures |GpusOn(replica, node)| / tp * tp == |GpusOn(replica, node)|
  {
    assert |GpusOn(replica, node)| % tp == 0;
    hide GpusOn;
  }

  lemma ReplicaSpecsAre(replica: seq<Worker>, tp: nat, replicaRank: nat, node: string)
    requires 0 < tp && |GpusOn(replica, node)| / tp * tp <= |GpusOn(replica, node)|
    ensures ReplicaSpecs(replica, tp, replicaRank, node)
            == Slices(GpusOn(replica, node), tp, replicaRank, |GpusOn(replica, node)| / tp)
  {
    hide Slices, GpusOn;
  }

  lemma AllWideConcat(a: seq<Spec>, b: seq<Spec>, tp: nat)
    requires AllWide(a, tp) && AllWide(b, tp)
    ensures AllWide(a + b, tp)
  {
  }

  /** In any layout that is launched, a node's shards have exactly the GPUs of its workers, in rank order, `tp` to a shard. */
  lemma {:induction false} EveryGpuIsServed(replicas: seq<seq<Worker>>, tp: nat, offset: nat, node: string)
    requires 0 < tp && forall replica :: replica in replicas ==> Sliceable(replica, tp)
    ensures GpusOf(NodeSpecs(replicas, tp, offset, node)) == GpusOn(Flatten(replicas), node)
    ensures AllWide(NodeSpecs(replicas, tp, offset, node), tp)
  {
    hide *;
    if replicas == [] {
      NothingServed(tp, offset, node);
    } else {
      var n := |replicas| - 1;
      var before, last := NodeSpecs(replicas[..n], tp, offset, node), ReplicaSpecs(replicas[n], tp, offset + n, node);
      LastReplica(replicas, tp, offset, node);
      EveryGpuIsServed(replicas[..n], tp, offset, node);
      ReplicaIsServed(replicas[n], tp, offset + n, node);
      GpusOfConcat(before, last);
      AllWideConcat(before, last, tp);
      GpusOnConcat(Flatten(replicas[..n]), replicas[n], node);
    }
  }

  lemma LastReplica(replicas: seq<seq<Worker>>, tp: nat, offset: nat, node: string)
    requires 0 < tp && replicas != []
    ensures var n := |replicas| - 1;
            && NodeSpecs(replicas, tp, offset, node)
               == NodeSpecs(replicas[..n], tp, offset, node) + ReplicaSpecs(replicas[n], tp, offset + n, node)
            && Flatten(replicas) == Flatten(replicas[..n]) + replicas[n]
  {
    hide ReplicaSpecs;
  }

  lemma NothingServed(tp: nat, offset: nat, node: string)
    requires 0 < tp
    ensures NodeSpecs([], tp, offset, node) == [] && AllWide([], tp) && GpusOn(Flatten([]), node) == [] && GpusOf([]) == []
  {
  }
}
