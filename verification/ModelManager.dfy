/** `model_manager.py`: copies a model's tensors into buckets of the pool and records where they are. */
module Models {
  import opened Arithmetic
  import opened Bytes
  import opened Packing
  import opened OrderedDict
  import opened Protocol
  import opened HostMem
  import opened Wrappers

  datatype LoadError = AlreadyLoaded | OutOfMemory | WriteExceedsCapacity

  class ModelManager {
    const host: HostMemManager
    const bucketSize: nat
    var models: map<string, ModelMeta>

    constructor (host: HostMemManager, bucketSize: nat)
      requires 0 < bucketSize && host.Valid()
      ensures this.host == host && this.bucketSize == bucketSize && models == map[]
    {
      this.host, this.bucketSize, this.models := host, bucketSize, map[];
    }

    ghost predicate Valid()
      reads host
    {
      0 < bucketSize && host.Valid()
    }

    function Packer(): Config {
      Config(bucketSize, host.alignment)
    }

    /** Copies a tensor's bytes into a bucket, after checking that they fit. */
    static method CopyTensorToBucket(allocation: BucketAllocation, offset: nat, t: Tensor) returns (r: Result<nat, LoadError>)
      requires allocation.offset + allocation.capacity <= allocation.pool.Length
      modifies allocation, allocation.pool
      ensures r.Success? <==> offset + |t.data| <= allocation.capacity
      ensures r.Success? ==> r.value == |t.data|
      ensures r.Success? ==> Written(old(allocation.pool[..]), allocation.pool[..], allocation.offset + offset, t.data)
      ensures r.Success? ==> allocation.usedBytes == Max(old(allocation.usedBytes), offset + |t.data|)
      ensures r.Failure? ==> unchanged(allocation) && unchanged(allocation.pool)
    {
      var end := offset + |t.data|;
      if end > allocation.capacity {
        return Failure(WriteExceedsCapacity);
      }
      var at := allocation.offset + offset;
      forall i | 0 <= i < |t.data| {
        allocation.pool[at + i] := t.data[i];
      }
      allocation.usedBytes := Max(allocation.usedBytes, end);
      return Success(|t.data|);
    }

    /** What the bookkeeping variables of the loop mean when the tensors packed so far led to `s`. */
    ghost predicate LoopState(s: State, origin: nat, firstId: nat, buckets: seq<BucketMeta>,
                              current: BucketAllocation?, tensors: Dict<string, TensorMeta>, offset: nat)
      reads host, host.pool
    {
      && Valid()
      && buckets == Catalogue(s.flushed, firstId, host.basePtr + origin)
      && host.nextOffset == origin + s.consumed
      && host.nextBucketId == firstId + |s.Slots()|
      && Holds(host.pool[..], origin, s.Slots())
      && Allotted(s.Slots(), origin, firstId)
      && (current != null <==> s.current.Some?)
      && (current == null ==> tensors == [] && offset == 0)
      && (current != null ==> Mirrors(current, s.current.value, origin, firstId + |s.flushed|)
                              && offset == Size(s.current.value.tensors) && tensors == Index(s.current.value.tensors))
    }

    /** The allocator knows each bucket under its id. */
    ghost predicate Allotted(slots: seq<Slot>, origin: nat, firstId: nat)
      reads host
    {
      forall k :: 0 <= k < |slots| ==> AllottedSlot(slots[k], origin, firstId + k)
    }

    ghost predicate AllottedSlot(slot: Slot, origin: nat, id: nat)
      reads host
    {
      id in host.allocations && Mirrors(host.allocations[id], slot, origin, id)
    }

    ghost predicate Mirrors(a: BucketAllocation, slot: Slot, origin: nat, id: nat) {
      && a.bucketId == id && a.capacity == slot.capacity && a.offset == origin + slot.start
      && a.pool == host.pool && a.poolBase == host.basePtr
    }

    lemma Configured()
      requires Valid()
      ensures 0 < bucketSize && Packer() == Config(bucketSize, host.alignment) && Packer().Valid()
      ensures host.pool.Length == host.capacityBytes && host.nextOffset <= host.capacityBytes
      ensures forall id :: id in host.allocations <==> 0 <= id < host.nextBucketId
    {
    }

    /** What the loop's own tests see of its state. */
    lemma LoopFacts(s: State, origin: nat, firstId: nat, buckets: seq<BucketMeta>,
                    current: BucketAllocation?, tensors: Dict<string, TensorMeta>, offset: nat)
      requires LoopState(s, origin, firstId, buckets, current, tensors, offset)
      ensures Valid() && host.nextOffset == origin + s.consumed && host.nextBucketId == firstId + |s.Slots()|
      ensures Holds(host.pool[..], origin, s.Slots()) && Allotted(s.Slots(), origin, firstId)
      ensures current != null <==> s.current.Some?
      ensures current != null ==> offset == Size(s.current.value.tensors) && current.capacity == s.current.value.capacity
      ensures current != null ==> Mirrors(current, s.current.value, origin, firstId + |s.flushed|)
                                  && current.pool == host.pool && current.offset == origin + s.current.value.start
      ensures current != null ==> tensors == Index(s.current.value.tensors)
      ensures current == null ==> s.Slots() == s.flushed && tensors == [] && offset == 0
      ensures buckets == Catalogue(s.flushed, firstId, host.basePtr + origin)
    {
      hide HostMemManager.Valid, Catalogue, Index, Size, Holds, Allotted;
    }

    /** `flush_bucket`: writes the open bucket's metadata, with the size it turned out to have. */
    method FlushBucket(buckets: seq<BucketMeta>, current: BucketAllocation?, tensors: Dict<string, TensorMeta>,
                       offset: nat, ghost s: State, ghost origin: nat, ghost firstId: nat)
      returns (flushed: seq<BucketMeta>)
      requires LoopState(s, origin, firstId, buckets, current, tensors, offset)
      modifies current
      ensures LoopState(Flush(s), origin, firstId, flushed, null, [], 0)
      ensures current != null ==> current.usedBytes == offset
    {
      hide HostMemManager.Valid, Catalogue, Index, Size, Holds, Allotted;
      if current == null {
        return buckets;
      }
      CatalogueAppend(s.flushed, s.current.value, firstId, host.basePtr + origin);
      current.usedBytes := offset;
      return buckets + [BucketMeta(current.bucketId, current.BasePtr(), current.capacity, current.usedBytes, tensors)];
    }

    /** Nothing below `origin` was written, and no bucket known then was replaced. */
    ghost predicate Preserves(origin: nat, before: seq<byte>, taken: map<nat, BucketAllocation>)
      reads host, host.pool
    {
      && origin <= |before| && origin <= host.pool.Length
      && host.pool[..origin] == before[..origin]
      && forall id :: id in taken ==> id in host.allocations && host.allocations[id] == taken[id]
    }

    /** Opens a bucket of `size` bytes rounded up, if the pool has room for it. */
    method OpenBucket(size: nat, buckets: seq<BucketMeta>, ghost rounded: nat,
                      ghost s: State, ghost origin: nat, ghost firstId: nat,
                      ghost before: seq<byte>, ghost taken: map<nat, BucketAllocation>)
      returns (r: Result<BucketAllocation, LoadError>)
      requires LoopState(s, origin, firstId, buckets, null, [], 0)
      requires 0 < size && rounded == AlignUp(size, host.alignment)
      requires Preserves(origin, before, taken) && forall id :: id in taken ==> id < firstId
      modifies host
      ensures Valid() && Preserves(origin, before, taken)
      ensures r.Failure? ==> r.error == OutOfMemory && unchanged(host)
      ensures r.Failure? <==> host.capacityBytes < origin + s.consumed + rounded
      ensures r.Success? ==>
                fresh(r.value) && LoopState(Open(s, rounded), origin, firstId, buckets, r.value, [], 0)
    {
      hide AlignUp, Tiled, Catalogue, HoldsSlot, HostMemManager.Layout;
      ghost var known := host.allocations;
      var a := host.AllocateBucket(size, 0);
      if a.Failure? {
        return Failure(OutOfMemory);
      }
      OpenHolds(host.pool[..], origin, s, rounded);
      hide Holds;
      assert forall id :: id in known ==> id < old(host.nextBucketId) && host.allocations[id] == known[id];
      return Success(a.value);
    }

    /** Copies a tensor behind what the open bucket already holds. */
    method AppendTensor(t: Tensor, buckets: seq<BucketMeta>, current: BucketAllocation,
                        tensors: Dict<string, TensorMeta>, offset: nat,
                        ghost s: State, ghost origin: nat, ghost firstId: nat,
                        ghost before: seq<byte>, ghost taken: map<nat, BucketAllocation>)
      returns (tensors': Dict<string, TensorMeta>, offset': nat)
      requires LoopState(s, origin, firstId, buckets, current, tensors, offset)
      requires Preserves(origin, before, taken)
      requires offset + |t.data| <= current.capacity && s.current.value.start + current.capacity <= s.consumed
      requires forall k :: 0 <= k < |s.Slots()| ==>
                 s.Slots()[k].start + Size(s.Slots()[k].tensors) <= s.current.value.start + offset
      modifies current, host.pool
      ensures LoopState(Append(s, t), origin, firstId, buckets, current, tensors', offset')
      ensures Preserves(origin, before, taken)
    {
      hide *;
      LoopFacts(s, origin, firstId, buckets, current, tensors, offset);
      Configured();
      PreservedBelow(origin, before, taken);
      ghost var mem := host.pool[..];
      var written := CopyTensorToBucket(current, offset, t);
      AppendHolds(s, t, mem, host.pool[..], origin);
      WrittenElsewhere(mem, host.pool[..], current.offset + offset, t.data, 0, origin);
      StillPreserves(origin, before, taken, mem);
      SizeAppend(s.current.value.tensors, t);
      IndexAppend(s.current.value.tensors, t);
      DescribeIs(t, offset);
      tensors' := Put(tensors, t.name, TensorMeta(t.shape, Name(t.dtype), offset, written.value));
      offset' := offset + written.value;
      Appended(t, buckets, current, tensors', offset', s, origin, firstId);
    }

    /** The state after a tensor was copied behind the others of the open bucket. */
    lemma Appended(t: Tensor, buckets: seq<BucketMeta>, current: BucketAllocation,
                   tensors: Dict<string, TensorMeta>, offset: nat, s: State, origin: nat, firstId: nat)
      requires Valid() && s.current.Some? && buckets == Catalogue(s.flushed, firstId, host.basePtr + origin)
      requires host.nextOffset == origin + s.consumed && host.nextBucketId == firstId + |s.Slots()|
      requires Holds(host.pool[..], origin, Append(s, t).Slots()) && Allotted(s.Slots(), origin, firstId)
      requires Mirrors(current, s.current.value, origin, firstId + |s.flushed|)
      requires offset == Size(s.current.value.tensors + [t]) && tensors == Index(s.current.value.tensors + [t])
      ensures LoopState(Append(s, t), origin, firstId, buckets, current, tensors, offset)
    {
      hide HostMemManager.Valid, Catalogue, Index, Size, Holds;
      var next, slots := Append(s, t), Append(s, t).Slots();
      assert next.flushed == s.flushed && next.current == Some(s.current.value.Add(t)) && next.consumed == s.consumed;
      assert |slots| == |s.Slots()|;
      forall k | 0 <= k < |slots|
        ensures AllottedSlot(slots[k], origin, firstId + k)
      {
        assert AllottedSlot(s.Slots()[k], origin, firstId + k);
      }
    }

    lemma DescribeIs(t: Tensor, offset: nat)
      ensures Describe(t, offset) == TensorMeta(t.shape, Name(t.dtype), offset, |t.data|)
    {
    }

    lemma PreservedBelow(origin: nat, before: seq<byte>, taken: map<nat, BucketAllocation>)
      requires Preserves(origin, before, taken)
      ensures origin <= |before| && origin <= host.pool.Length && host.pool[..origin] == before[..origin]
      ensures forall id :: id in taken ==> id in host.allocations && host.allocations[id] == taken[id]
    {
    }

    lemma StillPreserves(origin: nat, before: seq<byte>, taken: map<nat, BucketAllocation>, mem: seq<byte>)
      requires origin <= |before| && origin <= host.pool.Length == |mem| && mem[..origin] == before[..origin]
      requires host.pool[..][0..origin] == mem[0..origin]
      requires forall id :: id in taken ==> id in host.allocations && host.allocations[id] == taken[id]
      ensures Preserves(origin, before, taken)
    {
      assert host.pool[..origin] == host.pool[..][0..origin] && mem[..origin] == mem[0..origin];
    }

    /** The branch for a tensor larger than a bucket: it gets one of its own, closed at once. */
    method PackOversized(t: Tensor, buckets: seq<BucketMeta>, current: BucketAllocation?,
                         tensors: Dict<string, TensorMeta>, offset: nat,
                         ghost s: State, ghost origin: nat, ghost firstId: nat,
                         ghost before: seq<byte>, ghost taken: map<nat, BucketAllocation>)
      returns (r: Result<seq<BucketMeta>, LoadError>)
      requires Valid() && Sound(Packer(), s) && Packer().Oversized(t)
      requires LoopState(s, origin, firstId, buckets, current, tensors, offset)
      requires Preserves(origin, before, taken) && forall id :: id in taken ==> id < firstId
      modifies host, host.pool, current
      ensures Valid() && Preserves(origin, before, taken)
      ensures r.Failure? ==> r.error == OutOfMemory && host.nextOffset == origin + s.consumed
                             && host.nextBucketId == old(host.nextBucketId)
      ensures r.Success? <==> origin + Step(Packer(), s, t).consumed <= host.capacityBytes
      ensures r.Success? ==> LoopState(Step(Packer(), s, t), origin, firstId, r.value, null, [], 0)
    {
      hide *;
      LoopFacts(s, origin, firstId, buckets, current, tensors, offset);
      Configured();
      ghost var ready := Open(Flush(s), Demand(Packer(), s, t));
      RoomForTensor(Packer(), s, t);
      StepCases(Packer(), s, t);
      OpenedBucket(s, 0);
      OpenedBucket(Flush(s), Demand(Packer(), s, t));
      var buckets := FlushBucket(buckets, current, tensors, offset, s, origin, firstId);
      var a := OpenBucket(|t.data|, buckets, Demand(Packer(), s, t), Flush(s), origin, firstId, before, taken);
      if a.Failure? {
        return Failure(a.error);
      }
      LoopFacts(ready, origin, firstId, buckets, a.value, [], 0);
      var tensors, offset := AppendTensor(t, buckets, a.value, [], 0, ready, origin, firstId, before, taken);
      buckets := FlushBucket(buckets, a.value, tensors, offset, Append(ready, t), origin, firstId);
      LoopFacts(Step(Packer(), s, t), origin, firstId, buckets, null, [], 0);
      return Success(buckets);
    }

    /** The regular path: opens a bucket if there is none or the tensor does not fit, then appends. */
    method PackRegular(t: Tensor, buckets: seq<BucketMeta>, current: BucketAllocation?,
                       tensors: Dict<string, TensorMeta>, offset: nat,
                       ghost s: State, ghost origin: nat, ghost firstId: nat,
                       ghost before: seq<byte>, ghost taken: map<nat, BucketAllocation>)
      returns (ok: bool, buckets': seq<BucketMeta>, current': BucketAllocation?,
               tensors': Dict<string, TensorMeta>, offset': nat)
      requires Valid() && Sound(Packer(), s) && !Packer().Oversized(t)
      requires LoopState(s, origin, firstId, buckets, current, tensors, offset)
      requires Preserves(origin, before, taken) && forall id :: id in taken ==> id < firstId
      modifies host, host.pool, current
      ensures Valid() && Preserves(origin, before, taken)
      ensures !ok ==> host.nextOffset == origin + s.consumed && host.nextBucketId == old(host.nextBucketId)
      ensures ok <==> origin + Step(Packer(), s, t).consumed <= host.capacityBytes
      ensures ok ==> LoopState(Step(Packer(), s, t), origin, firstId, buckets', current', tensors', offset')
      ensures ok ==> current' == current || fresh(current')
    {
      hide *;
      LoopFacts(s, origin, firstId, buckets, current, tensors, offset);
      Configured();
      ghost var now := s;
      RoomForTensor(Packer(), s, t);
      StepCases(Packer(), s, t);
      OpenedBucket(s, 0);
      OpenedBucket(Flush(s), Demand(Packer(), s, t));
      ok, buckets', current', tensors', offset' := true, buckets, current, tensors, offset;
      if current' == null || offset' + |t.data| > current'.capacity {
        if current' != null {
          buckets' := FlushBucket(buckets, current, tensors, offset, s, origin, firstId);
          tensors', offset' := [], 0;
        }
        var a := OpenBucket(bucketSize, buckets', Demand(Packer(), s, t), Flush(s), origin, firstId, before, taken);
        if a.Failure? {
          ok := false;
          return;
        }
        current', now := a.value, Open(Flush(s), Demand(Packer(), s, t));
        LoopFacts(now, origin, firstId, buckets', current', tensors', offset');
      }
      tensors', offset' := AppendTensor(t, buckets', current', tensors', offset', now, origin, firstId, before, taken);
      LoopFacts(Append(now, t), origin, firstId, buckets', current', tensors', offset');
    }

    /** The state before the first tensor. */
    lemma Started()
      requires Valid()
      ensures LoopState(Run(Packer(), []), host.nextOffset, host.nextBucketId, [], null, [], 0)
      ensures Preserves(host.nextOffset, host.pool[..], host.allocations)
    {
      hide Step;
    }

    /**
     Packs the tensors into the pool. The load succeeds exactly when the buckets fit into what is left of the pool;
     the result then describes the buckets and the pool holds their tensors. Whatever happens, no other model's
     metadata and no byte handed out before changes.
     */
    method LoadFromNamedTensors(modelId: string, ts: seq<Tensor>, revision: Option<string>)
      returns (r: Result<ModelMeta, LoadError>)
      requires Valid()
      modifies this, host, host.pool
      ensures Valid()
      ensures modelId in old(models) <==> r == Failure(AlreadyLoaded)
      ensures modelId in old(models) ==> unchanged(this) && unchanged(host) && unchanged(host.pool)
      ensures r.Success? <==>
                modelId !in old(models) && old(host.nextOffset) + Run(Packer(), ts).consumed <= host.capacityBytes
      ensures r.Failure? ==> r.error != WriteExceedsCapacity && models == old(models)
      ensures r.Success? ==>
                var slots := Pack(Packer(), ts);
                && r.value == ModelMeta(modelId, revision, |slots|,
                                        Catalogue(slots, old(host.nextBucketId), host.basePtr + old(host.nextOffset)))
                && models == old(models)[modelId := r.value]
                && Holds(host.pool[..], old(host.nextOffset), slots)
                && Allotted(slots, old(host.nextOffset), old(host.nextBucketId))
                && host.nextOffset == old(host.nextOffset) + Run(Packer(), ts).consumed
                && host.nextBucketId == old(host.nextBucketId) + |slots|
      ensures old(host.nextOffset) <= host.nextOffset && old(host.nextBucketId) <= host.nextBucketId
      ensures Preserves(old(host.nextOffset), old(host.pool[..]), old(host.allocations))
    {
      hide *;
      Configured();
      if modelId in models {
        PreservesNothing();
        return Failure(AlreadyLoaded);
      }
      var buckets: seq<BucketMeta> := [];
      var current: BucketAllocation? := null;
      var tensors: Dict<string, TensorMeta> := [];
      var offset: nat := 0;
      ghost var origin, firstId, c := host.nextOffset, host.nextBucketId, Packer();
      ghost var taken, before := host.allocations, host.pool[..];
      assert ts[..0] == [];
      Started();

      for i := 0 to |ts|
        invariant LoopState(Run(c, ts[..i]), origin, firstId, buckets, current, tensors, offset)
        invariant models == old(models) && Preserves(origin, before, taken)
        invariant current != null ==> fresh(current)
      {
        ghost var s := Run(c, ts[..i]);
        LoopFacts(s, origin, firstId, buckets, current, tensors, offset);
        RunStep(c, ts, i);
        RunSound(c, ts[..i]);
        ConsumedMonotone(c, ts, i + 1);
        IsOversized(ts[i]);
        if |ts[i].data| > bucketSize {
          var r := PackOversized(ts[i], buckets, current, tensors, offset, s, origin, firstId, before, taken);
          if r.Failure? {
            return Failure(r.error);
          }
          buckets, current, tensors, offset := r.value, null, [], 0;
        } else {
          var ok;
          ok, buckets, current, tensors, offset :=
            PackRegular(ts[i], buckets, current, tensors, offset, s, origin, firstId, before, taken);
          if !ok {
            return Failure(OutOfMemory);
          }
        }
      }
      assert ts[..|ts|] == ts;
      LoopFacts(Run(c, ts), origin, firstId, buckets, current, tensors, offset);
      buckets := FlushBucket(buckets, current, tensors, offset, Run(c, ts), origin, firstId);
      LoopFacts(Flush(Run(c, ts)), origin, firstId, buckets, null, [], 0);
      Configured();
      PackedState(c, ts);
      var metadata := ModelMeta(modelId, revision, |buckets|, buckets);
      models := models[modelId := metadata];
      return Success(metadata);
    }

    lemma PreservesNothing()
      requires Valid()
      ensures Preserves(host.nextOffset, host.pool[..], host.allocations)
    {
      hide Tiled;
    }

    lemma IsOversized(t: Tensor)
      ensures Packer().Oversized(t) <==> |t.data| > bucketSize
    {
    }
  }
}
