/** `host_mem_manager.py`: one pool of bytes from which buckets are cut, front to back, and never returned. */
module HostMem {
  import opened Arithmetic
  import opened Bytes
  import opened Packing
  import opened Wrappers

  datatype AllocError = NotPositive | Exhausted(requested: nat, free: nat)

  /** `buffer` of the source is the view `pool[offset..offset + capacity]`. */
  class BucketAllocation {
    const bucketId: nat
    const offset: nat
    const capacity: nat
    const pool: array<byte>
    const poolBase: nat
    var usedBytes: nat

    constructor (bucketId: nat, offset: nat, capacity: nat, pool: array<byte>, poolBase: nat, usedBytes: nat)
      ensures this.bucketId == bucketId && this.offset == offset && this.capacity == capacity
      ensures this.pool == pool && this.poolBase == poolBase && this.usedBytes == usedBytes
    {
      this.bucketId, this.offset, this.capacity := bucketId, offset, capacity;
      this.pool, this.poolBase, this.usedBytes := pool, poolBase, usedBytes;
    }

    function BasePtr(): nat {
      poolBase + offset
    }
  }

  /** The part of the pool that a bucket owns. */
  datatype Extent = Extent(offset: nat, capacity: nat)

  /** Extents tile [0, end) in order, aligned at both ends. */
  ghost predicate Tiled(extents: seq<Extent>, end: nat, alignment: nat)
    requires 0 < alignment
  {
    if extents == [] then end == 0
    else
      var last := extents[|extents| - 1];
      && 0 < last.capacity
      && last.offset % alignment == 0
      && last.capacity % alignment == 0
      && last.offset + last.capacity == end
      && Tiled(extents[..|extents| - 1], last.offset, alignment)
  }

  /** Every byte below `end` is in one extent and one only, extents come in address order, and all are aligned. */
  lemma {:induction false} TiledPartition(extents: seq<Extent>, end: nat, alignment: nat, at: nat)
    requires 0 < alignment && Tiled(extents, end, alignment)
    ensures end % alignment == 0
    ensures forall i :: 0 <= i < |extents| ==>
              extents[i].offset % alignment == 0 && extents[i].offset + extents[i].capacity <= end
    ensures forall i, j :: 0 <= i < j < |extents| ==> extents[i].offset + extents[i].capacity <= extents[j].offset
    ensures at < end ==>
              exists i :: 0 <= i < |extents| && extents[i].offset <= at < extents[i].offset + extents[i].capacity
  {
    if extents != [] {
      var init, last := extents[..|extents| - 1], extents[|extents| - 1];
      TiledPartition(init, last.offset, alignment, at);
      ModSum(last.offset, last.capacity, alignment);
      hide Tiled;
      assert extents == init + [last];
      if at < last.offset {
        var i :| 0 <= i < |init| && init[i].offset <= at < init[i].offset + init[i].capacity;
        assert extents[i] == init[i];
      } else if at < end {
        assert extents[|init|] == last;
      }
    }
  }

  lemma TiledMore(extents: seq<Extent>, end: nat, alignment: nat, capacity: nat)
    requires 0 < alignment && Tiled(extents, end, alignment) && 0 < capacity && capacity % alignment == 0
    ensures Tiled(extents + [Extent(end, capacity)], end + capacity, alignment)
  {
    TiledPartition(extents, end, alignment, 0);
    assert (extents + [Extent(end, capacity)])[..|extents|] == extents;
  }

  class HostMemManager {
    const capacityBytes: nat
    const alignment: nat
    /** Where the aligned view of the over-allocated buffer begins. */
    const basePtr: nat
    const pool: array<byte>
    var nextOffset: nat
    var nextBucketId: nat
    var allocations: map<nat, BucketAllocation>

    ghost predicate Valid()
      reads this
    {
      && 0 < alignment && 0 < capacityBytes
      && basePtr % alignment == 0
      && pool.Length == capacityBytes
      && nextOffset <= capacityBytes
      && (forall id :: id in allocations <==> 0 <= id < nextBucketId)
      && (forall id :: id in allocations ==>
            allocations[id].bucketId == id && allocations[id].pool == pool && allocations[id].poolBase == basePtr)
      && Tiled(Layout(), nextOffset, alignment)
    }

    /** The allocator's abstract state: the extents of buckets 0, 1, 2, ... */
    ghost function Layout(): (e: seq<Extent>)
      reads this
      requires forall id :: id in allocations <==> 0 <= id < nextBucketId
      ensures |e| == nextBucketId
    {
      var known := allocations;
      seq(nextBucketId, i requires i in known => Extent(known[i].offset, known[i].capacity))
    }

    /** `rawPtr` is where the `capacity + alignment` byte buffer landed; the pool is the aligned view into it. */
    constructor (capacity: nat, alignment: nat, rawPtr: nat)
      requires 0 < capacity && 0 < alignment
      ensures Valid() && fresh(pool)
      ensures capacityBytes == capacity && this.alignment == alignment
      ensures rawPtr <= basePtr && basePtr + capacity <= rawPtr + (capacity + alignment)
      ensures nextOffset == 0 && Layout() == []
    {
      AlignUpIsLeastMultiple(rawPtr, alignment);
      this.capacityBytes, this.alignment := capacity, alignment;
      this.basePtr := rawPtr + (AlignUp(rawPtr, alignment) - rawPtr);
      this.pool := new byte[capacity];
      this.nextOffset, this.nextBucketId, this.allocations := 0, 0, map[];
    }

    /** The constructor's check on the configured capacity. */
    static method Create(capacity: int, alignment: nat, rawPtr: nat) returns (r: Result<HostMemManager, AllocError>)
      requires 0 < alignment
      ensures r.Success? <==> 0 < capacity
      ensures r.Success? ==> r.value.Valid() && fresh(r.value) && fresh(r.value.pool) && r.value.Layout() == []
    {
      if capacity <= 0 {
        return Failure(NotPositive);
      }
      var host := new HostMemManager(capacity, alignment, rawPtr);
      return Success(host);
    }

    /** Appends one extent of the rounded-up size, or refuses and changes nothing. */
    method AllocateBucket(capacity: int, usedBytes: nat) returns (r: Result<BucketAllocation, AllocError>)
      requires Valid()
      modifies this
      ensures Valid()
      ensures r.Failure? && r.error.NotPositive? <==> capacity <= 0
      ensures r.Success? <==> 0 < capacity && old(nextOffset) + AlignUp(capacity, alignment) <= capacityBytes
      ensures r.Failure? ==> unchanged(this)
      ensures r.Success? ==>
                && fresh(r.value) && r.value.pool == pool && r.value.poolBase == basePtr
                && r.value.bucketId == old(nextBucketId) && nextBucketId == old(nextBucketId) + 1
                && r.value.usedBytes == usedBytes
                && r.value.offset == old(nextOffset) && r.value.capacity == AlignUp(capacity, alignment)
                && nextOffset == old(nextOffset) + AlignUp(capacity, alignment)
                && allocations == old(allocations)[old(nextBucketId) := r.value]
                && Layout() == old(Layout()) + [Extent(old(nextOffset), AlignUp(capacity, alignment))]
    {
      if capacity <= 0 {
        return Failure(NotPositive);
      }
      AlignUpIsLeastMultiple(capacity, alignment);
      hide AlignUp, Tiled;
      var rounded := AlignUp(capacity, alignment);
      if nextOffset + rounded > capacityBytes {
        return Failure(Exhausted(rounded, capacityBytes - nextOffset));
      }
      TiledMore(Layout(), nextOffset, alignment, rounded);
      ghost var layout, end := Layout(), nextOffset;
      var bucketId := nextBucketId;
      nextBucketId := nextBucketId + 1;
      var offset := nextOffset;
      nextOffset := nextOffset + rounded;
      var allocation := new BucketAllocation(bucketId, offset, rounded, pool, basePtr, usedBytes);
      allocations := allocations[bucketId := allocation];
      assert Layout() == layout + [Extent(end, rounded)];
      return Success(allocation);
    }
  }
}
