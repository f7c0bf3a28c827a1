/** `server.py` and `client.py`: loading, publishing, querying and receiving a model. */
module EndToEnd {
  import opened Bytes
  import opened OrderedDict
  import opened Packing
  import opened Protocol
  import opened HostMem
  import opened Models
  import opened Framing
  import opened Transfer
  import opened Slicing
  import opened Wrappers

  class WeightCacheServer {
    const host: HostMemManager
    const manager: ModelManager
    const backend: TcpServer

    constructor (host: HostMemManager, bucketSize: nat)
      requires host.Valid() && 0 < bucketSize && host.basePtr + host.capacityBytes < U64
      ensures Valid() && fresh(manager) && fresh(backend) && this.host == host
    {
      this.host := host;
      this.manager := new ModelManager(host, bucketSize);
      this.backend := new TcpServer(host.basePtr, host.pool);
    }

    ghost predicate Valid()
      reads this, host, host.pool, manager, backend
    {
      && manager.host == host && manager.Valid()
      && backend.mem == host.pool && backend.memBase == host.basePtr && backend.Valid()
    }

    /** The model is loaded, its buckets hold exactly `ts`, and each may be read in full. */
    ghost predicate Published(modelId: string, ts: seq<Tensor>, origin: nat, firstId: nat)
      reads this, host, host.pool, manager, backend
    {
      && Valid()
      && var slots := Pack(manager.Packer(), ts);
      && modelId in manager.models
      && manager.models[modelId].bucketNum == |slots|
      && manager.models[modelId].buckets == Catalogue(slots, firstId, host.basePtr + origin)
      && origin + Run(manager.Packer(), ts).consumed <= host.nextOffset
      && Holds(host.pool[..], origin, slots)
      && Registered(slots, origin)
    }

    ghost predicate Registered(slots: seq<Slot>, origin: nat)
      reads this, host, backend
    {
      forall k :: 0 <= k < |slots| ==>
        Region(host.basePtr + origin + slots[k].start, slots[k].capacity) in backend.regions
    }

    /** Hands a load's buckets, looked up by id, to the data plane. */
    method RegisterBuckets(buckets: seq<BucketMeta>, ghost slots: seq<Slot>, ghost origin: nat, ghost firstId: nat)
      requires Valid() && buckets == Catalogue(slots, firstId, host.basePtr + origin)
      requires manager.Allotted(slots, origin, firstId)
      requires forall k :: 0 <= k < |slots| ==> origin + slots[k].start + slots[k].capacity <= host.nextOffset
      modifies backend
      ensures Valid() && Registered(slots, origin)
      ensures old(backend.regions) <= backend.regions
    {
      var regions: seq<Region> := [];
      for k := 0 to |buckets|
        invariant |regions| == k
        invariant forall j :: 0 <= j < k ==> regions[j] == Region(host.basePtr + origin + slots[j].start, slots[j].capacity)
      {
        assert buckets[k] == Entry(slots[k], firstId + k, host.basePtr + origin);
        assert manager.Mirrors(host.allocations[firstId + k], slots[k], origin, firstId + k);
        var allocation := host.allocations[buckets[k].bucketId];
        regions := regions + [Region(allocation.BasePtr(), allocation.capacity)];
      }
      if buckets == [] {
        return;
      }
      backend.RegisterRegions(regions);
      forall k | 0 <= k < |slots|
        ensures Region(host.basePtr + origin + slots[k].start, slots[k].capacity) in backend.regions
      {
        assert backend.regions[|old(backend.regions)| + k] == regions[k];
      }
    }

    /**
     Loads, publishes and registers a model. It is there afterwards exactly if it was new and fitted; models published
     before stay as they were, even if this load fails.
     */
    method LoadNamedTensors(modelId: string, ts: seq<Tensor>, revision: Option<string>) returns (r: Result<(), LoadError>)
      requires Valid()
      modifies host, host.pool, manager, backend
      ensures Valid()
      ensures r == Failure(AlreadyLoaded) <==> modelId in old(manager.models)
      ensures r.Success? <==>
                modelId !in old(manager.models)
                && old(host.nextOffset) + Run(manager.Packer(), ts).consumed <= host.capacityBytes
      ensures r.Success? ==> Published(modelId, ts, old(host.nextOffset), old(host.nextBucketId))
      ensures forall m, us, o, f :: old(Published(m, us, o, f)) ==> Published(m, us, o, f)
    {
      hide Run, Catalogue, Holds, Reachable, Tiled;
      ghost var origin, firstId := host.nextOffset, host.nextBucketId;
      ghost var c, slots := manager.Packer(), Pack(manager.Packer(), ts);
      var metadata := manager.LoadFromNamedTensors(modelId, ts, revision);
      ReachableWhateverTheBytes(backend.regions, old(backend.View()), backend.View());
      if metadata.Success? {
        forall k | 0 <= k < |slots|
          ensures origin + slots[k].start + slots[k].capacity <= host.nextOffset
        {
          PackedWithin(c, ts, k);
        }
        RegisterBuckets(metadata.value.buckets, slots, origin, firstId);
      }
      forall m, us, o, f | old(Published(m, us, o, f))
        ensures Published(m, us, o, f)
      {
        StillHolds(c, us, old(host.pool[..]), host.pool[..], o, origin);
      }
      return if metadata.Success? then Success(()) else Failure(metadata.error);
    }

    /** `handle_query`: what is known about a model, or nothing if it is not loaded. */
    function HandleQuery(modelId: string): (r: Option<WeightInfo>)
      reads manager
      ensures r.Some? <==> modelId in manager.models
    {
      if modelId in manager.models then Some(ToWeightInfo(manager.models[modelId])) else None
    }
  }

  /** The total size of a bucket's tensors. */
  function ByteCount(ts: seq<Tensor>): nat {
    if ts == [] then 0 else |ts[0].data| + ByteCount(ts[1..])
  }

  lemma {:induction false} ByteCountIsSize(ts: seq<Tensor>)
    ensures ByteCount(ts) == Size(ts)
  {
    if |ts| > 1 {
      var n := |ts| - 1;
      ByteCountIsSize(ts[..n]);
      ByteCountIsSize(ts[1..]);
      ByteCountIsSize(ts[1..][..n - 1]);
      assert ts[1..][..n - 1] == ts[..n][1..];
    } else if |ts| == 1 {
      assert ts[..0] == [] && ts[1..] == [];
    }
  }

  /**
   What a query of a published model is told: per packed bucket its address, its capacity and the bytes its tensors take, and
   a dictionary that has every name once, at it the last tensor of that name with the place of its bytes in the bucket.
   */
  lemma QueryDescribesModel(server: WeightCacheServer, modelId: string, ts: seq<Tensor>, origin: nat, firstId: nat)
    requires server.Published(modelId, ts, origin, firstId)
    ensures server.HandleQuery(modelId).Some?
    ensures var info, slots := server.HandleQuery(modelId).value, Pack(server.manager.Packer(), ts);
            && info.bucketNum == |slots| == |info.bucketMeta| == |info.bases| == |info.capacities| == |info.usedBytes|
            && forall k :: 0 <= k < |slots| ==>
                 && info.bases[k] == server.host.basePtr + origin + slots[k].start
                 && info.capacities[k] == slots[k].capacity && info.usedBytes[k] == ByteCount(slots[k].tensors)
                 && Lists(info.bucketMeta[k], slots[k].tensors)
  {
    hide Pack, Run, Index, Size, ByteCount, Lists, Holds, Reachable;
    var info, slots := server.HandleQuery(modelId).value, Pack(server.manager.Packer(), ts);
    forall k | 0 <= k < |slots|
      ensures info.usedBytes[k] == ByteCount(slots[k].tensors) && Lists(info.bucketMeta[k], slots[k].tensors)
    {
      ByteCountIsSize(slots[k].tensors);
      IndexIsList(slots[k].tensors);
    }
  }

  /** A bucket's dictionary names exactly its tensors, the last of each name, at their offsets. */
  ghost predicate Lists(d: Dict<string, TensorMeta>, ts: seq<Tensor>) {
    && (forall i, j :: 0 <= i < j < |d| ==> d[i].0 != d[j].0)
    && (forall i :: 0 <= i < |d| ==> exists j :: 0 <= j < |ts| && ts[j].name == d[i].0)
    && forall j :: 0 <= j < |ts| && LastOfName(ts, j) ==>
         (ts[j].name, TensorMeta(ts[j].shape, Name(ts[j].dtype), ByteCount(ts[..j]), |ts[j].data|)) in d
  }

  lemma IndexIsList(ts: seq<Tensor>)
    ensures Lists(Index(ts), ts)
  {
    hide Index, Size, ByteCount, Name, LastOfName;
    var d := Index(ts);
    IndexLists(ts);
    forall i | 0 <= i < |d|
      ensures exists j :: 0 <= j < |ts| && ts[j].name == d[i].0
    {
      assert d[i].0 in Keys(d);
    }
    forall j | 0 <= j < |ts| && LastOfName(ts, j)
      ensures (ts[j].name, TensorMeta(ts[j].shape, Name(ts[j].dtype), ByteCount(ts[..j]), |ts[j].data|)) in d
    {
      ByteCountIsSize(ts[..j]);
      assert Listing(ts, j) in d;
    }
    assert forall i, j :: 0 <= i < j < |d| ==> d[i].0 != d[j].0;
    assert forall i :: 0 <= i < |d| ==> exists j :: 0 <= j < |ts| && ts[j].name == d[i].0;
    assert forall j :: 0 <= j < |ts| && LastOfName(ts, j) ==>
        (ts[j].name, TensorMeta(ts[j].shape, Name(ts[j].dtype), ByteCount(ts[..j]), |ts[j].data|)) in d;
  }

  datatype ReceiveError = UnknownModel | Transfer(read: ReadError) | Slice(slice: SliceError)

  /** What the first bytes of the buffer are when a whole bucket was read into it. */
  lemma ReadContent(pool: seq<byte>, buf: seq<byte>, lo: nat, capacity: nat, size: nat)
    requires size <= capacity <= |buf| && lo + capacity <= |pool| && buf[..capacity] == pool[lo..lo + capacity]
    ensures buf[..size] == pool[lo..lo + size]
  {
    assert buf[..size] == buf[..capacity][..size] && pool[lo..lo + size] == pool[lo..lo + capacity][..size];
  }

  class Client {
    const peer: TcpPeer
    var recvBuf: array<byte>

    constructor (bucketSize: nat)
      ensures peer.Idle() && peer.open && recvBuf.Length == bucketSize
      ensures fresh(peer) && fresh(peer.up) && fresh(peer.down) && fresh(recvBuf)
    {
      peer := new TcpPeer();
      recvBuf := new byte[bucketSize];
    }

    /** `_resize_recv_buf`: grows the landing buffer, never shrinks it. */
    method ResizeRecvBuf(capacity: nat)
      modifies this
      ensures capacity <= recvBuf.Length && old(recvBuf.Length) <= recvBuf.Length
      ensures recvBuf == old(recvBuf) || (fresh(recvBuf) && old(recvBuf.Length) < capacity == recvBuf.Length)
    {
      if recvBuf.Length >= capacity {
        return;
      }
      recvBuf := new byte[capacity];
    }

    /** The inner loop: cuts one bucket's tensors out of the buffer, stopping at the first that cannot be viewed. */
    method SliceBucket(bucketMeta: Dict<string, TensorMeta>) returns (y: Yield)
      ensures y == SliceAll(bucketMeta, recvBuf[..], |bucketMeta|)
    {
      y := Yield([], None);
      for i := 0 to |bucketMeta|
        invariant y == SliceAll(bucketMeta, recvBuf[..], i) && y.error == None
      {
        var (name, meta) := bucketMeta[i];
        y := Then(y, Slicing.Slice(name, meta, recvBuf[..]));
        if y.error != None {
          FailedStays(bucketMeta, recvBuf[..], i + 1, |bucketMeta|);
          return;
        }
      }
    }

    /** Reads one bucket into the buffer and cuts it up. */
    method ReceiveBucket(server: WeightCacheServer, base: nat, capacity: nat, bucketMeta: Dict<string, TensorMeta>,
                         broken: bool, ghost slot: Slot, ghost origin: nat)
      returns (r: Result<Yield, ReadError>)
      requires server.Valid()
      requires base == server.host.basePtr + origin + slot.start && capacity == slot.capacity
      requires bucketMeta == Index(slot.tensors) && Size(slot.tensors) <= slot.capacity
      requires Region(base, capacity) in server.backend.regions && HoldsSlot(server.host.pool[..], origin, slot)
      requires forall i :: 0 <= i < |slot.tensors| ==> slot.tensors[i].Valid()
      requires peer.Idle() && server.host.pool != recvBuf
      modifies this, recvBuf, peer, peer.up, peer.down
      ensures peer.Idle() && server.host.pool != recvBuf && (recvBuf == old(recvBuf) || fresh(recvBuf))
      ensures old(recvBuf.Length) <= recvBuf.Length
      ensures broken || !old(peer.open) ==> r == Failure(ConnectionClosed)
      ensures !broken && old(peer.open) ==> r == Success(BucketYield(slot.tensors)) && peer.open
    {
      hide Index, Image, Size;
      assert server.backend.View().Covers(base, capacity) by {
        var i :| 0 <= i < |server.backend.regions| && server.backend.regions[i] == Region(base, capacity);
      }
      ResizeRecvBuf(capacity);
      assert IsServed(server.backend.regions, base, capacity) by {
        var i :| 0 <= i < |server.backend.regions| && server.backend.regions[i] == Region(base, capacity);
        assert Within(server.backend.regions[i], base, capacity);
      }
      var read := peer.Read(server.backend, recvBuf, base, capacity, broken);
      if read.Failure? {
        return Failure(read.error);
      }
      assert recvBuf[..][..capacity] == recvBuf[..capacity];
      var lo := origin + slot.start;
      assert server.host.pool[..][lo..lo + capacity] == server.host.pool[lo..lo + capacity];
      ReadContent(server.host.pool[..], recvBuf[..], lo, capacity, Size(slot.tensors));
      BufferYields(slot.tensors, recvBuf[..], |bucketMeta|);
      var y := SliceBucket(bucketMeta);
      return Success(y);
    }

    /**
     Receives a model bucket by bucket into the one buffer. `yielded` are the tensors as they were when handed out:
     exactly what the packed buckets stand for, or, if the connection breaks in a bucket, what those before it stand
     for, with the failure reported. A connection lost earlier is never reopened.
     */
    method ReceiveWeights(server: WeightCacheServer, modelId: string, breaksAt: Option<nat>,
                          ghost ts: seq<Tensor>, ghost origin: nat, ghost firstId: nat)
      returns (yielded: seq<Tensor>, error: Option<ReceiveError>)
      requires server.Valid() && forall i :: 0 <= i < |ts| ==> ts[i].Valid()
      requires modelId in server.manager.models ==> server.Published(modelId, ts, origin, firstId)
      requires peer.Idle() && server.host.pool != recvBuf
      modifies this, recvBuf, peer, peer.up, peer.down
      ensures modelId !in server.manager.models ==> yielded == [] && error == Some(UnknownModel)
      ensures modelId in server.manager.models ==>
                Received(yielded, error)
                == Reception(Pack(server.manager.Packer(), ts), if old(peer.open) then breaksAt else Some(0))
      ensures old(recvBuf.Length) <= recvBuf.Length
    {
      hide Pack, Run, Index, Image, Size, Delivery, BucketYield, Holds, Reachable;
      var response := server.HandleQuery(modelId);
      if response == None {
        return [], Some(UnknownModel);
      }
      var info := response.value;
      ghost var slots := Pack(server.manager.Packer(), ts);
      ghost var breaks := if peer.open then breaksAt else Some(0);
      assert forall m :: 0 <= m < |slots| ==>
          info.bases[m] == server.host.basePtr + origin + slots[m].start && info.capacities[m] == slots[m].capacity
          && info.bucketMeta[m] == Index(slots[m].tensors);
      yielded := [];
      DeliveryOfNone(slots);
      for k := 0 to info.bucketNum
        invariant peer.Idle() && server.host.pool != recvBuf && (peer.open || breaks == Some(k))
        invariant recvBuf == old(recvBuf) || fresh(recvBuf)
        invariant old(recvBuf.Length) <= recvBuf.Length
        invariant Yield(yielded, None) == Delivery(slots[..k])
        invariant breaks.Some? ==> k <= breaks.value
        invariant peer.open ==> breaks == breaksAt
      {
        BucketReady(server, ts, origin, firstId, modelId, k);
        var r := ReceiveBucket(server, info.bases[k], info.capacities[k], info.bucketMeta[k], breaksAt == Some(k),
                               slots[k], origin);
        if r.Failure? {
          return yielded, Some(Transfer(r.error));
        }
        DeliveryOfNext(slots, k);
        yielded := yielded + r.value.tensors;
        if r.value.error != None {
          FailedDeliveryStays(slots, k + 1, Reached(slots, breaks));
          return yielded, Some(Slice(r.value.error.value));
        }
      }
      assert slots[..|slots|] == slots;
      return yielded, None;
    }
  }

  /** What a caller of `receive_weights` sees: the tensors, then the end or an exception. */
  datatype Received = Received(tensors: seq<Tensor>, error: Option<ReceiveError>)

  /** How many buckets arrive whole. */
  function Reached(slots: seq<Slot>, breaksAt: Option<nat>): (n: nat)
    ensures n <= |slots|
  {
    if breaksAt.Some? && breaksAt.value < |slots| then breaksAt.value else |slots|
  }

  function Reception(slots: seq<Slot>, breaksAt: Option<nat>): Received {
    var n := Reached(slots, breaksAt);
    var y := Delivery(slots[..n]);
    Received(y.tensors,
             if y.error.Some? then Some(Slice(y.error.value))
             else if n < |slots| then Some(Transfer(ConnectionClosed))
             else None)
  }

  lemma DeliveryOfNone(slots: seq<Slot>)
    ensures Delivery(slots[..0]) == Yield([], None)
  {
  }

  lemma DeliveryOfNext(slots: seq<Slot>, k: nat)
    requires k < |slots|
    ensures Delivery(slots[..k + 1]) == Then(Delivery(slots[..k]), BucketYield(slots[k].tensors))
  {
    assert slots[..k + 1][..k] == slots[..k];
  }

  /** A published model's buckets meet what receiving one asks for. */
  lemma BucketReady(server: WeightCacheServer, ts: seq<Tensor>, origin: nat, firstId: nat, modelId: string, k: nat)
    requires server.Published(modelId, ts, origin, firstId) && forall i :: 0 <= i < |ts| ==> ts[i].Valid()
    requires k < |Pack(server.manager.Packer(), ts)|
    ensures var slot := Pack(server.manager.Packer(), ts)[k];
            && Size(slot.tensors) <= slot.capacity
            && Region(server.host.basePtr + origin + slot.start, slot.capacity) in server.backend.regions
            && HoldsSlot(server.host.pool[..], origin, slot)
            && forall i :: 0 <= i < |slot.tensors| ==> slot.tensors[i].Valid()
  {
    hide Run, Image, Size;
    var c := server.manager.Packer();
    PackedWithin(c, ts, k);
    PackPreservesOrder(c, ts);
    PackedAreValid(Pack(c, ts));
  }

  /**
   The whole way round: over an unbroken connection a client gets exactly the tensors that were loaded, in order and
   without an error, if and only if the model is receivable.
   */
  lemma ReceptionIsExact(c: Config, ts: seq<Tensor>)
    requires c.Valid() && forall i :: 0 <= i < |ts| ==> ts[i].Valid()
    ensures Reception(Pack(c, ts), None) == Received(ts, None) <==> Receivable(c, ts)
  {
    RoundTripExactly(c, ts);
    assert Pack(c, ts)[..|Pack(c, ts)|] == Pack(c, ts);
  }

  /** However the connection fares, a receivable model is handed out as a prefix of what was loaded. */
  lemma ReceptionIsPrefix(c: Config, ts: seq<Tensor>, breaksAt: Option<nat>)
    requires c.Valid() && Receivable(c, ts) && forall i :: 0 <= i < |ts| ==> ts[i].Valid()
    ensures Reception(Pack(c, ts), breaksAt).tensors <= ts
    ensures Reception(Pack(c, ts), breaksAt).error == None <==> Reached(Pack(c, ts), breaksAt) == |Pack(c, ts)|
  {
    var slots := Pack(c, ts);
    var n := Reached(slots, breaksAt);
    PackPreservesOrder(c, ts);
    PackedAreValid(slots);
    DeliveryOf(slots[..n]);
    UnpackPrefix(slots, n);
  }

  lemma {:induction false} UnpackPrefix(slots: seq<Slot>, n: nat)
    requires n <= |slots|
    ensures Unpack(slots[..n]) <= Unpack(slots)
    decreases |slots|
  {
    if n < |slots| {
      UnpackPrefix(slots[..|slots| - 1], n);
      assert slots[..|slots| - 1][..n] == slots[..n];
    } else {
      assert slots[..n] == slots;
    }
  }
}
