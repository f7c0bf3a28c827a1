/** `protocol.py`: what the server tells a client about a model. */
module Protocol {
  import opened Bytes
  import opened OrderedDict
  import opened Packing
  import opened Wrappers

  datatype TensorMeta = TensorMeta(shape: seq<nat>, dtype: string, offset: nat, nbytes: nat)
  datatype BucketMeta = BucketMeta(bucketId: nat, basePtr: nat, capacity: nat, usedBytes: nat,
                                   tensors: Dict<string, TensorMeta>)
  datatype ModelMeta = ModelMeta(modelId: string, revision: Option<string>, bucketNum: nat, buckets: seq<BucketMeta>)

  /** The parallel lists a query answers with. */
  datatype WeightInfo = WeightInfo(bucketNum: nat, bucketMeta: seq<Dict<string, TensorMeta>>, bases: seq<nat>,
                                   capacities: seq<nat>, usedBytes: seq<nat>)

  function ToWeightInfo(m: ModelMeta): WeightInfo {
    WeightInfo(m.bucketNum,
               seq(|m.buckets|, i requires 0 <= i < |m.buckets| => m.buckets[i].tensors),
               seq(|m.buckets|, i requires 0 <= i < |m.buckets| => m.buckets[i].basePtr),
               seq(|m.buckets|, i requires 0 <= i < |m.buckets| => m.buckets[i].capacity),
               seq(|m.buckets|, i requires 0 <= i < |m.buckets| => m.buckets[i].usedBytes))
  }

  /** `str(tensor.dtype)`. */
  function Name(d: DType): string {
    match d
    case Float64 => "torch.float64"
    case Float32 => "torch.float32"
    case Float16 => "torch.float16"
    case BFloat16 => "torch.bfloat16"
    case Int64 => "torch.int64"
    case Int32 => "torch.int32"
    case Int16 => "torch.int16"
    case Int8 => "torch.int8"
    case UInt8 => "torch.uint8"
    case Bool => "torch.bool"
    case Complex64 => "torch.complex64"
    case Complex128 => "torch.complex128"
    case Float8E4M3FN => "torch.float8_e4m3fn"
    case Float8E5M2 => "torch.float8_e5m2"
    case UInt16 => "torch.uint16"
    case UInt32 => "torch.uint32"
    case UInt64 => "torch.uint64"
  }

  function Describe(t: Tensor, offset: nat): TensorMeta {
    TensorMeta(t.shape, Name(t.dtype), offset, |t.data|)
  }

  /** The `tensors` dictionary of a bucket after it received `ts` one by one. */
  function Index(ts: seq<Tensor>): Dict<string, TensorMeta> {
    if ts == [] then []
    else
      var n := |ts| - 1;
      Put(Index(ts[..n]), ts[n].name, Describe(ts[n], Size(ts[..n])))
  }

  /** The metadata of one bucket of a load. */
  function Entry(slot: Slot, id: nat, address: nat): BucketMeta {
    BucketMeta(id, address + slot.start, slot.capacity, Size(slot.tensors), Index(slot.tensors))
  }

  /** The metadata of a load's buckets: ids count up from `firstId`, addresses from `address`. */
  function Catalogue(slots: seq<Slot>, firstId: nat, address: nat): (b: seq<BucketMeta>)
    ensures |b| == |slots|
  {
    seq(|slots|, k requires 0 <= k < |slots| => Entry(slots[k], firstId + k, address))
  }

  lemma CatalogueAppend(slots: seq<Slot>, s: Slot, firstId: nat, address: nat)
    ensures Catalogue(slots + [s], firstId, address)
            == Catalogue(slots, firstId, address) + [Entry(s, firstId + |slots|, address)]
  {
  }

  lemma IndexAppend(ts: seq<Tensor>, t: Tensor)
    ensures Index(ts + [t]) == Put(Index(ts), t.name, Describe(t, Size(ts)))
  {
    assert (ts + [t])[..|ts|] == ts;
  }
}
