/** What the client makes of a bucket's bytes: `client.py`'s slicing loop, and when it gives the tensors back. */
module Slicing {
  import opened Arithmetic
  import opened Bytes
  import opened OrderedDict
  import opened Packing
  import opened Protocol
  import opened Wrappers

  datatype SliceError = UnsupportedDType | BadView

  /** `_DTYPE_BY_NAME`, aliases included. */
  function ParseDType(name: string): Option<DType> {
    if name == "torch.float32" || name == "torch.float" then Some(Float32)
    else if name == "torch.float16" || name == "torch.half" then Some(Float16)
    else if name == "torch.bfloat16" then Some(BFloat16)
    else if name == "torch.int64" || name == "torch.long" then Some(Int64)
    else if name == "torch.int32" then Some(Int32)
    else if name == "torch.int16" then Some(Int16)
    else if name == "torch.int8" then Some(Int8)
    else if name == "torch.uint8" then Some(UInt8)
    else if name == "torch.bool" then Some(Bool)
    else None
  }

  /** The dtypes that the table has. */
  predicate Supported(d: DType) {
    d in {Float32, Float16, BFloat16, Int64, Int32, Int16, Int8, UInt8, Bool}
  }

  lemma TableCoversSupported(d: DType)
    ensures ParseDType(Name(d)) == if Supported(d) then Some(d) else None
  {
  }

  /** The table has exactly these names, three dtypes under two of them. */
  lemma TableIsComplete(name: string)
    ensures ParseDType(name).Some? <==>
            || (exists d :: Supported(d) && name == Name(d))
            || name in {"torch.float", "torch.half", "torch.long"}
    ensures ParseDType("torch.float") == ParseDType(Name(Float32)) && ParseDType("torch.half") == ParseDType(Name(Float16))
    ensures ParseDType("torch.long") == ParseDType(Name(Int64))
  {
    if d :| Supported(d) && name == Name(d) {
      TableCoversSupported(d);
    }
    if ParseDType(name).Some? && name !in {"torch.float", "torch.half", "torch.long"} {
      assert name == Name(ParseDType(name).value) && Supported(ParseDType(name).value);
    }
  }

  /** The tensors yielded so far, and the error that ended the loop, if any. */
  datatype Yield = Yield(tensors: seq<Tensor>, error: Option<SliceError>)

  /** One dictionary entry cut out of the buffer. A typed view needs whole elements at an element-aligned offset. */
  function Slice(name: string, meta: TensorMeta, buf: seq<byte>): Yield {
    var dtype := ParseDType(meta.dtype);
    if dtype == None then Yield([], Some(UnsupportedDType))
    else
      var size := ElementSize(dtype.value) * Product(meta.shape);
      if meta.offset + size > |buf| || meta.offset % ElementSize(dtype.value) != 0 then Yield([], Some(BadView))
      else Yield([Tensor(name, meta.shape, dtype.value, buf[meta.offset..meta.offset + size])], None)
  }

  function Then(a: Yield, b: Yield): Yield {
    if a.error != None then a else Yield(a.tensors + b.tensors, b.error)
  }

  /** The inner loop over the first `n` entries of a bucket's dictionary. */
  function SliceAll(d: Dict<string, TensorMeta>, buf: seq<byte>, n: nat): (y: Yield)
    requires n <= |d|
    ensures |y.tensors| <= n
  {
    if n == 0 then Yield([], None) else Then(SliceAll(d, buf, n - 1), Slice(d[n - 1].0, d[n - 1].1, buf))
  }

  /** After an error the loop is over. */
  lemma {:induction false} FailedStays(d: Dict<string, TensorMeta>, buf: seq<byte>, i: nat, n: nat)
    requires i <= n <= |d| && SliceAll(d, buf, i).error != None
    ensures SliceAll(d, buf, n) == SliceAll(d, buf, i)
    decreases n
  {
    if i < n {
      FailedStays(d, buf, i, n - 1);
    }
  }

  /** What a bucket that holds `ts` yields. */
  function BucketYield(ts: seq<Tensor>): Yield {
    SliceAll(Index(ts), Image(ts), |Index(ts)|)
  }

  /** What the buckets yield one after the other. */
  function Delivery(slots: seq<Slot>): Yield {
    if slots == [] then Yield([], None)
    else Then(Delivery(slots[..|slots| - 1]), BucketYield(slots[|slots| - 1].tensors))
  }

  lemma {:induction false} FailedDeliveryStays(slots: seq<Slot>, k: nat, n: nat)
    requires k <= n <= |slots| && Delivery(slots[..k]).error != None
    ensures Delivery(slots[..n]) == Delivery(slots[..k])
    decreases n
  {
    hide BucketYield;
    if k < n {
      assert slots[..n][..n - 1] == slots[..n - 1];
      FailedDeliveryStays(slots, k, n - 1);
    }
  }

  // ---------------------------------------------------------------- when a bucket gives its tensors back

  ghost predicate DistinctNames(ts: seq<Tensor>) {
    forall i, j :: 0 <= i < j < |ts| ==> ts[i].name != ts[j].name
  }

  /** The packed offset of tensor `i` is a multiple of its element size. */
  predicate Viewable(ts: seq<Tensor>, i: nat)
    requires i < |ts|
  {
    Supported(ts[i].dtype) && Size(ts[..i]) % ElementSize(ts[i].dtype) == 0
  }

  ghost predicate BucketReadable(ts: seq<Tensor>) {
    DistinctNames(ts) && forall i :: 0 <= i < |ts| ==> Viewable(ts, i)
  }

  ghost function Names(ts: seq<Tensor>): set<string> {
    set i | 0 <= i < |ts| :: ts[i].name
  }

  lemma DistinctNamesStep(ts: seq<Tensor>, t: Tensor)
    ensures DistinctNames(ts + [t]) <==> DistinctNames(ts) && t.name !in Names(ts)
    ensures Names(ts + [t]) == Names(ts) + {t.name}
  {
    var us := ts + [t];
    assert forall i :: 0 <= i < |ts| ==> us[i] == ts[i];
    assert us[|ts|] == t;
  }

  /** A repeated name, and nothing else, makes the dictionary shorter than the list. */
  lemma {:induction false} IndexKeys(ts: seq<Tensor>)
    ensures Keys(Index(ts)) == Names(ts) && |Index(ts)| <= |ts|
    ensures DistinctNames(ts) <==> |Index(ts)| == |ts|
  {
    if ts != [] {
      var n := |ts| - 1;
      IndexKeys(ts[..n]);
      assert ts == ts[..n] + [ts[n]];
      DistinctNamesStep(ts[..n], ts[n]);
    }
  }

  /** With distinct names the dictionary lists every tensor in order. */
  lemma {:induction false} IndexEntries(ts: seq<Tensor>)
    requires DistinctNames(ts)
    ensures |Index(ts)| == |ts|
    ensures forall i :: 0 <= i < |ts| ==> Index(ts)[i] == (ts[i].name, Describe(ts[i], Size(ts[..i])))
  {
    hide Describe, Size;
    if ts != [] {
      var n := |ts| - 1;
      assert ts == ts[..n] + [ts[n]];
      DistinctNamesStep(ts[..n], ts[n]);
      IndexKeys(ts[..n]);
      IndexEntries(ts[..n]);
      assert Index(ts) == Index(ts[..n]) + [(ts[n].name, Describe(ts[n], Size(ts[..n])))];
      forall i | 0 <= i < n
        ensures ts[..n][..i] == ts[..i]
      {
      }
    }
  }

  /** Tensor `i`'s bytes are in the image where the index says. */
  lemma {:induction false} ImageSlice(ts: seq<Tensor>, i: nat)
    requires i < |ts|
    ensures Size(ts[..i]) + |ts[i].data| <= Size(ts)
    ensures Image(ts)[Size(ts[..i])..Size(ts[..i]) + |ts[i].data|] == ts[i].data
  {
    var n := |ts| - 1;
    if i < n {
      ImageSlice(ts[..n], i);
      assert ts[..n][..i] == ts[..i];
    }
  }

  /** If the index lists the tensors, slicing goes through exactly when each is viewable, and gives them back. */
  lemma {:induction false} SliceAllTensors(ts: seq<Tensor>, d: Dict<string, TensorMeta>, n: nat)
    requires n <= |ts| == |d| && forall i :: 0 <= i < |ts| ==> ts[i].Valid()
    requires forall i :: 0 <= i < |ts| ==> d[i] == (ts[i].name, Describe(ts[i], Size(ts[..i])))
    ensures (SliceAll(d, Image(ts), n).error == None) <==> forall i :: 0 <= i < n ==> Viewable(ts, i)
    ensures SliceAll(d, Image(ts), n).tensors <= ts[..n]
    ensures SliceAll(d, Image(ts), n).error == None ==> SliceAll(d, Image(ts), n).tensors == ts[..n]
  {
    hide Image, Size, Product, Slice, Viewable, Describe;
    if n > 0 {
      SliceAllTensors(ts, d, n - 1);
      SliceTensor(ts, n - 1);
      assert ts[..n] == ts[..n - 1] + [ts[n - 1]];
    }
  }

  lemma SliceTensor(ts: seq<Tensor>, i: nat)
    requires i < |ts| && ts[i].Valid()
    ensures Slice(ts[i].name, Describe(ts[i], Size(ts[..i])), Image(ts))
            == if Viewable(ts, i) then Yield([ts[i]], None)
               else Yield([], Some(if Supported(ts[i].dtype) then BadView else UnsupportedDType))
  {
    hide *;
    ImageSlice(ts, i);
    TableCoversSupported(ts[i].dtype);
    SizeOfWhole(ts[i]);
    WhenViewable(ts, i);
    SliceWhole(ts[i].name, ts[i].shape, ts[i].dtype, Size(ts[..i]), ts[i].data, Image(ts));
    assert ts[i] == Tensor(ts[i].name, ts[i].shape, ts[i].dtype, ts[i].data);
  }

  lemma SizeOfWhole(t: Tensor)
    requires t.Valid()
    ensures |t.data| == ElementSize(t.dtype) * Product(t.shape)
    ensures forall offset: nat :: Describe(t, offset) == TensorMeta(t.shape, Name(t.dtype), offset, |t.data|)
  {
    hide Product, ElementSize, Name;
  }

  lemma WhenViewable(ts: seq<Tensor>, i: nat)
    requires i < |ts|
    ensures Viewable(ts, i) <==> Supported(ts[i].dtype) && Size(ts[..i]) % ElementSize(ts[i].dtype) == 0
  {
    hide Size, ElementSize, Supported;
  }

  /** The bytes of a whole tensor are cut out as they are, or not at all. */
  lemma SliceWhole(name: string, shape: seq<nat>, d: DType, offset: nat, data: seq<byte>, buf: seq<byte>)
    requires |data| == ElementSize(d) * Product(shape) && offset + |data| <= |buf| && buf[offset..offset + |data|] == data
    requires ParseDType(Name(d)) == if Supported(d) then Some(d) else None
    ensures Slice(name, TensorMeta(shape, Name(d), offset, |data|), buf)
            == if !Supported(d) then Yield([], Some(UnsupportedDType))
               else if offset % ElementSize(d) != 0 then Yield([], Some(BadView))
               else Yield([Tensor(name, shape, d, data)], None)
  {
    hide Product, ElementSize, Name, ParseDType, Supported;
  }

  /** A bucket gives its tensors back exactly when it is readable; it never yields anything wrong if names differ. */
  lemma BucketRoundTrip(ts: seq<Tensor>)
    requires forall i :: 0 <= i < |ts| ==> ts[i].Valid()
    ensures BucketReadable(ts) ==> BucketYield(ts) == Yield(ts, None)
    ensures |BucketYield(ts).tensors| <= |ts|
    ensures BucketYield(ts).error == None && |BucketYield(ts).tensors| == |ts| ==> BucketReadable(ts)
    ensures DistinctNames(ts) ==> BucketYield(ts).tensors <= ts
  {
    hide Index, Image;
    IndexKeys(ts);
    if DistinctNames(ts) {
      IndexEntries(ts);
      SliceAllTensors(ts, Index(ts), |ts|);
      assert ts[..|ts|] == ts;
    }
  }

  /** Every dictionary entry describes one of the bucket's tensors. */
  lemma {:induction false} IndexDescribes(ts: seq<Tensor>, i: nat) returns (j: nat)
    requires i < |Index(ts)|
    ensures j < |ts| && Index(ts)[i] == (ts[j].name, Describe(ts[j], Size(ts[..j])))
  {
    hide Describe, Size;
    var n := |ts| - 1;
    var d := Index(ts[..n]);
    if Index(ts)[i] == (ts[n].name, Describe(ts[n], Size(ts[..n]))) {
      j := n;
    } else {
      PutEntries(d, ts[n].name, Describe(ts[n], Size(ts[..n])), i);
      j := IndexDescribes(ts[..n], i);
      assert ts[..n][..j] == ts[..j];
    }
  }

  lemma PutEntries<K, V>(d: Dict<K, V>, k: K, v: V, i: nat)
    requires i < |Put(d, k, v)| && Put(d, k, v)[i] != (k, v)
    ensures i < |d| && d[i] == Put(d, k, v)[i]
  {
  }

  /** Tensor `j` is the last of its name. */
  ghost predicate LastOfName(ts: seq<Tensor>, j: nat)
    requires j < |ts|
  {
    forall i :: j < i < |ts| ==> ts[i].name != ts[j].name
  }

  lemma LastOfNameGrows(ts: seq<Tensor>, t: Tensor, j: nat)
    requires j < |ts|
    ensures LastOfName(ts + [t], j) <==> LastOfName(ts, j) && t.name != ts[j].name
    ensures LastOfName(ts + [t], |ts|)
  {
    var more := ts + [t];
    assert more[|ts|] == t && more[j] == ts[j];
    if LastOfName(more, j) {
      forall i | j < i < |ts|
        ensures ts[i].name != ts[j].name
      {
        assert more[i].name != more[j].name;
      }
    }
  }

  /** What the dictionary says of tensor `j`: shape, the dtype's name, the sum of the sizes before it and its own size. */
  function Listing(ts: seq<Tensor>, j: nat): (string, TensorMeta)
    requires j < |ts|
  {
    (ts[j].name, TensorMeta(ts[j].shape, Name(ts[j].dtype), Size(ts[..j]), |ts[j].data|))
  }

  lemma ListingGrows(ts: seq<Tensor>, t: Tensor, j: nat)
    requires j < |ts|
    ensures Listing(ts + [t], j) == Listing(ts, j) && Listing(ts, j).0 == ts[j].name
  {
    assert (ts + [t])[..j] == ts[..j];
    hide Size, Name;
  }

  lemma PutKeeps<K, V>(d: Dict<K, V>, k: K, v: V, entry: (K, V))
    ensures (k, v) in Put(d, k, v)
    ensures entry in d && entry.0 != k ==> entry in Put(d, k, v)
    ensures DistinctKeys(d) ==> DistinctKeys(Put(d, k, v))
  {
    var r := Put(d, k, v);
    hide Find, Put;
    if entry in d && entry.0 != k {
      var i :| 0 <= i < |d| && d[i] == entry;
      assert r[i] == entry;
    }
  }

  lemma IndexNext(ts: seq<Tensor>, t: Tensor)
    ensures Listing(ts + [t], |ts|).0 == t.name
    ensures Index(ts + [t]) == Put(Index(ts), t.name, Listing(ts + [t], |ts|).1)
  {
    assert (ts + [t])[..|ts|] == ts;
    hide Size, Name, Put;
  }

  /** The dictionary has every name once, and at it the last tensor of that name. */
  lemma {:induction false} IndexLists(ts: seq<Tensor>)
    ensures DistinctKeys(Index(ts)) && Keys(Index(ts)) == Names(ts)
    ensures forall j :: 0 <= j < |ts| && LastOfName(ts, j) ==> Listing(ts, j) in Index(ts)
  {
    hide *;
    IndexKeys(ts);
    if ts == [] {
      NothingIndexed();
    } else {
      var n := |ts| - 1;
      var init, last := ts[..n], ts[n];
      IndexLists(init);
      assert ts == init + [last];
      IndexNext(init, last);
      PutKeeps(Index(init), last.name, Listing(ts, n).1, Listing(ts, n));
      forall j | 0 <= j < |ts| && LastOfName(ts, j)
        ensures Listing(ts, j) in Index(ts)
      {
        if j < n {
          LastOfNameGrows(init, last, j);
          ListingGrows(init, last, j);
          PutKeeps(Index(init), last.name, Listing(ts, n).1, Listing(init, j));
        }
      }
    }
  }

  lemma NothingIndexed()
    ensures Index([]) == [] && DistinctKeys(Index([]))
  {
  }

  /** A receive buffer that begins with the bucket's bytes yields what the bucket yields, whatever follows. */
  lemma {:induction false} BufferYields(ts: seq<Tensor>, buf: seq<byte>, n: nat)
    requires n <= |Index(ts)| && forall i :: 0 <= i < |ts| ==> ts[i].Valid()
    requires Size(ts) <= |buf| && buf[..Size(ts)] == Image(ts)
    ensures SliceAll(Index(ts), buf, n) == SliceAll(Index(ts), Image(ts), n)
  {
    hide Index, Image, Product;
    if n > 0 {
      BufferYields(ts, buf, n - 1);
      var j := IndexDescribes(ts, n - 1);
      var meta := Index(ts)[n - 1].1;
      ImageSlice(ts, j);
      TableCoversSupported(ts[j].dtype);
      assert ts[j].Valid();
      SliceOfPrefix(Index(ts)[n - 1].0, meta, buf, Image(ts));
    }
  }

  lemma SliceOfPrefix(name: string, meta: TensorMeta, buf: seq<byte>, image: seq<byte>)
    requires image <= buf
    requires ParseDType(meta.dtype).Some? ==>
               meta.offset + ElementSize(ParseDType(meta.dtype).value) * Product(meta.shape) <= |image|
    ensures Slice(name, meta, buf) == Slice(name, meta, image)
  {
    hide ParseDType, Product;
    var dtype := ParseDType(meta.dtype);
    if dtype.Some? {
      var lo, hi := meta.offset, meta.offset + ElementSize(dtype.value) * Product(meta.shape);
      assert image == buf[..|image|];
      assert buf[lo..hi] == image[lo..hi];
    }
  }

  // ---------------------------------------------------------------- when a model comes back

  /** What a caller can check before loading: every bucket of the packing is readable. */
  ghost predicate Receivable(c: Config, ts: seq<Tensor>)
    requires c.Valid()
  {
    forall k :: 0 <= k < |Pack(c, ts)| ==> BucketReadable(Pack(c, ts)[k].tensors)
  }

  lemma {:induction false} DeliveryOf(slots: seq<Slot>)
    requires forall k :: 0 <= k < |slots| ==> forall i :: 0 <= i < |slots[k].tensors| ==> slots[k].tensors[i].Valid()
    ensures (forall k :: 0 <= k < |slots| ==> BucketReadable(slots[k].tensors)) ==>
              Delivery(slots) == Yield(Unpack(slots), None)
    ensures |Delivery(slots).tensors| <= |Unpack(slots)|
    ensures Delivery(slots).error == None && |Delivery(slots).tensors| == |Unpack(slots)| ==>
              forall k :: 0 <= k < |slots| ==> BucketReadable(slots[k].tensors)
  {
    hide *;
    if slots == [] {
      NothingDelivered();
    } else {
      var init, last := slots[..|slots| - 1], slots[|slots| - 1];
      DeliveryOf(init);
      BucketRoundTrip(last.tensors);
      LastDelivered(slots);
      ThenIs(Delivery(init), BucketYield(last.tensors));
    }
  }

  lemma NothingDelivered()
    ensures Delivery([]) == Yield([], None) && Unpack([]) == []
  {
  }

  lemma LastDelivered(slots: seq<Slot>)
    requires slots != []
    ensures var init, last := slots[..|slots| - 1], slots[|slots| - 1];
            Delivery(slots) == Then(Delivery(init), BucketYield(last.tensors)) && Unpack(slots) == Unpack(init) + last.tensors
  {
    hide BucketYield, Then;
  }

  lemma ThenIs(a: Yield, b: Yield)
    ensures Then(a, b) == if a.error != None then a else Yield(a.tensors + b.tensors, b.error)
  {
  }

  /**
   Packing, indexing and slicing give back the same tensors in the same order, without an error, if and only if no
   bucket has two tensors of one name, all dtypes are in the client's table and every packed offset is a multiple of
   its tensor's element size.
   */
  lemma RoundTripExactly(c: Config, ts: seq<Tensor>)
    requires c.Valid() && forall i :: 0 <= i < |ts| ==> ts[i].Valid()
    ensures Delivery(Pack(c, ts)) == Yield(ts, None) <==> Receivable(c, ts)
  {
    PackPreservesOrder(c, ts);
    PackedAreValid(Pack(c, ts));
    DeliveryOf(Pack(c, ts));
  }

  lemma {:induction false} PackedAreValid(slots: seq<Slot>)
    requires forall i :: 0 <= i < |Unpack(slots)| ==> Unpack(slots)[i].Valid()
    ensures forall k :: 0 <= k < |slots| ==> forall i :: 0 <= i < |slots[k].tensors| ==> slots[k].tensors[i].Valid()
  {
    hide Tensor.Valid, Unpack;
    if slots != [] {
      var n := |slots| - 1;
      var u, all := Unpack(slots[..n]), Unpack(slots);
      assert slots == slots[..n] + [slots[n]];
      UnpackLast(slots[..n], slots[n]);
      assert forall i :: 0 <= i < |u| ==> all[i] == u[i];
      PackedAreValid(slots[..n]);
      forall i | 0 <= i < |slots[n].tensors|
        ensures slots[n].tensors[i].Valid()
      {
        assert all[|u| + i] == slots[n].tensors[i];
      }
    }
  }

  /** A model of one supported dtype and distinct names always comes back. */
  lemma UniformModelIsReceivable(c: Config, ts: seq<Tensor>, d: DType)
    requires c.Valid() && Supported(d) && DistinctNames(ts)
    requires forall i :: 0 <= i < |ts| ==> ts[i].Valid() && ts[i].dtype == d
    ensures Receivable(c, ts)
  {
    hide Pack, Run, Unpack, Tensor.Valid, Size;
    var slots := Pack(c, ts);
    PackPreservesOrder(c, ts);
    forall k | 0 <= k < |slots|
      ensures BucketReadable(slots[k].tensors)
    {
      var us := slots[k].tensors;
      var at := UnpackedAt(slots, k);
      assert forall i :: 0 <= i < |us| ==> us[i] == ts[at + i];
      forall i | 0 <= i < |us|
        ensures Viewable(us, i)
      {
        UniformSize(us[..i], d);
      }
    }
  }

  /** Where bucket `k`'s tensors are in the list. */
  lemma {:induction false} UnpackedAt(slots: seq<Slot>, k: nat) returns (at: nat)
    requires k < |slots|
    ensures at + |slots[k].tensors| <= |Unpack(slots)|
    ensures forall i :: 0 <= i < |slots[k].tensors| ==> slots[k].tensors[i] == Unpack(slots)[at + i]
  {
    var n := |slots| - 1;
    if k < n {
      at := UnpackedAt(slots[..n], k);
    } else {
      at := |Unpack(slots[..n])|;
    }
  }

  lemma {:induction false} UniformSize(ts: seq<Tensor>, d: DType)
    requires forall i :: 0 <= i < |ts| ==> ts[i].Valid() && ts[i].dtype == d
    ensures Size(ts) % ElementSize(d) == 0
  {
    if ts != [] {
      var t, e := ts[|ts| - 1], ElementSize(d);
      UniformSize(ts[..|ts| - 1], d);
      assert t.Valid();
      var q := Size(ts[..|ts| - 1]) / e;
      assert Size(ts) == (q + Product(t.shape)) * e;
      MultipleMod(q + Product(t.shape), e);
    }
  }
}
