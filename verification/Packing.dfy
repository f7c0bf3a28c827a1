/**
 What `ModelManager.load_from_named_tensors` decides: which tensor goes into which bucket and at which byte.
 The loop of the source is the left fold `Run`; its results on every prefix of the tensor list are what the
 in-place loader, the publication protocol and the client are proved against.
 */
module Packing {
  import opened Arithmetic
  import opened Bytes
  import opened Wrappers

  datatype DType =
    | Float64 | Float32 | Float16 | BFloat16 | Int64 | Int32 | Int16 | Int8 | UInt8 | Bool
    | Complex64 | Complex128 | Float8E4M3FN | Float8E5M2 | UInt16 | UInt32 | UInt64

  function ElementSize(d: DType): (n: nat)
    ensures 0 < n
  {
    match d
    case Complex128 => 16
    case Float64 | Int64 | UInt64 | Complex64 => 8
    case Float32 | Int32 | UInt32 => 4
    case Float16 | BFloat16 | Int16 | UInt16 => 2
    case _ => 1
  }

  function Product(shape: seq<nat>): nat {
    if shape == [] then 1 else Product(shape[..|shape| - 1]) * shape[|shape| - 1]
  }

  /** The product can be taken from either end. */
  lemma {:induction false} ProductFirst(n: nat, shape: seq<nat>)
    ensures Product([n] + shape) == n * Product(shape)
  {
    var all := [n] + shape;
    if shape == [] {
      assert all[..0] == [] && all[0] == n;
    } else {
      var m := |shape| - 1;
      assert all[..|all| - 1] == [n] + shape[..m] && all[|all| - 1] == shape[m];
      ProductFirst(n, shape[..m]);
      Regroup(n, Product(shape[..m]), shape[m]);
    }
  }

  lemma Regroup(a: nat, b: nat, c: nat)
    ensures a * b * c == a * (b * c)
  {
  }

  /** A named tensor: contiguous host bytes plus what the metadata says about them. */
  datatype Tensor = Tensor(name: string, shape: seq<nat>, dtype: DType, data: seq<byte>) {
    ghost predicate Valid() {
      |data| == Product(shape) * ElementSize(dtype)
    }
  }

  function AlignUp(value: int, alignment: int): int
    requires 0 < alignment
  {
    (value + alignment - 1) / alignment * alignment
  }

  lemma AlignUpIsLeastMultiple(value: int, alignment: int)
    requires 0 < alignment
    ensures AlignUp(value, alignment) % alignment == 0
    ensures value <= AlignUp(value, alignment) < value + alignment
    ensures forall m :: m % alignment == 0 && value <= m ==> AlignUp(value, alignment) <= m
  {
    var q := (value + alignment - 1) / alignment;
    assert (value + alignment - 1) == q * alignment + (value + alignment - 1) % alignment;
    MultipleMod(q, alignment);
    forall m | m % alignment == 0 && value <= m
      ensures q * alignment <= m
    {
      var k := m / alignment;
      assert m == k * alignment;
      if k < q {
        MulMonotone(k + 1, q, alignment);
        assert false;
      }
      MulMonotone(q, k, alignment);
    }
  }

  /** Total size of some tensors. */
  function Size(ts: seq<Tensor>): nat {
    if ts == [] then 0 else Size(ts[..|ts| - 1]) + |ts[|ts| - 1].data|
  }

  /** The bytes of some tensors, one after the other. */
  function Image(ts: seq<Tensor>): (s: seq<byte>)
    ensures |s| == Size(ts)
  {
    if ts == [] then [] else Image(ts[..|ts| - 1]) + ts[|ts| - 1].data
  }

  /** A bucket: `capacity` bytes at `start` (counted from where the load began) holding `tensors` back to back. */
  datatype Slot = Slot(start: nat, capacity: nat, tensors: seq<Tensor>) {
    function Add(t: Tensor): Slot {
      this.(tensors := tensors + [t])
    }
  }

  /** The loop's variables: flushed buckets, the open bucket, and the bytes taken from the pool so far. */
  datatype State = State(flushed: seq<Slot>, current: Option<Slot>, consumed: nat) {
    function Slots(): seq<Slot> {
      if current.Some? then flushed + [current.value] else flushed
    }
  }

  /** `bucketSize` and `alignment` of a server. */
  datatype Config = Config(bucketSize: nat, alignment: nat) {
    ghost predicate Valid() {
      0 < bucketSize && 0 < alignment
    }

    /** Capacity of a regular bucket. */
    function Capacity(): int
      requires 0 < alignment
    {
      AlignUp(bucketSize, alignment)
    }

    predicate Oversized(t: Tensor) {
      |t.data| > bucketSize
    }
  }

  /** How many bytes handling `t` takes from the pool. */
  function Demand(c: Config, s: State, t: Tensor): (n: nat)
    requires c.Valid()
  {
    AlignUpIsLeastMultiple(|t.data|, c.alignment);
    AlignUpIsLeastMultiple(c.bucketSize, c.alignment);
    if c.Oversized(t) then AlignUp(|t.data|, c.alignment)
    else if Opens(c, s, t) then c.Capacity()
    else 0
  }

  /** Whether a regular tensor needs a fresh bucket. */
  predicate Opens(c: Config, s: State, t: Tensor) {
    s.current == None || Size(s.current.value.tensors) + |t.data| > s.current.value.capacity
  }

  function Flush(s: State): State {
    State(s.Slots(), None, s.consumed)
  }

  function Open(s: State, capacity: nat): State {
    State(s.flushed, Some(Slot(s.consumed, capacity, [])), s.consumed + capacity)
  }

  function Append(s: State, t: Tensor): State
    requires s.current.Some?
  {
    s.(current := Some(s.current.value.Add(t)))
  }

  /** One iteration of the packing loop. */
  function Step(c: Config, s: State, t: Tensor): State
    requires c.Valid()
  {
    if c.Oversized(t) then Flush(Append(Open(Flush(s), Demand(c, s, t)), t))
    else if Opens(c, s, t) then Append(Open(Flush(s), Demand(c, s, t)), t)
    else Append(s, t)
  }

  lemma StepConsumes(c: Config, s: State, t: Tensor)
    requires c.Valid()
    ensures Step(c, s, t).consumed == s.consumed + Demand(c, s, t)
  {
  }

  /** The three cases of an iteration, and what each takes. */
  lemma StepCases(c: Config, s: State, t: Tensor)
    requires c.Valid()
    ensures c.Oversized(t) <==> |t.data| > c.bucketSize
    ensures Opens(c, s, t) <==> s.current == None || Size(s.current.value.tensors) + |t.data| > s.current.value.capacity
    ensures var ready := Open(Flush(s), Demand(c, s, t));
            Step(c, s, t) == if c.Oversized(t) then Flush(Append(ready, t))
                             else if Opens(c, s, t) then Append(ready, t)
                             else Append(s, t)
    ensures Demand(c, s, t) == if c.Oversized(t) then AlignUp(|t.data|, c.alignment)
                               else if Opens(c, s, t) then AlignUp(c.bucketSize, c.alignment)
                               else 0
    ensures Step(c, s, t).consumed == s.consumed + Demand(c, s, t)
  {
    hide AlignUp, Size;
  }

  lemma OpenedBucket(s: State, capacity: nat)
    ensures Open(s, capacity).current == Some(Slot(s.consumed, capacity, []))
    ensures Open(s, capacity).consumed == s.consumed + capacity
    ensures Flush(s) == State(s.Slots(), None, s.consumed) && Size([]) == 0
  {
  }

  lemma PackedState(c: Config, ts: seq<Tensor>)
    requires c.Valid()
    ensures Flush(Run(c, ts)).flushed == Pack(c, ts) == Flush(Run(c, ts)).Slots() && |Flush(Run(c, ts)).Slots()| == |Pack(c, ts)|
    ensures Flush(Run(c, ts)).consumed == Run(c, ts).consumed
  {
    hide Run;
  }

  /** Where the bytes of `t` go. */
  function Place(c: Config, s: State, t: Tensor): nat {
    if c.Oversized(t) || Opens(c, s, t) then s.consumed
    else s.current.value.start + Size(s.current.value.tensors)
  }

  function Run(c: Config, ts: seq<Tensor>): State
    requires c.Valid()
  {
    if ts == [] then State([], None, 0) else Step(c, Run(c, ts[..|ts| - 1]), ts[|ts| - 1])
  }

  /** The buckets a load produces. */
  function Pack(c: Config, ts: seq<Tensor>): seq<Slot>
    requires c.Valid()
  {
    Run(c, ts).Slots()
  }

  lemma RunStep(c: Config, ts: seq<Tensor>, i: nat)
    requires c.Valid() && i < |ts|
    ensures Run(c, ts[..i + 1]) == Step(c, Run(c, ts[..i]), ts[i])
  {
    assert ts[..i + 1][..i] == ts[..i];
  }

  // ---------------------------------------------------------------- layout invariant

  /** The buckets follow each other without a gap and end at `consumed`. */
  ghost predicate Contiguous(slots: seq<Slot>, consumed: nat) {
    if slots == [] then consumed == 0
    else
      var last := slots[|slots| - 1];
      last.start + last.capacity == consumed && Contiguous(slots[..|slots| - 1], last.start)
  }

  /** A bucket is non-empty, aligned and big enough; an oversized tensor is alone, other buckets have the regular size. */
  ghost predicate SlotOk(c: Config, s: Slot)
    requires c.Valid()
  {
    && 0 < s.capacity
    && s.capacity % c.alignment == 0
    && Size(s.tensors) <= s.capacity
    && (if AllRegular(c, s.tensors) then s.tensors != [] && s.capacity == c.Capacity()
        else |s.tensors| == 1 && s.capacity == AlignUp(|s.tensors[0].data|, c.alignment))
  }

  ghost predicate AllRegular(c: Config, ts: seq<Tensor>) {
    forall t :: t in ts ==> !c.Oversized(t)
  }

  lemma SizeAppend(a: seq<Tensor>, t: Tensor)
    ensures Size(a + [t]) == Size(a) + |t.data|
    ensures Image(a + [t]) == Image(a) + t.data
  {
    assert (a + [t])[..|a|] == a;
  }

  lemma SizeSingle(t: Tensor)
    ensures Size([t]) == |t.data| && Image([t]) == t.data
  {
    SizeAppend([], t);
    assert [] + [t] == [t];
  }

  /** What every iteration keeps: buckets tile [0, consumed), each is as it should be, the open one is regular. */
  ghost predicate Sound(c: Config, s: State)
    requires c.Valid()
  {
    && Contiguous(s.Slots(), s.consumed)
    && (forall k :: 0 <= k < |s.Slots()| ==> SlotOk(c, s.Slots()[k]))
    && (s.current.Some? ==> AllRegular(c, s.current.value.tensors))
  }

  lemma NewSlotOk(c: Config, s: State, t: Tensor)
    requires c.Valid() && (c.Oversized(t) || Opens(c, s, t))
    ensures SlotOk(c, Slot(s.consumed, Demand(c, s, t), [t]))
  {
    AlignUpIsLeastMultiple(|t.data|, c.alignment);
    AlignUpIsLeastMultiple(c.bucketSize, c.alignment);
    SizeSingle(t);
    assert t in [t];
  }

  lemma GrownSlotOk(c: Config, s: Slot, t: Tensor)
    requires c.Valid() && SlotOk(c, s) && AllRegular(c, s.tensors) && !c.Oversized(t)
    requires Size(s.tensors) + |t.data| <= s.capacity
    ensures SlotOk(c, s.Add(t)) && AllRegular(c, s.Add(t).tensors)
  {
    SizeAppend(s.tensors, t);
  }

  lemma StepSound(c: Config, s: State, t: Tensor)
    requires c.Valid() && Sound(c, s)
    ensures Sound(c, Step(c, s, t))
  {
    var a, s' := s.Slots(), Step(c, s, t);
    var b := s'.Slots();
    var n := |b| - 1;
    if c.Oversized(t) || Opens(c, s, t) {
      NewSlotOk(c, s, t);
      assert b == a + [b[n]];
      assert b[..n] == a;
    } else {
      GrownSlotOk(c, s.current.value, t);
      assert a[n] == s.current.value;
      assert b[..n] == s.flushed == a[..n];
    }
    forall k | 0 <= k < |b|
      ensures SlotOk(c, b[k])
    {
      assert k < n ==> b[k] == a[k];
    }
  }

  lemma {:induction false} RunSound(c: Config, ts: seq<Tensor>)
    requires c.Valid()
    ensures Sound(c, Run(c, ts))
  {
    if ts != [] {
      RunSound(c, ts[..|ts| - 1]);
      StepSound(c, Run(c, ts[..|ts| - 1]), ts[|ts| - 1]);
    }
  }

  /** A bucket ends before every later one begins. */
  lemma {:induction false} SlotsInOrder(slots: seq<Slot>, consumed: nat, i: nat)
    requires Contiguous(slots, consumed)
    requires i < |slots|
    ensures slots[i].start + slots[i].capacity <= consumed
    ensures forall j :: i < j < |slots| ==> slots[i].start + slots[i].capacity <= slots[j].start
  {
    var n := |slots| - 1;
    if i < n {
      SlotsInOrder(slots[..n], slots[n].start, i);
    }
  }

  // ---------------------------------------------------------------- contents

  /** The memory holds every bucket's tensors, the load having begun at `origin`. */
  ghost predicate Holds(mem: seq<byte>, origin: nat, slots: seq<Slot>) {
    forall k :: 0 <= k < |slots| ==> HoldsSlot(mem, origin, slots[k])
  }

  ghost predicate HoldsSlot(mem: seq<byte>, origin: nat, slot: Slot) {
    var lo := origin + slot.start;
    lo + Size(slot.tensors) <= |mem| && mem[lo..lo + Size(slot.tensors)] == Image(slot.tensors)
  }

  /** `mem'` is `mem` with `data` written at `at`. */
  ghost predicate Written(mem: seq<byte>, mem': seq<byte>, at: nat, data: seq<byte>) {
    && |mem'| == |mem|
    && at + |data| <= |mem|
    && mem' == mem[..at] + data + mem[at + |data|..]
  }

  lemma WrittenElsewhere(mem: seq<byte>, mem': seq<byte>, at: nat, data: seq<byte>, lo: nat, hi: nat)
    requires Written(mem, mem', at, data)
    requires lo <= hi <= |mem| && (hi <= at || at + |data| <= lo)
    ensures mem'[lo..hi] == mem[lo..hi]
  {
    forall i | lo <= i < hi
      ensures mem'[i] == mem[i]
    {
    }
  }

  /** A tensor goes inside the bytes taken so far, past everything the buckets already hold. */
  lemma PlaceInBounds(c: Config, s: State, t: Tensor)
    requires c.Valid() && Sound(c, s)
    ensures Place(c, s, t) + |t.data| <= Step(c, s, t).consumed
    ensures forall k :: 0 <= k < |s.Slots()| ==> s.Slots()[k].start + Size(s.Slots()[k].tensors) <= Place(c, s, t)
  {
    var slots := s.Slots();
    AlignUpIsLeastMultiple(|t.data|, c.alignment);
    AlignUpIsLeastMultiple(c.bucketSize, c.alignment);
    forall k | 0 <= k < |slots|
      ensures slots[k].start + Size(slots[k].tensors) <= Place(c, s, t)
      ensures slots[k].start + slots[k].capacity <= s.consumed
    {
      assert SlotOk(c, slots[k]);
      SlotsInOrder(slots, s.consumed, k);
    }
    if !c.Oversized(t) && !Opens(c, s, t) {
      assert slots[|slots| - 1] == s.current.value;
    }
  }

  /** The bucket that receives a tensor has room for it, and lies within the bytes taken. */
  lemma RoomForTensor(c: Config, s: State, t: Tensor)
    requires c.Valid() && Sound(c, s)
    ensures c.Oversized(t) || Opens(c, s, t) ==>
              var ready := Open(Flush(s), Demand(c, s, t));
              && |t.data| <= Demand(c, s, t)
              && forall k :: 0 <= k < |ready.Slots()| ==>
                   ready.Slots()[k].start + Size(ready.Slots()[k].tensors) <= s.consumed
    ensures !c.Oversized(t) && !Opens(c, s, t) ==>
              var at := s.current.value.start + Size(s.current.value.tensors);
              && s.current.value.start + s.current.value.capacity <= s.consumed
              && forall k :: 0 <= k < |s.Slots()| ==> s.Slots()[k].start + Size(s.Slots()[k].tensors) <= at
  {
    PlaceInBounds(c, s, t);
    AlignUpIsLeastMultiple(|t.data|, c.alignment);
    AlignUpIsLeastMultiple(c.bucketSize, c.alignment);
    if c.Oversized(t) || Opens(c, s, t) {
      var ready := Open(Flush(s), Demand(c, s, t));
      assert forall k :: 0 <= k < |s.Slots()| ==> ready.Slots()[k] == s.Slots()[k];
    } else {
      SlotsInOrder(s.Slots(), s.consumed, |s.Slots()| - 1);
    }
  }

  lemma OpenHolds(mem: seq<byte>, origin: nat, s: State, capacity: nat)
    requires s.current == None && Holds(mem, origin, s.Slots()) && origin + s.consumed <= |mem|
    ensures Holds(mem, origin, Open(s, capacity).Slots())
  {
    assert forall k :: 0 <= k < |s.Slots()| ==> Open(s, capacity).Slots()[k] == s.Slots()[k];
  }

  /** Writing a tensor behind everything the buckets hold adds it to the open bucket and disturbs nothing. */
  lemma AppendHolds(s: State, t: Tensor, mem: seq<byte>, mem': seq<byte>, origin: nat)
    requires s.current.Some? && Holds(mem, origin, s.Slots())
    requires var at := s.current.value.start + Size(s.current.value.tensors);
             && Written(mem, mem', origin + at, t.data)
             && forall k :: 0 <= k < |s.Slots()| ==> s.Slots()[k].start + Size(s.Slots()[k].tensors) <= at
    ensures Holds(mem', origin, Append(s, t).Slots())
  {
    var a, b := s.Slots(), Append(s, t).Slots();
    var n := |a| - 1;
    var at := s.current.value.start + Size(s.current.value.tensors);
    forall k | 0 <= k < |b|
      ensures HoldsSlot(mem', origin, b[k])
    {
      assert HoldsSlot(mem, origin, a[k]);
      SlotKept(a[k], mem, mem', origin, at, t.data);
      if k == n {
        SlotGrown(a[n], t, mem, mem', origin);
      }
    }
    hide HoldsSlot, Written, Size;
  }

  /** A bucket whose content ends before the written bytes keeps it. */
  lemma SlotKept(slot: Slot, mem: seq<byte>, mem': seq<byte>, origin: nat, at: nat, data: seq<byte>)
    requires HoldsSlot(mem, origin, slot) && Written(mem, mem', origin + at, data) && slot.start + Size(slot.tensors) <= at
    ensures HoldsSlot(mem', origin, slot)
  {
    var lo := origin + slot.start;
    var hi := lo + Size(slot.tensors);
    hide Size, Image;
    WrittenElsewhere(mem, mem', origin + at, data, lo, hi);
  }

  lemma SlotGrown(slot: Slot, t: Tensor, mem: seq<byte>, mem': seq<byte>, origin: nat)
    requires HoldsSlot(mem', origin, slot)
    requires Written(mem, mem', origin + slot.start + Size(slot.tensors), t.data)
    ensures HoldsSlot(mem', origin, slot.Add(t))
  {
    SizeAppend(slot.tensors, t);
    var lo := origin + slot.start;
    var at := lo + Size(slot.tensors);
    hide Size, Image;
    assert mem'[lo..at + |t.data|] == mem'[lo..at] + t.data;
  }

  /** Writing a tensor at its place turns the memory of one loop state into the memory of the next. */
  lemma StepHolds(c: Config, s: State, t: Tensor, mem: seq<byte>, mem': seq<byte>, origin: nat)
    requires c.Valid() && Sound(c, s)
    requires Holds(mem, origin, s.Slots())
    requires Written(mem, mem', origin + Place(c, s, t), t.data)
    ensures Holds(mem', origin, Step(c, s, t).Slots())
  {
    PlaceInBounds(c, s, t);
    if c.Oversized(t) || Opens(c, s, t) {
      var ready := Open(Flush(s), Demand(c, s, t));
      assert forall k :: 0 <= k < |s.Slots()| ==> ready.Slots()[k] == s.Slots()[k];
      AppendHolds(ready, t, mem, mem', origin);
    } else {
      AppendHolds(s, t, mem, mem', origin);
    }
  }

  /** Every bucket's content lies inside the bytes a load takes. */
  lemma PackedWithin(c: Config, ts: seq<Tensor>, k: nat)
    requires c.Valid() && k < |Pack(c, ts)|
    ensures var s := Pack(c, ts)[k];
            s.start + Size(s.tensors) <= s.start + s.capacity <= Run(c, ts).consumed
  {
    RunSound(c, ts);
    assert SlotOk(c, Pack(c, ts)[k]);
    SlotsInOrder(Pack(c, ts), Run(c, ts).consumed, k);
  }

  /** A load's buckets keep their content as long as nobody writes below where it ended. */
  lemma StillHolds(c: Config, ts: seq<Tensor>, mem: seq<byte>, mem': seq<byte>, origin: nat, end: nat)
    requires c.Valid() && Holds(mem, origin, Pack(c, ts))
    requires origin + Run(c, ts).consumed <= end <= |mem| == |mem'| && mem'[..end] == mem[..end]
    ensures Holds(mem', origin, Pack(c, ts))
  {
    hide Run, Image, Size;
    var slots := Pack(c, ts);
    forall k | 0 <= k < |slots|
      ensures HoldsSlot(mem', origin, slots[k])
    {
      PackedWithin(c, ts, k);
      assert HoldsSlot(mem, origin, slots[k]);
      var lo, hi := origin + slots[k].start, origin + slots[k].start + Size(slots[k].tensors);
      assert mem'[lo..hi] == mem'[..end][lo..hi] && mem[lo..hi] == mem[..end][lo..hi];
    }
  }

  // ---------------------------------------------------------------- nothing lost, nothing reordered

  /** The tensors of all the buckets, in order. */
  function Unpack(slots: seq<Slot>): seq<Tensor> {
    if slots == [] then [] else Unpack(slots[..|slots| - 1]) + slots[|slots| - 1].tensors
  }

  lemma UnpackLast(slots: seq<Slot>, s: Slot)
    ensures Unpack(slots + [s]) == Unpack(slots) + s.tensors
  {
    assert (slots + [s])[..|slots|] == slots;
  }

  lemma {:induction false} PackPreservesOrder(c: Config, ts: seq<Tensor>)
    requires c.Valid()
    ensures Unpack(Pack(c, ts)) == ts
  {
    hide *;
    RunLast(c, ts);
    if ts != [] {
      PackPreservesOrder(c, ts[..|ts| - 1]);
      assert ts == ts[..|ts| - 1] + [ts[|ts| - 1]];
      StepUnpacks(c, Run(c, ts[..|ts| - 1]), ts[|ts| - 1]);
    }
  }

  lemma RunLast(c: Config, ts: seq<Tensor>)
    requires c.Valid()
    ensures ts == [] ==> Unpack(Pack(c, ts)) == []
    ensures ts != [] ==> Run(c, ts) == Step(c, Run(c, ts[..|ts| - 1]), ts[|ts| - 1])
    ensures forall us :: Pack(c, us) == Run(c, us).Slots()
  {
    hide Step;
  }

  lemma StepUnpacks(c: Config, s: State, t: Tensor)
    requires c.Valid()
    ensures Unpack(Step(c, s, t).Slots()) == Unpack(s.Slots()) + [t]
  {
    hide Unpack, AlignUp, Size, Demand;
    if c.Oversized(t) || Opens(c, s, t) {
      assert [] + [t] == [t];
      assert Step(c, s, t).Slots() == s.Slots() + [Slot(s.consumed, Demand(c, s, t), [t])];
      UnpackLast(s.Slots(), Slot(s.consumed, Demand(c, s, t), [t]));
    } else {
      UnpackLast(s.flushed, s.current.value);
      UnpackLast(s.flushed, s.current.value.Add(t));
    }
  }

  lemma {:induction false} ConsumedMonotone(c: Config, ts: seq<Tensor>, i: nat)
    requires c.Valid() && i <= |ts|
    ensures Run(c, ts[..i]).consumed <= Run(c, ts).consumed
    decreases |ts| - i
  {
    if i < |ts| {
      RunStep(c, ts, i);
      ConsumedMonotone(c, ts, i + 1);
    } else {
      assert ts[..i] == ts;
    }
  }

  // ---------------------------------------------------------------- optimality

  /** A split of a tensor list into consecutive buckets that obeys the packing rules. */
  ghost predicate Legal(c: Config, split: seq<seq<Tensor>>)
    requires c.Valid()
  {
    forall k :: 0 <= k < |split| ==> LegalBucket(c, split[k])
  }

  ghost predicate LegalBucket(c: Config, ts: seq<Tensor>)
    requires c.Valid()
  {
    || (|ts| == 1 && c.Oversized(ts[0]))
    || (ts != [] && Size(ts) <= c.Capacity() && AllRegular(c, ts))
  }

  ghost function Contents(slots: seq<Slot>): seq<seq<Tensor>> {
    seq(|slots|, k requires 0 <= k < |slots| => slots[k].tensors)
  }

  /** The loop's own buckets are such a split. */
  lemma PackIsLegal(c: Config, ts: seq<Tensor>)
    requires c.Valid()
    ensures Legal(c, Contents(Pack(c, ts))) && Flatten(Contents(Pack(c, ts))) == ts
  {
    hide *;
    PackPreservesOrder(c, ts);
    FlattenContents(Pack(c, ts));
    forall k | 0 <= k < |Pack(c, ts)|
      ensures LegalBucket(c, Pack(c, ts)[k].tensors)
    {
      PackedSlotOk(c, ts, k);
      SlotIsLegal(c, Pack(c, ts)[k]);
    }
    ContentsLegal(c, Pack(c, ts));
  }

  lemma PackedSlotOk(c: Config, ts: seq<Tensor>, k: nat)
    requires c.Valid() && k < |Pack(c, ts)|
    ensures SlotOk(c, Pack(c, ts)[k])
  {
    RunSound(c, ts);
    hide Run, SlotOk, Contiguous;
  }

  lemma SlotIsLegal(c: Config, s: Slot)
    requires c.Valid() && SlotOk(c, s)
    ensures LegalBucket(c, s.tensors)
  {
    hide AlignUp;
  }

  lemma ContentsLegal(c: Config, slots: seq<Slot>)
    requires c.Valid() && forall k :: 0 <= k < |slots| ==> LegalBucket(c, slots[k].tensors)
    ensures Legal(c, Contents(slots))
  {
    hide LegalBucket;
  }

  lemma {:induction false} FlattenContents(slots: seq<Slot>)
    ensures Flatten(Contents(slots)) == Unpack(slots)
  {
    if slots != [] {
      FlattenContents(slots[..|slots| - 1]);
      assert Contents(slots)[..|slots| - 1] == Contents(slots[..|slots| - 1]);
    }
  }

  /** "No worse than": fewer buckets, or as many with no more in the open one. */
  ghost predicate Ahead(c: Config, s: State, split: seq<seq<Tensor>>)
    requires c.Valid()
  {
    || |s.Slots()| < |split|
    || (|s.Slots()| == |split| &&
          (s.current.Some? ==> split != [] && Size(s.current.value.tensors) <= Size(split[|split| - 1])))
  }

  /** Taking the last tensor off a legal split leaves a legal split. */
  lemma ShorterSplit(c: Config, before: seq<seq<Tensor>>, init: seq<Tensor>, t: Tensor)
    requires c.Valid() && Legal(c, before) && LegalBucket(c, init + [t])
    ensures init != [] ==> Legal(c, before + [init]) && Flatten(before + [init]) == Flatten(before) + init
  {
    hide *;
    if init != [] {
      ShorterBucket(c, init, t);
      LegalParts(c, before, init);
      FlattenLast(before, init);
    }
  }

  lemma LegalParts(c: Config, split: seq<seq<Tensor>>, last: seq<Tensor>)
    requires c.Valid()
    ensures Legal(c, split + [last]) <==> Legal(c, split) && LegalBucket(c, last)
  {
    hide LegalBucket;
    var all := split + [last];
    assert all[|split|] == last && forall k :: 0 <= k < |split| ==> all[k] == split[k];
    if Legal(c, all) {
      forall k | 0 <= k < |split|
        ensures LegalBucket(c, split[k])
      {
        assert LegalBucket(c, all[k]);
      }
    }
  }

  lemma LegalBucketNotEmpty(c: Config, ts: seq<Tensor>)
    requires c.Valid() && LegalBucket(c, ts)
    ensures ts != []
  {
  }

  lemma ShorterBucket(c: Config, init: seq<Tensor>, t: Tensor)
    requires c.Valid() && LegalBucket(c, init + [t]) && init != []
    ensures LegalBucket(c, init)
  {
    SizeAppend(init, t);
    hide Size, AlignUp;
    assert forall u :: u in init ==> u in init + [t];
  }

  lemma FlattenLast(split: seq<seq<Tensor>>, last: seq<Tensor>)
    ensures Flatten(split + [last]) == Flatten(split) + last
  {
    assert (split + [last])[..|split|] == split;
  }

  /** Greedy stays ahead of every legal split of every prefix. */
  lemma {:induction false} GreedyStaysAhead(c: Config, ts: seq<Tensor>, split: seq<seq<Tensor>>)
    requires c.Valid() && Legal(c, split) && Flatten(split) == ts
    ensures Ahead(c, Run(c, ts), split)
  {
    hide *;
    NothingBehind(c, split);
    RunLast(c, ts);
    if ts != [] {
      var q := |split| - 1;
      var last := split[q];
      assert split == split[..q] + [last];
      LegalParts(c, split[..q], last);
      LegalBucketNotEmpty(c, last);
      FlattenLast(split[..q], last);
      var init, t := last[..|last| - 1], last[|last| - 1];
      var ts' := ts[..|ts| - 1];
      assert last == init + [t] && ts[|ts| - 1] == t;
      ShorterSplit(c, split[..q], init, t);
      assert ts' == Flatten(split[..q]) + init;
      if init == [] {
        assert split == split[..q] + [[t]];
        GreedyStaysAhead(c, ts', split[..q]);
        FreshBucketKeepsAhead(c, Run(c, ts'), t, split[..q], split);
      } else {
        var split' := split[..q] + [init];
        GreedyStaysAhead(c, ts', split');
        GrownBucketKeepsAhead(c, ts', t, split', split);
      }
    }
  }

  lemma NothingBehind(c: Config, split: seq<seq<Tensor>>)
    requires c.Valid()
    ensures Flatten(split) == [] ==> Ahead(c, Run(c, []), split)
    ensures Flatten(split) != [] ==> split != []
  {
    hide Size;
  }

  lemma FreshBucketKeepsAhead(c: Config, s: State, t: Tensor, before: seq<seq<Tensor>>, after: seq<seq<Tensor>>)
    requires c.Valid() && Ahead(c, s, before) && after == before + [[t]]
    ensures Ahead(c, Step(c, s, t), after)
  {
    assert |Step(c, s, t).Slots()| <= |s.Slots()| + 1;
    assert Step(c, s, t).current.Some? && |Step(c, s, t).Slots()| == |s.Slots()| + 1
           ==> Step(c, s, t).current.value.tensors == [t];
  }

  lemma GrownBucketKeepsAhead(c: Config, ts: seq<Tensor>, t: Tensor, before: seq<seq<Tensor>>, after: seq<seq<Tensor>>)
    requires c.Valid() && ts != [] && Flatten(before) == ts
    requires Ahead(c, Run(c, ts), before)
    requires |after| == |before| > 0 && LegalBucket(c, after[|after| - 1]) && before[|before| - 1] != []
    requires after[|after| - 1] == before[|before| - 1] + [t]
    ensures Ahead(c, Step(c, Run(c, ts), t), after)
  {
    hide *;
    var last := before[|before| - 1];
    SizeAppend(last, t);
    LastOfFlatten(before);
    RegularLast(c, last, t);
    OpenBucket(c, ts);
    GrownStep(c, Run(c, ts), t, before, after);
  }

  lemma LastOfFlatten(split: seq<seq<Tensor>>)
    requires split != [] && split[|split| - 1] != []
    ensures var ts, last := Flatten(split), split[|split| - 1];
            ts != [] && ts[|ts| - 1] == last[|last| - 1]
  {
  }

  lemma RegularLast(c: Config, last: seq<Tensor>, t: Tensor)
    requires c.Valid() && last != [] && LegalBucket(c, last + [t])
    ensures !c.Oversized(last[|last| - 1]) && !c.Oversized(t) && Size(last + [t]) <= c.Capacity()
  {
    var all := last + [t];
    assert all[|last| - 1] in all && all[|last|] in all;
    hide Size, AlignUp;
  }

  lemma GrownStep(c: Config, s: State, t: Tensor, before: seq<seq<Tensor>>, after: seq<seq<Tensor>>)
    requires c.Valid() && Ahead(c, s, before) && |after| == |before| > 0
    requires s.current.Some? && s.current.value.capacity == c.Capacity() && !c.Oversized(t)
    requires Size(after[|after| - 1]) == Size(before[|before| - 1]) + |t.data| <= c.Capacity()
    ensures Ahead(c, Step(c, s, t), after)
  {
    SizeSingle(t);
    SizeAppend(s.current.value.tensors, t);
    hide AlignUp, Size, Demand;
  }

  /** A bucket is open exactly after a regular tensor, and it has the regular capacity. */
  lemma OpenBucket(c: Config, ts: seq<Tensor>)
    requires c.Valid()
    ensures Run(c, ts).current.Some? <==> ts != [] && !c.Oversized(ts[|ts| - 1])
    ensures Run(c, ts).current.Some? ==> Run(c, ts).current.value.capacity == c.Capacity()
  {
    var s := Run(c, ts);
    RunSound(c, ts);
    if s.current.Some? {
      assert s.Slots()[|s.Slots()| - 1] == s.current.value;
      assert SlotOk(c, s.current.value);
    }
  }

  /** No legal order-preserving split of the tensor list uses fewer buckets than the packing loop. */
  lemma GreedyIsOptimal(c: Config, ts: seq<Tensor>, split: seq<seq<Tensor>>)
    requires c.Valid() && Legal(c, split) && Flatten(split) == ts
    ensures |Pack(c, ts)| <= |split|
  {
    GreedyStaysAhead(c, ts, split);
  }

  // ---------------------------------------------------------------- space

  /** Bytes of the regular tensors. */
  function RegularBytes(c: Config, ts: seq<Tensor>): nat {
    if ts == [] then 0
    else RegularBytes(c, ts[..|ts| - 1]) + if c.Oversized(ts[|ts| - 1]) then 0 else |ts[|ts| - 1].data|
  }

  function OversizedCount(c: Config, ts: seq<Tensor>): nat {
    if ts == [] then 0
    else OversizedCount(c, ts[..|ts| - 1]) + if c.Oversized(ts[|ts| - 1]) then 1 else 0
  }

  /** Aligned sizes of the oversized tensors. */
  function OversizedBytes(c: Config, ts: seq<Tensor>): int
    requires c.Valid()
  {
    if ts == [] then 0
    else OversizedBytes(c, ts[..|ts| - 1])
         + if c.Oversized(ts[|ts| - 1]) then AlignUp(|ts[|ts| - 1].data|, c.alignment) else 0
  }

  /** The bound, sharpened by what the open bucket already holds so that it survives every step. */
  ghost predicate WithinPotential(c: Config, s: State, regular: int, oversized: int, oversizedBytes: int)
    requires c.Valid()
  {
    var used := s.consumed - oversizedBytes;
    if s.current.Some?
    then used <= 2 * regular - Size(s.current.value.tensors) + oversized * c.Capacity() + c.Capacity()
    else used <= 2 * regular + oversized * c.Capacity()
  }

  lemma PotentialStep(c: Config, s: State, t: Tensor, regular: int, oversized: int, oversizedBytes: int)
    requires c.Valid() && 0 <= c.Capacity()
    requires s.current.Some? ==> s.current.value.capacity == c.Capacity()
    requires WithinPotential(c, s, regular, oversized, oversizedBytes)
    ensures if c.Oversized(t)
            then WithinPotential(c, Step(c, s, t), regular, oversized + 1, oversizedBytes + Demand(c, s, t))
            else WithinPotential(c, Step(c, s, t), regular + |t.data|, oversized, oversizedBytes)
  {
    var cap, s' := c.Capacity(), Step(c, s, t);
    assert (oversized + 1) * cap == oversized * cap + cap;
    SizeSingle(t);
    if s.current.Some? {
      SizeAppend(s.current.value.tensors, t);
    }
    if c.Oversized(t) {
      assert s'.consumed == s.consumed + Demand(c, s, t);
    } else if Opens(c, s, t) {
      assert s'.consumed == s.consumed + cap;
    }
  }

  lemma {:induction false} SpacePotential(c: Config, ts: seq<Tensor>)
    requires c.Valid()
    ensures WithinPotential(c, Run(c, ts), RegularBytes(c, ts), OversizedCount(c, ts), OversizedBytes(c, ts))
  {
    if ts != [] {
      var ts', t := ts[..|ts| - 1], ts[|ts| - 1];
      SpacePotential(c, ts');
      AlignUpIsLeastMultiple(c.bucketSize, c.alignment);
      OpenBucket(c, ts');
      PotentialStep(c, Run(c, ts'), t, RegularBytes(c, ts'), OversizedCount(c, ts'), OversizedBytes(c, ts'));
    }
  }

  /** A load takes at most 2U + (m+1)C bytes plus the aligned sizes of its m oversized tensors. */
  lemma SpaceBound(c: Config, ts: seq<Tensor>)
    requires c.Valid()
    ensures Run(c, ts).consumed
            <= 2 * RegularBytes(c, ts) + (OversizedCount(c, ts) + 1) * c.Capacity() + OversizedBytes(c, ts)
  {
    SpacePotential(c, ts);
    AlignUpIsLeastMultiple(c.bucketSize, c.alignment);
    assert (OversizedCount(c, ts) + 1) * c.Capacity() == OversizedCount(c, ts) * c.Capacity() + c.Capacity();
  }
}
