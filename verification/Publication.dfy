/**
 The server while a load is under way: the loading thread takes bucket space, copies bytes a few at a time, publishes
 the metadata and then registers the buckets, and may fail at any point, while the control thread answers queries
 and the data threads read memory between any two of its steps.
 */
module Publication {
  import opened Bytes
  import opened Packing
  import opened Protocol
  import opened Framing

  datatype World = World(config: Config, base: nat, capacity: nat) {
    ghost predicate Valid() {
      config.Valid() && base + capacity < U64
    }
  }

  /** One call of `load_model`: its arguments and where the allocator stood when it began. */
  datatype Load = Load(modelId: string, ts: seq<Tensor>, origin: nat, firstId: nat)

  datatype Loader =
    | Idle
    | Between(load: Load, i: nat)               // `i` tensors are packed
    | Copying(load: Load, i: nat, copied: nat)  // of tensor `i`, whose space is taken, `copied` bytes are written
    | Registering(load: Load, k: nat)           // published; `k` buckets are registered

  /** `loads` remembers which load published each model. */
  datatype State = State(mem: seq<byte>, next: nat, nextId: nat, models: map<string, seq<BucketMeta>>,
                         regions: seq<Region>, loader: Loader, returned: set<string>, loads: map<string, Load>)

  datatype Event =
    | Begin(modelId: string, ts: seq<Tensor>) | Take | Copy(k: nat) | NextTensor | Abort | Publish | Register | Return

  ghost function BucketRegion(w: World, l: Load, k: nat): Region
    requires w.Valid() && k < |Pack(w.config, l.ts)|
  {
    Region(w.base + l.origin + Pack(w.config, l.ts)[k].start, Pack(w.config, l.ts)[k].capacity)
  }

  /** Where the loader writes tensor `i`. */
  ghost function Target(w: World, l: Load, i: nat): nat
    requires w.Valid() && i < |l.ts|
  {
    l.origin + Place(w.config, Run(w.config, l.ts[..i]), l.ts[i])
  }

  ghost predicate Enabled(w: World, s: State, e: Event)
    requires w.Valid()
  {
    match e
    case Begin(_, _) => s.loader.Idle?
    case Take => s.loader.Between? && s.loader.i < |s.loader.load.ts|
    case Copy(k) => s.loader.Copying? && s.loader.i < |s.loader.load.ts|
                    && 1 <= k && s.loader.copied + k <= |s.loader.load.ts[s.loader.i].data|
                    && Target(w, s.loader.load, s.loader.i) + s.loader.copied + k <= |s.mem|
    case NextTensor => s.loader.Copying? && s.loader.i < |s.loader.load.ts|
                       && s.loader.copied == |s.loader.load.ts[s.loader.i].data|
    case Abort => s.loader.Between? || s.loader.Copying?
    case Publish => s.loader.Between? && s.loader.i == |s.loader.load.ts|
    case Register => s.loader.Registering? && s.loader.k < |Pack(w.config, s.loader.load.ts)|
    case Return => s.loader.Registering? && s.loader.k == |Pack(w.config, s.loader.load.ts)|
  }

  ghost function Apply(w: World, s: State, e: Event): State
    requires w.Valid() && Enabled(w, s, e)
  {
    match e
    case Begin(modelId, ts) =>
      if modelId in s.models then s  // ValueError
      else s.(loader := Between(Load(modelId, ts, s.next, s.nextId), 0))
    case Take =>
      var l, i := s.loader.load, s.loader.i;
      var before, after := Run(w.config, l.ts[..i]), Run(w.config, l.ts[..i + 1]);
      var d := Demand(w.config, before, l.ts[i]);
      if s.next + d > w.capacity then s.(loader := Idle)  // MemoryError
      else s.(next := s.next + d, nextId := l.firstId + |after.Slots()|, loader := Copying(l, i, 0))
    case Copy(k) =>
      var l, i, n := s.loader.load, s.loader.i, s.loader.copied;
      var at := Target(w, l, i) + n;
      s.(mem := s.mem[..at] + l.ts[i].data[n..n + k] + s.mem[at + k..], loader := Copying(l, i, n + k))
    case NextTensor => s.(loader := Between(s.loader.load, s.loader.i + 1))
    case Abort => s.(loader := Idle)
    case Publish =>
      var l := s.loader.load;
      s.(models := s.models[l.modelId := Catalogue(Pack(w.config, l.ts), l.firstId, w.base + l.origin)],
         loads := s.loads[l.modelId := l], loader := Registering(l, 0))
    case Register =>
      var l, k := s.loader.load, s.loader.k;
      s.(regions := s.regions + [BucketRegion(w, l, k)], loader := Registering(l, k + 1))
    case Return => s.(returned := s.returned + {s.loader.load.modelId}, loader := Idle)
  }

  ghost predicate Initial(w: World, s: State) {
    s == State.State(s.mem, 0, 0, map[], [], Idle, {}, map[]) && |s.mem| == w.capacity
  }

  // ---------------------------------------------------------------- invariant

  /** Below this nobody writes any more. */
  function Floor(s: State): nat {
    if s.loader.Between? || s.loader.Copying? then s.loader.load.origin else s.next
  }

  /** A published model is described truthfully and its buckets are completely written. */
  ghost predicate Intact(w: World, s: State, id: string)
    requires w.Valid() && id in s.loads && id in s.models
  {
    var l := s.loads[id];
    && l.modelId == id
    && s.models[id] == Catalogue(Pack(w.config, l.ts), l.firstId, w.base + l.origin)
    && l.origin + Run(w.config, l.ts).consumed <= Floor(s)
    && Holds(s.mem, l.origin, Pack(w.config, l.ts))
  }

  ghost predicate Registered(w: World, s: State, l: Load, n: nat)
    requires w.Valid() && n <= |Pack(w.config, l.ts)|
  {
    forall k :: 0 <= k < n ==> BucketRegion(w, l, k) in s.regions
  }

  /** A region that may be read is a bucket of a published model. */
  ghost predicate IsPublishedBucket(w: World, s: State, r: Region)
    requires w.Valid()
  {
    exists id, k :: id in s.loads && 0 <= k < |Pack(w.config, s.loads[id].ts)| && r == BucketRegion(w, s.loads[id], k)
  }

  ghost predicate LoaderInv(w: World, s: State)
    requires w.Valid()
  {
    match s.loader
    case Idle => true
    case Between(l, i) =>
      && i <= |l.ts| && l.modelId !in s.models
      && Progress(w, s, l, Run(w.config, l.ts[..i]), Run(w.config, l.ts[..i]))
    case Copying(l, i, n) =>
      && i < |l.ts| && n <= |l.ts[i].data| && l.modelId !in s.models
      && Progress(w, s, l, Run(w.config, l.ts[..i]), Run(w.config, l.ts[..i + 1]))
      && Target(w, l, i) + |l.ts[i].data| <= |s.mem|
      && s.mem[Target(w, l, i)..Target(w, l, i) + n] == l.ts[i].data[..n]
    case Registering(l, k) =>
      && l.modelId in s.loads && s.loads[l.modelId] == l
      && k <= |Pack(w.config, l.ts)| && Registered(w, s, l, k)
  }

  /** The memory holds what `held` packed, the allocator stands where `taken` left it. */
  ghost predicate Progress(w: World, s: State, l: Load, held: Packing.State, taken: Packing.State)
    requires w.Valid()
  {
    && Holds(s.mem, l.origin, held.Slots())
    && s.next == l.origin + taken.consumed
    && s.nextId == l.firstId + |taken.Slots()|
  }

  ghost predicate Shape(w: World, s: State)
    requires w.Valid()
  {
    && |s.mem| == w.capacity && s.next <= w.capacity
    && s.models.Keys == s.loads.Keys
    && LoaderInv(w, s)
  }

  ghost predicate Inv(w: World, s: State)
    requires w.Valid()
  {
    && Shape(w, s)
    && (forall id :: id in s.loads ==> Intact(w, s, id))
    && (forall id :: id in s.returned ==>
          id in s.loads && Registered(w, s, s.loads[id], |Pack(w.config, s.loads[id].ts)|))
    && (forall i :: 0 <= i < |s.regions| ==> IsPublishedBucket(w, s, s.regions[i]))
  }

  /** What no step takes back: published metadata, the bytes behind it, registrations and returned calls. */
  ghost predicate Keeps(s: State, s': State) {
    && s.models.Keys <= s'.models.Keys && s.returned <= s'.returned && s.regions <= s'.regions
    && s.models.Keys == s.loads.Keys && s'.models.Keys == s'.loads.Keys
    && (forall id :: id in s.models ==> s'.models[id] == s.models[id] && s'.loads[id] == s.loads[id])
    && Floor(s) <= Floor(s') && Floor(s) <= |s.mem| == |s'.mem| && s'.mem[..Floor(s)] == s.mem[..Floor(s)]
  }

  /** Whatever a step keeps is enough for published models to stay intact. */
  lemma KeptModelsStayIntact(w: World, s: State, s': State)
    requires w.Valid() && Keeps(s, s') && s.next <= |s.mem|
    requires forall id :: id in s.loads ==> Intact(w, s, id)
    ensures forall id :: id in s.loads ==> Intact(w, s', id)
  {
    hide Run, Holds, Catalogue;
    forall id | id in s.loads
      ensures Intact(w, s', id)
    {
      var l := s.loads[id];
      assert Intact(w, s, id);
      StillHolds(w.config, l.ts, s.mem, s'.mem, l.origin, Floor(s));
    }
  }

  lemma KeptRegistrations(w: World, s: State, s': State)
    requires w.Valid() && Keeps(s, s')
    requires forall i :: 0 <= i < |s.regions| ==> IsPublishedBucket(w, s, s.regions[i])
    ensures forall i :: 0 <= i < |s.regions| ==> s'.regions[i] == s.regions[i] && IsPublishedBucket(w, s', s.regions[i])
    ensures forall l: Load, n: nat :: n <= |Pack(w.config, l.ts)| && Registered(w, s, l, n) ==> Registered(w, s', l, n)
  {
    hide Run;
    forall i | 0 <= i < |s.regions|
      ensures IsPublishedBucket(w, s', s.regions[i])
    {
      assert IsPublishedBucket(w, s, s.regions[i]);
      var id, k :| id in s.loads && 0 <= k < |Pack(w.config, s.loads[id].ts)|
                   && s.regions[i] == BucketRegion(w, s.loads[id], k);
      assert id in s'.loads && s'.loads[id] == s.loads[id];
    }
  }

  // ---------------------------------------------------------------- every step

  lemma BeginStep(w: World, s: State, e: Event)
    requires w.Valid() && Shape(w, s) && Enabled(w, s, e) && e.Begin?
    ensures Keeps(s, Apply(w, s, e)) && Shape(w, Apply(w, s, e))
  {
    assert e.ts[..0] == [];
  }

  lemma TakeStep(w: World, s: State)
    requires w.Valid() && Shape(w, s) && Enabled(w, s, Take)
    ensures Keeps(s, Apply(w, s, Take)) && Shape(w, Apply(w, s, Take))
  {
    hide Run, Holds, Pack, Demand, Target, Step, AlignUp, Catalogue, Registered, IsPublishedBucket;
    var l, i := s.loader.load, s.loader.i;
    RunStep(w.config, l.ts, i);
    StepConsumes(w.config, Run(w.config, l.ts[..i]), l.ts[i]);
    TargetInBounds(w, l, i);
    var s' := Apply(w, s, Take);
    if s'.loader.Copying? {
      var at := Target(w, l, i);
      assert s.mem[at..at + 0] == [] == l.ts[i].data[..0];
    }
  }

  lemma TargetInBounds(w: World, l: Load, i: nat)
    requires w.Valid() && i < |l.ts|
    ensures Target(w, l, i) + |l.ts[i].data| <= l.origin + Step(w.config, Run(w.config, l.ts[..i]), l.ts[i]).consumed
  {
    hide Run, Place, Step;
    RunSound(w.config, l.ts[..i]);
    PlaceInBounds(w.config, Run(w.config, l.ts[..i]), l.ts[i]);
  }

  lemma CopyStep(w: World, s: State, e: Event)
    requires w.Valid() && Shape(w, s) && Enabled(w, s, e) && e.Copy?
    ensures Keeps(s, Apply(w, s, e)) && Shape(w, Apply(w, s, e))
  {
    hide Run, Pack, Holds, Size, Target, Catalogue, Registered, IsPublishedBucket;
    var l, i, n := s.loader.load, s.loader.i, s.loader.copied;
    var s' := Apply(w, s, e);
    var at, data := Target(w, l, i), l.ts[i].data;
    TargetIsAbove(w, l, i);
    CopiedChunk(s.mem, s'.mem, l.origin, at, data, n, e.k);
    HeldBelow(w, s, s', l, Run(w.config, l.ts[..i]), at);
  }

  /** A tensor's place is past everything its load has packed before. */
  lemma TargetIsAbove(w: World, l: Load, i: nat)
    requires w.Valid() && i < |l.ts|
    ensures l.origin <= Target(w, l, i)
    ensures forall k :: 0 <= k < |Run(w.config, l.ts[..i]).Slots()| ==>
              var slot := Run(w.config, l.ts[..i]).Slots()[k];
              l.origin + slot.start + Size(slot.tensors) <= Target(w, l, i)
  {
    hide Run, Place, Size;
    RunSound(w.config, l.ts[..i]);
    PlaceInBounds(w.config, Run(w.config, l.ts[..i]), l.ts[i]);
  }

  lemma CopiedChunk(mem: seq<byte>, mem': seq<byte>, origin: nat, at: nat, data: seq<byte>, n: nat, k: nat)
    requires origin <= at && n + k <= |data| && at + n + k <= |mem| && mem[at..at + n] == data[..n]
    requires mem' == mem[..at + n] + data[n..n + k] + mem[at + n + k..]
    ensures |mem'| == |mem| && mem'[..at] == mem[..at] && mem'[..origin] == mem[..origin]
    ensures mem'[at..at + (n + k)] == data[..n + k]
  {
    var chunk := data[n..n + k];
    ChunkWritten(mem, mem', at + n, chunk, at);
    ChunkWritten(mem, mem', at + n, chunk, origin);
    assert data[..n + k] == data[..n] + chunk;
  }

  /** A chunk written at `at` extends what was written from `lo` to there and leaves what is before `lo`. */
  lemma ChunkWritten(mem: seq<byte>, mem': seq<byte>, at: nat, data: seq<byte>, lo: nat)
    requires lo <= at && at + |data| <= |mem| && mem' == mem[..at] + data + mem[at + |data|..]
    ensures |mem'| == |mem| && mem'[..lo] == mem[..lo]
    ensures mem'[lo..at + |data|] == mem[lo..at] + data
  {
  }

  /** Writing past everything held disturbs nothing held. */
  lemma HeldBelow(w: World, s: State, s': State, l: Load, held: Packing.State, at: nat)
    requires |s.mem| == |s'.mem| && at <= |s.mem| && s'.mem[..at] == s.mem[..at]
    requires Holds(s.mem, l.origin, held.Slots())
    requires forall k :: 0 <= k < |held.Slots()| ==> l.origin + held.Slots()[k].start + Size(held.Slots()[k].tensors) <= at
    ensures Holds(s'.mem, l.origin, held.Slots())
  {
    hide Size, Image;
    forall k | 0 <= k < |held.Slots()|
      ensures HoldsSlot(s'.mem, l.origin, held.Slots()[k])
    {
      var slot := held.Slots()[k];
      assert HoldsSlot(s.mem, l.origin, slot);
      var lo, hi := l.origin + slot.start, l.origin + slot.start + Size(slot.tensors);
      SliceBelow(s.mem, s'.mem, at, lo, hi);
    }
  }

  lemma SliceBelow(a: seq<byte>, b: seq<byte>, at: nat, lo: nat, hi: nat)
    requires lo <= hi <= at <= |a| && at <= |b| && a[..at] == b[..at]
    ensures a[lo..hi] == b[lo..hi]
  {
    assert a[lo..hi] == a[..at][lo..hi] && b[lo..hi] == b[..at][lo..hi];
  }

  lemma NextTensorStep(w: World, s: State)
    requires w.Valid() && Shape(w, s) && Enabled(w, s, NextTensor)
    ensures Keeps(s, Apply(w, s, NextTensor)) && Shape(w, Apply(w, s, NextTensor))
  {
    hide Run, Pack, Holds, Demand, Place, Step, Sound, Written, Catalogue;
    var l, i := s.loader.load, s.loader.i;
    var before, at := Run(w.config, l.ts[..i]), Target(w, l, i);
    RunStep(w.config, l.ts, i);
    RunSound(w.config, l.ts[..i]);
    WholeWritten(s.mem, at, l.ts[i].data);
    StepHolds(w.config, before, l.ts[i], s.mem, s.mem, l.origin);
  }

  /** When all bytes of `data` were copied, the memory is as if they had been written at once. */
  lemma WholeWritten(mem: seq<byte>, at: nat, data: seq<byte>)
    requires at + |data| <= |mem| && mem[at..at + |data|] == data[..|data|]
    ensures Written(mem, mem, at, data)
  {
    assert data[..|data|] == data;
    assert mem == mem[..at] + mem[at..at + |data|] + mem[at + |data|..];
  }

  lemma PublishStep(w: World, s: State)
    requires w.Valid() && Shape(w, s) && Enabled(w, s, Publish)
    ensures Keeps(s, Apply(w, s, Publish)) && Shape(w, Apply(w, s, Publish))
    ensures var l := s.loader.load; Intact(w, Apply(w, s, Publish), l.modelId)
  {
    hide Run, Holds, Catalogue;
    var l := s.loader.load;
    assert l.ts[..|l.ts|] == l.ts;
  }

  lemma RegisterStep(w: World, s: State)
    requires w.Valid() && Shape(w, s) && Enabled(w, s, Register)
    ensures Keeps(s, Apply(w, s, Register)) && Shape(w, Apply(w, s, Register))
    ensures var s' := Apply(w, s, Register);
            IsPublishedBucket(w, s', s'.regions[|s.regions|])
  {
    hide Run, Pack;
    var l, k := s.loader.load, s.loader.k;
    var s' := Apply(w, s, Register);
    assert s'.regions[|s.regions|] == BucketRegion(w, s'.loads[l.modelId], k);
    forall j | 0 <= j < k + 1
      ensures BucketRegion(w, l, j) in s'.regions
    {
      if j < k {
        assert BucketRegion(w, l, j) in s.regions;
      }
    }
  }

  lemma StepKeepsInv(w: World, s: State, e: Event)
    requires w.Valid() && Inv(w, s) && Enabled(w, s, e)
    ensures Inv(w, Apply(w, s, e)) && Keeps(s, Apply(w, s, e))
  {
    hide Run, Pack, Holds, Catalogue, Demand, Place, Intact, IsPublishedBucket, Registered, Target, BucketRegion;
    var s' := Apply(w, s, e);
    match e {
      case Begin(_, _) => BeginStep(w, s, e);
      case Take => TakeStep(w, s);
      case Copy(_) => CopyStep(w, s, e);
      case NextTensor => NextTensorStep(w, s);
      case Abort =>
      case Publish => PublishStep(w, s);
      case Register => RegisterStep(w, s);
      case Return =>
    }
    KeptModelsStayIntact(w, s, s');
    KeptRegistrations(w, s, s');
  }

  // ---------------------------------------------------------------- every run

  ghost predicate IsRun(w: World, run: seq<State>)
    requires w.Valid()
  {
    && run != [] && Initial(w, run[0])
    && forall i :: 0 <= i < |run| - 1 ==> Follows(w, run[i], run[i + 1])
  }

  ghost predicate Follows(w: World, s: State, s': State)
    requires w.Valid()
  {
    exists e :: Enabled(w, s, e) && Apply(w, s, e) == s'
  }

  lemma {:induction false} RunKeepsInv(w: World, run: seq<State>, i: nat, j: nat)
    requires w.Valid() && IsRun(w, run) && i <= j < |run|
    ensures Inv(w, run[i]) && Inv(w, run[j]) && Keeps(run[i], run[j])
    decreases j
  {
    hide Enabled, Apply, Intact, IsPublishedBucket, Registered, LoaderInv, Run, Pack;
    if i < j {
      RunKeepsInv(w, run, i, j - 1);
    } else if i > 0 {
      RunKeepsInv(w, run, i - 1, i - 1);
    }
    if j > 0 {
      assert Follows(w, run[j - 1], run[j - 1 + 1]);
      var e :| Enabled(w, run[j - 1], e) && Apply(w, run[j - 1], e) == run[j];
      StepKeepsInv(w, run[j - 1], e);
      if i < j {
        KeepsTransitive(run[i], run[j - 1], run[j]);
      }
    } else {
      InitialInv(w, run[0]);
    }
    if i == j {
      KeepsReflexive(w, run[j]);
    }
  }

  lemma InitialInv(w: World, s: State)
    requires w.Valid() && Initial(w, s)
    ensures Inv(w, s)
  {
  }

  lemma KeepsReflexive(w: World, s: State)
    requires w.Valid() && Shape(w, s)
    ensures Keeps(s, s)
  {
    hide Run, Holds;
  }

  lemma KeepsTransitive(a: State, b: State, c: State)
    requires Keeps(a, b) && Keeps(b, c)
    ensures Keeps(a, c)
  {
    assert c.mem[..Floor(a)] == c.mem[..Floor(b)][..Floor(a)];
    assert b.mem[..Floor(b)][..Floor(a)] == b.mem[..Floor(a)];
  }

  /**
   Once a query has revealed a model, its buckets are completely written with the loaded tensors, and neither its
   metadata nor any byte of its buckets changes afterwards, whatever is loaded, fails or is repeated later.
   */
  lemma RevealedModelsAreFinal(w: World, run: seq<State>, i: nat, j: nat, id: string)
    requires w.Valid() && IsRun(w, run) && i <= j < |run| && id in run[i].models
    ensures id in run[i].loads
    ensures var l := run[i].loads[id];
            && run[i].models[id] == Catalogue(Pack(w.config, l.ts), l.firstId, w.base + l.origin)
            && id in run[j].models && run[j].models[id] == run[i].models[id]
            && Holds(run[j].mem, l.origin, Pack(w.config, l.ts))
            && var end := l.origin + Run(w.config, l.ts).consumed;
            end <= |run[i].mem| == |run[j].mem| && run[j].mem[l.origin..end] == run[i].mem[l.origin..end]
  {
    hide Run, Pack, Holds, Catalogue;
    RunKeepsInv(w, run, i, j);
    assert Intact(w, run[i], id) && Intact(w, run[j], id);
    var l, n := run[i].loads[id], Floor(run[i]);
    var end := l.origin + Run(w.config, l.ts).consumed;
    assert run[j].mem[l.origin..end] == run[j].mem[..n][l.origin..end];
    assert run[i].mem[l.origin..end] == run[i].mem[..n][l.origin..end];
  }

  /**
   Once `load_model` has returned, reading any advertised bucket in full is accepted, now and later, and the bytes
   begin with the tensors packed into it.
   */
  lemma ReturnedModelsAreServed(w: World, run: seq<State>, i: nat, j: nat, id: string, k: nat)
    requires w.Valid() && IsRun(w, run) && i <= j < |run| && id in run[i].returned
    requires id in run[i].models && k < |run[i].models[id]|
    ensures var b, mem := run[i].models[id][k], Memory(w.base, run[j].mem);
            && Accepts(run[j].regions, OP_READ, b.basePtr, b.capacity)
            && mem.Covers(b.basePtr, b.capacity)
            && |mem.Read(b.basePtr, b.capacity)| == b.capacity
            && id in run[i].loads && k < |Pack(w.config, run[i].loads[id].ts)|
            && Image(Pack(w.config, run[i].loads[id].ts)[k].tensors) <= mem.Read(b.basePtr, b.capacity)
  {
    hide Run, Pack, Image, Size;
    RunKeepsInv(w, run, i, j);
    assert Intact(w, run[i], id) && Intact(w, run[j], id);
    var l, b := run[i].loads[id], run[i].models[id][k];
    var slot := Pack(w.config, l.ts)[k];
    PackedWithin(w.config, l.ts, k);
    assert b == Entry(slot, l.firstId + k, w.base + l.origin);
    assert BucketRegion(w, l, k) in run[j].regions;
    var r :| 0 <= r < |run[j].regions| && run[j].regions[r] == BucketRegion(w, l, k);
    assert Within(run[j].regions[r], b.basePtr, b.capacity);
    assert HoldsSlot(run[j].mem, l.origin, slot);
    var lo := l.origin + slot.start;
    var read := Memory(w.base, run[j].mem).Read(b.basePtr, b.capacity);
    assert read == run[j].mem[lo..lo + slot.capacity];
    assert read[..Size(slot.tensors)] == run[j].mem[lo..lo + Size(slot.tensors)];
  }

  /** No read is ever answered with memory outside the buckets of published models. */
  lemma OnlyPublishedBytesAreServed(w: World, run: seq<State>, i: nat, srcPtr: nat, nbytes: nat)
    requires w.Valid() && IsRun(w, run) && i < |run| && Accepts(run[i].regions, OP_READ, srcPtr, nbytes)
    ensures exists id, k :: id in run[i].loads && id in run[i].models && 0 <= k < |Pack(w.config, run[i].loads[id].ts)|
                            && Within(BucketRegion(w, run[i].loads[id], k), srcPtr, nbytes)
  {
    hide Run, Pack;
    RunKeepsInv(w, run, i, i);
    var r :| 0 <= r < |run[i].regions| && Within(run[i].regions[r], srcPtr, nbytes);
    assert IsPublishedBucket(w, run[i], run[i].regions[r]);
  }
}
