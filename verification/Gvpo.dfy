/**
 The two-phase reordering of a batch before a GVPO update (`gvpo_ray_trainer.py`), in the case where the batch
 divides evenly, and the assertion of the loss that relies on it (`gvpo_core_algos.py`): all samples of a prompt
 are in the same micro-batch, spread over the ranks.
 */
module GroupedBatch {
  import opened Arithmetic

  /** What the balanced partitioner promises: `k` disjoint parts of `size` that cover [0, k * size). */
  ghost predicate EqualPartition(parts: seq<seq<nat>>, k: nat, size: nat) {
    && |parts| == k
    && (forall i :: 0 <= i < k ==> |parts[i]| == size)
    && (forall i, j :: 0 <= i < k && 0 <= j < size ==> parts[i][j] < k * size)
    && (forall i, j, i', j' :: 0 <= i < k && 0 <= j < size && 0 <= i' < k && 0 <= j' < size && parts[i][j] == parts[i'][j']
                               ==> i == i' && j == j')
    && forall x :: 0 <= x < k * size ==> Covered(parts, x)
  }

  ghost predicate Covered(parts: seq<seq<nat>>, x: nat) {
    exists i, j :: 0 <= i < |parts| && 0 <= j < |parts[i]| && parts[i][j] == x
  }

  /**
   A batch in `rounds` micro-batches of `perGpu` samples on each of `world` ranks, with `n` samples to a prompt:
   `phase1` deals the prompts to the rounds, `phase2` the samples of a round to the ranks.
   */
  datatype Batch = Batch(world: nat, perGpu: nat, n: nat, rounds: nat, phase1: seq<seq<nat>>, phase2: seq<seq<seq<nat>>>) {
    /** The prompts of a round. */
    function Prompts(): nat
      requires 0 < n
    {
      world * perGpu / n
    }

    ghost predicate Valid() {
      && 0 < world && 0 < perGpu && 0 < n && world * perGpu % n == 0
      && EqualPartition(phase1, rounds, Prompts())
      && |phase2| == rounds && forall k :: 0 <= k < rounds ==> EqualPartition(phase2[k], world, perGpu)
    }

    function Size(): nat {
      rounds * (world * perGpu)
    }

    ghost predicate Has(i: nat, k: nat, j: nat) {
      i < world && k < rounds && j < perGpu
    }

    /** Where rank `i` finds sample `j` of its micro-batch `k`. */
    function Slot(i: nat, k: nat, j: nat): nat {
      i * (rounds * perGpu) + k * perGpu + j
    }

    /** The sample that is put there. */
    ghost function Sample(i: nat, k: nat, j: nat): nat
      requires Valid() && Has(i, k, j)
    {
      Spread(phase1[k], n, Prompts())[DealtTo(i, k, j)]
    }

    /** Its position among the samples of the round. */
    ghost function DealtTo(i: nat, k: nat, j: nat): (p: nat)
      requires Valid() && Has(i, k, j)
      ensures p < Prompts() * n
    {
      assert Prompts() * n == world * perGpu;
      assert EqualPartition(phase2[k], world, perGpu);
      phase2[k][i][j]
    }
  }

  /** The samples of a list of prompts, `n` to a prompt. */
  function Spread(prompts: seq<nat>, n: nat, count: nat): (samples: seq<nat>)
    requires 0 < n && |prompts| == count
    ensures |samples| == count * n
  {
    seq(count * n, p requires 0 <= p < count * n => (PromptInRange(p, n, count); prompts[p / n] * n + p % n))
  }

  lemma PromptInRange(p: nat, n: nat, count: nat)
    requires 0 < n && p < count * n
    ensures p / n < count
  {
    if count <= p / n {
      MulMonotone(count, p / n, n);
    }
  }

  function Quot(x: nat, n: nat): nat
    requires 0 < n
  {
    x / n
  }

  function Rem(x: nat, n: nat): nat
    requires 0 < n
  {
    x % n
  }

  /** The prompt that a sample belongs to: its `uid_tensor`. */
  function Uid(x: nat, n: nat): nat
    requires 0 < n
  {
    Quot(x, n)
  }

  // ---------------------------------------------------------------- slots

  lemma DigitsInRange(a: nat, d: nat, n: nat, m: nat)
    requires a < m && d < n
    ensures a * n + d < m * n
  {
    MulMonotone(a + 1, m, n);
  }

  lemma DigitsUnique(a: nat, d: nat, a': nat, d': nat, n: nat)
    requires d < n && d' < n && a * n + d == a' * n + d'
    ensures a == a' && d == d'
  {
    DivModUnique(a * n + d, n, a, d);
    DivModUnique(a * n + d, n, a', d');
  }

  lemma RowsMakeBatch(b: Batch)
    ensures b.world * (b.rounds * b.perGpu) == b.Size()
  {
  }

  lemma SlotInBatch(b: Batch, i: nat, k: nat, j: nat)
    requires b.Has(i, k, j)
    ensures b.Slot(i, k, j) < b.Size()
  {
    RowsMakeBatch(b);
    DigitsInRange(k, j, b.perGpu, b.rounds);
    hide Batch.Size;
    DigitsInRange(i, k * b.perGpu + j, b.rounds * b.perGpu, b.world);
  }

  lemma SlotUnique(b: Batch, i: nat, k: nat, j: nat, i': nat, k': nat, j': nat)
    requires b.Has(i, k, j) && b.Has(i', k', j') && b.Slot(i, k, j) == b.Slot(i', k', j')
    ensures i == i' && k == k' && j == j'
  {
    DigitsInRange(k, j, b.perGpu, b.rounds);
    DigitsInRange(k', j', b.perGpu, b.rounds);
    DigitsUnique(i, k * b.perGpu + j, i', k' * b.perGpu + j', b.rounds * b.perGpu);
    DigitsUnique(k, j, k', j', b.perGpu);
  }

  /** Every slot belongs to a rank, a micro-batch and a place in it. */
  lemma SlotDecomposes(b: Batch, s: nat) returns (i: nat, k: nat, j: nat)
    requires s < b.Size()
    ensures b.Has(i, k, j) && b.Slot(i, k, j) == s
  {
    RowsMakeBatch(b);
    var row := b.rounds * b.perGpu;
    hide Batch.Size;
    i, k, j := s / row, s % row / b.perGpu, s % row % b.perGpu;
    PromptInRange(s, row, b.world);
    PromptInRange(s % row, b.perGpu, b.rounds);
  }

  // ---------------------------------------------------------------- samples

  /** Sample `p` of the spread list belongs to its prompt `p / n` and is number `p % n` of it. */
  lemma SpreadAt(prompts: seq<nat>, n: nat, count: nat, p: nat)
    requires 0 < n && |prompts| == count && p < count * n
    ensures Quot(p, n) < count
    ensures Quot(Spread(prompts, n, count)[p], n) == prompts[Quot(p, n)] && Rem(Spread(prompts, n, count)[p], n) == Rem(p, n)
  {
    PromptInRange(p, n, count);
    DivModUnique(prompts[p / n] * n + p % n, n, prompts[p / n], p % n);
  }

  lemma SameDivMod(p: nat, p': nat, n: nat)
    requires 0 < n && Quot(p, n) == Quot(p', n) && Rem(p, n) == Rem(p', n)
    ensures p == p'
  {
  }

  lemma SampleAt(b: Batch, i: nat, k: nat, j: nat)
    requires b.Valid() && b.Has(i, k, j)
    ensures Quot(b.DealtTo(i, k, j), b.n) < b.Prompts()
    ensures Quot(b.Sample(i, k, j), b.n) == b.phase1[k][Quot(b.DealtTo(i, k, j), b.n)]
    ensures Rem(b.Sample(i, k, j), b.n) == Rem(b.DealtTo(i, k, j), b.n)
  {
    SpreadAt(b.phase1[k], b.n, b.Prompts(), b.DealtTo(i, k, j));
  }

  lemma DealtUnique(b: Batch, k: nat, i: nat, j: nat, i': nat, j': nat)
    requires b.Valid() && b.Has(i, k, j) && b.Has(i', k, j') && b.DealtTo(i, k, j) == b.DealtTo(i', k, j')
    ensures i == i' && j == j'
  {
    assert EqualPartition(b.phase2[k], b.world, b.perGpu);
  }

  /** No sample is put into two slots. */
  lemma SampleUnique(b: Batch, i: nat, k: nat, j: nat, i': nat, k': nat, j': nat)
    requires b.Valid() && b.Has(i, k, j) && b.Has(i', k', j') && b.Sample(i, k, j) == b.Sample(i', k', j')
    ensures i == i' && k == k' && j == j'
  {
    assert 0 < b.n && k < b.rounds && k' < b.rounds;
    PartShapes(b, k);
    PartShapes(b, k');
    hide *;
    SampleAt(b, i, k, j);
    SampleAt(b, i', k', j');
    var p, p' := b.DealtTo(i, k, j), b.DealtTo(i', k', j');
    SamePrompt(b, k, Quot(p, b.n), k', Quot(p', b.n));
    SameDivMod(p, p', b.n);
    DealtUnique(b, k, i, j, i', j');
  }

  lemma SamePrompt(b: Batch, k: nat, t: nat, k': nat, t': nat)
    requires b.Valid() && k < b.rounds && k' < b.rounds && t < b.Prompts() && t' < b.Prompts()
    requires b.phase1[k][t] == b.phase1[k'][t']
    ensures k == k' && t == t'
  {
    assert EqualPartition(b.phase1, b.rounds, b.Prompts());
  }

  lemma PromptsMakeBatch(b: Batch)
    requires b.Valid()
    ensures b.Prompts() * b.n == b.world * b.perGpu && b.rounds * b.Prompts() * b.n == b.Size()
  {
    assert b.Prompts() * b.n == b.world * b.perGpu;
    assert b.rounds * b.Prompts() * b.n == b.rounds * (b.Prompts() * b.n);
  }

  lemma DealtCovers(b: Batch, k: nat, p: nat) returns (i: nat, j: nat)
    requires b.Valid() && k < b.rounds && p < b.Prompts() * b.n
    ensures b.Has(i, k, j) && b.DealtTo(i, k, j) == p
  {
    PromptsMakeBatch(b);
    assert EqualPartition(b.phase2[k], b.world, b.perGpu);
    assert Covered(b.phase2[k], p);
    i, j :| 0 <= i < |b.phase2[k]| && 0 <= j < |b.phase2[k][i]| && b.phase2[k][i][j] == p;
  }

  lemma PromptCovered(b: Batch, u: nat) returns (k: nat, t: nat)
    requires b.Valid() && u < b.rounds * b.Prompts()
    ensures k < b.rounds && t < b.Prompts() && b.phase1[k][t] == u
  {
    assert EqualPartition(b.phase1, b.rounds, b.Prompts());
    assert Covered(b.phase1, u);
    k, t :| 0 <= k < |b.phase1| && 0 <= t < |b.phase1[k]| && b.phase1[k][t] == u;
  }

  /** Every sample of the batch is put into a slot. */
  lemma SampleCovers(b: Batch, x: nat) returns (i: nat, k: nat, j: nat)
    requires b.Valid() && x < b.Size()
    ensures b.Has(i, k, j) && b.Sample(i, k, j) == x
  {
    PromptsMakeBatch(b);
    PromptInRange(x, b.n, b.rounds * b.Prompts());
    var t;
    k, t := PromptCovered(b, x / b.n);
    DigitsInRange(t, x % b.n, b.n, b.Prompts());
    var p := t * b.n + x % b.n;
    DivModUnique(p, b.n, t, x % b.n);
    i, j := DealtCovers(b, k, p);
    SampleAt(b, i, k, j);
    SameDivMod(b.Sample(i, k, j), x, b.n);
  }

  lemma SampleInBatch(b: Batch, i: nat, k: nat, j: nat)
    requires b.Valid() && b.Has(i, k, j)
    ensures b.Sample(i, k, j) < b.Size()
  {
    SampleAt(b, i, k, j);
    PromptsMakeBatch(b);
    var t := Quot(b.DealtTo(i, k, j), b.n);
    assert EqualPartition(b.phase1, b.rounds, b.Prompts());
    assert b.phase1[k][t] < b.rounds * b.Prompts();
    hide Batch.Sample, Batch.Size, EqualPartition, Batch.DealtTo;
    var x := b.Sample(i, k, j);
    assert x == x / b.n * b.n + x % b.n;
    DigitsInRange(x / b.n, x % b.n, b.n, b.rounds * b.Prompts());
  }

  // ---------------------------------------------------------------- the nested loops

  /** The slots of all rounds before `k`, of the ranks before `i` in round `k`, and of `j` more samples are filled. */
  ghost predicate Filled(b: Batch, idx: seq<int>, i: nat, k: nat, j: nat)
    requires b.Valid() && |idx| == b.Size()
  {
    forall i': nat, k': nat, j': nat ::
      b.Has(i', k', j') && Before(i', k', j', i, k, j) ==> SlotHolds(b, idx, i', k', j')
  }

  /** The order in which the loops reach the slots. */
  predicate Before(i': nat, k': nat, j': nat, i: nat, k: nat, j: nat) {
    k' < k || (k' == k && (i' < i || (i' == i && j' < j)))
  }

  ghost predicate SlotHolds(b: Batch, idx: seq<int>, i: nat, k: nat, j: nat)
    requires b.Valid() && |idx| == b.Size() && b.Has(i, k, j)
  {
    SlotInBatch(b, i, k, j);
    idx[b.Slot(i, k, j)] == b.Sample(i, k, j)
  }

  lemma FillNext(b: Batch, idx: seq<int>, i: nat, k: nat, j: nat)
    requires b.Valid() && |idx| == b.Size() && b.Has(i, k, j) && Filled(b, idx, i, k, j)
    ensures b.Slot(i, k, j) < b.Size() && Filled(b, idx[b.Slot(i, k, j) := b.Sample(i, k, j)], i, k, j + 1)
  {
    SlotInBatch(b, i, k, j);
    var next := idx[b.Slot(i, k, j) := b.Sample(i, k, j)];
    forall i': nat, k': nat, j': nat | b.Has(i', k', j') && Before(i', k', j', i, k, j + 1)
      ensures SlotHolds(b, next, i', k', j')
    {
      hide *;
      SlotStays(b, idx, i, k, j, i', k', j');
    }
  }

  lemma SlotStays(b: Batch, idx: seq<int>, i: nat, k: nat, j: nat, i': nat, k': nat, j': nat)
    requires b.Valid() && |idx| == b.Size() && b.Has(i, k, j) && Filled(b, idx, i, k, j)
    requires b.Has(i', k', j') && Before(i', k', j', i, k, j + 1) && b.Slot(i, k, j) < b.Size()
    ensures SlotHolds(b, idx[b.Slot(i, k, j) := b.Sample(i, k, j)], i', k', j')
  {
    hide Batch.Slot, Batch.Sample, Batch.Valid, Batch.Size;
    SlotInBatch(b, i', k', j');
    if b.Slot(i', k', j') == b.Slot(i, k, j) {
      SlotUnique(b, i', k', j', i, k, j);
    } else {
      assert SlotHolds(b, idx, i', k', j');
    }
  }

  /** The loops that fill `global_idx`, for a partitioner that gave `phase1` and `phase2`. */
  method BalanceBatch(ghost b: Batch, world: nat, perGpu: nat, n: nat, batchSize: nat,
                      phase1: seq<seq<nat>>, phase2: seq<seq<seq<nat>>>) returns (globalIdx: array<int>)
    requires b.Valid() && b == Batch(world, perGpu, n, b.rounds, phase1, phase2) && batchSize == b.Size()
    ensures fresh(globalIdx) && globalIdx.Length == b.Size()
    ensures Filled(b, globalIdx[..], 0, b.rounds, 0)
  {
    globalIdx := new int[batchSize](_ => -1);
    var row := batchSize / world;
    RowLength(b);
    assert |phase1| == |phase2| == b.rounds && 0 < n;
    hide *;
    NothingFilled(b, globalIdx[..]);
    for k := 0 to |phase1|
      invariant Filled(b, globalIdx[..], 0, k, 0)
    {
      PartShapes(b, k);
      var inx := Spread(phase1[k], n, |phase1[k]|);
      FillRound(b, globalIdx, k, perGpu, row, inx, phase2[k]);
    }
  }

  lemma RowLength(b: Batch)
    requires b.Valid()
    ensures b.Size() / b.world == b.rounds * b.perGpu
  {
    RowsMakeBatch(b);
    MultipleMod(b.rounds * b.perGpu, b.world);
  }

  lemma PartShapes(b: Batch, k: nat)
    requires b.Valid() && k < b.rounds
    ensures |b.phase1[k]| == b.Prompts() && b.Prompts() * b.n == b.world * b.perGpu
    ensures |b.phase2[k]| == b.world && forall i :: 0 <= i < b.world ==> |b.phase2[k][i]| == b.perGpu
  {
    PromptsMakeBatch(b);
    assert EqualPartition(b.phase2[k], b.world, b.perGpu);
  }

  lemma NothingFilled(b: Batch, idx: seq<int>)
    requires b.Valid() && |idx| == b.Size()
    ensures Filled(b, idx, 0, 0, 0)
  {
  }

  lemma RankFilled(b: Batch, idx: seq<int>, i: nat, k: nat)
    requires b.Valid() && |idx| == b.Size() && Filled(b, idx, i, k, b.perGpu)
    ensures Filled(b, idx, i + 1, k, 0)
  {
    hide SlotHolds, Batch.Size, Batch.Valid;
  }

  lemma RoundFilled(b: Batch, idx: seq<int>, k: nat)
    requires b.Valid() && |idx| == b.Size() && Filled(b, idx, b.world, k, 0)
    ensures Filled(b, idx, 0, k + 1, 0)
  {
    hide SlotHolds, Batch.Size, Batch.Valid;
  }

  /** The two inner loops, for round `k`. */
  method FillRound(ghost b: Batch, globalIdx: array<int>, k: nat, perGpu: nat, row: nat, inx: seq<nat>, deal: seq<seq<nat>>)
    requires b.Valid() && k < b.rounds && globalIdx.Length == b.Size() && perGpu == b.perGpu
    requires row == b.rounds * b.perGpu && deal == b.phase2[k]
    requires |b.phase1[k]| == b.Prompts() && inx == Spread(b.phase1[k], b.n, b.Prompts())
    requires |deal| == b.world && forall i :: 0 <= i < b.world ==> |deal[i]| == b.perGpu
    requires Filled(b, globalIdx[..], 0, k, 0)
    modifies globalIdx
    ensures Filled(b, globalIdx[..], 0, k + 1, 0)
  {
    hide *;
    for i := 0 to |deal|
      invariant Filled(b, globalIdx[..], i, k, 0)
    {
      for j := 0 to |deal[i]|
        invariant Filled(b, globalIdx[..], i, k, j)
      {
        HasSlot(b, i, k, j, row, inx);
        FillNext(b, globalIdx[..], i, k, j);
        ghost var idx := globalIdx[..];
        globalIdx[i * row + k * perGpu + j] := inx[deal[i][j]];
        assert globalIdx[..] == idx[b.Slot(i, k, j) := b.Sample(i, k, j)];
      }
      RankFilled(b, globalIdx[..], i, k);
    }
    RoundFilled(b, globalIdx[..], k);
  }

  lemma HasSlot(b: Batch, i: nat, k: nat, j: nat, row: nat, inx: seq<nat>)
    requires b.Valid() && i < b.world && k < b.rounds && j < b.perGpu && row == b.rounds * b.perGpu
    requires |b.phase1[k]| == b.Prompts() && inx == Spread(b.phase1[k], b.n, b.Prompts())
    requires |b.phase2[k]| == b.world && |b.phase2[k][i]| == b.perGpu
    ensures b.Has(i, k, j) && i * row + k * b.perGpu + j == b.Slot(i, k, j) < b.Size()
    ensures b.phase2[k][i][j] < |inx| && inx[b.phase2[k][i][j]] == b.Sample(i, k, j)
  {
    SlotInBatch(b, i, k, j);
    assert b.DealtTo(i, k, j) == b.phase2[k][i][j];
    hide Spread;
  }

  // ---------------------------------------------------------------- what the order is

  /** The reordered batch has every sample exactly once. */
  lemma OrderIsPermutation(b: Batch, idx: seq<int>)
    requires b.Valid() && |idx| == b.Size() && Filled(b, idx, 0, b.rounds, 0)
    ensures forall s :: 0 <= s < |idx| ==> 0 <= idx[s] < b.Size()
    ensures forall s, t :: 0 <= s < |idx| && 0 <= t < |idx| && idx[s] == idx[t] ==> s == t
    ensures forall x :: 0 <= x < b.Size() ==> x in idx
  {
    hide *;
    forall s: nat | s < |idx|
      ensures 0 <= idx[s] < b.Size()
    {
      var i, k, j := SlotSample(b, idx, s);
      SampleInBatch(b, i, k, j);
    }
    forall s: nat, t: nat | s < |idx| && t < |idx| && idx[s] == idx[t]
      ensures s == t
    {
      var i, k, j := SlotSample(b, idx, s);
      var i', k', j' := SlotSample(b, idx, t);
      SampleUnique(b, i, k, j, i', k', j');
    }
    forall x: nat | x < b.Size()
      ensures x in idx
    {
      var i, k, j := SampleCovers(b, x);
      SlotInBatch(b, i, k, j);
      FilledAt(b, idx, i, k, j);
      assert idx[b.Slot(i, k, j)] == x;
    }
  }

  lemma FilledAt(b: Batch, idx: seq<int>, i: nat, k: nat, j: nat)
    requires b.Valid() && |idx| == b.Size() && Filled(b, idx, 0, b.rounds, 0) && b.Has(i, k, j)
    ensures b.Slot(i, k, j) < |idx| && idx[b.Slot(i, k, j)] == b.Sample(i, k, j)
  {
    SlotInBatch(b, i, k, j);
    assert Before(i, k, j, 0, b.rounds, 0);
    assert SlotHolds(b, idx, i, k, j);
    hide Batch.Slot, Batch.Sample, Batch.Valid;
  }

  lemma SlotSample(b: Batch, idx: seq<int>, s: nat) returns (i: nat, k: nat, j: nat)
    requires b.Valid() && |idx| == b.Size() && Filled(b, idx, 0, b.rounds, 0) && s < |idx|
    ensures b.Has(i, k, j) && b.Slot(i, k, j) == s && idx[s] == b.Sample(i, k, j)
  {
    hide *;
    i, k, j := SlotDecomposes(b, s);
    FilledAt(b, idx, i, k, j);
  }

  // ---------------------------------------------------------------- micro-batches

  /** The prompts of micro-batch `k` as the loss gathers them, rank after rank. */
  ghost function Gathered(b: Batch, idx: seq<int>, k: nat): (uids: seq<nat>)
    requires b.Valid() && |idx| == b.Size() && Filled(b, idx, 0, b.rounds, 0) && k < b.rounds
    ensures |uids| == b.world * b.perGpu
  {
    OrderIsPermutation(b, idx);
    seq(b.world * b.perGpu, q requires 0 <= q < b.world * b.perGpu => (
        GatheredInBatch(b, q, k);
        Uid(idx[b.Slot(Quot(q, b.perGpu), k, Rem(q, b.perGpu))], b.n)))
  }

  lemma GatheredInBatch(b: Batch, q: nat, k: nat)
    requires 0 < b.perGpu && q < b.world * b.perGpu && k < b.rounds
    ensures b.Has(Quot(q, b.perGpu), k, Rem(q, b.perGpu)) && b.Slot(Quot(q, b.perGpu), k, Rem(q, b.perGpu)) < b.Size()
  {
    PromptInRange(q, b.perGpu, b.world);
    SlotInBatch(b, Quot(q, b.perGpu), k, Rem(q, b.perGpu));
  }

  /** Where `u` occurs. */
  function Occurrences(uids: seq<nat>, u: nat): set<nat> {
    set q: nat | q < |uids| && uids[q] == u
  }

  lemma {:induction false} SameSize(from: set<nat>, to: set<nat>, f: map<nat, nat>)
    requires forall q :: q in from ==> q in f && f[q] in to
    requires forall q, r :: q in from && r in from && f[q] == f[r] ==> q == r
    requires forall p :: p in to ==> exists q :: q in from && f[q] == p
    ensures |from| == |to|
  {
    if from == {} {
      assert to == {};
    } else {
      var q :| q in from;
      forall p | p in to - {f[q]}
        ensures exists r :: r in from - {q} && f[r] == p
      {
        var r :| r in from && f[r] == p;
        assert r in from - {q};
      }
      SameSize(from - {q}, to - {f[q]}, f);
    }
  }

  function Interval(lo: nat, n: nat): set<nat> {
    if n == 0 then {} else Interval(lo, n - 1) + {lo + n - 1}
  }

  lemma {:induction false} IntervalSize(lo: nat, n: nat)
    ensures |Interval(lo, n)| == n && forall p: nat :: p in Interval(lo, n) <==> lo <= p < lo + n
  {
    if n > 0 {
      IntervalSize(lo, n - 1);
    }
  }

  /** The position within the round of the sample gathered at `q`. */
  ghost function DealtAt(b: Batch, k: nat, q: nat): nat
    requires b.Valid() && k < b.rounds && q < b.world * b.perGpu
  {
    GatheredInBatch(b, q, k);
    b.DealtTo(Quot(q, b.perGpu), k, Rem(q, b.perGpu))
  }

  lemma GatheredUid(b: Batch, idx: seq<int>, k: nat, q: nat)
    requires b.Valid() && |idx| == b.Size() && Filled(b, idx, 0, b.rounds, 0) && k < b.rounds && q < b.world * b.perGpu
    ensures DealtAt(b, k, q) < b.Prompts() * b.n && Quot(DealtAt(b, k, q), b.n) < b.Prompts() == |b.phase1[k]|
    ensures Gathered(b, idx, k)[q] == b.phase1[k][Quot(DealtAt(b, k, q), b.n)]
  {
    PartShapes(b, k);
    GatheredInBatch(b, q, k);
    SampleAt(b, Quot(q, b.perGpu), k, Rem(q, b.perGpu));
    FilledAt(b, idx, Quot(q, b.perGpu), k, Rem(q, b.perGpu));
    hide Batch.Sample, Batch.DealtTo, Filled, Batch.Slot, Uid, Batch.Valid;
  }

  lemma DealtAtUnique(b: Batch, k: nat, q: nat, r: nat)
    requires b.Valid() && k < b.rounds && q < b.world * b.perGpu && r < b.world * b.perGpu
    requires DealtAt(b, k, q) == DealtAt(b, k, r)
    ensures q == r
  {
    GatheredInBatch(b, q, k);
    GatheredInBatch(b, r, k);
    assert 0 < b.perGpu;
    hide *;
    DealtUnique(b, k, Quot(q, b.perGpu), Rem(q, b.perGpu), Quot(r, b.perGpu), Rem(r, b.perGpu));
    SameDivMod(q, r, b.perGpu);
  }

  lemma DealtAtCovers(b: Batch, k: nat, p: nat) returns (q: nat)
    requires b.Valid() && k < b.rounds && p < b.Prompts() * b.n
    ensures q < b.world * b.perGpu && DealtAt(b, k, q) == p
  {
    var i, j := DealtCovers(b, k, p);
    q := i * b.perGpu + j;
    DigitsInRange(i, j, b.perGpu, b.world);
    DivModUnique(q, b.perGpu, i, j);
  }

  lemma QuotIs(x: nat, n: nat, q: nat)
    requires 0 < n
    ensures Quot(x, n) == q <==> q * n <= x < q * n + n
  {
    QuotientRange(x, n, q);
  }

  /** The occurrences of prompt `t` of the round are where its `n` samples were dealt to. */
  lemma OccurrencesOfPrompt(b: Batch, idx: seq<int>, k: nat, t: nat)
    requires b.Valid() && |idx| == b.Size() && Filled(b, idx, 0, b.rounds, 0) && k < b.rounds && t < |b.phase1[k]|
    ensures |Occurrences(Gathered(b, idx, k), b.phase1[k][t])| == b.n
  {
    var size, n, lo := b.world * b.perGpu, b.n, t * b.n;
    PartShapes(b, k);
    assert 0 < n;
    hide *;
    var f := map q: nat | q < size :: DealtAt(b, k, q);
    var from := Occurrences(Gathered(b, idx, k), b.phase1[k][t]);
    var to := Interval(lo, n);
    IntervalSize(lo, n);
    OccurrencesAre(Gathered(b, idx, k), b.phase1[k][t]);
    DigitsInRange(t, n - 1, n, b.Prompts());
    forall q | q in from
      ensures q < size && f[q] in to
    {
      GatheredUid(b, idx, k, q);
      SamePrompt(b, k, Quot(DealtAt(b, k, q), n), k, t);
      QuotIs(f[q], n, t);
    }
    forall q, r | q in from && r in from && f[q] == f[r]
      ensures q == r
    {
      DealtAtUnique(b, k, q, r);
    }
    forall p | p in to
      ensures exists q :: q in from && f[q] == p
    {
      var q := DealtAtCovers(b, k, p);
      GatheredUid(b, idx, k, q);
      QuotIs(p, n, t);
      assert q in from && f[q] == p;
    }
    SameSize(from, to, f);
  }

  lemma OccurrencesAre(uids: seq<nat>, u: nat)
    ensures forall q: nat :: q in Occurrences(uids, u) <==> q < |uids| && uids[q] == u
  {
  }

  /** Micro-batch `k` has each prompt of its round exactly `n` times and no other prompt. */
  lemma GroupsStayTogether(b: Batch, idx: seq<int>, k: nat, u: nat)
    requires b.Valid() && |idx| == b.Size() && Filled(b, idx, 0, b.rounds, 0) && k < b.rounds
    ensures |Occurrences(Gathered(b, idx, k), u)| == if u in b.phase1[k] then b.n else 0
  {
    PartShapes(b, k);
    assert |b.phase1| == b.rounds;
    hide *;
    if u in b.phase1[k] {
      var t :| 0 <= t < |b.phase1[k]| && b.phase1[k][t] == u;
      OccurrencesOfPrompt(b, idx, k, t);
    } else {
      OccurrencesAre(Gathered(b, idx, k), u);
      forall q | q in Occurrences(Gathered(b, idx, k), u)
        ensures false
      {
        GatheredUid(b, idx, k, q);
      }
      assert Occurrences(Gathered(b, idx, k), u) == {};
    }
  }

  /** The assertion in the loss: whatever prompt occurs in a micro-batch occurs `n` times. */
  lemma LossAssertionHolds(b: Batch, idx: seq<int>, k: nat, u: nat)
    requires b.Valid() && |idx| == b.Size() && Filled(b, idx, 0, b.rounds, 0) && k < b.rounds
    requires u in Gathered(b, idx, k)
    ensures |Occurrences(Gathered(b, idx, k), u)| == b.n
  {
    GroupsStayTogether(b, idx, k, u);
    var q :| 0 <= q < |Gathered(b, idx, k)| && Gathered(b, idx, k)[q] == u;
    hide *;
    GatheredUid(b, idx, k, q);
  }
}
