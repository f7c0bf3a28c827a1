/** `bench/nfs_scan.py`: cutting the concatenated model files into aligned pieces, and reading them. */
module Partitions {
  import opened Arithmetic

  const ALIGN: nat := 4096

  /** A byte range of one file. */
  datatype Partition = Partition(path: string, offset: nat, length: nat)

  datatype File = File(path: string, size: nat)

  function AlignDown(value: int): int {
    value / 4096 * 4096
  }

  predicate Aligned(value: int) {
    value % 4096 == 0
  }

  function TotalSize(files: seq<File>): nat {
    if files == [] then 0 else TotalSize(files[..|files| - 1]) + files[|files| - 1].size
  }

  function Lengths(parts: seq<Partition>): nat {
    if parts == [] then 0 else Lengths(parts[..|parts| - 1]) + parts[|parts| - 1].length
  }

  /** How much of the concatenation is to be read; a limit of zero counts as none. */
  function Extent(files: seq<File>, limit: int): int {
    AlignDown(if limit == 0 then TotalSize(files) else Min(TotalSize(files), limit))
  }

  /** The boundary between the shares of streams i - 1 and i. */
  function Boundary(total: int, n: nat, i: nat): int
    requires 0 < n
  {
    if i == n then total else AlignDown(total * i / n)
  }

  function SpanStart(total: int, n: nat, fileStart: nat, i: nat): int
    requires 0 < n
  {
    Max(Boundary(total, n, i), fileStart)
  }

  function SpanEnd(total: int, n: nat, fileEnd: nat, i: nat): int
    requires 0 < n
  {
    AlignDown(Min(Boundary(total, n, i + 1), fileEnd))
  }

  /** The pieces of one file that belong to the first `i` shares. */
  function FilePieces(total: int, n: nat, f: File, fileStart: nat, i: nat): seq<Partition>
    requires 0 < n
  {
    if i == 0 then []
    else
      var lo := SpanStart(total, n, fileStart, i - 1);
      var hi := SpanEnd(total, n, fileStart + f.size, i - 1);
      FilePieces(total, n, f, fileStart, i - 1)
      + if hi - lo >= ALIGN then [Partition(f.path, lo - fileStart, hi - lo)] else []
  }

  /** The pieces of the first `k` files. */
  function Pieces(total: int, n: nat, files: seq<File>, k: nat): seq<Partition>
    requires 0 < n && k <= |files|
  {
    if k == 0 then []
    else Pieces(total, n, files, k - 1) + FilePieces(total, n, files[k - 1], TotalSize(files[..k - 1]), n)
  }

  method BuildPartitions(files: seq<File>, nstreams: nat, limit: int) returns (partitions: seq<Partition>)
    requires 0 < nstreams
    ensures partitions == Pieces(Extent(files, limit), nstreams, files, |files|)
  {
    hide *;
    var total := SumSizes(files);
    if limit != 0 {
      total := Min(total, limit);
    }
    total := AlignDown(total);
    ExtentIs(files, limit, total);
    var boundaries := MakeBoundaries(total, nstreams);

    partitions := [];
    var consumed := 0;
    NoFiles(total, nstreams, files);
    for k := 0 to |files|
      invariant consumed == TotalSize(files[..k])
      invariant partitions == Pieces(total, nstreams, files, k)
      modifies {}
    {
      NextFile(total, nstreams, files, k);
      partitions := CutFile(total, nstreams, boundaries, files[k], consumed, partitions);
      consumed := consumed + files[k].size;
    }
  }

  method SumSizes(files: seq<File>) returns (total: nat)
    ensures total == TotalSize(files)
  {
    total := 0;
    for k := 0 to |files|
      invariant total == TotalSize(files[..k])
    {
      assert files[..k + 1][..k] == files[..k];
      total := total + files[k].size;
    }
    assert files[..|files|] == files;
  }

  lemma ExtentIs(files: seq<File>, limit: int, total: int)
    requires total == AlignDown(if limit == 0 then TotalSize(files) else Min(TotalSize(files), limit))
    ensures total == Extent(files, limit)
  {
  }

  method MakeBoundaries(total: int, nstreams: nat) returns (boundaries: array<int>)
    requires 0 < nstreams
    ensures boundaries.Length == nstreams + 1 && forall i :: 0 <= i <= nstreams ==> boundaries[i] == Boundary(total, nstreams, i)
  {
    hide AlignDown;
    boundaries := new int[nstreams + 1];
    for i := 0 to nstreams + 1
      invariant forall j :: 0 <= j < i ==> boundaries[j] == AlignDown(total * j / nstreams)
    {
      boundaries[i] := AlignDown(total * i / nstreams);
    }
    boundaries[nstreams] := total;
  }

  lemma NoFiles(total: int, n: nat, files: seq<File>)
    requires 0 < n
    ensures TotalSize(files[..0]) == 0 && Pieces(total, n, files, 0) == []
  {
  }

  lemma NextFile(total: int, n: nat, files: seq<File>, k: nat)
    requires 0 < n && k < |files|
    ensures TotalSize(files[..k + 1]) == TotalSize(files[..k]) + files[k].size
    ensures Pieces(total, n, files, k + 1)
            == Pieces(total, n, files, k) + FilePieces(total, n, files[k], TotalSize(files[..k]), n)
  {
    assert files[..k + 1][..k] == files[..k];
    hide FilePieces;
  }

  /** The inner loop: appends the pieces of one file that are large enough. */
  method CutFile(ghost total: int, nstreams: nat, boundaries: array<int>, f: File, fileStart: nat, before: seq<Partition>)
    returns (partitions: seq<Partition>)
    requires 0 < nstreams && boundaries.Length == nstreams + 1
    requires forall i :: 0 <= i <= nstreams ==> boundaries[i] == Boundary(total, nstreams, i)
    ensures partitions == before + FilePieces(total, nstreams, f, fileStart, nstreams)
  {
    hide AlignDown, Boundary;
    partitions := before;
    for i := 0 to nstreams
      invariant partitions == before + FilePieces(total, nstreams, f, fileStart, i)
    {
      var lo := Max(boundaries[i], fileStart);
      var hi := AlignDown(Min(boundaries[i + 1], fileStart + f.size));
      if hi - lo >= ALIGN {
        partitions := partitions + [Partition(f.path, lo - fileStart, hi - lo)];
      }
    }
  }

  // ---------------------------------------------------------------- coverage

  lemma BoundaryFacts(total: int, n: nat, i: nat)
    requires 0 < n && i < n && Aligned(total) && 0 <= total
    ensures Aligned(Boundary(total, n, i)) && Aligned(Boundary(total, n, i + 1))
    ensures 0 <= Boundary(total, n, i) <= Boundary(total, n, i + 1) <= total
    ensures Boundary(total, n, 0) == 0
  {
    QuotientsGrow(total, n, i);
    BoundaryIs(total, n, 0);
    BoundaryIs(total, n, i);
    BoundaryIs(total, n, i + 1);
    hide Boundary, AlignDown;
    AlignDownFacts(0, total * i / n);
    AlignDownFacts(total * i / n, total * (i + 1) / n);
    AlignDownFacts(total * (i + 1) / n, total);
  }

  lemma BoundaryIs(total: int, n: nat, i: nat)
    requires 0 < n
    ensures Boundary(total, n, i) == if i == n then total else AlignDown(total * i / n)
    ensures Boundary(total, n, 0) == 0
  {
    assert total * 0 == 0;
  }

  lemma AlignDownOf(x: int)
    ensures AlignDown(x) <= x < AlignDown(x) + ALIGN && Aligned(AlignDown(x)) && (Aligned(x) ==> AlignDown(x) == x)
    ensures 0 <= x ==> 0 <= AlignDown(x)
  {
  }

  lemma AlignDownFacts(x: int, y: int)
    requires x <= y
    ensures Aligned(AlignDown(x)) && Aligned(AlignDown(y)) && AlignDown(x) <= AlignDown(y) <= y
    ensures Aligned(y) ==> AlignDown(y) == y
    ensures 0 <= x ==> 0 <= AlignDown(x)
  {
    QuotientMonotone(x, y, 4096);
    MulMonotone(x / 4096, y / 4096, 4096);
    assert AlignDown(x) == x / 4096 * 4096 && AlignDown(y) == y / 4096 * 4096;
    hide AlignDown;
    AlignDownOf(x);
    AlignDownOf(y);
  }

  lemma Commute(a: int, b: int)
    ensures a * b == b * a
  {
  }

  lemma QuotientsGrow(total: nat, n: nat, i: nat)
    requires 0 < n && i < n
    ensures 0 <= total * i / n <= total * (i + 1) / n <= total
  {
    var x, y, z := total * i, total * (i + 1), total * n;
    MulMonotone(0, i, total);
    MulMonotone(i, i + 1, total);
    MulMonotone(i + 1, n, total);
    Commute(total, i);
    Commute(total, i + 1);
    Commute(total, n);
    QuotientMonotone(0, x, n);
    QuotientMonotone(x, y, n);
    QuotientMonotone(y, z, n);
    MultipleMod(total, n);
  }

  /** Each piece is a whole aligned share of its file, in order and inside the file. */
  ghost predicate InOrder(parts: seq<Partition>, f: File, fileStart: nat, end: int) {
    && (forall k :: 0 <= k < |parts| ==>
          && parts[k].path == f.path && ALIGN <= parts[k].length
          && parts[k].offset + parts[k].length <= f.size
          && fileStart + parts[k].offset + parts[k].length <= end)
    && (forall k, l :: 0 <= k < l < |parts| ==> parts[k].offset + parts[k].length <= parts[l].offset)
    && (Aligned(fileStart) ==>
          forall k :: 0 <= k < |parts| ==> Aligned(parts[k].offset) && Aligned(parts[k].length))
  }

  lemma {:induction false} FilePiecesInOrder(total: int, n: nat, f: File, fileStart: nat, i: nat)
    requires 0 < n && i <= n && Aligned(total) && 0 <= total
    ensures InOrder(FilePieces(total, n, f, fileStart, i), f, fileStart, Boundary(total, n, i))
    ensures Boundary(total, n, i) <= total
  {
    hide *;
    if i > 0 {
      BoundaryFacts(total, n, i - 1);
      FilePiecesInOrder(total, n, f, fileStart, i - 1);
      NextInOrder(FilePieces(total, n, f, fileStart, i - 1), f, fileStart, Boundary(total, n, i - 1), Boundary(total, n, i));
      NextPiece(total, n, f, fileStart, i);
    } else {
      BoundaryFacts(total, n, 0);
      NothingInOrder(total, n, f, fileStart);
    }
  }

  lemma NothingInOrder(total: int, n: nat, f: File, fileStart: nat)
    requires 0 < n
    ensures InOrder(FilePieces(total, n, f, fileStart, 0), f, fileStart, Boundary(total, n, 0))
  {
  }

  /** The piece of a file between two boundaries, if it is large enough. */
  function PieceBetween(f: File, fileStart: nat, b: int, b': int): seq<Partition> {
    var lo, hi := Max(b, fileStart), AlignDown(Min(b', fileStart + f.size));
    if hi - lo >= ALIGN then [Partition(f.path, lo - fileStart, hi - lo)] else []
  }

  lemma NextPiece(total: int, n: nat, f: File, fileStart: nat, i: nat)
    requires 0 < n && 0 < i
    ensures FilePieces(total, n, f, fileStart, i)
            == FilePieces(total, n, f, fileStart, i - 1)
               + PieceBetween(f, fileStart, Boundary(total, n, i - 1), Boundary(total, n, i))
  {
    hide AlignDown, Boundary;
  }

  /** Such a piece is large enough, inside its file and between the boundaries, and aligned if the file begins aligned. */
  lemma PieceFits(f: File, fileStart: nat, b: int, b': int)
    requires Aligned(b) && Aligned(b') && PieceBetween(f, fileStart, b, b') != []
    ensures var p := PieceBetween(f, fileStart, b, b')[0];
            && PieceBetween(f, fileStart, b, b') == [p] && p.path == f.path && ALIGN <= p.length
            && b <= fileStart + p.offset && fileStart + p.offset + p.length <= b' && p.offset + p.length <= f.size
            && (Aligned(fileStart) ==> Aligned(p.offset) && Aligned(p.length))
  {
  }

  lemma NextInOrder(parts: seq<Partition>, f: File, fileStart: nat, b: int, b': int)
    requires InOrder(parts, f, fileStart, b) && Aligned(b) && Aligned(b') && b <= b'
    ensures InOrder(parts + PieceBetween(f, fileStart, b, b'), f, fileStart, b')
  {
    hide PieceBetween, Aligned;
    if PieceBetween(f, fileStart, b, b') == [] {
      assert parts + [] == parts;
    } else {
      PieceFits(f, fileStart, b, b');
    }
  }

  lemma LengthsAppend(a: seq<Partition>, p: Partition)
    ensures Lengths(a + [p]) == Lengths(a) + p.length
  {
    assert (a + [p])[..|a|] == a;
  }

  /** Up to boundary `b` less than ALIGN bytes of the file are skipped, none if the file is aligned. */
  ghost predicate Covers(b: int, fileStart: nat, fileEnd: nat, covered: int) {
    var upTo := Min(b, AlignDown(fileEnd)) - fileStart;
    if b <= fileStart then covered == 0
    else
      && upTo - ALIGN < covered <= Max(0, upTo)
      && (Aligned(fileStart) && Aligned(fileEnd) ==> covered == Max(0, upTo))
  }

  lemma CoverageStep(b: int, b': int, fileStart: nat, fileEnd: nat, covered: int)
    requires Aligned(b) && Aligned(b') && b <= b' && fileStart <= fileEnd && Covers(b, fileStart, fileEnd, covered)
    ensures var lo, hi := Max(b, fileStart), AlignDown(Min(b', fileEnd));
            Covers(b', fileStart, fileEnd, covered + if hi - lo >= ALIGN then hi - lo else 0)
  {
  }

  lemma {:induction false} FileCoverage(total: int, n: nat, f: File, fileStart: nat, i: nat)
    requires 0 < n && i <= n && Aligned(total) && 0 <= total
    ensures Covers(Boundary(total, n, i), fileStart, fileStart + f.size,
                   Lengths(FilePieces(total, n, f, fileStart, i)))
  {
    hide Boundary, Covers, AlignDown, Aligned, Lengths;
    if i > 0 {
      BoundaryFacts(total, n, i - 1);
      FileCoverage(total, n, f, fileStart, i - 1);
      var before := FilePieces(total, n, f, fileStart, i - 1);
      var lo, hi := SpanStart(total, n, fileStart, i - 1), SpanEnd(total, n, fileStart + f.size, i - 1);
      CoverageStep(Boundary(total, n, i - 1), Boundary(total, n, i), fileStart, fileStart + f.size, Lengths(before));
      if hi - lo >= ALIGN {
        LengthsAppend(before, Partition(f.path, lo - fileStart, hi - lo));
      } else {
        assert FilePieces(total, n, f, fileStart, i) == before;
      }
    } else {
      BoundaryFacts(total, n, 0);
      NothingCovered(fileStart, fileStart + f.size);
      assert Lengths([]) == 0 by {
        NoLengths();
      }
    }
  }

  lemma NoLengths()
    ensures Lengths([]) == 0
  {
  }

  lemma NothingCovered(fileStart: nat, fileEnd: nat)
    ensures Covers(0, fileStart, fileEnd, 0)
  {
  }

  lemma AllSharesCovered(total: int, n: nat, f: File, fileStart: nat)
    requires 0 < n && Aligned(total) && 0 <= total
    ensures Covers(total, fileStart, fileStart + f.size, Lengths(FilePieces(total, n, f, fileStart, n)))
  {
    FileCoverage(total, n, f, fileStart, n);
  }

  /** Of each file's bytes below the total, fewer than 2 * ALIGN are in no piece. */
  lemma FewBytesMissed(files: seq<File>, n: nat, limit: int, k: nat)
    requires 0 < n && k < |files| && 0 <= Extent(files, limit)
    ensures var total, start := Extent(files, limit), TotalSize(files[..k]);
            var below := Max(0, Min(start + files[k].size, total) - start);
            below - 2 * ALIGN < Lengths(FilePieces(total, n, files[k], start, n)) <= below
  {
    hide *;
    var total, start := Extent(files, limit), TotalSize(files[..k]);
    ExtentAligned(files, limit);
    AllSharesCovered(total, n, files[k], start);
    CoveredMeans(total, start, start + files[k].size, Lengths(FilePieces(total, n, files[k], start, n)));
  }

  lemma CoveredMeans(total: int, fileStart: nat, fileEnd: nat, covered: int)
    requires Covers(total, fileStart, fileEnd, covered) && Aligned(total) && 0 <= total && fileStart <= fileEnd
    ensures var below := Max(0, Min(fileEnd, total) - fileStart);
            below - 2 * ALIGN < covered <= below
  {
    hide AlignDown;
    AlignDownOf(fileEnd);
  }

  lemma MinOfNothing(total: int)
    requires 0 <= total
    ensures Min(0, total) == 0 && Aligned(0)
  {
  }

  lemma CoveredExactly(total: int, start: nat, size: nat, covered: int)
    requires Aligned(total) && Aligned(start) && Aligned(size) && 0 <= total && Covers(total, start, start + size, covered)
    ensures Aligned(start + size) && Min(start, total) + covered == Min(start + size, total)
  {
  }

  /** If all sizes are multiples of ALIGN, nothing is missed: the pieces cover the total exactly. */
  lemma {:induction false} AlignedFilesAreCovered(files: seq<File>, n: nat, limit: int, k: nat)
    requires 0 < n && k <= |files| && 0 <= Extent(files, limit)
    requires forall i :: 0 <= i < |files| ==> Aligned(files[i].size)
    ensures Aligned(TotalSize(files[..k]))
    ensures Lengths(Pieces(Extent(files, limit), n, files, k)) == Min(TotalSize(files[..k]), Extent(files, limit))
  {
    hide *;
    ExtentAligned(files, limit);
    NoFiles(Extent(files, limit), n, files);
    NoLengths();
    if k == 0 {
      MinOfNothing(Extent(files, limit));
    } else {
      var total, start := Extent(files, limit), TotalSize(files[..k - 1]);
      AlignedFilesAreCovered(files, n, limit, k - 1);
      NextFile(total, n, files, k - 1);
      AllSharesCovered(total, n, files[k - 1], start);
      LengthsConcat(Pieces(total, n, files, k - 1), FilePieces(total, n, files[k - 1], start, n));
      CoveredExactly(total, start, files[k - 1].size, Lengths(FilePieces(total, n, files[k - 1], start, n)));
    }
  }

  lemma AlignedFilesCoverTotal(files: seq<File>, n: nat, limit: int)
    requires 0 < n && 0 <= Extent(files, limit)
    requires forall i :: 0 <= i < |files| ==> Aligned(files[i].size)
    ensures Lengths(Pieces(Extent(files, limit), n, files, |files|)) == Extent(files, limit)
  {
    AlignedFilesAreCovered(files, n, limit, |files|);
    assert files[..|files|] == files;
  }

  lemma {:induction false} LengthsConcat(a: seq<Partition>, b: seq<Partition>)
    ensures Lengths(a + b) == Lengths(a) + Lengths(b)
  {
    if b == [] {
      assert a + b == a;
    } else {
      assert (a + b)[..|a + b| - 1] == a + b[..|b| - 1];
      LengthsConcat(a, b[..|b| - 1]);
    }
  }

  /** Every piece lies inside the file it names. */
  lemma {:induction false} PiecesInsideFiles(files: seq<File>, n: nat, limit: int, k: nat, p: Partition)
    requires 0 < n && k <= |files| && 0 <= Extent(files, limit)
    requires p in Pieces(Extent(files, limit), n, files, k)
    ensures exists i :: 0 <= i < k && p.path == files[i].path && p.offset + p.length <= files[i].size
  {
    hide FilePieces, Extent;
    var total := Extent(files, limit);
    if p in Pieces(total, n, files, k - 1) {
      PiecesInsideFiles(files, n, limit, k - 1, p);
    } else {
      var start := TotalSize(files[..k - 1]);
      ExtentAligned(files, limit);
      FilePiecesInOrder(total, n, files[k - 1], start, n);
      assert p in FilePieces(total, n, files[k - 1], start, n);
    }
  }

  lemma FloorsApart(x: nat, t: nat, n: nat)
    requires 0 < n
    ensures (x + t) / n <= x / n + t / n + 1
  {
    var q, p := x / n, t / n;
    assert x < n * q + n && t < n * p + n;
    assert (q + p + 1) * n + n == (n * q + n) + (n * p + n);
    assert (q + p + 2) * n == (q + p + 1) * n + n;
    if (x + t) / n >= q + p + 2 {
      MulMonotone(q + p + 2, (x + t) / n, n);
    }
  }

  /** A share is at most one block longer than the equal part. */
  lemma SharesAreEven(total: nat, n: nat, i: nat)
    requires 0 < n && i < n && Aligned(total)
    ensures Boundary(total, n, i + 1) - Boundary(total, n, i) <= total / n + 4096
  {
    hide Boundary, AlignDown;
    BoundaryIs(total, n, i);
    BoundaryIs(total, n, i + 1);
    MultipleMod(total, n);
    Commute(total, n);
    assert total * (i + 1) == total * i + total;
    FloorsApart(total * i, total, n);
    AlignDownOf(total * i / n);
    AlignDownOf(total * (i + 1) / n);
  }

  lemma {:induction false} FilePiecesAreEven(total: nat, n: nat, f: File, fileStart: nat, i: nat, p: Partition)
    requires 0 < n && i <= n && Aligned(total) && p in FilePieces(total, n, f, fileStart, i)
    ensures p.length <= total / n + 4096
  {
    hide Boundary, AlignDown;
    if p in FilePieces(total, n, f, fileStart, i - 1) {
      FilePiecesAreEven(total, n, f, fileStart, i - 1, p);
    } else {
      SharesAreEven(total, n, i - 1);
      AlignDownOf(Min(Boundary(total, n, i), fileStart + f.size));
    }
  }

  /** No piece is more than one block longer than an equal part of the total. */
  lemma {:induction false} PiecesAreEven(files: seq<File>, n: nat, limit: int, k: nat, p: Partition)
    requires 0 < n && k <= |files| && 0 <= Extent(files, limit) && p in Pieces(Extent(files, limit), n, files, k)
    ensures p.length <= Extent(files, limit) / n + 4096
  {
    hide Extent, FilePieces;
    ExtentAligned(files, limit);
    if p in Pieces(Extent(files, limit), n, files, k - 1) {
      PiecesAreEven(files, n, limit, k - 1, p);
    } else {
      FilePiecesAreEven(Extent(files, limit), n, files[k - 1], TotalSize(files[..k - 1]), n, p);
    }
  }

  lemma ExtentAligned(files: seq<File>, limit: int)
    ensures Aligned(Extent(files, limit))
  {
  }

  // ---------------------------------------------------------------- the read loop

  datatype Read = Read(path: string, offset: nat, nbytes: nat)
  datatype Outcome = Done | ChunkTooSmall | ShortRead

  /** The reads of a piece from position `pos` on, `chunk` bytes at a time, whole blocks only. */
  function PieceReads(part: Partition, chunk: nat, pos: nat): seq<Read>
    requires 0 < chunk && Aligned(chunk)
    decreases part.length - pos
  {
    if pos >= part.length then []
    else
      var nbytes := AlignDown(Min(chunk, part.length - pos));
      if nbytes <= 0 then []
      else [Read(part.path, part.offset + pos, nbytes)] + PieceReads(part, chunk, pos + nbytes)
  }

  function WorkReads(work: seq<Partition>, chunk: nat): seq<Read>
    requires 0 < chunk && Aligned(chunk)
  {
    if work == [] then [] else PieceReads(work[0], chunk, 0) + WorkReads(work[1..], chunk)
  }

  function Repeat(once: seq<Read>, n: nat): seq<Read> {
    if n == 0 then [] else once + Repeat(once, n - 1)
  }

  function ReadBytes(rs: seq<Read>): nat {
    if rs == [] then 0 else rs[0].nbytes + ReadBytes(rs[1..])
  }

  /** Reads follow each other from `from` to `to`, each non-empty, of the given file and no longer than `chunk`. */
  ghost predicate Tiles(rs: seq<Read>, path: string, from: nat, to: nat, chunk: nat) {
    if rs == [] then from == to
    else
      && rs[0].path == path && rs[0].offset == from && 0 < rs[0].nbytes <= chunk
      && Tiles(rs[1..], path, from + rs[0].nbytes, to, chunk)
  }

  /** A piece is read gap-free from its start to its last whole block, and never past its end. */
  lemma {:induction false} PieceReadsTile(part: Partition, chunk: nat, pos: nat)
    requires 0 < chunk && Aligned(chunk) && Aligned(pos) && pos <= part.length
    ensures var rs := PieceReads(part, chunk, pos);
            && Tiles(rs, part.path, part.offset + pos, part.offset + AlignDown(part.length), chunk)
            && ReadBytes(rs) == AlignDown(part.length) - pos
    decreases part.length - pos
  {
    hide *;
    var nbytes := AlignDown(Min(chunk, part.length - pos));
    NextRead(part, chunk, pos);
    WholeBlocksLeft(part.length, chunk, pos);
    if nbytes > 0 {
      PieceReadsTile(part, chunk, pos + nbytes);
      TilesFirst(Read(part.path, part.offset + pos, nbytes), PieceReads(part, chunk, pos + nbytes), part.path,
                 part.offset + pos, part.offset + AlignDown(part.length), chunk);
    } else {
      TilesNone(part.path, part.offset + pos, chunk);
    }
  }

  lemma NextRead(part: Partition, chunk: nat, pos: nat)
    requires 0 < chunk && Aligned(chunk) && pos <= part.length
    ensures var nbytes := AlignDown(Min(chunk, part.length - pos));
            PieceReads(part, chunk, pos)
            == if nbytes <= 0 then []
               else [Read(part.path, part.offset + pos, nbytes)] + PieceReads(part, chunk, pos + nbytes)
  {
  }

  lemma WholeBlocksLeft(length: nat, chunk: nat, pos: nat)
    requires 0 < chunk && Aligned(chunk) && Aligned(pos) && pos <= length
    ensures var n := AlignDown(Min(chunk, length - pos));
            && 0 <= n <= chunk && pos + n <= length && Aligned(pos + n)
            && (n == 0 ==> AlignDown(length) == pos) && 0 <= pos + n <= AlignDown(length)
  {
  }

  lemma TilesFirst(r: Read, rest: seq<Read>, path: string, from: nat, to: nat, chunk: nat)
    requires r.path == path && r.offset == from && 0 < r.nbytes <= chunk && Tiles(rest, path, from + r.nbytes, to, chunk)
    ensures Tiles([r] + rest, path, from, to, chunk) && ReadBytes([r] + rest) == r.nbytes + ReadBytes(rest)
  {
    assert ([r] + rest)[1..] == rest;
  }

  lemma TilesNone(path: string, at: nat, chunk: nat)
    ensures Tiles([], path, at, at, chunk) && ReadBytes([]) == 0
  {
  }

  function WholeBlocks(work: seq<Partition>): nat {
    if work == [] then 0 else AlignDown(work[0].length) + WholeBlocks(work[1..])
  }

  /** All rounds together read `repeats` times the whole blocks of all pieces. */
  lemma {:induction false} PlannedBytes(work: seq<Partition>, chunk: nat, repeats: nat)
    requires 0 < chunk && Aligned(chunk)
    ensures ReadBytes(Repeat(WorkReads(work, chunk), repeats)) == repeats * WholeBlocks(work)
  {
    hide WorkReads, WholeBlocks, ReadBytes;
    WorkBytes(work, chunk);
    NoReads();
    if repeats > 0 {
      PlannedBytes(work, chunk, repeats - 1);
      ReadBytesConcat(WorkReads(work, chunk), Repeat(WorkReads(work, chunk), repeats - 1));
      OnceMore(repeats, WholeBlocks(work));
    }
  }

  lemma NoReads()
    ensures ReadBytes([]) == 0
  {
  }

  lemma OnceMore(n: nat, x: nat)
    requires n > 0
    ensures n * x == x + (n - 1) * x
  {
  }

  lemma {:induction false} WorkBytes(work: seq<Partition>, chunk: nat)
    requires 0 < chunk && Aligned(chunk)
    ensures ReadBytes(WorkReads(work, chunk)) == WholeBlocks(work)
  {
    if work != [] {
      PieceReadsTile(work[0], chunk, 0);
      WorkBytes(work[1..], chunk);
      ReadBytesConcat(PieceReads(work[0], chunk, 0), WorkReads(work[1..], chunk));
    }
  }

  lemma {:induction false} ReadBytesConcat(a: seq<Read>, b: seq<Read>)
    ensures ReadBytes(a + b) == ReadBytes(a) + ReadBytes(b)
  {
    if a == [] {
      assert a + b == b;
    } else {
      assert (a + b)[1..] == a[1..] + b;
      ReadBytesConcat(a[1..], b);
    }
  }

  // ---------------------------------------------------------------- which bytes are read, in which order

  /** A byte of a file. */
  type Place = (string, nat)

  function Places(path: string, offset: nat, n: nat): seq<Place> {
    seq(n, i requires 0 <= i < n => (path, offset + i))
  }

  /** The bytes that reads fetch, one read after the other. */
  function ReadPlaces(rs: seq<Read>): seq<Place> {
    if rs == [] then [] else Places(rs[0].path, rs[0].offset, rs[0].nbytes) + ReadPlaces(rs[1..])
  }

  /** One round: of each piece in the given order its whole blocks from the first byte on. */
  function RoundPlaces(work: seq<Partition>): seq<Place> {
    if work == [] then []
    else Places(work[0].path, work[0].offset, work[0].length - work[0].length % 4096) + RoundPlaces(work[1..])
  }

  function Rounds(n: nat, once: seq<Place>): seq<Place> {
    if n == 0 then [] else once + Rounds(n - 1, once)
  }

  lemma PlacesJoin(path: string, offset: nat, n: nat, m: nat)
    ensures Places(path, offset, n) + Places(path, offset + n, m) == Places(path, offset, n + m)
  {
  }

  lemma {:induction false} TilesPlaces(rs: seq<Read>, path: string, from: nat, to: nat, chunk: nat)
    requires Tiles(rs, path, from, to, chunk)
    ensures from <= to && ReadPlaces(rs) == Places(path, from, to - from)
  {
    hide Places;
    if rs == [] {
      NoPlaces(path, from);
    } else {
      TilesPlaces(rs[1..], path, from + rs[0].nbytes, to, chunk);
      PlacesJoin(path, from, rs[0].nbytes, to - from - rs[0].nbytes);
    }
  }

  lemma NoPlaces(path: string, offset: nat)
    ensures Places(path, offset, 0) == []
  {
  }

  lemma {:induction false} ReadPlacesConcat(a: seq<Read>, b: seq<Read>)
    ensures ReadPlaces(a + b) == ReadPlaces(a) + ReadPlaces(b)
  {
    hide Places;
    if a == [] {
      assert a + b == b && [] + ReadPlaces(b) == ReadPlaces(b);
    } else {
      assert (a + b)[1..] == a[1..] + b;
      ReadPlacesConcat(a[1..], b);
    }
  }

  lemma {:induction false} WorkPlaces(work: seq<Partition>, chunk: nat)
    requires 0 < chunk && Aligned(chunk)
    ensures ReadPlaces(WorkReads(work, chunk)) == RoundPlaces(work)
  {
    hide Places, PieceReads, Tiles;
    if work != [] {
      var part := work[0];
      PieceReadsTile(part, chunk, 0);
      TilesPlaces(PieceReads(part, chunk, 0), part.path, part.offset, part.offset + AlignDown(part.length), chunk);
      WorkPlaces(work[1..], chunk);
      ReadPlacesConcat(PieceReads(part, chunk, 0), WorkReads(work[1..], chunk));
    }
  }

  /** All planned reads fetch, round after round, the whole blocks of every piece in the given order. */
  lemma {:induction false} RoundsReadPlaces(work: seq<Partition>, chunk: nat, repeats: nat)
    requires 0 < chunk && Aligned(chunk)
    ensures ReadPlaces(Repeat(WorkReads(work, chunk), repeats)) == Rounds(repeats, RoundPlaces(work))
  {
    hide WorkReads, RoundPlaces;
    if repeats > 0 {
      WorkPlaces(work, chunk);
      RoundsReadPlaces(work, chunk, repeats - 1);
      ReadPlacesConcat(WorkReads(work, chunk), Repeat(WorkReads(work, chunk), repeats - 1));
    }
  }

  /** The completed reads fetch a beginning of that, all of it if all are completed. */
  lemma CompletedPlaces(work: seq<Partition>, chunk: nat, repeats: nat, done: seq<Read>)
    requires 0 < chunk && Aligned(chunk) && done <= Repeat(WorkReads(work, chunk), repeats)
    ensures ReadPlaces(done) <= Rounds(repeats, RoundPlaces(work))
    ensures done == Repeat(WorkReads(work, chunk), repeats) ==> ReadPlaces(done) == Rounds(repeats, RoundPlaces(work))
  {
    hide WorkReads, RoundPlaces, ReadPlaces, Rounds, Repeat;
    var plan := Repeat(WorkReads(work, chunk), repeats);
    RoundsReadPlaces(work, chunk, repeats);
    assert plan == done + plan[|done|..];
    ReadPlacesConcat(done, plan[|done|..]);
  }

  /** `preadv`: all that is asked for, up to the end of the file. */
  function Pread(sizes: map<string, nat>, r: Read): nat
    requires r.path in sizes
  {
    if r.offset + r.nbytes <= sizes[r.path] then r.nbytes
    else if r.offset < sizes[r.path] then sizes[r.path] - r.offset
    else 0
  }

  /** The file has all bytes that the read asks for. */
  predicate Fits(sizes: map<string, nat>, r: Read) {
    r.path in sizes && r.offset + r.nbytes <= sizes[r.path]
  }

  ghost predicate AllFit(sizes: map<string, nat>, rs: seq<Read>) {
    forall k :: 0 <= k < |rs| ==> Fits(sizes, rs[k])
  }

  /** Reads one piece, block by block. `plan` is all there is to read, `rest` what comes after the piece. */
  method ReadPiece(part: Partition, chunk: nat, sizes: map<string, nat>, before: seq<Read>,
                   ghost rest: seq<Read>, ghost plan: seq<Read>)
    returns (done: seq<Read>, ok: bool)
    requires part.path in sizes && 0 < chunk && Aligned(chunk)
    requires before + PieceReads(part, chunk, 0) + rest == plan && AllFit(sizes, before)
    ensures ok ==> done + rest == plan
    ensures !ok ==> done < plan && !Fits(sizes, plan[|done|])
    ensures AllFit(sizes, done)
    ensures part.offset + part.length <= sizes[part.path] ==> ok
  {
    hide PieceReads, AlignDown;
    done := before;
    var pos := 0;
    while pos < part.length
      invariant 0 <= pos <= part.length && done + PieceReads(part, chunk, pos) + rest == plan && AllFit(sizes, done)
    {
      var n := AlignDown(Min(chunk, part.length - pos));
      AlignDownOf(Min(chunk, part.length - pos));
      NextRead(part, chunk, pos);
      if n <= 0 {
        break;
      }
      var r := Read(part.path, part.offset + pos, n);
      FirstOfRest(done, r, PieceReads(part, chunk, pos + n), rest, plan);
      if Pread(sizes, r) != n {
        return done, false;
      }
      done := done + [r];
      pos := pos + n;
    }
    if pos == part.length {
      NothingLeft(part, chunk);
    }
    assert done + [] + rest == done + rest;
    return done, true;
  }

  lemma FirstOfRest(done: seq<Read>, r: Read, more: seq<Read>, rest: seq<Read>, plan: seq<Read>)
    requires done + ([r] + more) + rest == plan
    ensures done < plan && plan[|done|] == r && done + [r] + more + rest == plan
  {
    assert done + ([r] + more) + rest == done + [r] + more + rest;
  }

  lemma NothingLeft(part: Partition, chunk: nat)
    requires 0 < chunk && Aligned(chunk)
    ensures PieceReads(part, chunk, part.length) == []
  {
  }

  /** One round over all pieces; `later` is what the remaining rounds read. */
  method ReadOnce(work: seq<Partition>, chunk: nat, sizes: map<string, nat>, before: seq<Read>,
                  ghost later: seq<Read>, ghost plan: seq<Read>)
    returns (done: seq<Read>, ok: bool)
    requires 0 < chunk && Aligned(chunk) && forall p :: p in work ==> p.path in sizes
    requires before + WorkReads(work, chunk) + later == plan && AllFit(sizes, before)
    ensures ok ==> done + later == plan
    ensures !ok ==> done < plan && !Fits(sizes, plan[|done|])
    ensures AllFit(sizes, done)
    ensures (forall p :: p in work ==> p.offset + p.length <= sizes[p.path]) ==> ok
  {
    hide PieceReads, Fits;
    done := before;
    assert work[0..] == work;
    for k := 0 to |work|
      invariant done + WorkReads(work[k..], chunk) + later == plan && AllFit(sizes, done)
    {
      ghost var rest := WorkReads(work[k + 1..], chunk) + later;
      assert work[k..][1..] == work[k + 1..];
      assert done + PieceReads(work[k], chunk, 0) + rest == plan;
      done, ok := ReadPiece(work[k], chunk, sizes, done, rest, plan);
      if !ok {
        return;
      }
    }
    ok := true;
  }

  /**
   Reads every piece of `work` `repeats` times into a buffer of `capacity` bytes; `done` lists the completed reads.
   They are all the planned ones unless a read comes back short, which pieces inside their files rule out. What they fetched
   are the bytes of every piece's whole blocks, in the given order, once per round, as far as they came.
   */
  method ReadWork(work: seq<Partition>, capacity: nat, chunkBytes: int, repeats: nat, sizes: map<string, nat>)
    returns (done: seq<Read>, outcome: Outcome)
    requires forall p :: p in work ==> p.path in sizes
    ensures outcome == ChunkTooSmall <==> AlignDown(Min(chunkBytes, capacity)) <= 0
    ensures outcome != ChunkTooSmall ==>
              var chunk := AlignDown(Min(chunkBytes, capacity));
              && chunk <= capacity && Aligned(chunk)
              && done <= Repeat(WorkReads(work, chunk), repeats)
              && (outcome == Done <==> done == Repeat(WorkReads(work, chunk), repeats)) && AllFit(sizes, done)
              && (outcome == ShortRead ==> !Fits(sizes, Repeat(WorkReads(work, chunk), repeats)[|done|]))
              && ((forall p :: p in work ==> p.offset + p.length <= sizes[p.path]) ==> outcome == Done)
              && ReadPlaces(done) <= Rounds(repeats, RoundPlaces(work))
              && (outcome == Done ==> ReadPlaces(done) == Rounds(repeats, RoundPlaces(work)))
  {
    done := [];
    var chunk := AlignDown(Min(chunkBytes, capacity));
    if chunk <= 0 {
      return done, ChunkTooSmall;
    }
    hide PieceReads, WorkReads, ReadPlaces, RoundPlaces, Rounds, Fits;
    ghost var once, plan := WorkReads(work, chunk), Repeat(WorkReads(work, chunk), repeats);
    for round := 0 to repeats
      invariant done + Repeat(once, repeats - round) == plan && AllFit(sizes, done)
    {
      var ok;
      ghost var later := Repeat(once, repeats - round - 1);
      assert done + once + later == plan;
      done, ok := ReadOnce(work, chunk, sizes, done, later, plan);
      if !ok {
        CompletedPlaces(work, chunk, repeats, done);
        return done, ShortRead;
      }
    }
    CompletedPlaces(work, chunk, repeats, done);
    return done, Done;
  }
}
