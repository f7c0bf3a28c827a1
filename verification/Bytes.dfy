/** Bytes, big-endian integers and the ordered dictionaries that Python code relies on. */
module Bytes {
  import opened Arithmetic

  type byte = b: int | 0 <= b < 256

  function Pow256(k: nat): (p: nat)
    ensures 0 < p
  {
    if k == 0 then 1 else 256 * Pow256(k - 1)
  }

  /** `v` as `k` bytes, most significant first (the `>` of Python's struct formats). */
  function BigEndian(v: nat, k: nat): (s: seq<byte>)
    ensures |s| == k
  {
    if k == 0 then [] else BigEndian(v / 256, k - 1) + [v % 256]
  }

  function FromBigEndian(s: seq<byte>): (v: nat)
    ensures v < Pow256(|s|)
  {
    if s == [] then 0 else 256 * FromBigEndian(s[..|s| - 1]) + s[|s| - 1]
  }

  lemma {:induction false} BigEndianRoundTrip(v: nat, k: nat)
    requires v < Pow256(k)
    ensures FromBigEndian(BigEndian(v, k)) == v
  {
    if k > 0 {
      BigEndianRoundTrip(v / 256, k - 1);
      assert BigEndian(v, k)[..k - 1] == BigEndian(v / 256, k - 1);
    }
  }

  /** Each byte is the digit of its place. */
  lemma {:induction false} BigEndianDigit(v: nat, k: nat, i: nat)
    requires i < k
    ensures BigEndian(v, k)[i] == v / Pow256(k - 1 - i) % 256
  {
    if i < k - 1 {
      BigEndianDigit(v / 256, k - 1, i);
      DivideTwice(v, 256, Pow256(k - 2 - i));
    }
  }

  lemma DivideTwice(v: nat, a: nat, b: nat)
    requires 0 < a && 0 < b
    ensures 0 < a * b && v / a / b == v / (a * b)
  {
    var u, r := v / a, v % a;
    var q, t := u / b, u % b;
    Divided(v, a);
    Divided(u, b);
    Compose(v, a, b, u, r, q, t);
    DivModUnique(v, a * b, q, a * t + r);
  }

  lemma Divided(v: nat, a: nat)
    requires 0 < a
    ensures v == a * (v / a) + v % a && 0 <= v % a < a
  {
  }

  lemma Compose(v: nat, a: nat, b: nat, u: nat, r: nat, q: nat, t: nat)
    requires v == a * u + r && r < a && u == b * q + t && t < b
    ensures 0 < a * b && v == q * (a * b) + (a * t + r) && 0 <= a * t + r < a * b
  {
    calc {
      a * u;
      a * (b * q + t);
      a * (b * q) + a * t;
      q * (a * b) + a * t;
    }
    MulMonotone(t, b - 1, a);
    assert (b - 1) * a == a * b - a;
  }

  /** All the chunks one after the other. */
  function Flatten<T>(chunks: seq<seq<T>>): seq<T> {
    if chunks == [] then [] else Flatten(chunks[..|chunks| - 1]) + chunks[|chunks| - 1]
  }

  lemma {:induction false} FlattenAppend<T>(a: seq<seq<T>>, b: seq<seq<T>>)
    ensures Flatten(a + b) == Flatten(a) + Flatten(b)
  {
    if b == [] {
      assert a + b == a;
    } else {
      var n := |b| - 1;
      assert (a + b)[..|a + b| - 1] == a + b[..n];
      FlattenAppend(a, b[..n]);
    }
  }
}

/** An insertion-ordered dictionary with distinct keys, as Python's `dict` is. */
module OrderedDict {
  type Dict<K, V> = seq<(K, V)>

  ghost predicate DistinctKeys<K, V>(d: Dict<K, V>) {
    forall i, j :: 0 <= i < j < |d| ==> d[i].0 != d[j].0
  }

  function Find<K(==), V>(d: Dict<K, V>, k: K): (i: int)
    ensures 0 <= i <= |d|
    ensures i < |d| ==> d[i].0 == k
    ensures forall j :: 0 <= j < i ==> d[j].0 != k
  {
    if d == [] then 0 else if d[0].0 == k then 0 else 1 + Find(d[1..], k)
  }

  ghost function Keys<K, V>(d: Dict<K, V>): set<K> {
    set i | 0 <= i < |d| :: d[i].0
  }

  /** `d[k] = v`: a known key keeps its place and gets the new value, a new key goes last. */
  function Put<K(==), V>(d: Dict<K, V>, k: K, v: V): (r: Dict<K, V>)
    ensures DistinctKeys(d) ==> DistinctKeys(r)
    ensures Keys(r) == Keys(d) + {k}
    ensures k in Keys(d) ==> |r| == |d|
    ensures k !in Keys(d) ==> r == d + [(k, v)]
    ensures forall i :: 0 <= i < |d| ==> r[i].0 == d[i].0 && (d[i].0 != k ==> r[i] == d[i])
    ensures Find(d, k) < |r| && r[Find(d, k)] == (k, v)
  {
    var i := Find(d, k);
    var r := if i < |d| then d[i := (k, v)] else d + [(k, v)];
    assert Keys(r) == Keys(d) + {k} by {
      assert forall j :: 0 <= j < |d| ==> r[j].0 == d[j].0;
      assert r[i].0 == k;
    }
    r
  }
}
