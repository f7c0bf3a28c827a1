/**
 The two leave-one-out estimators in `gvpo_core_algos.py`, over real numbers and before the token mask: the one that
 groups scores in dictionaries and rewrites them in place, and the vectorised one.
 */
module Rloo {
  function Sum(xs: seq<real>): real {
    if xs == [] then 0.0 else Sum(xs[..|xs| - 1]) + xs[|xs| - 1]
  }

  /** The scores of a prompt, in batch order. */
  function Members(scores: seq<real>, index: seq<string>, id: string): seq<real>
    requires |scores| == |index|
  {
    if scores == [] then []
    else
      var n := |scores| - 1;
      Members(scores[..n], index[..n], id) + if index[n] == id then [scores[n]] else []
  }

  /** The scores of the other samples of the prompt that sample `i` belongs to. */
  function Others(scores: seq<real>, index: seq<string>, i: nat): seq<real>
    requires |scores| == |index| && i < |scores|
  {
    Members(scores[..i], index[..i], index[i]) + Members(scores[i + 1..], index[i + 1..], index[i])
  }

  /** The estimator's definition: the score minus the mean score of the other samples of its prompt. */
  function LeaveOneOut(scores: seq<real>, index: seq<string>, i: nat): real
    requires |scores| == |index| && i < |scores| && Others(scores, index, i) != []
  {
    var others := Others(scores, index, i);
    scores[i] - Sum(others) / |others| as real
  }

  /** What the loop form gives: a sample alone in its prompt keeps its score. */
  function OutcomeScore(scores: seq<real>, index: seq<string>, i: nat): real
    requires |scores| == |index| && i < |scores|
  {
    if Others(scores, index, i) == [] then scores[i] else LeaveOneOut(scores, index, i)
  }

  // ---------------------------------------------------------------- sums over groups

  lemma {:induction false} SumAppend(a: seq<real>, b: seq<real>)
    ensures Sum(a + b) == Sum(a) + Sum(b)
  {
    if b == [] {
      assert a + b == a;
    } else {
      var n := |b| - 1;
      assert (a + b)[..|a + b| - 1] == a + b[..n];
      SumAppend(a, b[..n]);
    }
  }

  lemma {:induction false} MembersAppend(a: seq<real>, ia: seq<string>, b: seq<real>, ib: seq<string>, id: string)
    requires |a| == |ia| && |b| == |ib|
    ensures Members(a + b, ia + ib, id) == Members(a, ia, id) + Members(b, ib, id)
  {
    if b == [] {
      assert a + b == a && ia + ib == ia;
    } else {
      var n := |b| - 1;
      assert (a + b)[..|a + b| - 1] == a + b[..n] && (ia + ib)[..|a + b| - 1] == ia + ib[..n];
      MembersAppend(a, ia, b[..n], ib[..n], id);
    }
  }

  /** The group is the sample and the others. */
  lemma GroupWithSample(scores: seq<real>, index: seq<string>, i: nat)
    requires |scores| == |index| && i < |scores|
    ensures var group, others := Members(scores, index, index[i]), Others(scores, index, i);
            |group| == |others| + 1 && Sum(group) == Sum(others) + scores[i]
  {
    var id := index[i];
    var before, after := Members(scores[..i], index[..i], id), Members(scores[i + 1..], index[i + 1..], id);
    assert scores == scores[..i] + scores[i..i + 1] + scores[i + 1..];
    assert index == index[..i] + index[i..i + 1] + index[i + 1..];
    MembersAppend(scores[..i] + scores[i..i + 1], index[..i] + index[i..i + 1], scores[i + 1..], index[i + 1..], id);
    MembersAppend(scores[..i], index[..i], scores[i..i + 1], index[i..i + 1], id);
    OneMember(scores[i], id);
    assert scores[i..i + 1] == [scores[i]] && index[i..i + 1] == [id];
    hide Members;
    SumAppend(before + [scores[i]], after);
    SumAppend(before, [scores[i]]);
    SumAppend(before, after);
    SumOne(scores[i]);
  }

  lemma OneMember(x: real, id: string)
    ensures Members([x], [id], id) == [x]
  {
    assert [x][..0] == [];
  }

  lemma SumOne(x: real)
    ensures Sum([x]) == x
  {
    assert [x][..0] == [];
  }

  // ---------------------------------------------------------------- the loop form

  function Rescale(score: real, n: nat, mean: real): real
    requires n > 1
  {
    score * n as real / (n - 1) as real - mean * n as real / (n - 1) as real
  }

  /** `compute_rloo_outcome_advantage` on the summed scores. */
  method OutcomeAdvantage(scores: array<real>, index: seq<string>)
    requires scores.Length == |index|
    modifies scores
    ensures forall i :: 0 <= i < |index| ==> scores[i] == OutcomeScore(old(scores[..]), index, i)
  {
    ghost var given := scores[..];
    var groups, means := GroupScores(scores, index);
    hide LeaveOneOut, Others, Members, Sum, Rescale;
    for i := 0 to |index|
      invariant forall k :: 0 <= k < i ==> scores[k] == OutcomeScore(given, index, k)
      invariant forall k :: i <= k < |index| ==> scores[k] == given[k]
    {
      var n := |groups[index[i]]|;
      GroupWithSample(given, index, i);
      if n > 1 {
        RescaledIsLeaveOneOut(given, index, i, n, means[index[i]]);
        scores[i] := Rescale(scores[i], n, means[index[i]]);
      }
    }
  }

  /** The first two loops: scores by prompt and their means; a prompt with one score gets mean zero. */
  method GroupScores(scores: array<real>, index: seq<string>) returns (groups: map<string, seq<real>>, means: map<string, real>)
    requires scores.Length == |index|
    ensures forall i :: 0 <= i < |index| ==>
              && index[i] in groups && groups[index[i]] == Members(scores[..], index, index[i])
              && index[i] in means
              && (|groups[index[i]]| > 1 ==> means[index[i]] == Sum(groups[index[i]]) / |groups[index[i]]| as real)
  {
    hide *;
    ghost var given := scores[..];
    groups := map[];
    NoMembers(given, index);
    for i := 0 to |index|
      invariant Grouped(groups, given, index, i)
    {
      var before := if index[i] in groups then groups[index[i]] else [];
      NextGrouped(groups, given, index, i);
      groups := groups[index[i] := before + [scores[i]]];
    }
    AllGrouped(groups, given, index);
    means := map id | id in groups :: if |groups[id]| > 1 then Sum(groups[id]) / |groups[id]| as real else 0.0;
  }

  /** The groups of the first `i` samples. */
  ghost predicate Grouped(groups: map<string, seq<real>>, scores: seq<real>, index: seq<string>, i: nat)
    requires |scores| == |index| && i <= |scores|
  {
    && (forall k :: 0 <= k < i ==> index[k] in groups)
    && (forall id :: id in groups ==> groups[id] == Members(scores[..i], index[..i], id))
    && (forall id :: id !in groups ==> Members(scores[..i], index[..i], id) == [])
  }

  lemma NextGrouped(groups: map<string, seq<real>>, scores: seq<real>, index: seq<string>, i: nat)
    requires |scores| == |index| && i < |scores| && Grouped(groups, scores, index, i)
    ensures var before := if index[i] in groups then groups[index[i]] else [];
            Grouped(groups[index[i] := before + [scores[i]]], scores, index, i + 1)
  {
    hide Members;
    forall id
      ensures Members(scores[..i + 1], index[..i + 1], id)
              == Members(scores[..i], index[..i], id) + if index[i] == id then [scores[i]] else []
    {
      NextMember(scores, index, i, id);
    }
  }

  lemma AllGrouped(groups: map<string, seq<real>>, scores: seq<real>, index: seq<string>)
    requires |scores| == |index| && Grouped(groups, scores, index, |index|)
    ensures forall k :: 0 <= k < |index| ==> index[k] in groups && groups[index[k]] == Members(scores, index, index[k])
  {
    hide Members;
    assert scores[..|index|] == scores && index[..|index|] == index;
  }

  lemma NoMembers(scores: seq<real>, index: seq<string>)
    requires |scores| == |index|
    ensures Grouped(map[], scores, index, 0)
  {
  }

  lemma NextMember(scores: seq<real>, index: seq<string>, i: nat, id: string)
    requires |scores| == |index| && i < |scores|
    ensures Members(scores[..i + 1], index[..i + 1], id)
            == Members(scores[..i], index[..i], id) + if index[i] == id then [scores[i]] else []
  {
    assert scores[..i + 1][..i] == scores[..i] && index[..i + 1][..i] == index[..i];
  }

  lemma RescaledIsLeaveOneOut(scores: seq<real>, index: seq<string>, i: nat, n: nat, mean: real)
    requires |scores| == |index| && i < |scores| && Others(scores, index, i) != []
    requires n == |Others(scores, index, i)| + 1 && mean == (Sum(Others(scores, index, i)) + scores[i]) / n as real
    ensures Rescale(scores[i], n, mean) == LeaveOneOut(scores, index, i)
  {
    hide Others, Sum;
    Rescaled(scores[i], Sum(Others(scores, index, i)), (n - 1) as real, mean);
  }

  lemma Quotient(z: real, x: real, m: real)
    requires m > 0.0 && x == z * m
    ensures x / m == z
  {
  }

  lemma Rescaled(s: real, o: real, m: real, mean: real)
    requires m > 0.0 && mean == (o + s) / (m + 1.0)
    ensures s * (m + 1.0) / m - mean * (m + 1.0) / m == s - o / m
  {
    var x, y := s / m, o / m;
    assert x * m == s && y * m == o;
    assert mean * (m + 1.0) == o + s;
    Quotient(s + x, s * (m + 1.0), m);
    Quotient(y + x, o + s, m);
  }

  // ---------------------------------------------------------------- the vectorised form

  /** Entry `i` of `compute_rloo_vectorized_outcome_advantage`: counts and sums by prompt, singletons zeroed. */
  function Vectorized(scores: seq<real>, index: seq<string>, i: nat): real
    requires |scores| == |index| && i < |scores|
  {
    var group := Members(scores, index, index[i]);
    VectorScore(|group| as real, scores[i], Sum(group))
  }

  function VectorScore(c: real, score: real, total: real): real {
    (c * score - total) / (if c - 1.0 < 1.0 then 1.0 else c - 1.0) * (if c > 1.0 then 1.0 else 0.0)
  }

  lemma VectorScoreOfMany(score: real, o: real, m: real)
    requires m >= 1.0
    ensures VectorScore(m + 1.0, score, o + score) == score - o / m
  {
    assert o / m * m == o;
    Quotient(score - o / m, (m + 1.0) * score - (o + score), m);
  }

  /** The vectorised form is the definition too, except that a sample alone in its prompt gets zero. */
  lemma VectorizedIsLeaveOneOut(scores: seq<real>, index: seq<string>, i: nat)
    requires |scores| == |index| && i < |scores|
    ensures Vectorized(scores, index, i)
            == if Others(scores, index, i) == [] then 0.0 else LeaveOneOut(scores, index, i)
  {
    GroupWithSample(scores, index, i);
    var others := Others(scores, index, i);
    hide Others, Members, Sum;
    if others != [] {
      hide VectorScore;
      VectorScoreOfMany(scores[i], Sum(others), |others| as real);
    }
  }

  /** The two forms agree on a sample exactly when it is not alone in its prompt or its score is zero. */
  lemma FormsAgree(scores: seq<real>, index: seq<string>, i: nat)
    requires |scores| == |index| && i < |scores|
    ensures OutcomeScore(scores, index, i) == Vectorized(scores, index, i) <==>
            |Members(scores, index, index[i])| > 1 || scores[i] == 0.0
  {
    GroupWithSample(scores, index, i);
    VectorizedIsLeaveOneOut(scores, index, i);
    hide Others, Members, Vectorized, LeaveOneOut;
  }
}
