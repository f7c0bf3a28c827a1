/**
 Token bookkeeping of the ECHO agent loop (`echo/agent_loop.py`): four parallel lists that grow turn by turn, and the
 prefix/suffix difference that finds the tokens of a terminal output inside a rendered tool message. What the model,
 the tokenizer and the environment answer are parameters.
 */
module Echo {
  import opened Arithmetic

  const MAX_TOKENS_PER_GENERATION := 2048

  // ---------------------------------------------------------------- the difference of two renderings

  function Repeat<T>(x: T, n: nat): (s: seq<T>)
    ensures |s| == n
  {
    seq(n, _ => x)
  }

  /** Element `t`, counted from the end. */
  function FromEnd(a: seq<int>, t: nat): int
    requires t < |a|
  {
    a[|a| - 1 - t]
  }

  /** How many positions from `k` on agree. */
  function AgreeFrom(a: seq<int>, b: seq<int>, k: nat): (n: nat)
    requires k <= |a| && k <= |b|
    ensures k + n <= |a| && k + n <= |b|
    ensures forall t :: k <= t < k + n ==> a[t] == b[t]
    ensures k + n < |a| && k + n < |b| ==> a[k + n] != b[k + n]
    decreases |a| - k
  {
    if k == |a| || k == |b| || a[k] != b[k] then 0 else 1 + AgreeFrom(a, b, k + 1)
  }

  /** The same counted from the end, up to position `limit`. */
  function AgreeFromEnd(a: seq<int>, b: seq<int>, limit: int, k: nat): (n: nat)
    requires limit <= |a| && limit <= |b|
    ensures n == 0 || k + n <= limit
    ensures forall t :: k <= t < k + n ==> FromEnd(a, t) == FromEnd(b, t)
    ensures k + n < limit ==> FromEnd(a, k + n) != FromEnd(b, k + n)
    decreases limit - k
  {
    if k >= limit || FromEnd(a, k) != FromEnd(b, k) then 0 else 1 + AgreeFromEnd(a, b, limit, k + 1)
  }

  /** The length of the longest common prefix. */
  function CommonPrefix(a: seq<int>, b: seq<int>): nat {
    AgreeFrom(a, b, 0)
  }

  function DiffStart(empty: seq<int>, full: seq<int>): nat {
    CommonPrefix(empty, full)
  }

  /** The end, in `full`, of what the longest common prefix and the longest suffix beside it leave. */
  function DiffEnd(empty: seq<int>, full: seq<int>): (end: nat)
    ensures end <= |full|
  {
    |full| - AgreeFromEnd(empty, full, Min(|empty|, |full|) - DiffStart(empty, full), 0)
  }

  method CommonPrefixLength(first: seq<int>, second: seq<int>) returns (length: nat)
    ensures length == CommonPrefix(first, second)
  {
    length := 0;
    while length < |first| && length < |second| && first[length] == second[length]
      invariant length <= |first| && length <= |second|
      invariant CommonPrefix(first, second) == length + AgreeFrom(first, second, length)
    {
      length := length + 1;
    }
  }

  method CommonSuffixLength(first: seq<int>, second: seq<int>, prefixLength: nat) returns (length: nat)
    ensures length == AgreeFromEnd(first, second, Min(|first|, |second|) - prefixLength, 0)
  {
    var maxLength := Min(|first|, |second|) - prefixLength;
    length := 0;
    while length < maxLength && first[|first| - 1 - length] == second[|second| - 1 - length]
      invariant AgreeFromEnd(first, second, maxLength, 0) == length + AgreeFromEnd(first, second, maxLength, length)
    {
      length := length + 1;
    }
  }

  /** Two lengths that both end at the first difference are the same. */
  lemma PrefixIs(a: seq<int>, b: seq<int>, n: nat)
    requires n <= |a| && n <= |b| && (forall t :: 0 <= t < n ==> a[t] == b[t])
    requires n < |a| && n < |b| ==> a[n] != b[n]
    ensures CommonPrefix(a, b) == n
  {
  }

  /** The shift: what is inserted may begin like what follows it. */
  lemma PrefixOfInsertion(pre: seq<int>, mid: seq<int>, post: seq<int>)
    ensures CommonPrefix(pre + post, pre + mid + post) == |pre| + CommonPrefix(post, mid + post)
  {
    var d := CommonPrefix(post, mid + post);
    var a, b := pre + post, pre + mid + post;
    assert b == pre + (mid + post);
    forall t | 0 <= t < |pre| + d
      ensures a[t] == b[t]
    {
      if |pre| <= t {
        assert a[t] == post[t - |pre|] && b[t] == (mid + post)[t - |pre|];
      }
    }
    hide CommonPrefix;
    PrefixIs(a, b, |pre| + d);
  }

  lemma SuffixReachesLimit(pre: seq<int>, mid: seq<int>, post: seq<int>, limit: int)
    requires 0 <= limit <= |post|
    ensures AgreeFromEnd(pre + post, pre + mid + post, limit, 0) == limit
  {
    var a, b := pre + post, pre + mid + post;
    assert forall t :: 0 <= t < limit ==> FromEnd(a, t) == FromEnd(post, t) && FromEnd(b, t) == FromEnd(post, t);
  }

  /** Where the difference lies when one rendering is the other with `mid` inserted. */
  lemma DiffOfInsertion(pre: seq<int>, mid: seq<int>, post: seq<int>)
    ensures var d := CommonPrefix(post, mid + post);
            && d <= |post|
            && DiffStart(pre + post, pre + mid + post) == |pre| + d
            && DiffEnd(pre + post, pre + mid + post) == |pre| + |mid| + d
  {
    PrefixOfInsertion(pre, mid, post);
    SuffixReachesLimit(pre, mid, post, |post| - CommonPrefix(post, mid + post));
  }

  /**
   The span has as many tokens as were inserted and deleting it gives the rendering without them; that it can be
   deleted is also all that is needed.
   */
  lemma SpanIsInsertion(empty: seq<int>, full: seq<int>)
    ensures var start, end := DiffStart(empty, full), DiffEnd(empty, full);
            (exists pre, mid, post :: Inserted(empty, full, pre, mid, post)) <==>
            start <= end && end - start == |full| - |empty| && full[..start] + full[end..] == empty
  {
    var start, end := DiffStart(empty, full), DiffEnd(empty, full);
    hide DiffStart, DiffEnd, CommonPrefix;
    if pre, mid, post :| Inserted(empty, full, pre, mid, post) {
      DiffOfInsertion(pre, mid, post);
      Deleted(pre, mid, post, CommonPrefix(post, mid + post));
    } else if start <= end && full[..start] + full[end..] == empty {
      assert Inserted(empty, full, full[..start], full[start..end], full[end..]);
    }
  }

  lemma Deleted(pre: seq<int>, mid: seq<int>, post: seq<int>, d: nat)
    requires d == CommonPrefix(post, mid + post)
    ensures d <= |post| && (pre + mid + post)[..|pre| + d] + (pre + mid + post)[|pre| + |mid| + d..] == pre + post
  {
    assert pre + mid + post == pre + (mid + post);
    assert forall t :: 0 <= t < d ==> (mid + post)[t] == post[t];
    assert (mid + post)[..d] == post[..d];
  }

  predicate Inserted(empty: seq<int>, full: seq<int>, pre: seq<int>, mid: seq<int>, post: seq<int>) {
    empty == pre + post && full == pre + mid + post
  }

  /** The part of an observation that becomes an auxiliary target. */
  datatype Observation = Observation(hasWarning: bool, empty: seq<int>, warning: seq<int>, full: seq<int>, tokens: seq<int>) {
    /** Rendering with the generation prompt only appends to the rendering without. */
    ghost predicate Valid() {
      full <= tokens
    }

    function Start(): nat {
      if hasWarning then DiffEnd(empty, warning) else DiffStart(empty, full)
    }

    function End(): nat {
      DiffEnd(empty, full)
    }

    /** All tokens to be marked exist; marking one that does not raises. */
    predicate Markable() {
      Start() < End() ==> End() <= |tokens|
    }
  }

  lemma ValidIsMarkable(o: Observation)
    requires o.Valid()
    ensures o.Markable()
  {
    hide DiffStart;
  }

  /** Without a warning, what is not marked is the rendering of an empty message and the generation prompt. */
  lemma UnmarkedTokensAreTemplate(o: Observation, pre: seq<int>, mid: seq<int>, post: seq<int>)
    requires o.Valid() && !o.hasWarning && Inserted(o.empty, o.full, pre, mid, post)
    ensures o.End() - o.Start() == |mid| && o.End() <= |o.tokens|
    ensures o.tokens[..o.Start()] + o.tokens[o.End()..] == o.empty + o.tokens[|o.full|..]
  {
    SpanIsInsertion(o.empty, o.full);
    hide DiffStart, DiffEnd;
    var start, end := o.Start(), o.End();
    assert o.tokens[..start] == o.full[..start];
    assert o.tokens[end..] == o.full[end..] + o.tokens[|o.full|..];
  }

  /**
   Behind a warning, for any tokens of warning, output and template: where the marked span begins and ends. It is the
   place of the environment's output if and only if the template ends there or goes on differently than the warning
   begins; it has as many tokens as the output if and only if both ends are moved alike, which they are unless the
   template goes on with the whole warning.
   */
  lemma WarningIsLeftOut(o: Observation, pre: seq<int>, w: seq<int>, mid: seq<int>, post: seq<int>)
    requires o.hasWarning && o.empty == pre + post && o.warning == pre + w + post && o.full == pre + (w + mid) + post
    ensures var d, d' := CommonPrefix(post, w + post), CommonPrefix(post, w + mid + post);
            && o.Start() == |pre| + |w| + d && o.End() == |pre| + |w| + |mid| + d' && o.End() <= |o.full|
            && (o.Start() <= o.End() ==> o.full[o.Start()..o.End()] == (mid + post)[d..|mid| + d'])
            && (o.End() - o.Start() == |mid| <==> d == d') && (!(w <= post) ==> d == d')
    ensures (o.Start() == |pre| + |w| && o.End() == |pre| + |w| + |mid|) <==> (post == [] || (w != [] && w[0] != post[0]))
  {
    hide *;
    var d, d' := CommonPrefix(post, w + post), CommonPrefix(post, w + mid + post);
    WarningSpan(o, pre, w, mid, post);
    SameFirst(post, w + post);
    SameFirst(post, w + mid + post);
    if !(w <= post) {
      WarningShift(w, post, post);
      WarningShift(w, mid + post, post);
      assert w + mid + post == w + (mid + post);
    }
    if o.Start() <= o.End() {
      CutBehind(pre, w, mid, post, d, |mid| + d');
    }
  }

  lemma WarningSpan(o: Observation, pre: seq<int>, w: seq<int>, mid: seq<int>, post: seq<int>)
    requires o.hasWarning && o.empty == pre + post && o.warning == pre + w + post && o.full == pre + (w + mid) + post
    ensures var d, d' := CommonPrefix(post, w + post), CommonPrefix(post, w + mid + post);
            o.Start() == |pre| + |w| + d && o.End() == |pre| + |w| + |mid| + d' && o.End() <= |o.full|
  {
    DiffOfInsertion(pre, w, post);
    DiffOfInsertion(pre, w + mid, post);
    hide CommonPrefix, DiffStart, DiffEnd;
  }

  lemma CutBehind(pre: seq<int>, w: seq<int>, mid: seq<int>, post: seq<int>, from: nat, to: nat)
    requires from <= to <= |mid| + |post|
    ensures (pre + (w + mid) + post)[|pre| + |w| + from..|pre| + |w| + to] == (mid + post)[from..to]
  {
    assert pre + (w + mid) + post == (pre + w) + (mid + post);
  }

  lemma SameFirst(a: seq<int>, b: seq<int>)
    ensures CommonPrefix(a, b) == 0 <==> a == [] || b == [] || a[0] != b[0]
    ensures CommonPrefix(a, b) <= |a|
  {
  }

  lemma WarningShift(w: seq<int>, rest: seq<int>, post: seq<int>)
    requires !(w <= post)
    ensures CommonPrefix(post, w + rest) == CommonPrefix(post, w)
  {
    var d := CommonPrefix(post, w);
    assert forall t :: 0 <= t < d ==> post[t] == w[t];
    assert post[..d] == w[..d] && w[..|w|] == w;
    PrefixIs(post, w + rest, d);
  }

  // ---------------------------------------------------------------- the interaction

  /** One position of the four lists. */
  datatype Entry = Entry(id: int, mask: int, aux: int, logprob: real)

  function Assistant(ids: seq<int>, logprobs: seq<real>): (s: seq<Entry>)
    requires |ids| == |logprobs|
    ensures |s| == |ids|
  {
    seq(|ids|, t requires 0 <= t < |ids| => Entry(ids[t], 1, 0, logprobs[t]))
  }

  /** Tokens that the policy did not produce; those in [start, end) are auxiliary targets. */
  function Observed(ids: seq<int>, start: nat, end: nat): (s: seq<Entry>)
    ensures |s| == |ids|
  {
    seq(|ids|, t requires 0 <= t < |ids| => Entry(ids[t], 0, if start <= t < end then 1 else 0, 0.0))
  }

  class EchoInteraction {
    var responseIds: seq<int>
    var responseMask: seq<int>
    var auxMask: seq<int>
    var logprobs: seq<real>
    var numTurns: nat

    ghost predicate Valid()
      reads `responseIds, `responseMask, `auxMask, `logprobs
    {
      |responseIds| == |responseMask| == |auxMask| == |logprobs|
    }

    ghost function Contents(): (c: seq<Entry>)
      reads `responseIds, `responseMask, `auxMask, `logprobs
      requires Valid()
      ensures |c| == |responseIds|
    {
      var ids, masks, auxes, probs := responseIds, responseMask, auxMask, logprobs;
      seq(|ids|, t requires 0 <= t < |ids| => Entry(ids[t], masks[t], auxes[t], probs[t]))
    }

    constructor ()
      ensures Valid() && Contents() == [] && numTurns == 0
    {
      responseIds, responseMask, auxMask, logprobs, numTurns := [], [], [], [], 0;
    }

    method AppendAssistant(ids: seq<int>, probs: seq<real>)
      requires Valid() && |ids| == |probs|
      modifies this
      ensures Valid() && Contents() == old(Contents()) + Assistant(ids, probs) && numTurns == old(numTurns)
      ensures responseIds == old(responseIds) + ids
    {
      responseIds := responseIds + ids;
      responseMask := responseMask + Repeat(1, |ids|);
      auxMask := auxMask + Repeat(0, |ids|);
      logprobs := logprobs + probs;
    }

    method AppendObservation(ids: seq<int>, aux: seq<int>, ghost start: nat, ghost end: nat)
      requires Valid() && |ids| == |aux|
      requires forall t :: 0 <= t < |aux| ==> aux[t] == if start <= t < end then 1 else 0
      modifies this
      ensures Valid() && Contents() == old(Contents()) + Observed(ids, start, end) && numTurns == old(numTurns)
      ensures responseIds == old(responseIds) + ids
    {
      responseIds := responseIds + ids;
      responseMask := responseMask + Repeat(0, |ids|);
      auxMask := auxMask + aux;
      logprobs := logprobs + Repeat(0.0, |ids|);
    }
  }

  // ---------------------------------------------------------------- what the loop does to the lists

  /** The response length, and the two tokens that end a turn. */
  datatype Config = Config(responseLength: nat, imEnd: int, newline: int)

  function Ids(entries: seq<Entry>): (ids: seq<int>)
    ensures |ids| == |entries|
  {
    seq(|entries|, t requires 0 <= t < |entries| => entries[t].id)
  }

  function TurnEndTokens(c: Config, ids: seq<int>): seq<int> {
    if 2 <= |ids| && ids[|ids| - 2..] == [c.imEnd, c.newline] then []
    else if ids != [] && ids[|ids| - 1] == c.imEnd then [c.newline]
    else [c.imEnd, c.newline]
  }

  function WithTurnEnd(c: Config, entries: seq<Entry>): seq<Entry> {
    entries + Observed(TurnEndTokens(c, Ids(entries)), 0, 0)
  }

  /** What `_append_observation` leaves, and whether the loop goes on; `raised` says that rendering the observation raises. */
  function WithObservation(c: Config, entries: seq<Entry>, o: Observation, raised: bool): (seq<Entry>, bool) {
    var ended := WithTurnEnd(c, entries);
    var available := c.responseLength - |ended|;
    if available <= 0 || raised || !o.Markable() then (ended, false)
    else (ended + Observed(o.tokens[..Min(available, |o.tokens|)], o.Start(), o.End()), |o.tokens| <= available)
  }

  /** Where a timeout or an exception ends a turn, if one does. */
  datatype Cut = Whole | BeforeAnswer | AfterAnswer | AfterTurnEnd

  /** One turn: what the model generates, whether it declares itself done, the observation otherwise, and what cuts it short. */
  datatype Turn = Turn(generated: seq<int>, logprobs: seq<real>, done: bool, observation: Observation, cut: Cut)

  function Padded(logprobs: seq<real>, n: nat): (p: seq<real>)
    ensures |p| == n
  {
    seq(n, t requires 0 <= t < n => if t < |logprobs| then logprobs[t] else 0.0)
  }

  function WithAnswer(c: Config, entries: seq<Entry>, turn: Turn): seq<Entry> {
    var room := Min(MAX_TOKENS_PER_GENERATION, c.responseLength - |entries|);
    var n := if room <= 0 then 0 else Min(|turn.generated|, room);
    entries + Assistant(turn.generated[..n], Padded(turn.logprobs, n))
  }

  /** One turn, and whether another follows. */
  function AfterTurn(c: Config, entries: seq<Entry>, turn: Turn): (seq<Entry>, bool) {
    if c.responseLength <= |entries| || turn.cut.BeforeAnswer? then (entries, false)
    else if turn.done || turn.cut.AfterAnswer? then (WithAnswer(c, entries, turn), false)
    else WithObservation(c, WithAnswer(c, entries, turn), turn.observation, turn.cut.AfterTurnEnd?)
  }

  function After(turns: nat, rest: (seq<Entry>, nat)): (seq<Entry>, nat) {
    (rest.0, turns + rest.1)
  }

  /** All turns: the lists and the number of turns begun. */
  function Play(c: Config, entries: seq<Entry>, turns: seq<Turn>): (seq<Entry>, nat)
    decreases |turns|
  {
    if turns == [] then (entries, 0)
    else
      var (next, goOn) := AfterTurn(c, entries, turns[0]);
      After(1, if goOn then Play(c, next, turns[1..]) else (next, 0))
  }

  /** `_build_output`: never empty before it is cut to the response length. */
  function Output(c: Config, entries: seq<Entry>): seq<Entry> {
    var some := if entries == [] then [Entry(0, 0, 0, 0.0)] else entries;
    some[..Min(c.responseLength, |some|)]
  }

  lemma PlayFrom(c: Config, entries: seq<Entry>, turns: seq<Turn>, k: nat)
    requires k < |turns|
    ensures var (next, goOn) := AfterTurn(c, entries, turns[k]);
            Play(c, entries, turns[k..]) == After(1, if goOn then Play(c, next, turns[k + 1..]) else (next, 0))
  {
    assert turns[k..][1..] == turns[k + 1..];
    hide AfterTurn;
  }

  lemma PlayEnds(c: Config, entries: seq<Entry>, turns: seq<Turn>)
    ensures Play(c, entries, turns[|turns|..]) == (entries, 0)
  {
  }

  lemma AfterAfter(a: nat, b: nat, rest: (seq<Entry>, nat))
    ensures After(a, After(b, rest)) == After(a + b, rest)
    ensures After(0, rest) == rest && After(a, (rest.0, 0)) == (rest.0, a)
  {
  }

  lemma ContentsLength(x: EchoInteraction)
    requires x.Valid()
    ensures |x.Contents()| == |x.responseIds|
  {
  }

  class EchoAgentLoop {
    const responseLength: nat
    const imEnd: int
    const newline: int

    function Settings(): Config {
      Config(responseLength, imEnd, newline)
    }

    constructor (responseLength: nat, imEnd: int, newline: int)
      ensures Settings() == Config(responseLength, imEnd, newline)
    {
      this.responseLength, this.imEnd, this.newline := responseLength, imEnd, newline;
    }

    method AppendTurnEnd(x: EchoInteraction)
      requires x.Valid()
      modifies x
      ensures x.Valid() && x.Contents() == WithTurnEnd(Settings(), old(x.Contents())) && x.numTurns == old(x.numTurns)
    {
      var n := |x.responseIds|;
      var tail := if n < 2 then x.responseIds else x.responseIds[n - 2..];
      assert Ids(x.Contents()) == x.responseIds;
      if tail == [imEnd, newline] {
        assert x.Contents() + [] == x.Contents();
        return;
      }
      var tokens := if tail != [] && tail[|tail| - 1] == imEnd then [newline] else [imEnd, newline];
      x.AppendObservation(tokens, Repeat(0, |tokens|), 0, 0);
    }

    /** `_observation_spans` */
    method ObservationSpans(o: Observation) returns (warningEnd: nat, contentEnd: nat)
      ensures warningEnd == o.Start() && contentEnd == o.End()
    {
      var contentStart := CommonPrefixLength(o.empty, o.full);
      var suffix := CommonSuffixLength(o.empty, o.full, contentStart);
      contentEnd := |o.full| - suffix;
      if !o.hasWarning {
        return contentStart, contentEnd;
      }
      var warningStart := CommonPrefixLength(o.empty, o.warning);
      suffix := CommonSuffixLength(o.empty, o.warning, warningStart);
      warningEnd := |o.warning| - suffix;
    }

    /** `_append_observation`; an exception ends the loop over the turns like a result that says so. */
    method AppendObservation(x: EchoInteraction, o: Observation, raised: bool) returns (goOn: bool)
      requires x.Valid()
      modifies x
      ensures x.Valid() && x.numTurns == old(x.numTurns)
      ensures (x.Contents(), goOn) == WithObservation(Settings(), old(x.Contents()), o, raised)
    {
      hide WithTurnEnd, DiffStart, DiffEnd, Observed, Observation.Valid;
      AppendTurnEnd(x);
      var available := responseLength - |x.responseIds|;
      if available <= 0 || raised {
        return false;
      }
      var warningEnd, contentEnd := ObservationSpans(o);
      var aux := new int[|o.tokens|](_ => 0);
      var index := warningEnd;
      while index < contentEnd
        invariant forall t :: 0 <= t < aux.Length ==> aux[t] == if warningEnd <= t < index then 1 else 0
        invariant index <= contentEnd || index == warningEnd
        invariant index == warningEnd || index <= aux.Length
        modifies aux
      {
        if index >= aux.Length {
          return false;
        }
        aux[index] := 1;
        index := index + 1;
      }
      var n := Min(available, |o.tokens|);
      x.AppendObservation(o.tokens[..n], aux[..n], warningEnd, contentEnd);
      goOn := |o.tokens| <= available;
    }

    /** The part of a turn that the model answers. */
    method AppendAnswer(x: EchoInteraction, turn: Turn, maxTokens: nat)
      requires x.Valid() && maxTokens == Min(MAX_TOKENS_PER_GENERATION, responseLength - |x.responseIds|)
      modifies x
      ensures x.Valid() && x.Contents() == WithAnswer(Settings(), old(x.Contents()), turn) && x.numTurns == old(x.numTurns)
    {
      var ids := turn.generated[..Min(|turn.generated|, maxTokens)];
      var logprobs := turn.logprobs[..Min(|turn.logprobs|, |ids|)];
      logprobs := logprobs + Repeat(0.0, |ids| - |logprobs|);
      assert logprobs == Padded(turn.logprobs, |ids|);
      x.AppendAssistant(ids, logprobs);
    }

    /** The body of the loop over the turns. */
    method RunTurn(x: EchoInteraction, turn: Turn) returns (goOn: bool)
      requires x.Valid()
      modifies x
      ensures x.Valid() && x.numTurns == old(x.numTurns)
      ensures (x.Contents(), goOn) == AfterTurn(Settings(), old(x.Contents()), turn)
    {
      ContentsLength(x);
      hide WithAnswer, WithObservation, EchoInteraction.Contents, EchoInteraction.Valid;
      var maxTokens := Min(MAX_TOKENS_PER_GENERATION, responseLength - |x.responseIds|);
      if maxTokens <= 0 || turn.cut.BeforeAnswer? {
        return false;
      }
      AppendAnswer(x, turn, maxTokens);
      if turn.done || turn.cut.AfterAnswer? {
        return false;
      }
      goOn := AppendObservation(x, turn.observation, turn.cut.AfterTurnEnd?);
    }

    /** `_run_turns`, for what the model and the environment answer in each turn. */
    method RunTurns(x: EchoInteraction, turns: seq<Turn>)
      requires x.Valid() && x.numTurns == 0
      modifies x
      ensures x.Valid() && (x.Contents(), x.numTurns) == Play(Settings(), old(x.Contents()), turns)
    {
      hide *;
      ghost var c, before := Settings(), x.Contents();
      var turn, goOn := 0, true;
      assert turns[0..] == turns;
      AfterAfter(0, 0, Play(c, before, turns));
      while turn < |turns| && goOn
        invariant x.Valid() && turn <= |turns| && x.numTurns == turn
        invariant Play(c, before, turns) == After(turn, if goOn then Play(c, x.Contents(), turns[turn..]) else (x.Contents(), 0))
      {
        PlayFrom(c, x.Contents(), turns, turn);
        x.numTurns := turn + 1;
        goOn := RunTurn(x, turns[turn]);
        turn := turn + 1;
        AfterAfter(turn - 1, 1, if goOn then Play(c, x.Contents(), turns[turn..]) else (x.Contents(), 0));
      }
      AfterAfter(turn, 0, (x.Contents(), 0));
      PlayEnds(c, x.Contents(), turns);
    }

    method BuildOutput(x: EchoInteraction) returns (output: EchoInteraction)
      requires x.Valid()
      modifies x
      ensures fresh(output) && output.Valid() && output.Contents() == Output(Settings(), old(x.Contents()))
    {
      if x.responseIds == [] {
        x.responseIds, x.responseMask, x.auxMask, x.logprobs := [0], [0], [0], [0.0];
      }
      var n := Min(responseLength, |x.responseIds|);
      output := new EchoInteraction();
      output.responseIds, output.responseMask := x.responseIds[..n], x.responseMask[..n];
      output.auxMask, output.logprobs := x.auxMask[..n], x.logprobs[..n];
    }
  }

  // ---------------------------------------------------------------- what every run keeps

  /** Policy tokens are never auxiliary targets, and only they carry a log-probability. */
  ghost predicate Sound(entries: seq<Entry>) {
    forall t :: 0 <= t < |entries| ==>
                  && entries[t].mask in {0, 1} && entries[t].aux in {0, 1}
                  && (entries[t].aux == 1 ==> entries[t].mask == 0)
                  && (entries[t].mask == 0 ==> entries[t].logprob == 0.0)
  }

  /** The lists only ever grow, stay sound, and exceed the response length at most by the two tokens that end a turn. */
  ghost predicate Extends(c: Config, before: seq<Entry>, after: seq<Entry>) {
    && before <= after && (Sound(before) ==> Sound(after))
    && |after| <= if |before| <= c.responseLength then c.responseLength + 2 else |before| + 2
  }

  lemma ObservationExtends(c: Config, entries: seq<Entry>, o: Observation, raised: bool)
    ensures Extends(c, entries, WithObservation(c, entries, o, raised).0)
    ensures WithObservation(c, entries, o, raised).1 ==> |WithObservation(c, entries, o, raised).0| <= c.responseLength
  {
    var ended := WithTurnEnd(c, entries);
    assert Extends(c, entries, ended);
  }

  lemma AnswerExtends(c: Config, entries: seq<Entry>, turn: Turn)
    ensures Extends(c, entries, WithAnswer(c, entries, turn))
    ensures |entries| <= c.responseLength ==> |WithAnswer(c, entries, turn)| <= c.responseLength
  {
  }

  lemma {:induction false} PlayExtends(c: Config, entries: seq<Entry>, turns: seq<Turn>)
    requires |entries| <= c.responseLength
    ensures Extends(c, entries, Play(c, entries, turns).0)
    decreases |turns|
  {
    if turns != [] {
      TurnExtends(c, entries, turns[0]);
      var (next, goOn) := AfterTurn(c, entries, turns[0]);
      hide Sound, AfterTurn;
      if goOn {
        PlayExtends(c, next, turns[1..]);
      }
    }
  }

  lemma TurnExtends(c: Config, entries: seq<Entry>, turn: Turn)
    requires |entries| <= c.responseLength
    ensures Extends(c, entries, AfterTurn(c, entries, turn).0)
    ensures AfterTurn(c, entries, turn).1 ==> |AfterTurn(c, entries, turn).0| <= c.responseLength
  {
    var answered := WithAnswer(c, entries, turn);
    AnswerExtends(c, entries, turn);
    ObservationExtends(c, answered, turn.observation, turn.cut.AfterTurnEnd?);
    hide Sound, WithAnswer, WithObservation;
  }

  /** What is handed to the trainer: sound, not empty unless the response length is zero, and cut from what was produced. */
  lemma OutputIsSound(c: Config, turns: seq<Turn>)
    ensures var all := Play(c, [], turns).0;
            var output := Output(c, all);
            && Sound(output) && |output| <= c.responseLength && (c.responseLength > 0 ==> output != [])
            && (all != [] ==> output == all[..Min(c.responseLength, |all|)])
            && (all == [] && c.responseLength > 0 ==> output == [Entry(0, 0, 0, 0.0)])
  {
    PlayExtends(c, [], turns);
  }

  /** Before an observation the turn is closed by its two end tokens, and closing it again changes nothing. */
  lemma TurnIsEnded(c: Config, entries: seq<Entry>)
    ensures var ids := Ids(WithTurnEnd(c, entries));
            2 <= |ids| && ids[|ids| - 2..] == [c.imEnd, c.newline]
    ensures WithTurnEnd(c, WithTurnEnd(c, entries)) == WithTurnEnd(c, entries)
  {
    var ids := Ids(entries);
    assert Ids(WithTurnEnd(c, entries)) == ids + TurnEndTokens(c, ids);
    EndedIds(c, ids);
    hide TurnEndTokens;
    assert Observed([], 0, 0) == [];
  }

  lemma EndedIds(c: Config, ids: seq<int>)
    ensures var ended := ids + TurnEndTokens(c, ids);
            2 <= |ended| && ended[|ended| - 2..] == [c.imEnd, c.newline] && TurnEndTokens(c, ended) == []
  {
    var ended := ids + TurnEndTokens(c, ids);
    var n := |ended|;
    assert ended[n - 2] == c.imEnd && ended[n - 1] == c.newline;
  }

  // ---------------------------------------------------------------- what is trained on

  /** The tokens of the policy, and the auxiliary targets, in order. */
  function Policy(entries: seq<Entry>): seq<int> {
    if entries == [] then []
    else
      var n := |entries| - 1;
      Policy(entries[..n]) + if entries[n].mask == 1 then [entries[n].id] else []
  }

  function Targets(entries: seq<Entry>): seq<int> {
    if entries == [] then []
    else
      var n := |entries| - 1;
      Targets(entries[..n]) + if entries[n].aux == 1 then [entries[n].id] else []
  }

  lemma {:induction false} SelectedAppend(a: seq<Entry>, b: seq<Entry>)
    ensures Policy(a + b) == Policy(a) + Policy(b) && Targets(a + b) == Targets(a) + Targets(b)
  {
    if b == [] {
      assert a + b == a;
    } else {
      var n := |b| - 1;
      assert (a + b)[..|a + b| - 1] == a + b[..n];
      SelectedAppend(a, b[..n]);
    }
  }

  lemma {:induction false} SelectedAssistant(ids: seq<int>, logprobs: seq<real>)
    requires |ids| == |logprobs|
    ensures Policy(Assistant(ids, logprobs)) == ids && Targets(Assistant(ids, logprobs)) == []
  {
    if ids != [] {
      var n := |ids| - 1;
      assert Assistant(ids, logprobs)[..n] == Assistant(ids[..n], logprobs[..n]);
      SelectedAssistant(ids[..n], logprobs[..n]);
    }
  }

  /** The part of a list between two positions, as far as it reaches. */
  function Part(ids: seq<int>, start: nat, end: nat): seq<int> {
    var stop := Min(end, |ids|);
    if start < stop then ids[start..stop] else []
  }

  lemma {:induction false} SelectedObserved(ids: seq<int>, start: nat, end: nat)
    ensures Policy(Observed(ids, start, end)) == [] && Targets(Observed(ids, start, end)) == Part(ids, start, end)
  {
    if ids != [] {
      var n := |ids| - 1;
      assert Observed(ids, start, end)[..n] == Observed(ids[..n], start, end);
      SelectedObserved(ids[..n], start, end);
      assert ids == ids[..n] + [ids[n]];
      hide Part;
      PartMore(ids[..n], ids[n], start, end);
    } else {
      NoPart(start, end);
    }
  }

  lemma NoPart(start: nat, end: nat)
    ensures Part([], start, end) == []
  {
  }

  lemma PartMore(ids: seq<int>, x: int, start: nat, end: nat)
    ensures Part(ids + [x], start, end) == Part(ids, start, end) + if start <= |ids| < end then [x] else []
  {
    var more, n := ids + [x], |ids|;
    if start <= n < end {
      assert more[start..n + 1] == ids[start..n] + [x];
    } else if start < end <= n {
      assert more[start..end] == ids[start..end];
    }
  }

  /** An answer adds to the policy's tokens exactly those generated, as far as there is room, and no target. */
  lemma AnswerIsPolicy(c: Config, entries: seq<Entry>, turn: Turn)
    requires |entries| <= c.responseLength
    ensures var n := Min(|turn.generated|, Min(MAX_TOKENS_PER_GENERATION, c.responseLength - |entries|));
            && Policy(WithAnswer(c, entries, turn)) == Policy(entries) + turn.generated[..n]
            && Targets(WithAnswer(c, entries, turn)) == Targets(entries)
  {
    var n := Min(|turn.generated|, Min(MAX_TOKENS_PER_GENERATION, c.responseLength - |entries|));
    SelectedAppend(entries, Assistant(turn.generated[..n], Padded(turn.logprobs, n)));
    SelectedAssistant(turn.generated[..n], Padded(turn.logprobs, n));
    hide Policy, Targets;
  }

  /**
   An observation adds to the targets exactly its marked tokens, as far as there is room, and no policy token; nothing when
   rendering or marking it raises.
   */
  lemma ObservationIsTarget(c: Config, entries: seq<Entry>, o: Observation, raised: bool)
    ensures var (after, _) := WithObservation(c, entries, o, raised);
            var available := c.responseLength - |WithTurnEnd(c, entries)|;
            && Policy(after) == Policy(entries)
            && Targets(after) == Targets(entries) + if available <= 0 || raised || !o.Markable() then []
                                                    else Part(o.tokens, o.Start(), Min(o.End(), available))
  {
    hide *;
    var ended := WithTurnEnd(c, entries);
    var available := c.responseLength - |ended|;
    TurnEndIsTemplate(c, entries);
    ObservationIs(c, entries, o, raised);
    if available > 0 && !raised && o.Markable() {
      var cut := o.tokens[..Min(available, |o.tokens|)];
      SelectedAppend(ended, Observed(cut, o.Start(), o.End()));
      SelectedObserved(cut, o.Start(), o.End());
      PartOfCut(o.tokens, o.Start(), o.End(), available);
      assert Policy(ended) + [] == Policy(ended);
    } else {
      assert Targets(entries) + [] == Targets(entries);
    }
  }

  lemma TurnEndIsTemplate(c: Config, entries: seq<Entry>)
    ensures Policy(WithTurnEnd(c, entries)) == Policy(entries) && Targets(WithTurnEnd(c, entries)) == Targets(entries)
  {
    var end := TurnEndTokens(c, Ids(entries));
    SelectedAppend(entries, Observed(end, 0, 0));
    SelectedObserved(end, 0, 0);
    hide Policy, Targets, TurnEndTokens, Observed;
  }

  lemma ObservationIs(c: Config, entries: seq<Entry>, o: Observation, raised: bool)
    ensures var ended := WithTurnEnd(c, entries);
            var available := c.responseLength - |ended|;
            && (available > 0 ==> 0 <= Min(available, |o.tokens|) <= |o.tokens|)
            && WithObservation(c, entries, o, raised).0
               == if available <= 0 || raised || !o.Markable() then ended
                  else ended + Observed(o.tokens[..Min(available, |o.tokens|)], o.Start(), o.End())
  {
    hide Observed, WithTurnEnd, DiffStart, DiffEnd;
  }

  lemma PartOfCut(ids: seq<int>, start: nat, end: nat, available: nat)
    ensures 0 <= Min(available, |ids|) <= |ids| && 0 <= Min(end, available)
    ensures Part(ids[..Min(available, |ids|)], start, end) == Part(ids, start, Min(end, available))
  {
    var m := Min(available, |ids|);
    var stop := Min(end, m);
    if start < stop {
      assert ids[..m][start..stop] == ids[start..stop];
    }
  }
}
