/**
 Whole runs of the ECHO loop against a transcript that knows nothing of room: which turn is the last, and what the lists
 hold then.
 */
module EchoRuns {
  import opened Arithmetic
  import opened Echo

  // ---------------------------------------------------------------- the transcript

  /** An answer's tokens, at most 2048 of them, with their log-probabilities, zero where none was given. */
  function Answer(turn: Turn): seq<Entry> {
    seq(Min(|turn.generated|, 2048), t requires 0 <= t < |turn.generated| =>
      Entry(turn.generated[t], 1, 0, if t < |turn.logprobs| then turn.logprobs[t] else 0.0))
  }

  function Template(ids: seq<int>): (s: seq<Entry>)
    ensures |s| == |ids|
  {
    seq(|ids|, t requires 0 <= t < |ids| => Entry(ids[t], 0, 0, 0.0))
  }

  /** The observation's tokens, marked where its span says. */
  function Shown(o: Observation): (s: seq<Entry>)
    ensures |s| == |o.tokens|
  {
    seq(|o.tokens|, t requires 0 <= t < |o.tokens| => Entry(o.tokens[t], 0, if o.Start() <= t < o.End() then 1 else 0, 0.0))
  }

  function Answered(before: seq<Entry>, turn: Turn): seq<Entry> {
    before + Answer(turn)
  }

  function Ended(c: Config, before: seq<Entry>, turn: Turn): seq<Entry> {
    var answered := Answered(before, turn);
    answered + Template(TurnEndTokens(c, Ids(answered)))
  }

  function Complete(c: Config, before: seq<Entry>, turn: Turn): seq<Entry> {
    Ended(c, before, turn) + Shown(turn.observation)
  }

  /** All turns completely, one after the other. */
  function Transcript(c: Config, turns: seq<Turn>): seq<Entry> {
    if turns == [] then [] else Complete(c, Transcript(c, turns[..|turns| - 1]), turns[|turns| - 1])
  }

  /** Every position that is to be marked is one of the observation's tokens. */
  ghost predicate Exists(o: Observation) {
    forall t: nat :: InSpan(o, t) ==> t < |o.tokens|
  }

  predicate InSpan(o: Observation, t: nat) {
    o.Start() <= t < o.End()
  }

  lemma ExistsIsMarkable(o: Observation)
    ensures Exists(o) <==> o.Markable()
  {
    hide Observation.Start, Observation.End;
    if o.Start() < o.End() {
      assert InSpan(o, o.End() - 1);
    }
  }

  /** The turn is not the last: it goes through, there is room behind its end, and its observation fits. */
  ghost predicate Continues(c: Config, before: seq<Entry>, turn: Turn) {
    && turn.cut.Whole? && !turn.done && Exists(turn.observation)
    && |Ended(c, before, turn)| < c.responseLength && |Complete(c, before, turn)| <= c.responseLength
  }

  /** How far a turn that is the last one gets, if it is not for lack of room. */
  ghost function Reached(c: Config, before: seq<Entry>, turn: Turn): seq<Entry> {
    if turn.cut.BeforeAnswer? then before
    else if turn.done || turn.cut.AfterAnswer? then Answered(before, turn)
    else if turn.cut.AfterTurnEnd? || !Exists(turn.observation) then Ended(c, before, turn)
    else Complete(c, before, turn)
  }

  function First(n: nat, s: seq<Entry>): seq<Entry> {
    s[..Min(n, |s|)]
  }

  // ---------------------------------------------------------------- one turn

  lemma AnswerFits(c: Config, before: seq<Entry>, turn: Turn)
    requires |before| < c.responseLength
    ensures WithAnswer(c, before, turn) == First(c.responseLength, Answered(before, turn))
  {
    var room := c.responseLength - |before|;
    var n := Min(|turn.generated|, Min(MAX_TOKENS_PER_GENERATION, room));
    assert WithAnswer(c, before, turn) == before + Assistant(turn.generated[..n], Padded(turn.logprobs, n));
  }

  lemma TemplateIs(ids: seq<int>)
    ensures Observed(ids, 0, 0) == Template(ids)
  {
  }

  lemma ShownIs(o: Observation, n: nat)
    requires n <= |o.tokens|
    ensures Observed(o.tokens[..n], o.Start(), o.End()) == Shown(o)[..n]
  {
    hide Observation.Start, Observation.End;
  }

  lemma FirstOf(n: nat, s: seq<Entry>, t: seq<Entry>)
    ensures n <= |s| ==> First(n, s + t) == First(n, s) && First(n, First(n, s) + t) == First(n, s)
    ensures |s| <= n ==> First(n, s) == s
    ensures |First(n, s)| == Min(n, |s|) && First(n, First(n, s)) == First(n, s)
  {
  }

  /** An observation after an answer that fits with its turn end before the limit. */
  lemma ObservationFits(c: Config, before: seq<Entry>, turn: Turn, raised: bool)
    requires |Ended(c, before, turn)| < c.responseLength
    ensures var o, ended, complete := turn.observation, Ended(c, before, turn), Complete(c, before, turn);
            WithObservation(c, Answered(before, turn), o, raised)
            == if raised || !Exists(o) then (ended, false)
               else (First(c.responseLength, complete), |complete| <= c.responseLength)
  {
    hide Observation.Start, Observation.End, Observation.Markable, Exists, TurnEndTokens, Observed, Template, Shown, Answer;
    var answered, o := Answered(before, turn), turn.observation;
    ExistsIsMarkable(o);
    var ended := Ended(c, before, turn);
    TemplateIs(TurnEndTokens(c, Ids(answered)));
    var available := c.responseLength - |ended|;
    var n := Min(available, |o.tokens|);
    ShownIs(o, n);
    assert (ended + Shown(o))[..|ended| + n] == ended + Shown(o)[..n];
  }

  lemma NoRoom(c: Config, before: seq<Entry>, o: Observation, raised: bool)
    requires |WithTurnEnd(c, before)| >= c.responseLength
    ensures WithObservation(c, before, o, raised) == (WithTurnEnd(c, before), false)
  {
    hide WithTurnEnd, Observation.Markable, Exists;
  }

  /** Another turn follows exactly if this one continues, and then it is complete; otherwise it is so as far as there is room. */
  lemma TurnPlays(c: Config, before: seq<Entry>, turn: Turn)
    requires |before| <= c.responseLength
    ensures var (after, goOn) := AfterTurn(c, before, turn);
            && (goOn <==> Continues(c, before, turn))
            && (goOn ==> after == Complete(c, before, turn))
            && First(c.responseLength, after) == First(c.responseLength, Reached(c, before, turn))
  {
    hide Observation.Markable, Exists, TurnEndTokens, Observed, Template, Shown, Answer, WithAnswer, WithObservation, First;
    var R, answered, ended := c.responseLength, Answered(before, turn), Ended(c, before, turn);
    var template := Template(TurnEndTokens(c, Ids(answered)));
    FirstOf(R, before, Answer(turn));
    FirstOf(R, answered, template);
    FirstOf(R, ended, Shown(turn.observation));
    if |before| == R {
      FirstOf(R, before, Answer(turn) + template);
      FirstOf(R, before, Answer(turn) + template + Shown(turn.observation));
      assert ended == before + (Answer(turn) + template);
      assert Complete(c, before, turn) == before + (Answer(turn) + template + Shown(turn.observation));
    } else {
      AnswerFits(c, before, turn);
      if |answered| > R {
        LongAnswer(c, before, turn);
      } else if |ended| >= R {
        LongTurnEnd(c, before, turn);
      } else {
        ObservationFits(c, before, turn, turn.cut.AfterTurnEnd?);
        FirstOf(R, Complete(c, before, turn), []);
      }
    }
  }

  lemma LongAnswer(c: Config, before: seq<Entry>, turn: Turn)
    requires |before| < c.responseLength < |Answered(before, turn)|
    ensures var (after, goOn) := AfterTurn(c, before, turn);
            !goOn && First(c.responseLength, after) == First(c.responseLength, Reached(c, before, turn))
    ensures !Continues(c, before, turn)
  {
    hide Observation.Markable, Exists, TurnEndTokens, Observed, Template, Shown, Answer, WithAnswer, WithObservation, First;
    var R, answered := c.responseLength, Answered(before, turn);
    AnswerFits(c, before, turn);
    var kept := First(R, answered);
    var template := Template(TurnEndTokens(c, Ids(answered)));
    FirstOf(R, answered, template);
    FirstOf(R, answered, template + Shown(turn.observation));
    assert Complete(c, before, turn) == answered + (template + Shown(turn.observation));
    FirstOf(R, answered, Observed(TurnEndTokens(c, Ids(kept)), 0, 0));
    NoRoom(c, kept, turn.observation, turn.cut.AfterTurnEnd?);
  }

  lemma LongTurnEnd(c: Config, before: seq<Entry>, turn: Turn)
    requires |before| < c.responseLength && |Answered(before, turn)| <= c.responseLength <= |Ended(c, before, turn)|
    ensures var (after, goOn) := AfterTurn(c, before, turn);
            !goOn && First(c.responseLength, after) == First(c.responseLength, Reached(c, before, turn))
    ensures !Continues(c, before, turn)
  {
    hide Observation.Markable, Exists, TurnEndTokens, Observed, Template, Shown, Answer, WithAnswer, WithObservation, First;
    var R, answered := c.responseLength, Answered(before, turn);
    AnswerFits(c, before, turn);
    FirstOf(R, answered, []);
    TemplateIs(TurnEndTokens(c, Ids(answered)));
    assert WithTurnEnd(c, answered) == Ended(c, before, turn);
    NoRoom(c, answered, turn.observation, turn.cut.AfterTurnEnd?);
    FirstOf(R, Ended(c, before, turn), Shown(turn.observation));
  }

  // ---------------------------------------------------------------- runs

  lemma TranscriptNext(c: Config, turns: seq<Turn>, k: nat)
    requires k < |turns|
    ensures Transcript(c, turns[..k + 1]) == Complete(c, Transcript(c, turns[..k]), turns[k])
  {
    assert turns[..k + 1][..k] == turns[..k];
    hide Complete;
  }

  /** From turn `k` on, when the turns before it continued. */
  lemma {:induction false} PlaysFrom(c: Config, turns: seq<Turn>, k: nat)
    requires k <= |turns| && |Transcript(c, turns[..k])| <= c.responseLength
    ensures var (all, m) := Play(c, Transcript(c, turns[..k]), turns[k..]);
            && k + m <= |turns| && (k < |turns| ==> 1 <= m)
            && (forall j :: k <= j < k + m - 1 ==> Continues(c, Transcript(c, turns[..j]), turns[j]))
            && (k + m < |turns| ==> !Continues(c, Transcript(c, turns[..k + m - 1]), turns[k + m - 1]))
            && (1 <= m ==> First(c.responseLength, all)
                           == First(c.responseLength, Reached(c, Transcript(c, turns[..k + m - 1]), turns[k + m - 1])))
            && ((forall j :: k <= j < |turns| ==> Continues(c, Transcript(c, turns[..j]), turns[j])) ==>
                  k + m == |turns| && all == Transcript(c, turns))
    decreases |turns| - k
  {
    hide *;
    var before := Transcript(c, turns[..k]);
    if k == |turns| {
      PlayEnds(c, before, turns);
      assert turns[..k] == turns;
    } else {
      PlayFrom(c, before, turns, k);
      TurnPlays(c, before, turns[k]);
      TranscriptNext(c, turns, k);
      var (next, goOn) := AfterTurn(c, before, turns[k]);
      if goOn {
        ContinuesFits(c, before, turns[k]);
        PlaysFrom(c, turns, k + 1);
        AfterIs(1, Play(c, next, turns[k + 1..]));
        if k + 1 == |turns| {
          PlayEnds(c, next, turns);
          FirstOf(c.responseLength, next, []);
        }
      } else {
        AfterIs(1, (next, 0));
      }
    }
  }

  lemma ContinuesFits(c: Config, before: seq<Entry>, turn: Turn)
    requires Continues(c, before, turn)
    ensures |Complete(c, before, turn)| <= c.responseLength
    ensures Reached(c, before, turn) == Complete(c, before, turn)
  {
    hide Complete, Ended, Observation.Markable, Exists;
  }

  lemma AfterIs(turns: nat, rest: (seq<Entry>, nat))
    ensures After(turns, rest) == (rest.0, turns + rest.1)
  {
  }

  lemma TranscriptOfNone(c: Config)
    ensures Transcript(c, []) == []
  {
  }

  /**
   The next given turn begins exactly while every turn so far continues, so the last one is the first that does not, or the
   last given. Then the lists hold the transcript of the turns before it and that turn as far as it got, up to the response
   length; if all given turns continue, the transcript of all of them.
   */
  lemma RunIsTranscript(c: Config, turns: seq<Turn>)
    ensures var (all, n) := Play(c, [], turns);
            && n <= |turns| && (turns != [] ==> 1 <= n)
            && (forall k :: 0 <= k < n - 1 ==> Continues(c, Transcript(c, turns[..k]), turns[k]))
            && (n < |turns| ==> !Continues(c, Transcript(c, turns[..n - 1]), turns[n - 1]))
            && (1 <= n ==> First(c.responseLength, all)
                           == First(c.responseLength, Reached(c, Transcript(c, turns[..n - 1]), turns[n - 1])))
            && ((forall k :: 0 <= k < |turns| ==> Continues(c, Transcript(c, turns[..k]), turns[k])) ==>
                  n == |turns| && all == Transcript(c, turns))
  {
    hide *;
    assert turns[..0] == [] && turns[0..] == turns;
    TranscriptOfNone(c);
    PlaysFrom(c, turns, 0);
  }

  // ---------------------------------------------------------------- what the transcript holds

  /** The answers, missing turn ends and observation tokens of all turns in order. */
  function Spoken(c: Config, turns: seq<Turn>): seq<int> {
    if turns == [] then []
    else
      var turn := turns[|turns| - 1];
      var answered := Spoken(c, turns[..|turns| - 1]) + turn.generated[..Min(|turn.generated|, 2048)];
      answered + TurnEndTokens(c, answered) + turn.observation.tokens
  }

  /** The generated tokens of all turns with their log-probabilities. */
  function Generated(turns: seq<Turn>): seq<(int, real)> {
    if turns == [] then [] else Generated(turns[..|turns| - 1]) + WithLogprobs(turns[|turns| - 1])
  }

  function WithLogprobs(turn: Turn): seq<(int, real)> {
    seq(Min(|turn.generated|, 2048), t requires 0 <= t < |turn.generated| =>
      (turn.generated[t], if t < |turn.logprobs| then turn.logprobs[t] else 0.0))
  }

  /** The marked observation tokens of all turns. */
  function Marked(turns: seq<Turn>): seq<int> {
    if turns == [] then []
    else
      var o := turns[|turns| - 1].observation;
      Marked(turns[..|turns| - 1]) + Part(o.tokens, o.Start(), o.End())
  }

  /** What the policy is trained on: its tokens with the log-probabilities beside them. */
  function Trained(entries: seq<Entry>): seq<(int, real)> {
    if entries == [] then []
    else
      var n := |entries| - 1;
      Trained(entries[..n]) + if entries[n].mask == 1 then [(entries[n].id, entries[n].logprob)] else []
  }

  lemma {:induction false} TrainedAppend(a: seq<Entry>, b: seq<Entry>)
    ensures Trained(a + b) == Trained(a) + Trained(b)
  {
    if b == [] {
      assert a + b == a;
    } else {
      var n := |b| - 1;
      assert (a + b)[..|a + b| - 1] == a + b[..n];
      TrainedAppend(a, b[..n]);
    }
  }

  lemma {:induction false} TrainedAll(entries: seq<Entry>, pairs: seq<(int, real)>)
    requires |pairs| == |entries|
    requires forall t :: 0 <= t < |entries| ==> entries[t].mask == 1 && pairs[t] == (entries[t].id, entries[t].logprob)
    ensures Trained(entries) == pairs
  {
    if entries != [] {
      var n := |entries| - 1;
      TrainedAll(entries[..n], pairs[..n]);
      assert pairs == pairs[..n] + [pairs[n]];
    }
  }

  lemma {:induction false} TrainedNone(entries: seq<Entry>)
    requires forall t :: 0 <= t < |entries| ==> entries[t].mask == 0
    ensures Trained(entries) == []
  {
    if entries != [] {
      TrainedNone(entries[..|entries| - 1]);
    }
  }

  lemma IdsAppend(a: seq<Entry>, b: seq<Entry>)
    ensures Ids(a + b) == Ids(a) + Ids(b)
  {
  }

  lemma PartsOfTurn(turn: Turn, end: seq<int>)
    ensures Ids(Answer(turn)) == turn.generated[..Min(|turn.generated|, 2048)]
    ensures Ids(Template(end)) == end && Ids(Shown(turn.observation)) == turn.observation.tokens
  {
    hide Observation.Start, Observation.End;
  }

  lemma SelectedOfTurn(turn: Turn, end: seq<int>)
    ensures Trained(Answer(turn)) == WithLogprobs(turn) && Targets(Answer(turn)) == []
    ensures Trained(Template(end)) == [] && Targets(Template(end)) == []
    ensures var o := turn.observation;
            Trained(Shown(o)) == [] && Targets(Shown(o)) == Part(o.tokens, o.Start(), o.End())
  {
    hide Observation.Start, Observation.End, Trained, Targets, Part;
    var o := turn.observation;
    TrainedAll(Answer(turn), WithLogprobs(turn));
    TrainedNone(Template(end));
    TrainedNone(Shown(o));
    var n := Min(|turn.generated|, 2048);
    var ids := turn.generated[..n];
    assert Answer(turn) == Assistant(ids, Padded(turn.logprobs, n));
    SelectedAssistant(ids, Padded(turn.logprobs, n));
    TemplateIs(end);
    SelectedObserved(end, 0, 0);
    NothingBetween(end);
    ShownIs(o, |o.tokens|);
    assert o.tokens[..|o.tokens|] == o.tokens && Shown(o)[..|o.tokens|] == Shown(o);
    SelectedObserved(o.tokens, o.Start(), o.End());
  }

  lemma NothingBetween(ids: seq<int>)
    ensures Part(ids, 0, 0) == []
  {
  }

  /**
   The transcript's ids are the answers, turn ends and observations in order; its policy tokens are what was generated, each
   with its log-probability; its auxiliary targets are the marked tokens of the observations.
   */
  lemma {:induction false} TranscriptHolds(c: Config, turns: seq<Turn>)
    ensures Ids(Transcript(c, turns)) == Spoken(c, turns)
    ensures Trained(Transcript(c, turns)) == Generated(turns) && Targets(Transcript(c, turns)) == Marked(turns)
  {
    hide *;
    if turns == [] {
      TranscriptOfNone(c);
      NothingHeld(c);
    } else {
      var init, turn := turns[..|turns| - 1], turns[|turns| - 1];
      var before := Transcript(c, init);
      TranscriptHolds(c, init);
      var answered := Answered(before, turn);
      LastTurn(c, turns);
      CompleteIs(c, before, turn);
      IdsAppend(before, Answer(turn));
      var end := TurnEndTokens(c, Ids(answered));
      PartsOfTurn(turn, end);
      SelectedOfTurn(turn, end);
      IdsAppend(answered, Template(end));
      IdsAppend(answered + Template(end), Shown(turn.observation));
      TrainedAppend(before, Answer(turn));
      TrainedAppend(answered, Template(end));
      TrainedAppend(answered + Template(end), Shown(turn.observation));
      SelectedAppend(before, Answer(turn));
      SelectedAppend(answered, Template(end));
      SelectedAppend(answered + Template(end), Shown(turn.observation));
    }
  }

  lemma NothingHeld(c: Config)
    ensures Ids([]) == [] && Trained([]) == [] && Targets([]) == []
    ensures Spoken(c, []) == [] && Generated([]) == [] && Marked([]) == []
  {
  }

  lemma CompleteIs(c: Config, before: seq<Entry>, turn: Turn)
    ensures var answered := Answered(before, turn);
            && answered == before + Answer(turn)
            && Complete(c, before, turn) == answered + Template(TurnEndTokens(c, Ids(answered))) + Shown(turn.observation)
  {
    hide Answer, Template, Shown, TurnEndTokens, Ids;
  }

  lemma LastTurn(c: Config, turns: seq<Turn>)
    requires turns != []
    ensures var init, turn := turns[..|turns| - 1], turns[|turns| - 1];
            var answered := Spoken(c, init) + turn.generated[..Min(|turn.generated|, 2048)];
            && Transcript(c, turns) == Complete(c, Transcript(c, init), turn)
            && Spoken(c, turns) == answered + TurnEndTokens(c, answered) + turn.observation.tokens
            && Generated(turns) == Generated(init) + WithLogprobs(turn)
            && Marked(turns) == Marked(init) + Part(turn.observation.tokens, turn.observation.Start(), turn.observation.End())
  {
    hide Complete, TurnEndTokens, Part, WithLogprobs, Observation.Start, Observation.End;
  }

  /** While all turns continue: exactly what was said, generated and marked, in order, and as many turns as were given. */
  lemma RunOfContinuingTurns(c: Config, turns: seq<Turn>)
    requires forall k :: 0 <= k < |turns| ==> Continues(c, Transcript(c, turns[..k]), turns[k])
    ensures var (all, n) := Play(c, [], turns);
            n == |turns| && Ids(all) == Spoken(c, turns) && Trained(all) == Generated(turns) && Targets(all) == Marked(turns)
  {
    hide *;
    RunIsTranscript(c, turns);
    TranscriptHolds(c, turns);
  }

  /** In any run the policy's tokens and log-probabilities are a prefix of what the begun turns generated, all of it before the last. */
  lemma RunTrainsOnAnswers(c: Config, turns: seq<Turn>)
    ensures var (all, n) := Play(c, [], turns);
            && n <= |turns| && (turns != [] ==> 1 <= n)
            && Trained(First(c.responseLength, all)) <= Generated(turns[..n])
            && (1 <= n ==> Generated(turns[..n - 1]) <= Trained(First(c.responseLength, all)))
  {
    hide *;
    RunIsTranscript(c, turns);
    var (all, n) := Play(c, [], turns);
    if n >= 1 {
      var init, turn := turns[..n - 1], turns[n - 1];
      var before := Transcript(c, init);
      TranscriptHolds(c, init);
      ReachedTrains(c, before, turn);
      GeneratedNext(turns, n);
      BeforeFits(c, turns, n - 1);
      FirstTrains(c.responseLength, before, Reached(c, before, turn));
    } else {
      NothingPlayed(c, turns);
    }
  }

  lemma NothingPlayed(c: Config, turns: seq<Turn>)
    requires Play(c, [], turns).1 == 0
    ensures First(c.responseLength, Play(c, [], turns).0) == [] && Trained([]) == []
  {
    hide AfterTurn;
  }

  lemma GeneratedNext(turns: seq<Turn>, n: nat)
    requires 1 <= n <= |turns|
    ensures Generated(turns[..n]) == Generated(turns[..n - 1]) + WithLogprobs(turns[n - 1])
  {
    assert turns[..n][..n - 1] == turns[..n - 1];
    hide WithLogprobs;
  }

  lemma BeforeFits(c: Config, turns: seq<Turn>, k: nat)
    requires k <= |turns| && forall j :: 0 <= j < k ==> Continues(c, Transcript(c, turns[..j]), turns[j])
    ensures |Transcript(c, turns[..k])| <= c.responseLength
  {
    hide *;
    if k == 0 {
      assert turns[..0] == [];
      TranscriptOfNone(c);
    } else {
      TranscriptNext(c, turns, k - 1);
      ContinuesFits(c, Transcript(c, turns[..k - 1]), turns[k - 1]);
    }
  }

  lemma ReachedTrains(c: Config, before: seq<Entry>, turn: Turn)
    ensures before <= Reached(c, before, turn)
    ensures Trained(Reached(c, before, turn)) <= Trained(before) + WithLogprobs(turn)
  {
    hide Answer, Template, Shown, Trained, WithLogprobs, TurnEndTokens, Observation.Markable, Exists;
    var answered := Answered(before, turn);
    var end := TurnEndTokens(c, Ids(answered));
    SelectedOfTurn(turn, end);
    TrainedAppend(before, Answer(turn));
    TrainedAppend(answered, Template(end));
    TrainedAppend(answered + Template(end), Shown(turn.observation));
  }

  lemma FirstTrains(n: nat, before: seq<Entry>, all: seq<Entry>)
    requires before <= all && |before| <= n
    ensures Trained(before) <= Trained(First(n, all)) <= Trained(all)
  {
    hide Trained;
    var first := First(n, all);
    assert all == first + all[|first|..];
    TrainedAppend(first, all[|first|..]);
    assert first == before + first[|before|..];
    TrainedAppend(before, first[|before|..]);
  }

  // ---------------------------------------------------------------- the turn end

  /** What is appended at a turn's end is the shortest text that makes the turn end with its two tokens. */
  lemma TurnEndIsShortest(c: Config, ids: seq<int>, e: seq<int>)
    ensures var ended := ids + TurnEndTokens(c, ids);
            2 <= |ended| && ended[|ended| - 2] == c.imEnd && ended[|ended| - 1] == c.newline
    ensures (var other := ids + e;
             2 <= |other| && other[|other| - 2] == c.imEnd && other[|other| - 1] == c.newline) ==>
              |TurnEndTokens(c, ids)| <= |e|
  {
    EndedIds(c, ids);
    var other := ids + e;
    if e == [] && 2 <= |other| && other[|other| - 2] == c.imEnd && other[|other| - 1] == c.newline {
      assert ids == other && ids[|ids| - 2..] == [c.imEnd, c.newline];
    } else if |e| == 1 && 2 <= |other| && other[|other| - 2] == c.imEnd {
      assert other[|other| - 2] == ids[|ids| - 1];
    }
  }
}
