/**
 Whom the attempts of the finalize chain ask, over whole runs: what was recorded for the session when the attempt set out,
 else the server that the load balancer named for it, else all static ones; and that it is confirmed exactly when all of
 them acknowledge.
 */
module FinalizeTargets {
  import opened Finalize
  import opened FinalizeAccounting
  import opened LostServers

  /** The servers recorded for a session. */
  function RecordedFor(s: State, session: Session): set<Server> {
    if session in s.client.served then set x | x in s.client.served[session] else {}
  }

  /** Step `i` sent out an attempt of the call, and the call has done nothing since. */
  ghost predicate LastStep(events: seq<Event>, c: Call, i: nat) {
    && i < |events| && events[i].call == c
    && forall k :: i < k < |events| ==> events[k].call != c
  }

  /** An attempt set out at step `i`: at the end of the call's generation or at a retry. */
  predicate SetsOut(e: Event) {
    e.End? || e.Retry?
  }

  /** The attempt found nothing recorded and waits for the load balancer. */
  ghost predicate WaitsSince(pool: Pool, events: seq<Event>, c: Call, session: Session, i: nat)
    requires IsRun(pool, events)
  {
    && pool.balanced && LastStep(events, c, i) && SetsOut(events[i]) && RecordedFor(StateAt(pool, events, i), session) == {}
  }

  /** The attempt set out with these servers to ask. */
  ghost predicate AsksSince(pool: Pool, events: seq<Event>, c: Call, session: Session, targets: set<Server>, i: nat)
    requires IsRun(pool, events)
  {
    && LastStep(events, c, i)
    && if events[i].Reach? then
         && targets == {events[i].server}
         && exists j :: 0 <= j < i && WaitsBefore(pool, events, c, session, j, i)
       else
         var recorded := RecordedFor(StateAt(pool, events, i), session);
         && SetsOut(events[i])
         && if recorded != {} then targets == recorded else !pool.balanced && targets == pool.statics
  }

  ghost predicate WaitsBefore(pool: Pool, events: seq<Event>, c: Call, session: Session, j: nat, i: nat)
    requires IsRun(pool, events) && j < i <= |events|
  {
    PrefixIsRun(pool, events, i);
    WaitsSince(pool, events[..i], c, session, j)
  }

  /** What is known of a call by its phase. */
  ghost predicate Traced(pool: Pool, events: seq<Event>, c: Call, g: Generate)
    requires IsRun(pool, events)
  {
    g.phase.Untracked? ==>
      && (g.phase.stage.Routing? ==> exists i :: 0 <= i < |events| && WaitsSince(pool, events, c, g.session, i))
      && (g.phase.stage.Asking? ==>
            exists i :: 0 <= i < |events| && AsksSince(pool, events, c, g.session, g.phase.stage.targets, i))
  }

  // ---------------------------------------------------------------- steps

  /** Where one attempt goes. */
  lemma WhereItGoes(pool: Pool, s: State, session: Session, attempts: nat)
    ensures var recorded := RecordedFor(s, session);
            SetOut(pool, s.client, session, attempts)
            == if recorded != {} then Untracked(attempts, Asking(recorded))
               else if pool.balanced then Untracked(attempts, Routing)
               else Untracked(attempts, Asking(pool.statics))
  {
    var servers := ServedBy(s.client, session);
    if servers != [] {
      assert servers[0] in RecordedFor(s, session);
    }
  }

  /** What a step makes of its own call's phase. */
  lemma OwnPhase(pool: Pool, s: State, e: Event)
    requires Enabled(s, e) && !e.Begin? && !Ends(e)
    ensures e.call in s.calls && e.call in Apply(pool, s, e).calls
    ensures var g, g' := s.calls[e.call], Apply(pool, s, e).calls[e.call];
            && g'.session == g.session
            && (g'.phase.Untracked? && (g'.phase.stage.Routing? || g'.phase.stage.Asking?) ==>
                  if e.Reach? then g.phase.Untracked? && g.phase.stage.Routing? && g'.phase.stage == Asking({e.server})
                  else SetsOut(e) && exists attempts :: g'.phase == SetOut(pool, s.client, g.session, attempts))
  {
    hide SetOut, ClientAfter, ServedBy;
    ApplyIs(pool, s, e);
    MovedIs(pool, s.client, s.calls[e.call], e);
    var g := s.calls[e.call];
    if e.End? {
      assert NextPhase(pool, s.client, g, e) == SetOut(pool, s.client, g.session, 0) || NextPhase(pool, s.client, g, e).Finalizing?;
    } else if e.Retry? {
      assert NextPhase(pool, s.client, g, e) == SetOut(pool, s.client, g.session, g.phase.attempts);
    }
  }

  lemma OtherCall(pool: Pool, s: State, e: Event, c: Call)
    requires Enabled(s, e) && c in Apply(pool, s, e).calls && c != e.call
    ensures c in s.calls && Apply(pool, s, e).calls[c] == s.calls[c]
  {
    hide ClientAfter, Moved, Ready;
  }

  lemma BegunCall(pool: Pool, s: State, e: Event)
    requires Enabled(s, e) && e.Begin?
    ensures e.call in Apply(pool, s, e).calls && Apply(pool, s, e).calls[e.call].phase.Generating?
  {
  }

  lemma EndedCall(pool: Pool, s: State, e: Event)
    requires Enabled(s, e) && !e.Begin? && Ends(e)
    ensures e.call !in Apply(pool, s, e).calls
  {
    hide ClientAfter, Ready, ReceiptOf;
  }

  // ---------------------------------------------------------------- runs

  lemma SameStateAt(pool: Pool, events: seq<Event>, i: nat)
    requires IsRun(pool, events) && events != [] && i < |events|
    ensures IsRun(pool, Init(events)) && |Init(events)| == |events| - 1
    ensures StateAt(pool, events, i) == StateAt(pool, Init(events), i)
    ensures i < |events| - 1 ==> events[i] == Init(events)[i]
  {
    hide After, IsRun, Enabled;
    RunParts(pool, events);
    InitIs(events);
    assert Init(events)[..i] == events[..i];
  }

  lemma WaitsStill(pool: Pool, events: seq<Event>, c: Call, session: Session, i: nat)
    requires IsRun(pool, events) && events != [] && Last(events).call != c
    requires IsRun(pool, Init(events)) && i < |Init(events)| && WaitsSince(pool, Init(events), c, session, i)
    ensures WaitsSince(pool, events, c, session, i)
  {
    hide StateAt, IsRun, RecordedFor;
    SameStateAt(pool, events, i);
    InitIs(events);
  }

  lemma AsksStill(pool: Pool, events: seq<Event>, c: Call, session: Session, targets: set<Server>, i: nat)
    requires IsRun(pool, events) && events != [] && Last(events).call != c
    requires IsRun(pool, Init(events)) && i < |Init(events)| && AsksSince(pool, Init(events), c, session, targets, i)
    ensures AsksSince(pool, events, c, session, targets, i)
  {
    hide StateAt, IsRun, RecordedFor, WaitsSince;
    SameStateAt(pool, events, i);
    InitIs(events);
    if events[i].Reach? {
      var j :| 0 <= j < i && WaitsBefore(pool, Init(events), c, session, j, i);
      assert Init(events)[..i] == events[..i];
      assert WaitsBefore(pool, events, c, session, j, i);
    }
  }

  /** The last step is of another call. */
  lemma OthersStep(pool: Pool, events: seq<Event>, c: Call, g: Generate)
    requires IsRun(pool, events) && events != [] && Last(events).call != c
    requires IsRun(pool, Init(events)) && Traced(pool, Init(events), c, g)
    ensures Traced(pool, events, c, g)
  {
    hide WaitsSince, AsksSince, IsRun;
    InitIs(events);
    if g.phase.Untracked? && g.phase.stage.Routing? {
      var i :| 0 <= i < |Init(events)| && WaitsSince(pool, Init(events), c, g.session, i);
      WaitsStill(pool, events, c, g.session, i);
    } else if g.phase.Untracked? && g.phase.stage.Asking? {
      var i :| 0 <= i < |Init(events)| && AsksSince(pool, Init(events), c, g.session, g.phase.stage.targets, i);
      AsksStill(pool, events, c, g.session, g.phase.stage.targets, i);
    }
  }

  /** The last step is the call's own. */
  lemma OwnStepTraced(pool: Pool, events: seq<Event>)
    requires IsRun(pool, events) && events != []
    requires IsRun(pool, Init(events)) && Enabled(After(pool, Init(events)), Last(events))
    requires After(pool, events) == Apply(pool, After(pool, Init(events)), Last(events))
    requires var e := Last(events);
             !e.Begin? && !Ends(e) && e.call in After(pool, Init(events)).calls
             && Traced(pool, Init(events), e.call, After(pool, Init(events)).calls[e.call])
    ensures Last(events).call in After(pool, events).calls
    ensures Traced(pool, events, Last(events).call, After(pool, events).calls[Last(events).call])
  {
    hide *;
    var e, s, n := Last(events), After(pool, Init(events)), |events| - 1;
    InitIs(events);
    OwnPhase(pool, s, e);
    var g, g' := s.calls[e.call], After(pool, events).calls[e.call];
    SameStateAt(pool, events, n);
    InitState(pool, Init(events));
    assert StateAt(pool, events, n) == s;
    LastOne(events);
    if g'.phase.Untracked? && (g'.phase.stage.Routing? || g'.phase.stage.Asking?) {
      if e.Reach? {
        WaitedFor(pool, events, g, n);
        NowReached(pool, events, g.session, n);
      } else {
        var attempts :| g'.phase == SetOut(pool, s.client, g.session, attempts);
        WhereItGoes(pool, s, g.session, attempts);
        NowSetOut(pool, events, g.session);
      }
    }
    NowTraced(pool, events, e.call, g');
  }

  lemma LastOne(events: seq<Event>)
    requires events != []
    ensures LastStep(events, Last(events).call, |events| - 1)
  {
  }

  lemma WaitedFor(pool: Pool, events: seq<Event>, g: Generate, n: nat)
    requires IsRun(pool, events) && events != [] && n == |events| - 1 && IsRun(pool, Init(events)) && |Init(events)| == |events| - 1
    requires Traced(pool, Init(events), Last(events).call, g) && g.phase.Untracked? && g.phase.stage.Routing?
    ensures exists j :: 0 <= j < n && WaitsBefore(pool, events, Last(events).call, g.session, j, n)
  {
    hide WaitsSince, AsksSince, IsRun;
    var j :| 0 <= j < |Init(events)| && WaitsSince(pool, Init(events), Last(events).call, g.session, j);
    InitIs(events);
    assert WaitsBefore(pool, events, Last(events).call, g.session, j, n);
  }

  lemma NowReached(pool: Pool, events: seq<Event>, session: Session, n: nat)
    requires IsRun(pool, events) && events != [] && n == |events| - 1 && Last(events).Reach?
    requires exists j :: 0 <= j < n && WaitsBefore(pool, events, Last(events).call, session, j, n)
    ensures AsksSince(pool, events, Last(events).call, session, {Last(events).server}, n)
  {
    hide WaitsBefore, IsRun, StateAt;
  }

  lemma NowSetOut(pool: Pool, events: seq<Event>, session: Session)
    requires IsRun(pool, events) && events != [] && SetsOut(Last(events))
    ensures var c, n := Last(events).call, |events| - 1;
            var recorded := RecordedFor(StateAt(pool, events, n), session);
            if recorded != {} then AsksSince(pool, events, c, session, recorded, n)
            else if pool.balanced then WaitsSince(pool, events, c, session, n)
            else AsksSince(pool, events, c, session, pool.statics, n)
  {
    hide WaitsBefore, IsRun, StateAt, RecordedFor;
  }

  lemma NowTraced(pool: Pool, events: seq<Event>, c: Call, g: Generate)
    requires IsRun(pool, events) && events != []
    requires g.phase.Untracked? && g.phase.stage.Routing? ==> WaitsSince(pool, events, c, g.session, |events| - 1)
    requires g.phase.Untracked? && g.phase.stage.Asking? ==>
               AsksSince(pool, events, c, g.session, g.phase.stage.targets, |events| - 1)
    ensures Traced(pool, events, c, g)
  {
    hide WaitsSince, AsksSince, IsRun;
  }

  lemma GeneratingTraced(pool: Pool, events: seq<Event>, c: Call, g: Generate)
    requires IsRun(pool, events) && g.phase.Generating?
    ensures Traced(pool, events, c, g)
  {
    hide IsRun;
  }

  lemma {:induction false} EveryCallIsTraced(pool: Pool, events: seq<Event>, c: Call)
    requires IsRun(pool, events) && c in After(pool, events).calls
    ensures Traced(pool, events, c, After(pool, events).calls[c])
    decreases |events|
  {
    hide *;
    if events == [] {
      NoCallsYet(pool);
    } else {
      RunParts(pool, events);
      var init, e := Init(events), Last(events);
      var s := After(pool, init);
      if c != e.call {
        OtherCall(pool, s, e, c);
        EveryCallIsTraced(pool, init, c);
        OthersStep(pool, events, c, s.calls[c]);
      } else if e.Begin? {
        BegunCall(pool, s, e);
        GeneratingTraced(pool, events, c, After(pool, events).calls[c]);
      } else {
        if Ends(e) {
          EndedCall(pool, s, e);
        } else {
          OwnPhase(pool, s, e);
          EveryCallIsTraced(pool, init, c);
          OwnStepTraced(pool, events);
        }
      }
    }
  }

  lemma NoCallsYet(pool: Pool)
    ensures After(pool, []).calls == map[]
  {
  }

  /**
   Every attempt of the chain that ends: either the load balancer named no server and it failed, or it had set out at some
   step with the servers recorded for the session then, or, with none recorded, with the server named by the load balancer,
   or, without one, with all static servers; and it is confirmed if and only if all of these acknowledged.
   */
  lemma AttemptsAskTheRightServers(pool: Pool, events: seq<Event>, k: nat)
    requires IsRun(pool, events) && k < |events| && events[k].Answer?
    ensures IsRun(pool, events[..k]) && events[k].call in After(pool, events[..k]).calls
    ensures var before, e := events[..k], events[k];
            var session := After(pool, before).calls[e.call].session;
            || (!e.ok && exists i :: 0 <= i < k && WaitsSince(pool, before, e.call, session, i))
            || exists targets: set<Server>, i ::
                 && 0 <= i < k && AsksSince(pool, before, e.call, session, targets, i)
                 && (e.ok <==> forall x :: x in targets ==> x in e.acks)
  {
    hide IsRun, After, WaitsSince, AsksSince;
    PrefixIsRun(pool, events, k);
    var before, e := events[..k], events[k];
    var s := After(pool, before);
    EveryCallIsTraced(pool, before, e.call);
    var g := s.calls[e.call];
    AnswerIs(g.phase, e);
    if g.phase.stage.Asking? {
      var i :| 0 <= i < |before| && AsksSince(pool, before, e.call, g.session, g.phase.stage.targets, i);
    }
  }

  lemma AnswerIs(phase: Phase, e: Event)
    requires Ready(phase, e) && e.Answer?
    ensures phase.Untracked? && (phase.stage.Asking? || (phase.stage.Routing? && !e.ok))
    ensures phase.stage.Asking? ==> (e.ok <==> forall x :: x in phase.stage.targets ==> x in e.acks)
  {
  }
}
