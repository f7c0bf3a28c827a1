/**
 Which programs are lost: acquired for a session, after that neither asked to finalize nor counted, although no call of
 the session is under way any more. Exactly when that happens, that it does not happen to a session whose calls do not
 overlap, and a complete run in which it does.
 */
module LostServers {
  import opened Finalize
  import opened SessionTracking
  import opened FinalizeAccounting

  /** What a server may hold for a session. */
  datatype Program = Program(session: Session, server: Server)

  function Created(s: State, e: Event): set<Program>
    requires Enabled(s, e)
  {
    if e.Acquire? then {Program(s.calls[e.call].session, e.server)} else {}
  }

  /** The servers that a step asks to finalize, or counts as leaks because none of three attempts was acknowledged. */
  function AskedOrCounted(pool: Pool, client: Tracking, g: Generate, e: Event): set<Server>
    requires Ready(g.phase, e)
  {
    if e.Attempt? then {e.server}
    else if e.Clean? then set x | x in Unconfirmed(g.phase.servers, g.phase.acked)
    else if e.Broadcast? then pool.statics
    else if Ends(e) then {}
    else TargetsOf(NextPhase(pool, client, g, e))
  }

  /** The servers that a `finalize_program` which has just set out asks. */
  function TargetsOf(phase: Phase): set<Server> {
    if phase.Untracked? && phase.stage.Asking? then phase.stage.targets else {}
  }

  function Handled(pool: Pool, s: State, e: Event): set<Program>
    requires Enabled(s, e)
  {
    if e.Begin? then {}
    else
      var g := s.calls[e.call];
      set x | x in AskedOrCounted(pool, s.client, g, e) :: Program(g.session, x)
  }

  /** What was acquired and since then neither asked to finalize nor counted. */
  function Owed(pool: Pool, events: seq<Event>): set<Program>
    requires IsRun(pool, events)
    decreases |events|
  {
    if events == [] then {}
    else
      var s := After(pool, Init(events));
      Owed(pool, Init(events)) - Handled(pool, s, Last(events)) + Created(s, Last(events))
  }

  predicate Recorded(client: Tracking, p: Program) {
    p.server in ServedBy(client, p.session)
  }

  /**
   The steps that make the client forget a program it still owes: a clean-up for which the server was acquired, or
   acquired again, too late to be asked; the end of a chain after such an acquisition; an acquisition that is not
   attributed to its session; and one that makes the session leave a full cache.
   */
  ghost predicate Forgets(s: State, e: Event, owed: set<Program>, p: Program)
    requires Enabled(s, e)
  {
    match e
    case Clean(c) =>
      var g := s.calls[c];
      g.session == p.session && Recorded(s.client, p) && p in owed && p.server !in Unconfirmed(g.phase.servers, g.phase.acked)
    case Answer(c, _, ok) => ok && s.calls[c].session == p.session && Recorded(s.client, p) && p in owed
    case Abandon(c) => s.calls[c].session == p.session && Recorded(s.client, p) && p in owed
    case Acquire(c, _) =>
      var r, inflight := s.calls[c].request, s.client.inflight;
      || (p in Created(s, e) && !Recorded(s.client, p) && (r !in inflight || inflight[r] != p.session))
      || (p in owed + Created(s, e) && Recorded(s.client, p) && r in inflight && Evicts(s.client, inflight[r], p.session))
    case _ => false
  }

  // ---------------------------------------------------------------- one step

  lemma CreatedIs(s: State, e: Event)
    requires Enabled(s, e)
    ensures Created(s, e) == if e.Acquire? then {Program(s.calls[e.call].session, e.server)} else {}
  {
  }

  lemma HandledIs(pool: Pool, s: State, e: Event, p: Program)
    requires Enabled(s, e)
    ensures p in Handled(pool, s, e) <==>
            !e.Begin? && p.session == s.calls[e.call].session && p.server in AskedOrCounted(pool, s.client, s.calls[e.call], e)
  {
    hide AskedOrCounted;
    if !e.Begin? && p.session == s.calls[e.call].session {
      assert p == Program(s.calls[e.call].session, p.server);
    }
  }

  /** What is recorded for a session after a step. */
  lemma ServedAfter(client: Tracking, g: Generate, e: Event, session: Session)
    requires CacheInv(client) && Ready(g.phase, e)
    ensures var r, client' := g.request, ClientAfter(client, g, e);
            ServedBy(client', session) ==
            if e.Acquire? && r in client.inflight then
              if client.inflight[r] == session then AddServer(ServedBy(client, session), e.server)
              else if Evicts(client, client.inflight[r], session) then []
              else ServedBy(client, session)
            else if Ends(e) && session == g.session then []
            else ServedBy(client, session)
  {
    hide CacheInv, Record, Drop, Unconfirmed, Ready, ServedBy, Evicts, AddServer;
    if e.Acquire? {
      if g.request in client.inflight {
        RecordEffect(client, client.inflight[g.request], e.server);
      }
    } else if Ends(e) {
      DropEffect(client, g.session);
      SameServed(Drop(client, g.session), ClientAfter(client, g, e));
    } else {
      SameServed(client, ClientAfter(client, g, e));
    }
  }

  lemma RecordedAfter(client: Tracking, g: Generate, e: Event, p: Program)
    requires CacheInv(client) && Ready(g.phase, e)
    ensures var r, client' := g.request, ClientAfter(client, g, e);
            Recorded(client', p) <==>
            if e.Acquire? && r in client.inflight then
              || (Recorded(client, p) && !Evicts(client, client.inflight[r], p.session))
              || p == Program(client.inflight[r], e.server)
            else Recorded(client, p) && !(Ends(e) && p.session == g.session)
  {
    hide CacheInv, ClientAfter, Ready, ServedBy, Evicts;
    ServedAfter(client, g, e, p.session);
    if e.Acquire? && g.request in client.inflight {
      EvictsOther(client, client.inflight[g.request]);
    }
  }

  lemma SameServed(t: Tracking, t': Tracking)
    requires t'.served == t.served
    ensures forall session :: ServedBy(t', session) == ServedBy(t, session)
  {
  }

  lemma EvictsOther(t: Tracking, session: Session)
    requires CacheInv(t)
    ensures !Evicts(t, session, session)
  {
    hide Distinct;
  }

  /** `Forgets` is exact: those are the programs owed after the step that were recorded before it, or just created, and are not now. */
  lemma StepForgets(pool: Pool, s: State, e: Event, owed: set<Program>, p: Program)
    requires Inv(s) && Enabled(s, e)
    ensures Forgets(s, e, owed, p) <==>
            && p in owed - Handled(pool, s, e) + Created(s, e) && !Recorded(Apply(pool, s, e).client, p)
            && (Recorded(s.client, p) || p in Created(s, e))
  {
    hide *;
    InvParts(s);
    CreatedIs(s, e);
    HandledIs(pool, s, e, p);
    if e.Begin? {
      BeginIs(pool, s, e);
      EnteredIs(s.client, e.request, e.session);
      SameServed(s.client, Apply(pool, s, e).client);
      RecordedIs(s.client, p);
      RecordedIs(Apply(pool, s, e).client, p);
      NothingForgotten(s, e, owed, p);
    } else {
      ApplyIs(pool, s, e);
      WhichReady(s.calls[e.call].phase, e);
      RecordedAfter(s.client, s.calls[e.call], e, p);
      if e.Acquire? && s.calls[e.call].request in s.client.inflight {
        EvictsOther(s.client, s.client.inflight[s.calls[e.call].request]);
      }
      ForgetsIs(pool, s, e, owed, p);
    }
  }

  lemma RecordedIs(client: Tracking, p: Program)
    ensures Recorded(client, p) <==> p.server in ServedBy(client, p.session)
  {
  }

  lemma NothingForgotten(s: State, e: Event, owed: set<Program>, p: Program)
    requires Enabled(s, e) && e.Begin?
    ensures !Forgets(s, e, owed, p)
  {
  }

  lemma ForgetsIs(pool: Pool, s: State, e: Event, owed: set<Program>, p: Program)
    requires CacheInv(s.client) && Enabled(s, e) && !e.Begin?
    ensures var g := s.calls[e.call];
            Forgets(s, e, owed, p) <==>
            if Ends(e) then
              && g.session == p.session && Recorded(s.client, p) && p in owed
              && p.server !in AskedOrCounted(pool, s.client, g, e)
            else if e.Acquire? then
              var r, inflight := g.request, s.client.inflight;
              || (p == Program(g.session, e.server) && !Recorded(s.client, p) && (r !in inflight || inflight[r] != p.session))
              || ((p in owed || p == Program(g.session, e.server)) && Recorded(s.client, p) && r in inflight
                  && Evicts(s.client, inflight[r], p.session))
            else false
    ensures e.Acquire? ==> AskedOrCounted(pool, s.client, s.calls[e.call], e) == {}
  {
    hide Recorded, Evicts, CacheInv, Unconfirmed;
  }

  // ---------------------------------------------------------------- whole runs

  lemma OwedParts(pool: Pool, events: seq<Event>)
    requires IsRun(pool, events) && events != []
    ensures IsRun(pool, Init(events)) && Enabled(After(pool, Init(events)), Last(events))
    ensures var s := After(pool, Init(events));
            && Owed(pool, events) == Owed(pool, Init(events)) - Handled(pool, s, Last(events)) + Created(s, Last(events))
            && After(pool, events) == Apply(pool, s, Last(events))
    ensures |Init(events)| == |events| - 1
  {
    hide Enabled, Apply, Handled, Created;
  }

  lemma NothingOwed(pool: Pool)
    ensures Owed(pool, []) == {}
  {
  }

  lemma {:induction false} PrefixIsRun(pool: Pool, events: seq<Event>, k: nat)
    requires IsRun(pool, events) && k <= |events|
    ensures IsRun(pool, events[..k])
    ensures k < |events| ==> Enabled(After(pool, events[..k]), events[k])
    decreases |events|
  {
    hide *;
    if k == |events| {
      assert events[..k] == events;
    } else {
      RunParts(pool, events);
      Shorter(events, k);
      if k < |events| - 1 {
        PrefixIsRun(pool, Init(events), k);
      } else {
        InitIs(events);
      }
    }
  }

  lemma InitIs<T>(s: seq<T>)
    requires s != []
    ensures Init(s) == s[..|s| - 1] && Last(s) == s[|s| - 1] && |Init(s)| == |s| - 1
  {
  }

  /** Step `i` of a run forgets a program, and no later step asks its server or counts it. */
  ghost predicate LostAt(pool: Pool, events: seq<Event>, i: nat, p: Program)
    requires i < |events| && IsRun(pool, events)
  {
    PrefixIsRun(pool, events, i);
    && Forgets(After(pool, events[..i]), events[i], Owed(pool, events[..i]), p)
    && forall j :: i < j < |events| ==> !HandledAt(pool, events, j, p)
  }

  ghost predicate HandledAt(pool: Pool, events: seq<Event>, j: nat, p: Program)
    requires j < |events| && IsRun(pool, events)
  {
    PrefixIsRun(pool, events, j);
    p in Handled(pool, After(pool, events[..j]), events[j])
  }

  lemma LastHandled(pool: Pool, events: seq<Event>, p: Program)
    requires IsRun(pool, events) && events != []
    ensures Enabled(After(pool, Init(events)), Last(events)) && IsRun(pool, Init(events))
    ensures HandledAt(pool, events, |events| - 1, p) <==> p in Handled(pool, After(pool, Init(events)), Last(events))
  {
    hide Handled, After, IsRun, Enabled;
    RunParts(pool, events);
    InitIs(events);
  }

  lemma EarlierHandled(pool: Pool, events: seq<Event>, j: nat, p: Program)
    requires IsRun(pool, events) && j < |events| - 1
    ensures IsRun(pool, Init(events)) && |Init(events)| == |events| - 1
    ensures HandledAt(pool, events, j, p) <==> HandledAt(pool, Init(events), j, p)
  {
    hide Handled, After, IsRun, Enabled;
    RunParts(pool, events);
    Shorter(events, j);
    PrefixIsRun(pool, events, j);
  }

  lemma LostBefore(pool: Pool, events: seq<Event>, i: nat, p: Program)
    requires IsRun(pool, events) && i < |events| - 1
    ensures IsRun(pool, Init(events)) && |Init(events)| == |events| - 1
    ensures LostAt(pool, events, i, p) <==>
            LostAt(pool, Init(events), i, p) && !HandledAt(pool, events, |events| - 1, p)
  {
    hide Handled, After, IsRun, Enabled, HandledAt, Forgets, Owed;
    RunParts(pool, events);
    Shorter(events, i);
    PrefixIsRun(pool, events, i);
    forall j | i < j < |events| - 1
      ensures HandledAt(pool, events, j, p) <==> HandledAt(pool, Init(events), j, p)
    {
      EarlierHandled(pool, events, j, p);
    }
  }

  lemma LostLast(pool: Pool, events: seq<Event>, p: Program)
    requires IsRun(pool, events) && events != []
    ensures IsRun(pool, Init(events)) && Enabled(After(pool, Init(events)), Last(events))
    ensures LostAt(pool, events, |events| - 1, p) <==>
            Forgets(After(pool, Init(events)), Last(events), Owed(pool, Init(events)), p)
  {
    hide Handled, After, IsRun, Enabled, HandledAt, Forgets, Owed;
    RunParts(pool, events);
    InitIs(events);
  }

  /** Whatever is owed and not recorded was forgotten by some step and not made good by a later one, and the other way round. */
  lemma {:induction false} OwedIffForgotten(pool: Pool, events: seq<Event>, p: Program)
    requires IsRun(pool, events) && !Recorded(After(pool, events).client, p)
    ensures p in Owed(pool, events) <==> exists i :: 0 <= i < |events| && LostAt(pool, events, i, p)
    decreases |events|
  {
    hide *;
    if events == [] {
      NothingOwed(pool);
    } else {
      OwedParts(pool, events);
      var init, e := Init(events), Last(events);
      var s := After(pool, init);
      RunKeepsInv(pool, init);
      StepForgets(pool, s, e, Owed(pool, init), p);
      LostLast(pool, events, p);
      LastHandled(pool, events, p);
      if p in Owed(pool, events) {
        if Recorded(s.client, p) || p in Created(s, e) {
          assert LostAt(pool, events, |events| - 1, p);
        } else {
          OwedIffForgotten(pool, init, p);
          var i :| 0 <= i < |init| && LostAt(pool, init, i, p);
          LostBefore(pool, events, i, p);
        }
      }
      forall i | 0 <= i < |events| && LostAt(pool, events, i, p)
        ensures p in Owed(pool, events)
      {
        LostIsOwed(pool, events, i, p);
      }
    }
  }

  lemma {:induction false} LostIsOwed(pool: Pool, events: seq<Event>, i: nat, p: Program)
    requires IsRun(pool, events) && i < |events| && LostAt(pool, events, i, p)
    ensures p in Owed(pool, events)
    decreases |events|
  {
    hide *;
    OwedParts(pool, events);
    LastHandled(pool, events, p);
    var init, e := Init(events), Last(events);
    if i == |events| - 1 {
      LostLast(pool, events, p);
      RunKeepsInv(pool, init);
      StepForgets(pool, After(pool, init), e, Owed(pool, init), p);
    } else {
      LostBefore(pool, events, i, p);
      LostIsOwed(pool, init, i, p);
    }
  }

  /**
   Once no call of a session is under way, a server acquired for it is owed if and only if some step forgot it and no later
   one asked it or counted it.
   */
  lemma LostIff(pool: Pool, events: seq<Event>, p: Program)
    requires IsRun(pool, events) && !HasCall(After(pool, events).calls, p.session)
    ensures p in Owed(pool, events) <==> exists i :: 0 <= i < |events| && LostAt(pool, events, i, p)
  {
    hide *;
    TrackingIsReleased(pool, events);
    NotTracked(After(pool, events).client, p);
    OwedIffForgotten(pool, events, p);
  }

  lemma NotTracked(client: Tracking, p: Program)
    requires p.session !in client.served
    ensures !Recorded(client, p)
  {
  }

  // ---------------------------------------------------------------- sessions whose calls do not overlap

  /** No other call shares a session or a request id with a call of this session, and the client can track all calls. */
  ghost predicate Separate(s: State, session: Session) {
    && |s.calls| <= ROUTING_CACHE_MAX
    && forall c, d :: c in s.calls && d in s.calls && c != d && s.calls[c].session == session ==>
         s.calls[d].session != session && s.calls[d].request != s.calls[c].request
  }

  /** Everything that the call acquired was recorded at its end and so asked. */
  ghost predicate InFull(r: Receipt) {
    match r.generate.phase
    case Generating => false
    case Finalizing(servers, _, _) => servers == r.generate.acquired
    case Untracked(_, _) => r.generate.acquired == []
  }

  /** The client's record of the call is right, and it owes nothing but servers that the call has yet to ask. */
  ghost predicate Followed(client: Tracking, g: Generate, owed: set<Program>) {
    && ServedBy(client, g.session) == g.acquired
    && (g.phase.Generating? ==> g.request in client.inflight && client.inflight[g.request] == g.session)
    && (g.phase.Finalizing? ==> g.phase.servers == g.acquired)
    && (g.phase.Untracked? ==> g.acquired == [])
    && forall x :: Program(g.session, x) in owed ==>
         x in g.acquired && (g.phase.Finalizing? ==> x !in g.phase.acked && x in g.phase.tries && g.phase.tries[x] == 0)
  }

  ghost predicate SessionInv(s: State, session: Session, owed: set<Program>) {
    && (forall c :: c in s.calls && s.calls[c].session == session ==> Followed(s.client, s.calls[c], owed))
    && (!HasCall(s.calls, session) ==> forall x :: Program(session, x) !in owed)
    && forall k :: 0 <= k < |s.receipts| && s.receipts[k].generate.session == session ==> InFull(s.receipts[k])
  }

  /** With no more calls than the client can track an acquisition makes no session leave. */
  lemma NothingEvicted(s: State, r: Request, session: Session)
    requires Inv(s) && |s.calls| <= ROUTING_CACHE_MAX && r in s.client.inflight
    ensures !Evicts(s.client, s.client.inflight[r], session)
  {
    hide Distinct, HasCall, PhaseInv, ReceiptsInv;
    var entering, order := s.client.inflight[r], s.client.order;
    if entering !in s.client.served && |order| == ROUTING_CACHE_MAX {
      assert HasCall(s.calls, entering) by {
        assert Serves(s.calls, r, entering);
        var d :| d in s.calls && s.calls[d].session == entering;
        CallHas(s.calls, d);
      }
      DistinctMore(order, entering);
      forall x | x in order + [entering]
        ensures HasCall(s.calls, x)
      {
      }
      NoMoreSessionsThanCalls(order + [entering], s.calls);
    }
  }

  lemma CallHas(calls: map<Call, Generate>, c: Call)
    requires c in calls
    ensures HasCall(calls, calls[c].session)
  {
  }

  /** A step of another session's call leaves what is recorded for this one. */
  lemma ServedStays(s: State, e: Event, session: Session)
    requires Inv(s) && Enabled(s, e) && !e.Begin? && Separate(s, session)
    requires s.calls[e.call].session != session && HasCall(s.calls, session)
    ensures ServedBy(ClientAfter(s.client, s.calls[e.call], e), session) == ServedBy(s.client, session)
  {
    hide CacheInv, ClientAfter, Ready, ServedBy, Evicts, ReceiptsInv, PhaseInv;
    var g := s.calls[e.call];
    ServedAfter(s.client, g, e, session);
    if e.Acquire? && g.request in s.client.inflight {
      NothingEvicted(s, g.request, session);
      assert Serves(s.calls, g.request, s.client.inflight[g.request]);
    }
  }

  lemma FollowedParts(client: Tracking, g: Generate, owed: set<Program>)
    requires Followed(client, g, owed)
    ensures ServedBy(client, g.session) == g.acquired
    ensures g.phase.Generating? ==> g.request in client.inflight && client.inflight[g.request] == g.session
    ensures g.phase.Untracked? ==> g.acquired == []
    ensures forall x :: Program(g.session, x) in owed ==> x in g.acquired
  {
    hide ServedBy;
  }

  lemma FollowedFrame(client: Tracking, client': Tracking, g: Generate, owed: set<Program>, owed': set<Program>)
    requires Followed(client, g, owed) && ServedBy(client', g.session) == ServedBy(client, g.session)
    requires g.phase.Generating? ==> g.request in client'.inflight && client'.inflight[g.request] == client.inflight[g.request]
    requires forall x :: Program(g.session, x) in owed' ==> Program(g.session, x) in owed
    ensures Followed(client', g, owed')
  {
    hide ServedBy;
  }

  lemma InflightAfter(client: Tracking, g: Generate, e: Event)
    requires Ready(g.phase, e)
    ensures ClientAfter(client, g, e).inflight == if e.End? then client.inflight - {g.request} else client.inflight
  {
    hide Record, Without;
    if e.Acquire? && g.request in client.inflight {
      RecordFrame(client, client.inflight[g.request], e.server);
    }
  }

  lemma SeparateIs(s: State, session: Session, c: Call, d: Call)
    requires Separate(s, session) && c in s.calls && d in s.calls && c != d && s.calls[c].session == session
    ensures s.calls[d].session != session && s.calls[d].request != s.calls[c].request
  {
  }

  /** A step of another session's call. */
  lemma OtherStep(pool: Pool, s: State, e: Event, session: Session, owed: set<Program>, c: Call)
    requires Inv(s) && Enabled(s, e) && !e.Begin? && Separate(s, session) && s.calls[e.call].session != session
    requires c in s.calls && s.calls[c].session == session && Followed(s.client, s.calls[c], owed)
    ensures Followed(ClientAfter(s.client, s.calls[e.call], e), s.calls[c], owed - Handled(pool, s, e) + Created(s, e))
  {
    hide *;
    ApplyIs(pool, s, e);
    var g, d := s.calls[c], s.calls[e.call];
    CallHas(s.calls, c);
    SeparateIs(s, session, c, e.call);
    ServedStays(s, e, session);
    InflightAfter(s.client, d, e);
    FollowedParts(s.client, g, owed);
    CreatedIs(s, e);
    FollowedFrame(s.client, ClientAfter(s.client, d, e), g, owed, owed - Handled(pool, s, e) + Created(s, e));
  }

  /** A step of the session's own call, after which it goes on. */
  lemma OwnStep(pool: Pool, s: State, e: Event, owed: set<Program>)
    requires Inv(s) && Enabled(s, e) && !e.Begin? && !Ends(e) && Followed(s.client, s.calls[e.call], owed)
    ensures var g := s.calls[e.call];
            Followed(ClientAfter(s.client, g, e), Moved(pool, s.client, g, e), owed - Handled(pool, s, e) + Created(s, e))
  {
    hide *;
    ApplyIs(pool, s, e);
    InvParts(s);
    var g, owed' := s.calls[e.call], owed - Handled(pool, s, e) + Created(s, e);
    WhichReady(g.phase, e);
    FollowedParts(s.client, g, owed);
    ServedAfter(s.client, g, e, g.session);
    InflightAfter(s.client, g, e);
    MovedIs(pool, s.client, g, e);
    CreatedIs(s, e);
    forall x
      ensures Program(g.session, x) in Handled(pool, s, e) <==> x in AskedOrCounted(pool, s.client, g, e)
    {
      HandledIs(pool, s, e, Program(g.session, x));
    }
    if e.Acquire? {
      AcquiredIs(pool, s.client, g, e);
      Acquired(ClientAfter(s.client, g, e), g, e.server, Moved(pool, s.client, g, e), owed, owed');
    } else {
      PhaseFollows(pool, s.client, g, e, owed, owed');
      var g' := Moved(pool, s.client, g, e);
      FollowedWhole(ClientAfter(s.client, g, e), g', owed');
    }
  }

  lemma AcquiredIs(pool: Pool, client: Tracking, g: Generate, e: Event)
    requires Ready(g.phase, e) && e.Acquire?
    ensures g.phase.Generating? && Moved(pool, client, g, e) == g.(acquired := AddServer(g.acquired, e.server))
  {
    hide AddServer;
  }

  lemma Acquired(client: Tracking, g: Generate, server: Server, g': Generate, owed: set<Program>, owed': set<Program>)
    requires g.phase.Generating? && g' == g.(acquired := AddServer(g.acquired, server))
    requires ServedBy(client, g.session) == AddServer(g.acquired, server)
    requires g.request in client.inflight && client.inflight[g.request] == g.session
    requires forall x :: Program(g.session, x) in owed ==> x in g.acquired
    requires forall x :: Program(g.session, x) in owed' ==> Program(g.session, x) in owed || x == server
    ensures Followed(client, g', owed')
  {
    hide ServedBy;
  }

  lemma FollowedWhole(client: Tracking, g: Generate, owed: set<Program>)
    requires ServedBy(client, g.session) == g.acquired
    requires !g.phase.Generating?
    requires g.phase.Finalizing? ==> g.phase.servers == g.acquired
    requires g.phase.Untracked? ==> g.acquired == []
    requires forall x :: Program(g.session, x) in owed ==>
               x in g.acquired && (g.phase.Finalizing? ==> x !in g.phase.acked && x in g.phase.tries && g.phase.tries[x] == 0)
    ensures Followed(client, g, owed)
  {
    hide ServedBy;
  }

  lemma PhaseFollows(pool: Pool, client: Tracking, g: Generate, e: Event, owed: set<Program>, owed': set<Program>)
    requires Followed(client, g, owed) && Ready(g.phase, e) && !Ends(e) && !e.Acquire?
    requires forall x :: Program(g.session, x) in owed' ==>
               Program(g.session, x) in owed && x !in AskedOrCounted(pool, client, g, e)
    ensures var phase := NextPhase(pool, client, g, e);
            && !phase.Generating? && (phase.Finalizing? ==> phase.servers == g.acquired) && (phase.Untracked? ==> g.acquired == [])
            && forall x :: Program(g.session, x) in owed' ==>
                 x in g.acquired && (phase.Finalizing? ==> x !in phase.acked && x in phase.tries && phase.tries[x] == 0)
  {
    hide ServedBy, Route;
  }

  /** When the session's own call is over, nothing is owed for the session and the receipt is in full. */
  lemma OwnEnd(pool: Pool, s: State, e: Event, owed: set<Program>)
    requires Enabled(s, e) && !e.Begin? && Ends(e) && Followed(s.client, s.calls[e.call], owed)
    ensures var g := s.calls[e.call];
            && InFull(ReceiptOf(g, e))
            && forall x :: Program(g.session, x) !in owed - Handled(pool, s, e) + Created(s, e)
  {
    hide ServedBy, Unconfirmed, Handled, AskedOrCounted, Counted;
  }

  lemma SessionStep(pool: Pool, s: State, e: Event, session: Session, owed: set<Program>)
    requires Inv(s) && Enabled(s, e) && Separate(s, session) && Separate(Apply(pool, s, e), session)
    requires SessionInv(s, session, owed)
    ensures SessionInv(Apply(pool, s, e), session, owed - Handled(pool, s, e) + Created(s, e))
  {
    hide *;
    var s', owed' := Apply(pool, s, e), owed - Handled(pool, s, e) + Created(s, e);
    if e.Begin? {
      BeginSession(pool, s, e, session, owed);
    } else {
      ApplyIs(pool, s, e);
      CreatedIs(s, e);
      SessionParts(s, session, owed);
      var g := s.calls[e.call];
      ReceiptIs(g, e);
      if g.session != session {
        forall c | c in s.calls && s.calls[c].session == session
          ensures Followed(s'.client, s.calls[c], owed')
        {
          OtherStep(pool, s, e, session, owed, c);
        }
        if !Ends(e) {
          MovedIs(pool, s.client, g, e);
        }
        HasCallStays(s.calls, s'.calls, e.call, session);
        SessionWhole(s, s', session, owed, owed');
      } else {
        forall c | c in s.calls && c != e.call
          ensures s.calls[c].session != session
        {
          SeparateIs(s, session, e.call, c);
        }
        if Ends(e) {
          OwnEnd(pool, s, e, owed);
        } else {
          OwnStep(pool, s, e, owed);
          MovedIs(pool, s.client, g, e);
          CallHas(s'.calls, e.call);
        }
        SessionWhole(s, s', session, owed, owed');
      }
    }
  }

  lemma SessionParts(s: State, session: Session, owed: set<Program>)
    requires SessionInv(s, session, owed)
    ensures forall c :: c in s.calls && s.calls[c].session == session ==> Followed(s.client, s.calls[c], owed)
    ensures !HasCall(s.calls, session) ==> forall x :: Program(session, x) !in owed
  {
    hide Followed, HasCall, InFull;
  }

  lemma HasCallStays(calls: map<Call, Generate>, calls': map<Call, Generate>, c: Call, session: Session)
    requires c in calls && calls[c].session != session
    requires calls' == calls - {c} || (c in calls' && calls' == calls[c := calls'[c]] && calls'[c].session != session)
    ensures HasCall(calls', session) <==> HasCall(calls, session)
  {
    if HasCall(calls, session) {
      var d :| d in calls && calls[d].session == session;
      assert d in calls' && calls'[d].session == session;
    }
  }

  lemma SessionWhole(s: State, s': State, session: Session, owed: set<Program>, owed': set<Program>)
    requires SessionInv(s, session, owed)
    requires forall c :: c in s'.calls && s'.calls[c].session == session ==> Followed(s'.client, s'.calls[c], owed')
    requires !HasCall(s'.calls, session) ==> forall x :: Program(session, x) !in owed'
    requires s'.receipts == s.receipts || exists r :: s'.receipts == s.receipts + [r] && (r.generate.session == session ==> InFull(r))
    ensures SessionInv(s', session, owed')
  {
    hide Followed, HasCall, InFull;
  }

  lemma BeginSession(pool: Pool, s: State, e: Event, session: Session, owed: set<Program>)
    requires Inv(s) && Enabled(s, e) && e.Begin? && Separate(Apply(pool, s, e), session)
    requires SessionInv(s, session, owed)
    ensures SessionInv(Apply(pool, s, e), session, owed - Handled(pool, s, e) + Created(s, e))
  {
    hide *;
    var s', owed' := Apply(pool, s, e), owed - Handled(pool, s, e) + Created(s, e);
    BeginIs(pool, s, e);
    EnteredIs(s.client, e.request, e.session);
    SameServed(s.client, s'.client);
    SessionParts(s, session, owed);
    CreatedIs(s, e);
    if e.session == session {
      forall c | c in s.calls
        ensures s.calls[c].session != session
      {
        SeparateIs(s', session, e.call, c);
      }
      NoCallOf(s.calls, session);
      ServedNone(s, session);
      NewFollowed(s'.client, e.request, session, owed');
      CallHas(s'.calls, e.call);
    } else {
      forall c | c in s.calls && s.calls[c].session == session
        ensures Followed(s'.client, s.calls[c], owed')
      {
        SeparateIs(s', session, c, e.call);
        FollowedParts(s.client, s.calls[c], owed);
        FollowedFrame(s.client, s'.client, s.calls[c], owed, owed');
      }
      HasCallGrows(s.calls, e.call, s'.calls[e.call], session);
    }
    SessionWhole(s, s', session, owed, owed');
  }

  lemma NoCallOf(calls: map<Call, Generate>, session: Session)
    requires forall c :: c in calls ==> calls[c].session != session
    ensures !HasCall(calls, session)
  {
  }

  lemma ServedNone(s: State, session: Session)
    requires Inv(s) && !HasCall(s.calls, session)
    ensures ServedBy(s.client, session) == []
  {
    hide CacheInv, ReceiptsInv, PhaseInv, HasCall, Serves;
  }

  lemma NewFollowed(client: Tracking, request: Request, session: Session, owed: set<Program>)
    requires ServedBy(client, session) == [] && request in client.inflight && client.inflight[request] == session
    requires forall x :: Program(session, x) !in owed
    ensures Followed(client, Generate(request, session, [], Generating), owed)
  {
    hide ServedBy;
  }

  lemma HasCallGrows(calls: map<Call, Generate>, c: Call, g: Generate, session: Session)
    requires c !in calls
    ensures HasCall(calls, session) ==> HasCall(calls[c := g], session)
  {
    if HasCall(calls, session) {
      var d :| d in calls && calls[d].session == session;
      assert calls[c := g][d].session == session;
    }
  }

  function StateAt(pool: Pool, events: seq<Event>, k: nat): State
    requires IsRun(pool, events) && k <= |events|
  {
    PrefixIsRun(pool, events, k);
    After(pool, events[..k])
  }

  lemma SessionStart(session: Session)
    ensures SessionInv(START, session, {})
  {
  }

  lemma LastStates(pool: Pool, events: seq<Event>)
    requires IsRun(pool, events) && events != []
    ensures IsRun(pool, Init(events)) && StateAt(pool, events, |events|) == After(pool, events)
    ensures forall k :: 0 <= k <= |Init(events)| ==> StateAt(pool, events, k) == StateAt(pool, Init(events), k)
  {
    hide After, IsRun, Enabled, Init, Last;
    RunParts(pool, events);
    InitIs(events);
    assert events[..|events|] == events;
    forall k | 0 <= k <= |Init(events)|
      ensures StateAt(pool, events, k) == StateAt(pool, Init(events), k)
    {
      assert Init(events)[..k] == events[..k];
    }
  }

  lemma {:induction false} RunKeepsSession(pool: Pool, events: seq<Event>, session: Session)
    requires IsRun(pool, events) && forall k :: 0 <= k <= |events| ==> Separate(StateAt(pool, events, k), session)
    ensures SessionInv(After(pool, events), session, Owed(pool, events))
    decreases |events|
  {
    hide *;
    if events == [] {
      NothingYet(pool);
      NothingOwed(pool);
      SessionStart(session);
    } else {
      OwedParts(pool, events);
      LastStates(pool, events);
      var init := Init(events);
      RunKeepsSession(pool, init, session);
      RunKeepsInv(pool, init);
      InitState(pool, init);
      assert Separate(StateAt(pool, events, |init|), session);
      SessionStep(pool, After(pool, init), Last(events), session, Owed(pool, init));
    }
  }

  lemma InitState(pool: Pool, events: seq<Event>)
    requires IsRun(pool, events)
    ensures StateAt(pool, events, |events|) == After(pool, events)
  {
    hide After, IsRun;
    assert events[..|events|] == events;
  }

  /**
   A session whose calls never overlap each other, nor another call with the same request id, loses nothing: what is owed is
   recorded, nothing is owed once no call of it is under way, and every finished call asked all that it had acquired.
   */
  lemma SeparateSessionLosesNothing(pool: Pool, events: seq<Event>, session: Session)
    requires IsRun(pool, events) && forall k :: 0 <= k <= |events| ==> Separate(StateAt(pool, events, k), session)
    ensures var s, owed := After(pool, events), Owed(pool, events);
            && (forall x :: Program(session, x) in owed ==> Recorded(s.client, Program(session, x)))
            && (!HasCall(s.calls, session) ==> forall x :: Program(session, x) !in owed)
            && forall k :: 0 <= k < |s.receipts| && s.receipts[k].generate.session == session ==>
                 Accounted(s.receipts[k]) && InFull(s.receipts[k])
  {
    hide After, IsRun, Owed, Separate, StateAt, ServedBy, InFull, Accounted;
    RunKeepsSession(pool, events, session);
    LeaksAreAccounted(pool, events);
  }

  // ---------------------------------------------------------------- a run in which a server is lost

  lemma More(pool: Pool, events: seq<Event>, e: Event)
    requires IsRun(pool, events) && Enabled(After(pool, events), e)
    ensures var more, s := events + [e], After(pool, events);
            && IsRun(pool, more) && After(pool, more) == Apply(pool, s, e)
            && Owed(pool, more) == Owed(pool, events) - Handled(pool, s, e) + Created(s, e)
  {
    hide Enabled, Apply, Handled, Created;
    var more := events + [e];
    assert Init(more) == events && Last(more) == e;
  }

  /** What one step of a call does when its request, if any is attributed, belongs to its session. */
  lemma MoreOfCall(pool: Pool, events: seq<Event>, e: Event, session: Session)
    requires IsRun(pool, events) && !e.Begin? && e.call in After(pool, events).calls
    requires var s := After(pool, events);
             var g := s.calls[e.call];
             Ready(g.phase, e) && g.session == session && (g.request in s.client.inflight ==> s.client.inflight[g.request] == session)
    ensures var more, s := events + [e], After(pool, events);
            var g := s.calls[e.call];
            && IsRun(pool, more)
            && var s' := After(pool, more);
               && s'.client.leaks == s.client.leaks + Counted(g, e)
               && s'.client.inflight == (if e.End? then s.client.inflight - {g.request} else s.client.inflight)
               && ServedBy(s'.client, session) == (if e.Acquire? && g.request in s.client.inflight
                                                   then AddServer(ServedBy(s.client, session), e.server)
                                                   else if Ends(e) then [] else ServedBy(s.client, session))
               && s'.calls == (if Ends(e) then s.calls - {e.call} else s.calls[e.call := Moved(pool, s.client, g, e)])
    ensures var s := After(pool, events);
            forall x :: Program(session, x) in Owed(pool, events + [e]) <==>
              || (Program(session, x) in Owed(pool, events) && x !in AskedOrCounted(pool, s.client, s.calls[e.call], e))
              || (e.Acquire? && x == e.server)
  {
    hide *;
    var s := After(pool, events);
    IsEnabled(s, e);
    More(pool, events, e);
    RunKeepsInv(pool, events);
    InvParts(s);
    ApplyIs(pool, s, e);
    ClientSteps(s.client, s.calls[e.call], e);
    ServedAfter(s.client, s.calls[e.call], e, session);
    CreatedIs(s, e);
    forall x
      ensures Program(session, x) in Handled(pool, s, e) <==> x in AskedOrCounted(pool, s.client, s.calls[e.call], e)
    {
      HandledIs(pool, s, e, Program(session, x));
    }
    WhichReady(s.calls[e.call].phase, e);
  }

  lemma IsEnabled(s: State, e: Event)
    requires if e.Begin? then e.call !in s.calls else e.call in s.calls && Ready(s.calls[e.call].phase, e)
    ensures Enabled(s, e)
  {
  }

  lemma MoreBegun(pool: Pool, events: seq<Event>, e: Event)
    requires IsRun(pool, events) && e.Begin? && e.call !in After(pool, events).calls
    ensures var more, s := events + [e], After(pool, events);
            && IsRun(pool, more) && Owed(pool, more) == Owed(pool, events)
            && var s' := After(pool, more);
               && s'.client.leaks == s.client.leaks && s'.client.inflight == s.client.inflight[e.request := e.session]
               && s'.client.served == s.client.served
               && s'.calls == s.calls[e.call := Generate(e.request, e.session, [], Generating)]
  {
    hide After, IsRun, Owed;
    More(pool, events, e);
  }

  /** What the example's steps have to know of a state. */
  ghost predicate Shows(pool: Pool, events: seq<Event>, session: Session, inflight: map<Request, Session>,
                        calls: map<Call, Generate>, served: seq<Server>, owed: set<Server>) {
    && IsRun(pool, events)
    && var s := After(pool, events);
       && s.client.inflight == inflight && s.calls == calls && ServedBy(s.client, session) == served && s.client.leaks == 0
       && forall x :: Program(session, x) in Owed(pool, events) <==> x in owed
  }

  lemma BothBegin(pool: Pool, session: Session, q: Request, r: Request)
    requires q != r
    ensures Shows(pool, [Begin(1, q, session), Begin(2, r, session)], session, map[q := session, r := session],
                  map[1 := Generate(q, session, [], Generating), 2 := Generate(r, session, [], Generating)], [], {})
  {
    hide IsRun, After, Owed;
    var first, second := Begin(1, q, session), Begin(2, r, session);
    assert IsRun(pool, []) && After(pool, []) == START by {
      NothingYet(pool);
      EmptyRun(pool);
    }
    NothingOwed(pool);
    MoreBegun(pool, [], first);
    assert [] + [first] == [first];
    MoreBegun(pool, [first], second);
    assert [first] + [second] == [first, second];
  }

  lemma EmptyRun(pool: Pool)
    ensures IsRun(pool, [])
  {
  }

  lemma ShowAcquire(pool: Pool, events: seq<Event>, c: Call, server: Server, session: Session, inflight: map<Request, Session>,
                    calls: map<Call, Generate>, served: seq<Server>, owed: set<Server>)
    requires Shows(pool, events, session, inflight, calls, served, owed)
    requires c in calls && calls[c].phase.Generating? && calls[c].session == session
    requires calls[c].request in inflight && inflight[calls[c].request] == session
    ensures Shows(pool, events + [Acquire(c, server)], session, inflight,
                  calls[c := calls[c].(acquired := AddServer(calls[c].acquired, server))], AddServer(served, server), owed + {server})
  {
    hide IsRun, After, Owed, ServedBy, AddServer;
    MoreOfCall(pool, events, Acquire(c, server), session);
  }

  lemma ShowEnd(pool: Pool, events: seq<Event>, c: Call, session: Session, inflight: map<Request, Session>,
                calls: map<Call, Generate>, served: seq<Server>, owed: set<Server>)
    requires Shows(pool, events, session, inflight, calls, served, owed)
    requires c in calls && calls[c].phase.Generating? && calls[c].session == session && pool.balanced
    requires calls[c].request in inflight && inflight[calls[c].request] == session
    ensures var phase := if served == [] then Untracked(0, Routing) else Finalizing(served, map x | x in served :: 0, {});
            Shows(pool, events + [End(c)], session, inflight - {calls[c].request}, calls[c := calls[c].(phase := phase)], served, owed)
  {
    hide IsRun, After, Owed, ServedBy, AddServer;
    MoreOfCall(pool, events, End(c), session);
  }

  lemma ShowStep(pool: Pool, events: seq<Event>, e: Event, session: Session, inflight: map<Request, Session>,
                 calls: map<Call, Generate>, served: seq<Server>, owed: set<Server>, phase: Phase, asked: set<Server>)
    requires Shows(pool, events, session, inflight, calls, served, owed)
    requires e.call in calls && calls[e.call].session == session && calls[e.call].request !in inflight
    requires (e.Attempt? || e.Reach?) && Ready(calls[e.call].phase, e)
    requires var p := calls[e.call].phase;
             phase == if e.Reach? then Untracked(p.attempts, Asking({e.server}))
                      else Finalizing(p.servers, p.tries[e.server := p.tries[e.server] + 1],
                                      if e.ok then p.acked + {e.server} else p.acked)
    ensures Shows(pool, events + [e], session, inflight, calls[e.call := calls[e.call].(phase := phase)], served, owed - {e.server})
  {
    hide IsRun, After, Owed, ServedBy, AddServer;
    MoreOfCall(pool, events, e, session);
  }

  lemma ShowFinish(pool: Pool, events: seq<Event>, e: Event, session: Session, inflight: map<Request, Session>,
                   calls: map<Call, Generate>, served: seq<Server>, owed: set<Server>)
    requires Shows(pool, events, session, inflight, calls, served, owed)
    requires e.call in calls && calls[e.call].session == session && calls[e.call].request !in inflight
    requires Ready(calls[e.call].phase, e) && Ends(e) && !e.Abandon?
    requires e.Clean? ==> Unconfirmed(calls[e.call].phase.servers, calls[e.call].phase.acked) == []
    ensures Shows(pool, events + [e], session, inflight, calls - {e.call}, [], owed)
  {
    hide IsRun, After, Owed, ServedBy, AddServer, Unconfirmed;
    MoreOfCall(pool, events, e, session);
  }

  /** The first call ends with `a`, then the second acquires `b` and `c`. */
  lemma BothAcquire(pool: Pool, session: Session, q: Request, r: Request, a: Server, b: Server, c: Server)
    requires pool.balanced && q != r && a != b && b != c && c != a
    ensures Shows(pool, [Begin(1, q, session), Begin(2, r, session), Acquire(1, a), End(1), Acquire(2, b), Acquire(2, c)], session,
                  map[r := session], map[1 := Generate(q, session, [a], Finalizing([a], map x | x in [a] :: 0, {})),
                                         2 := Generate(r, session, [b, c], Generating)], [a, b, c], {a, b, c})
  {
    hide *;
    BothBegin(pool, session, q, r);
    Lists(a, b, c);
    var events := [Begin(1, q, session), Begin(2, r, session)];
    var inflight := map[q := session, r := session];
    var calls := map[1 := Generate(q, session, [], Generating), 2 := Generate(r, session, [], Generating)];
    ShowAcquire(pool, events, 1, a, session, inflight, calls, [], {});
    events, calls := events + [Acquire(1, a)], calls[1 := Generate(q, session, [a], Generating)];
    assert {} + {a} == {a};
    ShowEnd(pool, events, 1, session, inflight, calls, [a], {a});
    var asking := Finalizing([a], map x | x in [a] :: 0, {});
    events, inflight, calls := events + [End(1)], inflight - {q}, calls[1 := Generate(q, session, [a], asking)];
    ShowAcquire(pool, events, 2, b, session, inflight, calls, [a], {a});
    assert {a} + {b} == {a, b};
    events, calls := events + [Acquire(2, b)], calls[2 := Generate(r, session, [b], Generating)];
    ShowAcquire(pool, events, 2, c, session, inflight, calls, [a, b], {a, b});
    assert {a, b} + {c} == {a, b, c};
    events, calls := events + [Acquire(2, c)], calls[2 := Generate(r, session, [b, c], Generating)];
    assert inflight == map[r := session];
    assert calls == map[1 := Generate(q, session, [a], asking), 2 := Generate(r, session, [b, c], Generating)];
    assert events == [Begin(1, q, session), Begin(2, r, session), Acquire(1, a), End(1), Acquire(2, b), Acquire(2, c)];
  }

  /**
   Two calls share a session. The second acquires `b` and `c` while the first asks the server it knows of; the first
   drops them all, and the second, routed to the server it acquired last, asks only `c`. Both end confirmed, nothing is
   counted, and `b` is owed for ever.
   */
  lemma SharedSessionLosesServer(pool: Pool, session: Session, q: Request, r: Request, a: Server, b: Server, c: Server)
    returns (events: seq<Event>)
    requires pool.balanced && q != r && a != b && b != c && c != a
    ensures events == [Begin(1, q, session), Begin(2, r, session), Acquire(1, a), End(1), Acquire(2, b), Acquire(2, c),
                       Attempt(1, a, true), Clean(1), End(2), Reach(2, c), Answer(2, {c}, true)]
    ensures IsRun(pool, events) && After(pool, events).calls == map[] && After(pool, events).client.leaks == 0
    ensures forall x :: Program(session, x) in Owed(pool, events) <==> x == b
  {
    hide *;
    BothAcquire(pool, session, q, r, a, b, c);
    events := [Begin(1, q, session), Begin(2, r, session), Acquire(1, a), End(1), Acquire(2, b), Acquire(2, c)];
    var inflight, second := map[r := session], Generate(r, session, [b, c], Generating);
    var calls := map[1 := Generate(q, session, [a], Finalizing([a], map x | x in [a] :: 0, {})), 2 := second];
    FirstIsDone(pool, events, session, inflight, calls, [a, b, c], {a, b, c}, a);
    assert calls - {1} == map[2 := second];
    events := events + [Attempt(1, a, true)] + [Clean(1)];
    SecondIsDone(pool, events, session, inflight, map[2 := second], {a, b, c} - {a}, c);
    events := events + [End(2)] + [Reach(2, c)] + [Answer(2, {c}, true)];
    assert map[2 := second] - {2} == map[];
    LastShown(pool, events, session, {a, b, c} - {a} - {c});
    assert events == [Begin(1, q, session), Begin(2, r, session), Acquire(1, a), End(1), Acquire(2, b), Acquire(2, c),
                      Attempt(1, a, true), Clean(1), End(2), Reach(2, c), Answer(2, {c}, true)];
  }

  lemma Lists(a: Server, b: Server, c: Server)
    requires a != b && b != c && c != a
    ensures AddServer([], a) == [a] && AddServer([], b) == [b] && AddServer([a], b) == [a, b]
    ensures AddServer([b], c) == [b, c] && AddServer([a, b], c) == [a, b, c]
  {
    hide *;
    AddedLast([], a);
    AddedLast([], b);
    AddedLast([a], b);
    AddedLast([b], c);
    AddedLast([a, b], c);
  }

  lemma AddedLast(servers: seq<Server>, server: Server)
    requires server !in servers
    ensures AddServer(servers, server) == servers + [server]
  {
  }

  lemma FirstIsDone(pool: Pool, events: seq<Event>, session: Session, inflight: map<Request, Session>,
                    calls: map<Call, Generate>, served: seq<Server>, owed: set<Server>, a: Server)
    requires Shows(pool, events, session, inflight, calls, served, owed)
    requires 1 in calls && calls[1].session == session && calls[1].request !in inflight
    requires calls[1].phase == Finalizing([a], map x | x in [a] :: 0, {})
    ensures Shows(pool, events + [Attempt(1, a, true)] + [Clean(1)], session, inflight, calls - {1}, [], owed - {a})
  {
    hide Shows;
    var g, asked := calls[1], Finalizing([a], map[a := 1], {a});
    var tries := map x | x in [a] :: 0;
    assert tries[a := 1] == map[a := 1];
    assert {} + {a} == {a};
    ShowStep(pool, events, Attempt(1, a, true), session, inflight, calls, served, owed, asked, {a});
    assert [a][..0] == [] && Unconfirmed([a], {a}) == [];
    var calls' := calls[1 := g.(phase := asked)];
    ShowFinish(pool, events + [Attempt(1, a, true)], Clean(1), session, inflight, calls', served, owed - {a});
    assert calls' - {1} == calls - {1};
  }

  lemma SecondIsDone(pool: Pool, events: seq<Event>, session: Session, inflight: map<Request, Session>,
                     calls: map<Call, Generate>, owed: set<Server>, c: Server)
    requires Shows(pool, events, session, inflight, calls, [], owed) && pool.balanced
    requires 2 in calls && calls[2].session == session && calls[2].phase.Generating?
    requires calls[2].request in inflight && inflight[calls[2].request] == session
    ensures Shows(pool, events + [End(2)] + [Reach(2, c)] + [Answer(2, {c}, true)], session, inflight - {calls[2].request}, calls - {2},
                  [], owed - {c})
  {
    hide Shows;
    var g, left := calls[2], inflight - {calls[2].request};
    ShowEnd(pool, events, 2, session, inflight, calls, [], owed);
    var calls1 := calls[2 := g.(phase := Untracked(0, Routing))];
    ShowStep(pool, events + [End(2)], Reach(2, c), session, left, calls1, [], owed, Untracked(0, Asking({c})), {c});
    var calls2 := calls1[2 := g.(phase := Untracked(0, Asking({c})))];
    ShowFinish(pool, events + [End(2)] + [Reach(2, c)], Answer(2, {c}, true), session, left, calls2, [], owed - {c});
    assert calls2 - {2} == calls - {2};
  }

  lemma LastShown(pool: Pool, events: seq<Event>, session: Session, owed: set<Server>)
    requires exists inflight, calls, served :: calls == map[] && Shows(pool, events, session, inflight, calls, served, owed)
    ensures IsRun(pool, events) && After(pool, events).calls == map[] && After(pool, events).client.leaks == 0
    ensures forall x :: Program(session, x) in Owed(pool, events) <==> x in owed
  {
    hide IsRun, After, Owed, ServedBy;
  }
}
