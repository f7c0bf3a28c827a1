/**
 Any number of `generate` calls at once on one client, with their acquisitions, finalize attempts and clean-ups in any
 order. Calls may share a session or a request id, and there may be more of them than the client can track.
 */
module FinalizeAccounting {
  import opened Finalize
  import opened SessionTracking

  /** Tells calls of `generate` apart, also when they have the same request id. */
  type Call = nat

  /** Inside the chain for sessions without recorded servers. */
  datatype Stage = Waiting | Routing | Asking(targets: set<Server>) | Broadcasting

  /** Where a call is: acquiring servers, finalizing those recorded at its end, or in the chain. */
  datatype Phase =
    | Generating
    | Finalizing(servers: seq<Server>, tries: map<Server, nat>, acked: set<Server>)
    | Untracked(attempts: nat, stage: Stage)

  /** `acquired` remembers the different servers acquired by the call. */
  datatype Generate = Generate(request: Request, session: Session, acquired: seq<Server>, phase: Phase)

  /** A finished call: how it ended, how much it added to the leak counter, and who acknowledged its last attempt of the chain. */
  datatype Receipt = Receipt(generate: Generate, confirmed: bool, counted: nat, acks: set<Server>)

  datatype State = State(client: Tracking, calls: map<Call, Generate>, receipts: seq<Receipt>)

  /** `Attempt` is one of the three tries at one server; all from `Retry` on belongs to the chain. */
  datatype Event =
    | Begin(call: Call, request: Request, session: Session) | Acquire(call: Call, server: Server) | End(call: Call)
    | Attempt(call: Call, server: Server, ok: bool) | Clean(call: Call)
    | Retry(call: Call) | Reach(call: Call, server: Server) | Answer(call: Call, acks: set<Server>, ok: bool)
    | Broadcast(call: Call) | Abandon(call: Call)

  predicate Ready(phase: Phase, e: Event) {
    match e
    case Begin(_, _, _) => false
    case Acquire(_, _) => phase.Generating?
    case End(_) => phase.Generating?
    case Attempt(_, server, _) =>
      && phase.Finalizing? && server in phase.servers && server in phase.tries
      && server !in phase.acked && phase.tries[server] < ATTEMPTS
    case Clean(_) =>
      phase.Finalizing? && forall x :: x in phase.servers ==> x in phase.acked || (x in phase.tries && phase.tries[x] == ATTEMPTS)
    case Retry(_) => phase.Untracked? && phase.stage.Waiting? && phase.attempts < ATTEMPTS
    case Reach(_, _) => phase.Untracked? && phase.stage.Routing?
    case Answer(_, acks, ok) =>
      phase.Untracked? && if phase.stage.Asking? then ok == (phase.stage.targets <= acks) else phase.stage.Routing? && !ok
    case Broadcast(_) => phase.Untracked? && phase.stage.Waiting? && phase.attempts == ATTEMPTS
    case Abandon(_) => phase.Untracked? && phase.stage.Broadcasting?
  }

  predicate Enabled(s: State, e: Event) {
    if e.Begin? then e.call !in s.calls else e.call in s.calls && Ready(s.calls[e.call].phase, e)
  }

  /** The steps after which a call is over. */
  predicate Ends(e: Event) {
    e.Clean? || e.Abandon? || (e.Answer? && e.ok)
  }

  /** One `finalize_program` of the chain sets out. */
  function SetOut(pool: Pool, client: Tracking, session: Session, attempts: nat): Phase {
    match Route(pool, client, session)
    case Routed => Untracked(attempts, Routing)
    case Direct(servers) => Untracked(attempts, Asking(servers))
  }

  function NextPhase(pool: Pool, client: Tracking, g: Generate, e: Event): Phase
    requires Ready(g.phase, e) && !Ends(e)
  {
    match e
    case Acquire(_, _) => g.phase
    case End(_) =>
      var servers := ServedBy(client, g.session);
      if servers == [] then SetOut(pool, client, g.session, 0) else Finalizing(servers, map x | x in servers :: 0, {})
    case Attempt(_, server, ok) =>
      var p := g.phase;
      p.(tries := p.tries[server := p.tries[server] + 1], acked := if ok then p.acked + {server} else p.acked)
    case Retry(_) => SetOut(pool, client, g.session, g.phase.attempts)
    case Reach(_, server) => Untracked(g.phase.attempts, Asking({server}))
    case Answer(_, _, _) => Untracked(g.phase.attempts + 1, Waiting)
    case Broadcast(_) => Untracked(g.phase.attempts, Broadcasting)
  }

  function Moved(pool: Pool, client: Tracking, g: Generate, e: Event): Generate
    requires Ready(g.phase, e) && !Ends(e)
  {
    Generate(g.request, g.session, if e.Acquire? then AddServer(g.acquired, e.server) else g.acquired,
             NextPhase(pool, client, g, e))
  }

  /** What a step adds to the leak counter. */
  function Counted(g: Generate, e: Event): nat
    requires Ready(g.phase, e)
  {
    if e.Clean? then |Unconfirmed(g.phase.servers, g.phase.acked)| else if e.Abandon? then 1 else 0
  }

  function ReceiptOf(g: Generate, e: Event): Receipt
    requires Ready(g.phase, e)
  {
    Receipt(g, Counted(g, e) == 0, Counted(g, e), if e.Answer? then e.acks else {})
  }

  function ClientAfter(client: Tracking, g: Generate, e: Event): Tracking
    requires Ready(g.phase, e)
  {
    if e.Acquire? then Attributed(client, g.request, e.server)
    else if e.End? then Left(client, g.request)
    else if e.Clean? then Settle(client, g.session, g.phase.servers, g.phase.acked)
    else if Ends(e) then Drop(client, g.session).(leaks := client.leaks + Counted(g, e))
    else client
  }

  function Apply(pool: Pool, s: State, e: Event): State
    requires Enabled(s, e)
  {
    if e.Begin? then
      State(Entered(s.client, e.request, e.session), s.calls[e.call := Generate(e.request, e.session, [], Generating)], s.receipts)
    else
      var g := s.calls[e.call];
      var client := ClientAfter(s.client, g, e);
      if Ends(e) then State(client, s.calls - {e.call}, s.receipts + [ReceiptOf(g, e)])
      else State(client, s.calls[e.call := Moved(pool, s.client, g, e)], s.receipts)
  }

  const START := State(Tracking([], map[], map[], 0), map[], [])

  /** Every event is possible where it happens. */
  predicate IsRun(pool: Pool, events: seq<Event>)
    decreases |events|, 0
  {
    events == [] || (IsRun(pool, Init(events)) && Enabled(After(pool, Init(events)), Last(events)))
  }

  function After(pool: Pool, events: seq<Event>): State
    requires IsRun(pool, events)
    decreases |events|, 1
  {
    if events == [] then START else Apply(pool, After(pool, Init(events)), Last(events))
  }

  function Init<T>(s: seq<T>): seq<T>
    requires s != []
  {
    s[..|s| - 1]
  }

  function Last<T>(s: seq<T>): T
    requires s != []
  {
    s[|s| - 1]
  }

  // ---------------------------------------------------------------- what holds

  function Total(receipts: seq<Receipt>): nat {
    if receipts == [] then 0 else Total(Init(receipts)) + Last(receipts).counted
  }

  /**
   Every server recorded at the call's end acknowledged within three attempts or was counted after all of them failed; a
   call for which none was recorded ended with one of three attempts that everybody asked acknowledged, or after all failed.
   */
  ghost predicate Accounted(r: Receipt) {
    match r.generate.phase
    case Generating => false
    case Finalizing(servers, tries, acked) =>
      && servers != [] && Distinct(servers)
      && acked <= (set x | x in servers) && |servers| == |acked| + r.counted
      && (r.confirmed <==> r.counted == 0)
      && forall x :: x in servers ==>
           x in tries && 1 <= tries[x] <= 3 && (x in acked || tries[x] == 3)
    case Untracked(attempts, stage) =>
      && r.counted == (if r.confirmed then 0 else 1)
      && if r.confirmed then attempts < 3 && stage.Asking? && stage.targets <= r.acks
         else attempts == 3 && stage.Broadcasting?
  }

  ghost predicate PhaseInv(phase: Phase) {
    match phase
    case Generating => true
    case Finalizing(servers, tries, acked) =>
      && servers != [] && Distinct(servers) && tries.Keys == (set x | x in servers) && acked <= tries.Keys
      && (forall x :: x in tries ==> tries[x] <= ATTEMPTS) && forall x :: x in acked ==> 1 <= tries[x]
    case Untracked(attempts, stage) =>
      attempts <= ATTEMPTS && (if stage.Broadcasting? then attempts == ATTEMPTS else stage.Waiting? || attempts < ATTEMPTS)
  }

  predicate HasCall(calls: map<Call, Generate>, session: Session) {
    exists c :: c in calls && calls[c].session == session
  }

  /** A call under way that acquires servers under `request` for `session`. */
  ghost predicate Serves(calls: map<Call, Generate>, request: Request, session: Session) {
    exists c :: c in calls && calls[c].phase.Generating? && calls[c].request == request && calls[c].session == session
  }

  ghost predicate CallsInv(client: Tracking, calls: map<Call, Generate>) {
    && (forall c :: c in calls ==> PhaseInv(calls[c].phase))
    && (forall r :: r in client.inflight ==> Serves(calls, r, client.inflight[r]))
    && forall session :: session in client.served ==> HasCall(calls, session)
  }

  ghost predicate ReceiptsInv(receipts: seq<Receipt>, leaks: nat) {
    && (forall k :: 0 <= k < |receipts| ==> Accounted(receipts[k]))
    && leaks == Total(receipts)
  }

  ghost predicate Inv(s: State) {
    CacheInv(s.client) && CallsInv(s.client, s.calls) && ReceiptsInv(s.receipts, s.client.leaks)
  }

  // ---------------------------------------------------------------- steps

  lemma InvParts(s: State)
    requires Inv(s)
    ensures CacheInv(s.client) && CallsInv(s.client, s.calls) && ReceiptsInv(s.receipts, s.client.leaks)
    ensures forall c :: c in s.calls ==> PhaseInv(s.calls[c].phase)
  {
    hide CacheInv, ReceiptsInv, PhaseInv, Serves, HasCall;
  }

  lemma InvWhole(s: State)
    requires CacheInv(s.client) && CallsInv(s.client, s.calls) && ReceiptsInv(s.receipts, s.client.leaks)
    ensures Inv(s)
  {
    hide CacheInv, CallsInv, ReceiptsInv;
  }

  lemma CacheFrame(t: Tracking, t': Tracking)
    requires CacheInv(t) && t'.order == t.order && t'.served == t.served
    ensures CacheInv(t')
  {
    hide Distinct;
  }

  /** What a step makes of the client: nothing new is tracked but the session of the request that acquired. */
  lemma ClientSteps(client: Tracking, g: Generate, e: Event)
    requires CacheInv(client) && Ready(g.phase, e)
    ensures var client' := ClientAfter(client, g, e);
            && CacheInv(client') && client'.leaks == client.leaks + Counted(g, e)
            && client'.inflight == (if e.End? then client.inflight - {g.request} else client.inflight)
            && (Ends(e) ==> g.session !in client'.served)
            && forall session :: session in client'.served ==>
                 session in client.served || (e.Acquire? && g.request in client.inflight && session == client.inflight[g.request])
  {
    hide CacheInv, Record, Drop, Unconfirmed, Ready, ServedBy, AddServer;
    var client' := ClientAfter(client, g, e);
    if e.Acquire? {
      if g.request in client.inflight {
        RecordEffect(client, client.inflight[g.request], e.server);
        RecordFrame(client, client.inflight[g.request], e.server);
      }
    } else if Ends(e) {
      DropEffect(client, g.session);
      CacheFrame(Drop(client, g.session), client');
    } else {
      CacheFrame(client, client');
    }
  }

  lemma PhaseSteps(pool: Pool, client: Tracking, g: Generate, e: Event)
    requires CacheInv(client) && PhaseInv(g.phase) && Ready(g.phase, e) && !Ends(e)
    ensures PhaseInv(NextPhase(pool, client, g, e))
    ensures NextPhase(pool, client, g, e).Generating? <==> e.Acquire?
  {
    hide TrackingInv, Distinct, Route;
  }

  /** One call moves on; what is tracked belongs to calls as before. */
  lemma OtherCalls(client: Tracking, client': Tracking, calls: map<Call, Generate>, c: Call, g: Generate)
    requires CallsInv(client, calls) && c in calls && PhaseInv(g.phase)
    requires g.request == calls[c].request && g.session == calls[c].session
    requires g.phase.Generating? || !calls[c].phase.Generating? || g.request !in client'.inflight
    requires forall r :: r in client'.inflight ==> r in client.inflight && client'.inflight[r] == client.inflight[r]
    requires forall session :: session in client'.served ==>
               session in client.served || exists r :: r in client.inflight && session == client.inflight[r]
    ensures CallsInv(client', calls[c := g])
  {
    hide PhaseInv;
    var moved := calls[c := g];
    forall r | r in client'.inflight
      ensures Serves(moved, r, client'.inflight[r])
    {
      assert Serves(calls, r, client.inflight[r]);
      var d :| d in calls && calls[d].phase.Generating? && calls[d].request == r && calls[d].session == client.inflight[r];
      assert moved[d].phase.Generating?;
    }
    forall session | session in client'.served
      ensures HasCall(moved, session)
    {
      if session !in client.served {
        var r :| r in client.inflight && session == client.inflight[r];
        assert Serves(calls, r, session);
      } else {
        assert HasCall(calls, session);
      }
      var d :| d in calls && calls[d].session == session;
      assert moved[d].session == session;
    }
  }

  /** One call is over and its session is dropped. */
  lemma CallLeaves(client: Tracking, client': Tracking, calls: map<Call, Generate>, c: Call)
    requires CallsInv(client, calls) && c in calls && !calls[c].phase.Generating?
    requires client'.inflight == client.inflight
    requires forall session :: session in client'.served ==> session in client.served && session != calls[c].session
    ensures CallsInv(client', calls - {c})
  {
    hide PhaseInv;
    var rest := calls - {c};
    forall r | r in client'.inflight
      ensures Serves(rest, r, client'.inflight[r])
    {
      assert Serves(calls, r, client.inflight[r]);
      var d :| d in calls && calls[d].phase.Generating? && calls[d].request == r && calls[d].session == client.inflight[r];
      assert d in rest;
    }
    forall session | session in client'.served
      ensures HasCall(rest, session)
    {
      assert HasCall(calls, session);
      var d :| d in calls && calls[d].session == session;
      assert d in rest;
    }
  }

  lemma NewCall(client: Tracking, calls: map<Call, Generate>, c: Call, request: Request, session: Session)
    requires CallsInv(client, calls) && c !in calls
    ensures CallsInv(Entered(client, request, session), calls[c := Generate(request, session, [], Generating)])
  {
    var client', more := Entered(client, request, session), calls[c := Generate(request, session, [], Generating)];
    assert more[c].phase.Generating? && PhaseInv(more[c].phase);
    hide PhaseInv;
    forall r | r in client'.inflight
      ensures Serves(more, r, client'.inflight[r])
    {
      if r != request {
        assert Serves(calls, r, client.inflight[r]);
        var d :| d in calls && calls[d].phase.Generating? && calls[d].request == r && calls[d].session == client.inflight[r];
        assert more[d] == calls[d];
      }
    }
    forall x | x in client'.served
      ensures HasCall(more, x)
    {
      assert HasCall(calls, x);
      var d :| d in calls && calls[d].session == x;
      assert more[d] == calls[d];
    }
  }

  lemma ReceiptsGrow(receipts: seq<Receipt>, leaks: nat, receipt: Receipt)
    requires ReceiptsInv(receipts, leaks) && Accounted(receipt)
    ensures ReceiptsInv(receipts + [receipt], leaks + receipt.counted)
  {
    assert Init(receipts + [receipt]) == receipts;
    hide Accounted;
  }

  lemma EndAccounts(g: Generate, e: Event)
    requires PhaseInv(g.phase) && Ready(g.phase, e) && Ends(e)
    ensures Accounted(ReceiptOf(g, e))
  {
    hide Distinct, Unconfirmed;
    if e.Clean? {
      UnconfirmedCount(g.phase.servers, g.phase.acked);
    }
  }

  lemma ReceiptIs(g: Generate, e: Event)
    requires Ready(g.phase, e)
    ensures ReceiptOf(g, e).generate == g && ReceiptOf(g, e).counted == Counted(g, e)
  {
    hide Ready, Counted;
  }

  lemma ApplyIs(pool: Pool, s: State, e: Event)
    requires Enabled(s, e) && !e.Begin?
    ensures e.call in s.calls
    ensures var g, s' := s.calls[e.call], Apply(pool, s, e);
            && Ready(g.phase, e) && s'.client == ClientAfter(s.client, g, e)
            && if Ends(e) then
                 && s'.calls == s.calls - {e.call}
                 && s'.receipts == s.receipts + [ReceiptOf(g, e)]
               else s'.calls == s.calls[e.call := Moved(pool, s.client, g, e)] && s'.receipts == s.receipts
  {
    hide ClientAfter, Moved, Counted, Ready;
  }

  lemma MovedIs(pool: Pool, client: Tracking, g: Generate, e: Event)
    requires Ready(g.phase, e) && !Ends(e)
    ensures var g' := Moved(pool, client, g, e);
            && g'.request == g.request && g'.session == g.session && g'.phase == NextPhase(pool, client, g, e)
            && g'.acquired == if e.Acquire? then AddServer(g.acquired, e.server) else g.acquired
  {
    hide NextPhase, Ready, AddServer;
  }

  lemma BeginIs(pool: Pool, s: State, e: Event)
    requires Enabled(s, e) && e.Begin?
    ensures Apply(pool, s, e) == State(Entered(s.client, e.request, e.session),
                                       s.calls[e.call := Generate(e.request, e.session, [], Generating)], s.receipts)
    ensures e.call !in s.calls
  {
  }

  lemma WhichReady(phase: Phase, e: Event)
    requires Ready(phase, e)
    ensures !e.Begin? && (e.Acquire? || e.End? <==> phase.Generating?)
    ensures e.End? || Ends(e) ==> !e.Acquire?
    ensures Ends(e) ==> !e.End?
  {
  }

  lemma EnteredIs(client: Tracking, request: Request, session: Session)
    ensures var t := Entered(client, request, session);
            && t.order == client.order && t.served == client.served && t.leaks == client.leaks
            && t.inflight == client.inflight[request := session]
  {
  }

  lemma StepKeepsInv(pool: Pool, s: State, e: Event)
    requires Inv(s) && Enabled(s, e)
    ensures Inv(Apply(pool, s, e)) && s.client.leaks <= Apply(pool, s, e).client.leaks
  {
    hide *;
    InvParts(s);
    var s' := Apply(pool, s, e);
    if e.Begin? {
      BeginIs(pool, s, e);
      EnteredIs(s.client, e.request, e.session);
      CacheFrame(s.client, s'.client);
      NewCall(s.client, s.calls, e.call, e.request, e.session);
    } else {
      ApplyIs(pool, s, e);
      var g := s.calls[e.call];
      WhichReady(g.phase, e);
      ClientSteps(s.client, g, e);
      if Ends(e) {
        CallLeaves(s.client, s'.client, s.calls, e.call);
        EndAccounts(g, e);
        ReceiptIs(g, e);
        ReceiptsGrow(s.receipts, s.client.leaks, ReceiptOf(g, e));
      } else {
        MovedIs(pool, s.client, g, e);
        PhaseSteps(pool, s.client, g, e);
        NothingCounted(g, e);
        OtherCalls(s.client, s'.client, s.calls, e.call, Moved(pool, s.client, g, e));
      }
    }
    InvWhole(s');
  }

  lemma NothingCounted(g: Generate, e: Event)
    requires Ready(g.phase, e) && !Ends(e)
    ensures Counted(g, e) == 0
  {
  }

  // ---------------------------------------------------------------- runs

  lemma RunParts(pool: Pool, events: seq<Event>)
    requires IsRun(pool, events) && events != []
    ensures IsRun(pool, Init(events)) && Enabled(After(pool, Init(events)), Last(events))
    ensures After(pool, events) == Apply(pool, After(pool, Init(events)), Last(events))
    ensures |Init(events)| < |events|
  {
    hide Enabled, Apply;
  }

  lemma NothingYet(pool: Pool)
    ensures After(pool, []) == START && Inv(START)
  {
    assert START.receipts == [];
  }

  lemma {:induction false} RunKeepsInv(pool: Pool, events: seq<Event>)
    requires IsRun(pool, events)
    ensures Inv(After(pool, events))
    decreases |events|
  {
    hide *;
    if events == [] {
      NothingYet(pool);
    } else {
      RunParts(pool, events);
      RunKeepsInv(pool, Init(events));
      StepKeepsInv(pool, After(pool, Init(events)), Last(events));
    }
  }

  /** Whatever the interleaving: every finished call is accounted for and the counter is the sum of what they left. */
  lemma LeaksAreAccounted(pool: Pool, events: seq<Event>)
    requires IsRun(pool, events)
    ensures var s := After(pool, events);
            && (forall k :: 0 <= k < |s.receipts| ==> Accounted(s.receipts[k]))
            && s.client.leaks == Total(s.receipts)
  {
    hide Accounted, After, IsRun;
    RunKeepsInv(pool, events);
  }

  /** The counter never decreases. */
  lemma {:induction false} LeaksNeverDecrease(pool: Pool, events: seq<Event>, k: nat)
    requires IsRun(pool, events) && k <= |events|
    ensures IsRun(pool, events[..k]) && After(pool, events[..k]).client.leaks <= After(pool, events).client.leaks
    decreases |events|
  {
    hide *;
    if k == |events| {
      assert events[..k] == events;
    } else {
      RunParts(pool, events);
      RunKeepsInv(pool, Init(events));
      StepKeepsInv(pool, After(pool, Init(events)), Last(events));
      Shorter(events, k);
      LeaksNeverDecrease(pool, Init(events), k);
    }
  }

  lemma Shorter<T>(s: seq<T>, k: nat)
    requires k < |s|
    ensures Init(s)[..k] == s[..k] && |Init(s)| == |s| - 1
    ensures k < |s| - 1 ==> Init(s)[k] == s[k]
  {
  }

  /** Different tracked sessions belong to different calls, so there are no more of them than calls. */
  lemma {:induction false} NoMoreSessionsThanCalls(order: seq<Session>, calls: map<Call, Generate>)
    requires Distinct(order) && forall session :: session in order ==> HasCall(calls, session)
    ensures |order| <= |calls|
  {
    if order != [] {
      var n := |order| - 1;
      var init, last := order[..n], order[n];
      assert order == init + [last];
      DistinctMore(init, last);
      assert HasCall(calls, last);
      var r :| r in calls && calls[r].session == last;
      var rest := calls - {r};
      forall session | session in init
        ensures HasCall(rest, session)
      {
        assert session in order;
        var q :| q in calls && calls[q].session == session;
        assert q in rest;
      }
      NoMoreSessionsThanCalls(init, rest);
      assert calls.Keys == rest.Keys + {r};
    }
  }

  /** A session stays tracked only while a call of it is under way, so only more calls than the limit can make one leave. */
  lemma TrackingIsReleased(pool: Pool, events: seq<Event>)
    requires IsRun(pool, events)
    ensures var s := After(pool, events);
            && |s.client.order| <= |s.calls|
            && (forall session :: session in s.client.served ==> HasCall(s.calls, session))
            && (s.calls == map[] ==> s.client.served == map[] && s.client.inflight == map[])
  {
    hide After, IsRun, ReceiptsInv, HasCall, Distinct;
    RunKeepsInv(pool, events);
    var s := After(pool, events);
    NoMoreSessionsThanCalls(s.client.order, s.calls);
    if s.calls == map[] {
      NoCall(s.client);
    }
  }

  lemma NoCall(client: Tracking)
    requires CallsInv(client, map[])
    ensures client.served == map[] && client.inflight == map[]
  {
    assert forall session :: !HasCall(map[], session);
    assert forall r, session :: !Serves(map[], r, session);
    assert client.served.Keys == {} && client.inflight.Keys == {};
  }
}
