/**
 Draining a program's requests and finalizing it once (`thunderagent.py`). All tasks share one thread and give it up
 only at an `await`, so the code between two awaits is one step.
 */
module ProgramScopes {
  /** The fields of a scope, and whether its finalize lock is taken. */
  datatype Scope = Scope(accepting: bool, inflight: int, idle: bool, finalized: bool, locked: bool) {
    function Enter(): Scope {
      this.(inflight := inflight + 1, idle := false)
    }

    function Exit(): Scope {
      this.(inflight := inflight - 1, idle := idle || inflight == 1)
    }

    function Stop(): Scope {
      this.(accepting := false)
    }

    function EndFinalize(completed: bool): Scope {
      this.(finalized := finalized || completed, locked := false)
    }
  }

  const NEW_SCOPE := Scope(true, 0, true, false, false)

  class ProgramScope {
    var acceptingRequests: bool
    var inflight: int
    var idle: bool
    var finalized: bool
    var finalizeLocked: bool

    ghost function State(): Scope
      reads this
    {
      Scope(acceptingRequests, inflight, idle, finalized, finalizeLocked)
    }

    constructor ()
      ensures State() == NEW_SCOPE
    {
      acceptingRequests, inflight, idle, finalized, finalizeLocked := true, 0, true, false, false;
    }

    /** `request` up to its `yield`; a closing scope rejects. */
    method EnterRequest() returns (admitted: bool)
      modifies this
      ensures admitted == old(acceptingRequests)
      ensures State() == if admitted then old(State()).Enter() else old(State())
    {
      if !acceptingRequests {
        return false;
      }
      inflight := inflight + 1;
      idle := false;
      admitted := true;
    }

    /** The `finally` of `request`. */
    method ExitRequest()
      modifies this
      ensures State() == old(State()).Exit()
    {
      inflight := inflight - 1;
      if inflight == 0 {
        idle := true;
      }
    }

    /** `close` up to its first await; whether it has to wait. */
    method BeginClose() returns (wait: bool)
      modifies this
      ensures State() == old(State()).Stop() && wait == !old(idle)
    {
      acceptingRequests := false;
      wait := !idle;
    }

    /** `close` from taking the free lock to the call of `finalize`; a finalized program is left alone. */
    method TakeLock() returns (mustFinalize: bool)
      requires !finalizeLocked
      modifies this
      ensures mustFinalize == !old(finalized)
      ensures State() == old(State()).(locked := mustFinalize)
    {
      finalizeLocked := true;
      if finalized {
        finalizeLocked := false;
        return false;
      }
      mustFinalize := true;
    }

    /** `close` from the end of `finalize`, which may have raised. */
    method EndFinalize(completed: bool)
      modifies this
      ensures State() == old(State()).EndFinalize(completed)
    {
      if completed {
        finalized := true;
      }
      finalizeLocked := false;
    }
  }

  // ---------------------------------------------------------------- the protocol

  /** Where a call of `close` is. A set event wakes its waiters, who resume later. */
  datatype Closer = AwaitIdle(woken: bool) | AwaitLock | Finalizing

  /**
   A scope, the requests inside it, the calls of `close` under way; how many calls of `finalize` began and how many
   completed, and whether some `close` returned.
   */
  datatype State = State(scope: Scope, requests: set<nat>, closers: map<nat, Closer>,
                         began: nat, completed: nat, returned: bool)

  datatype Event =
    | Enter(id: nat) | Exit(id: nat) | Stop | Close(id: nat) | Wake(id: nat) | Acquire(id: nat)
    | Finish(id: nat, ok: bool) | Cancel(id: nat)

  predicate Enabled(s: State, e: Event) {
    match e
    case Enter(id) => id !in s.requests
    case Exit(id) => id in s.requests
    case Stop => true
    case Close(id) => id !in s.closers
    case Wake(id) => id in s.closers && s.closers[id] == AwaitIdle(true)
    case Acquire(id) => id in s.closers && s.closers[id].AwaitLock? && !s.scope.locked
    case Finish(id, _) => id in s.closers && s.closers[id].Finalizing?
    case Cancel(id) => id in s.closers
  }

  function WakeAll(closers: map<nat, Closer>): map<nat, Closer> {
    map id | id in closers :: if closers[id].AwaitIdle? then AwaitIdle(true) else closers[id]
  }

  function Apply(s: State, e: Event): State
    requires Enabled(s, e)
  {
    match e
    case Enter(id) =>
      if !s.scope.accepting then s  // RuntimeError
      else s.(scope := s.scope.Enter(), requests := s.requests + {id})
    case Exit(id) =>
      s.(scope := s.scope.Exit(), requests := s.requests - {id},
         closers := if s.scope.inflight == 1 then WakeAll(s.closers) else s.closers)
    case Stop => s.(scope := s.scope.Stop())
    case Close(id) =>
      s.(scope := s.scope.Stop(), closers := s.closers[id := if s.scope.idle then AwaitLock else AwaitIdle(false)])
    case Wake(id) => s.(closers := s.closers[id := AwaitLock])
    case Acquire(id) =>
      if s.scope.finalized then s.(closers := s.closers - {id}, returned := true)
      else s.(scope := s.scope.(locked := true), closers := s.closers[id := Finalizing], began := s.began + 1)
    case Finish(id, ok) =>
      s.(scope := s.scope.EndFinalize(ok), closers := s.closers - {id},
         completed := s.completed + if ok then 1 else 0, returned := s.returned || ok)
    case Cancel(id) =>
      s.(scope := if s.closers[id].Finalizing? then s.scope.EndFinalize(false) else s.scope, closers := s.closers - {id})
  }

  ghost predicate Follows(s: State, s': State) {
    exists e :: Enabled(s, e) && s' == Apply(s, e)
  }

  ghost predicate IsRun(run: seq<State>) {
    && run != []
    && run[0] == State(NEW_SCOPE, {}, map[], 0, 0, false)
    && forall k :: 0 <= k < |run| - 1 ==> Follows(run[k], run[k + 1])
  }

  /** Nothing is in flight and nothing will be. */
  predicate Drained(s: State) {
    s.requests == {} && !s.scope.accepting
  }

  /** Such a `close` has seen the scope idle after it closed the door. */
  predicate PastIdle(c: Closer) {
    c != AwaitIdle(false)
  }

  ghost predicate Inv(s: State) {
    && s.scope.inflight == |s.requests| && (s.scope.idle <==> s.requests == {})
    && (s.closers != map[] ==> !s.scope.accepting)
    && (forall id :: id in s.closers ==> if PastIdle(s.closers[id]) then Drained(s) else s.requests != {})
    && (s.scope.locked ==> exists id :: id in s.closers && s.closers[id].Finalizing?)
    && (forall id :: id in s.closers && s.closers[id].Finalizing? ==> s.scope.locked && !s.scope.finalized && s.began > 0)
    && (forall i, j :: i in s.closers && j in s.closers && s.closers[i].Finalizing? && s.closers[j].Finalizing? ==> i == j)
    && s.completed == (if s.scope.finalized then 1 else 0) && s.completed <= s.began
    && (s.began > 0 ==> Drained(s)) && (s.returned <==> s.scope.finalized)
  }

  lemma ExitKeepsInv(s: State, id: nat)
    requires Inv(s) && id in s.requests
    ensures Inv(Apply(s, Exit(id)))
  {
    var rest := s.requests - {id};
    assert s.requests == rest + {id};
    if s.scope.inflight == 1 {
      assert rest == {};
    } else {
      assert rest != {};
    }
  }

  lemma StepKeepsInv(s: State, e: Event)
    requires Inv(s) && Enabled(s, e)
    ensures Inv(Apply(s, e))
  {
    var next := Apply(s, e);
    if e.Exit? {
      ExitKeepsInv(s, e.id);
    } else if e.Acquire? && !s.scope.finalized {
      assert next.closers[e.id].Finalizing?;
    } else if next.scope.locked {
      var holder :| holder in s.closers && s.closers[holder].Finalizing?;
      assert next.closers[holder].Finalizing?;
    }
  }

  lemma {:induction false} RunKeepsInv(run: seq<State>, k: nat)
    requires IsRun(run) && k < |run|
    ensures Inv(run[k])
  {
    if k > 0 {
      RunKeepsInv(run, k - 1);
      assert Follows(run[k - 1], run[k - 1 + 1]);
      var e :| Enabled(run[k - 1], e) && run[k] == Apply(run[k - 1], e);
      StepKeepsInv(run[k - 1], e);
    }
  }

  /** The event `idle` says exactly that nothing is in flight. */
  lemma IdleMeansNothingInFlight(run: seq<State>, k: nat)
    requires IsRun(run) && k < |run|
    ensures run[k].scope.idle <==> run[k].requests == {}
    ensures run[k].scope.inflight == |run[k].requests|
  {
    RunKeepsInv(run, k);
  }

  /** From the first call of `finalize` on nothing is in flight and no request is admitted. */
  lemma {:induction false} FinalizeComesLast(run: seq<State>, i: nat, j: nat)
    requires IsRun(run) && i <= j < |run| && run[i].began > 0
    ensures run[j].began > 0 && run[j].requests == {} && !run[j].scope.accepting
  {
    if i < j {
      FinalizeComesLast(run, i, j - 1);
      assert Follows(run[j - 1], run[j - 1 + 1]);
    }
    RunKeepsInv(run, j);
  }

  /** Calls of `finalize` never overlap, at most one completes, and none begins after that. */
  lemma FinalizedOnce(run: seq<State>, i: nat, j: nat)
    requires IsRun(run) && i <= j < |run|
    ensures forall a, b | a in run[j].closers && b in run[j].closers ::
              run[j].closers[a].Finalizing? && run[j].closers[b].Finalizing? ==> a == b
    ensures run[j].completed <= 1
    ensures run[i].completed == 1 ==> run[j].completed == 1 && run[j].began == run[i].began
  {
    RunKeepsInv(run, j);
    if run[i].completed == 1 {
      NothingAfterCompletion(run, i, j);
    }
  }

  lemma {:induction false} NothingAfterCompletion(run: seq<State>, i: nat, j: nat)
    requires IsRun(run) && i <= j < |run| && run[i].completed == 1
    ensures run[j].completed == 1 && run[j].began == run[i].began
  {
    if i < j {
      NothingAfterCompletion(run, i, j - 1);
      RunKeepsInv(run, j - 1);
      assert Follows(run[j - 1], run[j - 1 + 1]);
    }
  }

  /** Some `close` has returned exactly when the program is finalized. */
  lemma CloseFinalizes(run: seq<State>, k: nat)
    requires IsRun(run) && k < |run|
    ensures run[k].returned <==> run[k].completed == 1
  {
    RunKeepsInv(run, k);
  }

  /** Once the requests have left, some `close` can always go on: no wake-up is lost and the lock is not left taken. */
  lemma NobodyIsStuck(run: seq<State>, k: nat)
    requires IsRun(run) && k < |run| && run[k].requests == {} && run[k].closers != map[]
    ensures exists id ::
              Enabled(run[k], Wake(id)) || Enabled(run[k], Acquire(id)) || Enabled(run[k], Finish(id, true))
  {
    var s := run[k];
    RunKeepsInv(run, k);
    var id :| id in s.closers;
    match s.closers[id] {
      case AwaitIdle(woken) => assert Enabled(s, Wake(id));
      case Finalizing => assert Enabled(s, Finish(id, true));
      case AwaitLock =>
        if s.scope.locked {
          var holder :| holder in s.closers && s.closers[holder].Finalizing?;
          assert Enabled(s, Finish(holder, true));
        } else {
          assert Enabled(s, Acquire(id));
        }
    }
  }
}
