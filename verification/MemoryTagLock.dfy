/**
 Concurrent callers of `sglang_release` and `sglang_resume`: they wait for the tag lock in any order, and the
 calls of one fan-out end in any order, between steps of the other callers.
 */
module MemoryTagLock {
  import opened MemoryTags

  /** Who holds the lock: nobody, or an operation that found `before` and got some replies of its fan-out. */
  datatype Phase = Idle | Fanning(op: Op, before: Node, replies: map<nat, Outcome>)

  /** `called` and `history` remember all operations that began to wait and those that finished, in their order. */
  datatype State = State(node: Node, waiting: multiset<Op>, phase: Phase, called: multiset<Op>, history: seq<Step>)

  datatype Event = Call(op: Op) | Acquire(op: Op) | Reply(shard: nat, outcome: Outcome) | Finish

  /** How the fan-out ended on every shard; those without a reply were not asked. */
  function Outcomes(replies: map<nat, Outcome>, n: nat): (r: seq<Outcome>)
    ensures |r| == n
  {
    seq(n, i requires 0 <= i < n => if i in replies then replies[i] else Returned)
  }

  predicate Enabled(n: nat, s: State, e: Event)
    requires |s.node.engines| == n
  {
    match e
    case Call(_) => true
    case Acquire(op) => s.phase.Idle? && op in s.waiting
    case Reply(i, _) =>
      && s.phase.Fanning? && i < n && |s.phase.before.engines| == n
      && !Asked(s.phase.before, s.phase.op)[i].Nothing? && i !in s.phase.replies
    case Finish =>
      && s.phase.Fanning? && |s.phase.before.engines| == |s.node.recorded| == n
      && forall i :: 0 <= i < n && !Asked(s.phase.before, s.phase.op)[i].Nothing? ==> i in s.phase.replies
  }

  ghost function Apply(n: nat, s: State, e: Event): State
    requires |s.node.engines| == n && Enabled(n, s, e)
  {
    match e
    case Call(op) => s.(waiting := s.waiting + multiset{op}, called := s.called + multiset{op})
    case Acquire(op) =>
      s.(waiting := s.waiting - multiset{op}, phase := Fanning(op, s.node, map[]),
         node := s.node.(recorded := Recorded(s.node)))
    case Reply(i, outcome) =>
      var request := Asked(s.phase.before, s.phase.op)[i];
      s.(node := s.node.(engines := s.node.engines[i := Serve(s.node.engines[i], request, outcome)]),
         phase := s.phase.(replies := s.phase.replies[i := outcome]))
    case Finish =>
      var asked, outcomes := Asked(s.phase.before, s.phase.op), Outcomes(s.phase.replies, n);
      var recorded := RecordAll(s.node.recorded, asked, outcomes);
      s.(node := Node(recorded, if NobodyAsked(asked) then s.node.view else Union(recorded), s.node.engines),
         phase := Idle, history := s.history + [Step(s.phase.op, outcomes)])
  }

  ghost predicate Follows(n: nat, s: State, s': State)
    requires |s.node.engines| == n
  {
    exists e :: Enabled(n, s, e) && s' == Apply(n, s, e)
  }

  ghost predicate IsRun(n: nat, run: seq<State>) {
    && run != []
    && run[0] == State(Fresh(n), multiset{}, Idle, multiset{}, [])
    && (forall k :: 0 <= k < |run| ==> |run[k].node.engines| == n)
    && forall k :: 0 <= k < |run| - 1 ==> Follows(n, run[k], run[k + 1])
  }

  // ---------------------------------------------------------------- invariant

  function Ops(steps: seq<Step>): multiset<Op> {
    if steps == [] then multiset{} else Ops(steps[..|steps| - 1]) + multiset{steps[|steps| - 1].op}
  }

  function Holder(phase: Phase): multiset<Op> {
    if phase.Idle? then multiset{} else multiset{phase.op}
  }

  /** During a fan-out the shards that replied were served once, and nothing else has changed. */
  ghost predicate FanningInv(n: nat, s: State)
    requires s.phase.Fanning?
  {
    var b := s.phase.before;
    && |b.engines| == |s.node.engines| == n && Sized(s.history, n) && b == Run(n, s.history)
    && s.node.recorded == Recorded(b) && s.node.view == b.view
    && (forall i :: i in s.phase.replies ==> 0 <= i < n && !Asked(b, s.phase.op)[i].Nothing?)
    && forall i :: 0 <= i < n ==>
         s.node.engines[i] == if i in s.phase.replies then Serve(b.engines[i], Asked(b, s.phase.op)[i], s.phase.replies[i])
                              else b.engines[i]
  }

  ghost predicate Inv(n: nat, s: State) {
    && |s.node.engines| == n && Sized(s.history, n)
    && s.called == s.waiting + Holder(s.phase) + Ops(s.history)
    && if s.phase.Idle? then s.node == Run(n, s.history) else FanningInv(n, s)
  }

  lemma FinishIsSerial(n: nat, s: State)
    requires Inv(n, s) && Enabled(n, s, Finish)
    ensures Inv(n, Apply(n, s, Finish))
  {
    hide Serve, Record, Asked, Run, Ops, Sized, Union, Recorded;
    var b, op, outcomes := s.phase.before, s.phase.op, Outcomes(s.phase.replies, n);
    EnginesServed(n, s, Asked(b, op), outcomes);
    HistoryGrows(n, s.history, op, outcomes);
    hide ServeAll, RecordAll, FanningInv, NobodyAsked;
    assert Apply(n, s, Finish).node == MemoryTags.Apply(b, op, outcomes);
  }

  /** When all replies are in, every engine was served with its reply or not asked. */
  lemma EnginesServed(n: nat, s: State, asked: seq<Request>, outcomes: seq<Outcome>)
    requires Inv(n, s) && Enabled(n, s, Finish)
    requires asked == Asked(s.phase.before, s.phase.op) && outcomes == Outcomes(s.phase.replies, n)
    ensures |asked| == |s.phase.before.engines| == n && s.node.engines == ServeAll(s.phase.before.engines, asked, outcomes)
    ensures s.phase.before == Run(n, s.history) && s.node.recorded == Recorded(s.phase.before)
    ensures s.node.view == s.phase.before.view
  {
    hide Record, Asked, Run, Recorded;
    var b := s.phase.before;
    forall i | 0 <= i < n
      ensures s.node.engines[i] == Serve(b.engines[i], asked[i], outcomes[i])
    {
      if i !in s.phase.replies {
        assert asked[i].Nothing?;
        NotAsked(b.engines[i], outcomes[i]);
      }
    }
    hide Serve;
  }

  lemma NotAsked(e: Engine, outcome: Outcome)
    ensures Serve(e, Nothing, outcome) == e
  {
  }

  lemma HistoryGrows(n: nat, steps: seq<Step>, op: Op, outcomes: seq<Outcome>)
    requires Sized(steps, n) && |outcomes| == n
    ensures var more := steps + [Step(op, outcomes)];
            && Sized(more, n) && Run(n, more) == MemoryTags.Apply(Run(n, steps), op, outcomes)
            && Ops(more) == Ops(steps) + multiset{op}
  {
    var more := steps + [Step(op, outcomes)];
    assert more[..|steps|] == steps;
    hide MemoryTags.Apply;
  }

  lemma ReplyServesOnce(n: nat, s: State, i: nat, outcome: Outcome)
    requires Inv(n, s) && Enabled(n, s, Reply(i, outcome))
    ensures Inv(n, Apply(n, s, Reply(i, outcome)))
  {
    hide Serve, Asked, Recorded, Run, Ops, Sized;
  }

  lemma CallStep(n: nat, s: State, op: Op)
    requires Inv(n, s)
    ensures Inv(n, Apply(n, s, Event.Call(op)))
  {
    hide Serve, Asked, Recorded, Run, Ops, Sized, Outcomes;
  }

  lemma AcquireStep(n: nat, s: State, op: Op)
    requires Inv(n, s) && Enabled(n, s, Acquire(op))
    ensures Inv(n, Apply(n, s, Acquire(op)))
  {
    hide Serve, Asked, Recorded, Run, Ops, Sized, Outcomes;
    assert s.waiting == (s.waiting - multiset{op}) + multiset{op};
  }

  lemma StepKeepsInv(n: nat, s: State, e: Event)
    requires Inv(n, s) && Enabled(n, s, e)
    ensures Inv(n, Apply(n, s, e))
  {
    hide *;
    match e {
      case Call(op) => CallStep(n, s, op);
      case Acquire(op) => AcquireStep(n, s, op);
      case Reply(i, outcome) => ReplyServesOnce(n, s, i, outcome);
      case Finish => FinishIsSerial(n, s);
    }
  }

  lemma {:induction false} RunKeepsInv(n: nat, run: seq<State>, k: nat)
    requires IsRun(n, run) && k < |run|
    ensures Inv(n, run[k])
  {
    if k > 0 {
      RunKeepsInv(n, run, k - 1);
      assert Follows(n, run[k - 1], run[k - 1 + 1]);
      var e :| Enabled(n, run[k - 1], e) && run[k] == Apply(n, run[k - 1], e);
      StepKeepsInv(n, run[k - 1], e);
    }
  }

  /** Whenever the lock is free, the node is as if the finished operations had run one after the other. */
  lemma LockedRunIsSerial(n: nat, run: seq<State>, k: nat)
    requires IsRun(n, run) && k < |run| && run[k].phase.Idle?
    ensures Sized(run[k].history, n) && run[k].node == Run(n, run[k].history)
    ensures run[k].called == run[k].waiting + Ops(run[k].history)
    ensures Consistent(run[k].node)
  {
    RunKeepsInv(n, run, k);
    RunIsSafe(n, run[k].history);
  }

  /** At every moment, also between the replies of a fan-out, a shard in discovery has all its memory. */
  lemma RoutedShardsHaveMemory(n: nat, run: seq<State>, k: nat, i: nat)
    requires IsRun(n, run) && k < |run| && i < n && run[k].node.engines[i].routable
    ensures run[k].node.engines[i].released == {}
  {
    var s := run[k];
    RunKeepsInv(n, run, k);
    RunIsSafe(n, s.history);
    var b := Run(n, s.history);
    assert ShardConsistent(Recorded(b)[i], b.engines[i]);
    if s.phase.Fanning? && i in s.phase.replies {
      ShardKeepsConsistent(Recorded(b)[i], b.engines[i], s.phase.op, s.phase.replies[i]);
    }
  }

  /** No interleaving makes an improper call when no caller repeats a tag. */
  lemma CallsStayProper(n: nat, run: seq<State>, k: nat)
    requires IsRun(n, run) && k < |run|
    requires forall op :: op in run[k].called && op.Release? ==> NoRepeats(op.tags)
    ensures EverybodyProper(run[k].node)
  {
    var s := run[k];
    RunKeepsInv(n, run, k);
    OpsOfHistory(s.history);
    RunIsSafe(n, s.history);
    var b := Run(n, s.history);
    if s.phase.Fanning? {
      assert s.phase.op in s.called;
      forall i | 0 <= i < n
        ensures AllProper(s.node.engines[i].calls)
      {
        if i in s.phase.replies {
          ShardCallIsProper(Recorded(b)[i], b.engines[i], s.phase.op, s.phase.replies[i]);
        }
      }
    }
  }

  lemma {:induction false} OpsOfHistory(steps: seq<Step>)
    ensures forall k :: 0 <= k < |steps| ==> steps[k].op in Ops(steps)
  {
    if steps != [] {
      OpsOfHistory(steps[..|steps| - 1]);
    }
  }

  /** While anyone waits or fans out, some step other than a new call is possible. */
  lemma NobodyIsStuck(n: nat, run: seq<State>, k: nat)
    requires IsRun(n, run) && k < |run|
    requires run[k].phase.Fanning? || run[k].waiting != multiset{}
    ensures exists e: Event :: !e.Call? && Enabled(n, run[k], e)
  {
    var s := run[k];
    RunKeepsInv(n, run, k);
    if s.phase.Idle? {
      var op :| op in s.waiting;
      assert Enabled(n, s, Acquire(op));
    } else if i :| 0 <= i < n && !Asked(s.phase.before, s.phase.op)[i].Nothing? && i !in s.phase.replies {
      assert Enabled(n, s, Reply(i, Returned));
    } else {
      assert Enabled(n, s, Finish);
    }
  }
}
