/**
 Releasing and resuming GPU memory tags on the SGLang shards of a node (`dynamo_async_server.py`,
 `dynamo_sglang_engine.py`). The server records per shard which tags it released; the engines, which it reaches
 only through control calls that may fail shard by shard, have their own view.
 */
module MemoryTags {
  type Tag = string

  /** What a shard is asked by one fan-out. */
  datatype Request = Nothing | AskRelease(tags: seq<Tag>) | AskResume(all: set<Tag>)

  /** How a control call ends: it returns, or raises before or after the worker was paused. A raising call changes no tags. */
  datatype Outcome = Returned | Refused | RaisedPaused

  /** A control call that an engine got, and how it ended. */
  datatype Call = Call(request: Request, outcome: Outcome)

  /** An engine: its released tags, whether it is in discovery, and all calls it ever got. */
  datatype Engine = Engine(released: set<Tag>, routable: bool, calls: seq<Call>)

  /** The server's records beside the engines; `recorded` is empty until the first control operation. */
  datatype Node = Node(recorded: seq<set<Tag>>, view: set<Tag>, engines: seq<Engine>)

  datatype Op = Release(tags: seq<Tag>) | Resume(tags: seq<Tag>)

  // ---------------------------------------------------------------- one shard

  function Elements(tags: seq<Tag>): set<Tag> {
    set t | t in tags
  }

  /** The tags not already released, in order, repetitions included. */
  function Wanted(tags: seq<Tag>, released: set<Tag>): seq<Tag> {
    if tags == [] then []
    else
      var n := |tags| - 1;
      Wanted(tags[..n], released) + if tags[n] in released then [] else [tags[n]]
  }

  /** A release asks for what is missing; a resume is widened to everything released. */
  function RequestFor(op: Op, recorded: set<Tag>): Request {
    match op
    case Release(tags) =>
      var wanted := Wanted(tags, recorded);
      if wanted == [] then Nothing else AskRelease(wanted)
    case Resume(_) => if recorded == {} then Nothing else AskResume(recorded)
  }

  function Record(recorded: set<Tag>, request: Request, outcome: Outcome): set<Tag> {
    match request
    case Nothing => recorded
    case AskRelease(tags) => if outcome.Returned? then recorded + Elements(tags) else recorded
    case AskResume(tags) => if outcome.Returned? then recorded - tags else recorded
  }

  /** Releasing pauses the worker first, resuming puts it back into discovery last. */
  function Serve(e: Engine, request: Request, outcome: Outcome): Engine {
    var released := Record(e.released, request, outcome);
    match request
    case Nothing => e
    case AskRelease(_) =>
      Engine(released, e.routable && outcome.Refused?, e.calls + [Call(request, outcome)])
    case AskResume(_) =>
      Engine(released, e.routable || outcome.Returned?, e.calls + [Call(request, outcome)])
  }

  // ---------------------------------------------------------------- one operation on the node

  function Fresh(n: nat): Node {
    Node([], {}, seq(n, i => Engine({}, true, [])))
  }

  /** The per-shard records, sized to the engines. */
  function Recorded(node: Node): (r: seq<set<Tag>>)
    ensures |r| == |node.engines|
  {
    if |node.recorded| == |node.engines| then node.recorded else seq(|node.engines|, i => {})
  }

  function Asked(node: Node, op: Op): (asked: seq<Request>)
    ensures |asked| == |node.engines|
  {
    seq(|node.engines|, i requires 0 <= i < |node.engines| => RequestFor(op, Recorded(node)[i]))
  }

  ghost predicate NobodyAsked(asked: seq<Request>) {
    forall i :: 0 <= i < |asked| ==> asked[i].Nothing?
  }

  function Union(shards: seq<set<Tag>>): set<Tag> {
    set i, t | 0 <= i < |shards| && t in shards[i] :: t
  }

  function ServeAll(engines: seq<Engine>, asked: seq<Request>, outcomes: seq<Outcome>): (r: seq<Engine>)
    requires |engines| == |asked| == |outcomes|
    ensures |r| == |engines|
  {
    seq(|engines|, i requires 0 <= i < |engines| => Serve(engines[i], asked[i], outcomes[i]))
  }

  function RecordAll(recorded: seq<set<Tag>>, asked: seq<Request>, outcomes: seq<Outcome>): (r: seq<set<Tag>>)
    requires |recorded| == |asked| == |outcomes|
    ensures |r| == |recorded|
  {
    seq(|recorded|, i requires 0 <= i < |recorded| => Record(recorded[i], asked[i], outcomes[i]))
  }

  /** The node after one operation whose call on shard `i` ends with `outcomes[i]`. */
  ghost function Apply(node: Node, op: Op, outcomes: seq<Outcome>): (r: Node)
    requires |outcomes| == |node.engines|
    ensures |r.engines| == |node.engines|
  {
    var asked := Asked(node, op);
    var recorded := RecordAll(Recorded(node), asked, outcomes);
    Node(recorded, if NobodyAsked(asked) then node.view else Union(recorded), ServeAll(node.engines, asked, outcomes))
  }

  // ---------------------------------------------------------------- the server

  /** A shard and what it is asked. */
  datatype Target = Target(shard: nat, request: Request)

  /** The shards that are asked something, in order. */
  function Pick(asked: seq<Request>): seq<Target> {
    if asked == [] then []
    else
      var n := |asked| - 1;
      Pick(asked[..n]) + if asked[n].Nothing? then [] else [Target(n, asked[n])]
  }

  ghost predicate Picked(targets: seq<Target>, asked: seq<Request>) {
    && (forall k :: 0 <= k < |targets| ==>
          targets[k].shard < |asked| && !targets[k].request.Nothing? && targets[k].request == asked[targets[k].shard])
    && (forall k, l :: 0 <= k < l < |targets| ==> targets[k].shard < targets[l].shard)
    && forall i :: 0 <= i < |asked| && !asked[i].Nothing? ==> Target(i, asked[i]) in targets
  }

  lemma {:induction false} PickIsPicked(asked: seq<Request>)
    ensures Picked(Pick(asked), asked)
    ensures Pick(asked) == [] <==> NobodyAsked(asked)
  {
    hide *;
    if asked == [] {
      NothingPicked();
    } else {
      var n := |asked| - 1;
      PickIsPicked(asked[..n]);
      PickLast(asked);
      PickedMore(Pick(asked[..n]), asked[..n], asked[n]);
      NobodyMore(asked[..n], asked[n]);
      assert asked == asked[..n] + [asked[n]];
    }
  }

  lemma NothingPicked()
    ensures Pick([]) == [] && Picked([], []) && NobodyAsked([])
  {
  }

  lemma PickLast(asked: seq<Request>)
    requires asked != []
    ensures var n := |asked| - 1;
            Pick(asked) == Pick(asked[..n]) + if asked[n].Nothing? then [] else [Target(n, asked[n])]
  {
  }

  lemma NobodyMore(asked: seq<Request>, last: Request)
    ensures NobodyAsked(asked + [last]) <==> NobodyAsked(asked) && last.Nothing?
  {
    var more := asked + [last];
    assert more[|asked|] == last && forall i :: 0 <= i < |asked| ==> more[i] == asked[i];
    if NobodyAsked(more) {
      forall i | 0 <= i < |asked|
        ensures asked[i].Nothing?
      {
        assert more[i].Nothing?;
      }
    }
  }

  lemma PickedMore(targets: seq<Target>, asked: seq<Request>, last: Request)
    requires Picked(targets, asked)
    ensures Picked(targets + if last.Nothing? then [] else [Target(|asked|, last)], asked + [last])
  {
    var more := asked + [last];
    var all := targets + if last.Nothing? then [] else [Target(|asked|, last)];
    forall i | 0 <= i < |more| && !more[i].Nothing?
      ensures Target(i, more[i]) in all
    {
      if i < |asked| {
        assert Target(i, asked[i]) in targets;
      } else {
        assert all[|targets|] == Target(i, more[i]);
      }
    }
  }

  class TagServer {
    var recorded: seq<set<Tag>>
    var view: set<Tag>
    var engines: seq<Engine>

    ghost function State(): Node
      reads this
    {
      Node(recorded, view, engines)
    }

    constructor (n: nat)
      ensures State() == Fresh(n)
    {
      recorded, view, engines := [], {}, seq(n, i => Engine({}, true, []));
    }

    /** `_sglang_shard_state` */
    method SizeRecords()
      modifies this`recorded
      ensures recorded == Recorded(old(State()))
    {
      if |recorded| != |engines| {
        recorded := seq(|engines|, i => {});
      }
    }

    /** `_refresh_node_released_view` */
    method RefreshView()
      modifies this`view
      ensures view == Union(recorded)
    {
      view := {};
      for k := 0 to |recorded|
        invariant view == Union(recorded[..k])
      {
        assert recorded[..k + 1] == recorded[..k] + [recorded[k]];
        assert Union(recorded[..k + 1]) == Union(recorded[..k]) + recorded[k] by {
          UnionOfOneMore(recorded[..k], recorded[k]);
        }
        view := view + recorded[k];
      }
      assert recorded[..|recorded|] == recorded;
    }

    /** `_sglang_control_fanout`: one result per target; `outcomes` says how a call on each shard ends. */
    method Fanout(targets: seq<Target>, outcomes: seq<Outcome>, ghost asked: seq<Request>) returns (returned: seq<bool>)
      requires |engines| == |outcomes| == |asked| && Picked(targets, asked)
      modifies this`engines
      ensures engines == ServeAll(old(engines), asked, outcomes)
      ensures |returned| == |targets|
      ensures forall k :: 0 <= k < |targets| ==> returned[k] == outcomes[targets[k].shard].Returned?
    {
      returned := [];
      for k := 0 to |targets|
        invariant |engines| == |outcomes| && |returned| == k
        invariant forall j :: 0 <= j < k ==> returned[j] == outcomes[targets[j].shard].Returned?
        invariant forall i :: 0 <= i < |engines| ==>
                    engines[i] == if Target(i, asked[i]) in targets[..k] then Serve(old(engines)[i], asked[i], outcomes[i])
                                  else old(engines)[i]
      {
        var shard := targets[k].shard;
        assert Target(shard, asked[shard]) !in targets[..k];
        engines := engines[shard := Serve(engines[shard], targets[k].request, outcomes[shard])];
        returned := returned + [outcomes[shard].Returned?];
      }
      assert targets[..|targets|] == targets;
    }

    /** The loop that records the shards whose call returned. */
    method RecordResults(targets: seq<Target>, returned: seq<bool>, ghost asked: seq<Request>, ghost outcomes: seq<Outcome>)
      returns (failed: seq<nat>)
      requires |recorded| == |outcomes| == |asked| && Picked(targets, asked) && |returned| == |targets|
      requires forall k :: 0 <= k < |targets| ==> returned[k] == outcomes[targets[k].shard].Returned?
      modifies this`recorded
      ensures recorded == RecordAll(old(recorded), asked, outcomes)
      ensures forall i :: i in failed <==> 0 <= i < |asked| && !asked[i].Nothing? && !outcomes[i].Returned?
    {
      failed := [];
      for k := 0 to |targets|
        invariant |recorded| == |outcomes|
        invariant forall i :: i in failed <==>
                    0 <= i < |asked| && Target(i, asked[i]) in targets[..k] && !outcomes[i].Returned?
        invariant forall i :: 0 <= i < |recorded| ==>
                    recorded[i] == if Target(i, asked[i]) in targets[..k] then Record(old(recorded)[i], asked[i], outcomes[i])
                                   else old(recorded)[i]
      {
        var Target(shard, request) := targets[k];
        assert Target(shard, asked[shard]) !in targets[..k];
        assert targets[..k + 1] == targets[..k] + [targets[k]];
        if !returned[k] {
          failed := failed + [shard];
        } else if request.AskRelease? {
          recorded := recorded[shard := recorded[shard] + Elements(request.tags)];
        } else {
          recorded := recorded[shard := recorded[shard] - request.all];
        }
      }
      assert targets[..|targets|] == targets;
    }

    /** `sglang_release`, under the tag lock; fails with the shards whose call raised. */
    method Release(tags: seq<Tag>, outcomes: seq<Outcome>) returns (failed: seq<nat>)
      requires |outcomes| == |engines|
      modifies this
      ensures State() == Apply(old(State()), Op.Release(tags), outcomes)
      ensures forall i :: i in failed <==>
                0 <= i < |engines| && Wanted(tags, Recorded(old(State()))[i]) != [] && !outcomes[i].Returned?
    {
      ghost var asked := Asked(State(), Op.Release(tags));
      SizeRecords();
      var targets := [];
      for i := 0 to |recorded|
        invariant targets == Pick(asked[..i])
        modifies {}
      {
        var wanted := FilterTags(tags, recorded[i]);
        assert asked[..i + 1] == asked[..i] + [asked[i]];
        if wanted != [] {
          targets := targets + [Target(i, AskRelease(wanted))];
        }
      }
      assert asked[..|recorded|] == asked;
      failed := FanOutAndRecord(targets, outcomes, asked);
    }

    /** `sglang_resume`, under the tag lock. */
    method Resume(tags: seq<Tag>, outcomes: seq<Outcome>) returns (failed: seq<nat>)
      requires |outcomes| == |engines|
      modifies this
      ensures State() == Apply(old(State()), Op.Resume(tags), outcomes)
      ensures forall i :: i in failed <==>
                0 <= i < |engines| && Recorded(old(State()))[i] != {} && !outcomes[i].Returned?
    {
      ghost var asked := Asked(State(), Op.Resume(tags));
      SizeRecords();
      var targets := [];
      for i := 0 to |recorded|
        invariant targets == Pick(asked[..i])
      {
        assert asked[..i + 1] == asked[..i] + [asked[i]];
        if recorded[i] != {} {
          targets := targets + [Target(i, AskResume(recorded[i]))];
        }
      }
      assert asked[..|recorded|] == asked;
      failed := FanOutAndRecord(targets, outcomes, asked);
    }

    /** What both operations do with their targets. */
    method FanOutAndRecord(targets: seq<Target>, outcomes: seq<Outcome>, ghost asked: seq<Request>)
      returns (failed: seq<nat>)
      requires |outcomes| == |engines| == |recorded| == |asked| && targets == Pick(asked)
      modifies this
      ensures recorded == RecordAll(old(recorded), asked, outcomes)
      ensures engines == ServeAll(old(engines), asked, outcomes)
      ensures view == if NobodyAsked(asked) then old(view) else Union(recorded)
      ensures forall i :: i in failed <==> 0 <= i < |asked| && !asked[i].Nothing? && !outcomes[i].Returned?
    {
      PickIsPicked(asked);
      if targets == [] {
        return [];
      }
      var returned := Fanout(targets, outcomes, asked);
      failed := RecordResults(targets, returned, asked, outcomes);
      RefreshView();
    }
  }

  /** The comprehension over the requested tags. */
  method FilterTags(tags: seq<Tag>, released: set<Tag>) returns (wanted: seq<Tag>)
    ensures wanted == Wanted(tags, released)
  {
    wanted := [];
    for k := 0 to |tags|
      invariant wanted == Wanted(tags[..k], released)
    {
      assert tags[..k + 1][..k] == tags[..k];
      if tags[k] !in released {
        wanted := wanted + [tags[k]];
      }
    }
    assert tags[..|tags|] == tags;
  }

  lemma UnionOfOneMore(shards: seq<set<Tag>>, last: set<Tag>)
    ensures Union(shards + [last]) == Union(shards) + last
  {
    var more := shards + [last];
    forall t | t in Union(shards) + last
      ensures t in Union(more)
    {
      if t in last {
        assert t in more[|shards|];
      } else {
        var i :| 0 <= i < |shards| && t in shards[i];
        assert t in more[i];
      }
    }
    forall t | t in Union(more)
      ensures t in Union(shards) + last
    {
      var i :| 0 <= i < |more| && t in more[i];
      if i < |shards| {
        assert t in shards[i];
      }
    }
  }

  // ---------------------------------------------------------------- what every operation keeps

  /** The tags that a sequence of calls left released, counting those that returned. */
  function Replay(calls: seq<Call>): set<Tag> {
    if calls == [] then {}
    else
      var n := |calls| - 1;
      Record(Replay(calls[..n]), calls[n].request, calls[n].outcome)
  }

  ghost predicate NoRepeats(tags: seq<Tag>) {
    forall j, k :: 0 <= j < k < |tags| ==> tags[j] != tags[k]
  }

  /** A call that neither releases a tag twice nor resumes one that is not released. */
  ghost predicate Proper(request: Request, released: set<Tag>) {
    match request
    case Nothing => true
    case AskRelease(tags) => NoRepeats(tags) && forall t :: t in tags ==> t !in released
    case AskResume(all) => all <= released
  }

  ghost predicate AllProper(calls: seq<Call>) {
    forall k :: 0 <= k < |calls| ==> Proper(calls[k].request, Replay(calls[..k]))
  }

  /** The last release that paused the worker was followed by a resume that returned. */
  ghost predicate PausesResumed(calls: seq<Call>) {
    forall k :: 0 <= k < |calls| && calls[k].request.AskRelease? && !calls[k].outcome.Refused? ==>
                  exists l :: k < l < |calls| && calls[l].request.AskResume? && calls[l].outcome.Returned?
  }

  /** The record of a shard is what its engine released, and a shard in discovery has nothing released. */
  ghost predicate ShardConsistent(recorded: set<Tag>, e: Engine) {
    && recorded == e.released == Replay(e.calls)
    && (e.routable ==> e.released == {})
    && (e.routable <==> PausesResumed(e.calls))
  }

  ghost predicate Consistent(node: Node) {
    && (forall i :: 0 <= i < |node.engines| ==> ShardConsistent(Recorded(node)[i], node.engines[i]))
    && node.view == Union(Recorded(node))
  }

  /** Only tags that are already released occur more than once. */
  ghost predicate OnlyOldRepeats(tags: seq<Tag>, released: set<Tag>) {
    forall j, k :: 0 <= j < k < |tags| && tags[j] == tags[k] ==> tags[j] in released
  }

  lemma {:induction false} WantedTags(tags: seq<Tag>, released: set<Tag>)
    ensures forall t :: t in Wanted(tags, released) <==> t in tags && t !in released
    ensures NoRepeats(Wanted(tags, released)) <==> OnlyOldRepeats(tags, released)
  {
    if tags != [] {
      var n := |tags| - 1;
      var init, last := tags[..n], tags[n];
      var before := Wanted(init, released);
      WantedTags(init, released);
      assert tags == init + [last];
      assert Wanted(tags, released) == before + if last in released then [] else [last];
      hide Wanted, NoRepeats, OnlyOldRepeats;
      if last in released {
        assert before + [] == before;
      }
      RepeatsGrow(before, last);
      OldRepeatsGrow(init, last, released);
    }
  }

  lemma OldRepeatsGrow(tags: seq<Tag>, last: Tag, released: set<Tag>)
    ensures OnlyOldRepeats(tags + [last], released) <==> OnlyOldRepeats(tags, released) && (last in released || last !in tags)
  {
    var more := tags + [last];
    if OnlyOldRepeats(more, released) {
      forall j, k | 0 <= j < k < |tags| && tags[j] == tags[k]
        ensures tags[j] in released
      {
        assert more[j] == more[k];
      }
      forall j | 0 <= j < |tags| && tags[j] == last
        ensures last in released
      {
        assert more[j] == more[|tags|];
      }
    }
  }

  lemma RepeatsGrow(tags: seq<Tag>, last: Tag)
    ensures NoRepeats(tags + [last]) <==> NoRepeats(tags) && last !in tags
  {
    var more := tags + [last];
    if NoRepeats(more) {
      forall j, k | 0 <= j < k < |tags|
        ensures tags[j] != tags[k]
      {
        assert more[j] != more[k];
      }
      forall j | 0 <= j < |tags|
        ensures tags[j] != last
      {
        assert more[j] != more[|tags|];
      }
    }
  }

  /** What one more call does to the log. */
  lemma LogGrows(calls: seq<Call>, c: Call)
    ensures Replay(calls + [c]) == Record(Replay(calls), c.request, c.outcome)
    ensures AllProper(calls + [c]) <==> AllProper(calls) && Proper(c.request, Replay(calls))
  {
    var more := calls + [c];
    assert more[..|calls|] == calls;
    assert forall k :: 0 <= k < |calls| ==> more[k] == calls[k] && more[..k] == calls[..k];
    if AllProper(calls) && Proper(c.request, Replay(calls)) {
      assert AllProper(more);
    }
  }

  lemma PausesGrow(calls: seq<Call>, c: Call)
    requires !c.request.Nothing?
    ensures PausesResumed(calls + [c]) <==>
            if c.request.AskRelease? then PausesResumed(calls) && c.outcome.Refused?
            else PausesResumed(calls) || c.outcome.Returned?
  {
    var more, n := calls + [c], |calls|;
    assert more[n] == c;
    if c.request.AskResume? && c.outcome.Returned? {
      assert PausesResumed(more);
    } else if PausesResumed(calls) {
      forall k | 0 <= k < n && more[k].request.AskRelease? && !more[k].outcome.Refused?
        ensures exists l :: k < l < |more| && more[l].request.AskResume? && more[l].outcome.Returned?
      {
        var l :| k < l < n && calls[l].request.AskResume? && calls[l].outcome.Returned?;
        assert more[l] == calls[l];
      }
    } else {
      var k :| 0 <= k < n && calls[k].request.AskRelease? && !calls[k].outcome.Refused?
               && !exists l :: k < l < n && calls[l].request.AskResume? && calls[l].outcome.Returned?;
      assert more[k] == calls[k];
    }
  }

  /** One operation on one shard. */
  lemma ShardKeepsConsistent(recorded: set<Tag>, e: Engine, op: Op, outcome: Outcome)
    requires ShardConsistent(recorded, e)
    ensures var request := RequestFor(op, recorded);
            ShardConsistent(Record(recorded, request, outcome), Serve(e, request, outcome))
  {
    var request := RequestFor(op, recorded);
    LogGrows(e.calls, Call(request, outcome));
    if !request.Nothing? {
      PausesGrow(e.calls, Call(request, outcome));
    }
  }

  /** A shard gets an improper call exactly when a release repeats a tag that is not released on that shard. */
  lemma ShardCallIsProper(recorded: set<Tag>, e: Engine, op: Op, outcome: Outcome)
    requires ShardConsistent(recorded, e) && AllProper(e.calls)
    ensures AllProper(Serve(e, RequestFor(op, recorded), outcome).calls) <==>
            (op.Release? ==> OnlyOldRepeats(op.tags, recorded))
  {
    var request := RequestFor(op, recorded);
    LogGrows(e.calls, Call(request, outcome));
    if op.Release? {
      WantedTags(op.tags, recorded);
    }
  }

  lemma OpKeepsConsistent(node: Node, op: Op, outcomes: seq<Outcome>)
    requires Consistent(node) && |outcomes| == |node.engines|
    ensures Consistent(Apply(node, op, outcomes))
  {
    var next := Apply(node, op, outcomes);
    forall i | 0 <= i < |node.engines|
      ensures ShardConsistent(Recorded(next)[i], next.engines[i])
    {
      ShardKeepsConsistent(Recorded(node)[i], node.engines[i], op, outcomes[i]);
    }
    if NobodyAsked(Asked(node, op)) {
      assert Recorded(next) == Recorded(node);
    }
  }

  ghost predicate EverybodyProper(node: Node) {
    forall i :: 0 <= i < |node.engines| ==> AllProper(node.engines[i].calls)
  }

  /** Improper calls come from repeated tags only, and from those exactly. */
  lemma OpKeepsProper(node: Node, op: Op, outcomes: seq<Outcome>)
    requires Consistent(node) && EverybodyProper(node) && |outcomes| == |node.engines|
    ensures EverybodyProper(Apply(node, op, outcomes)) <==>
            (op.Release? ==> forall i :: 0 <= i < |node.engines| ==> OnlyOldRepeats(op.tags, Recorded(node)[i]))
  {
    var next := Apply(node, op, outcomes);
    forall i | 0 <= i < |node.engines|
      ensures AllProper(next.engines[i].calls) <==> (op.Release? ==> OnlyOldRepeats(op.tags, Recorded(node)[i]))
    {
      ShardCallIsProper(Recorded(node)[i], node.engines[i], op, outcomes[i]);
    }
  }

  // ---------------------------------------------------------------- runs

  datatype Step = Step(op: Op, outcomes: seq<Outcome>)

  ghost predicate Sized(steps: seq<Step>, n: nat) {
    forall k :: 0 <= k < |steps| ==> |steps[k].outcomes| == n
  }

  /** What the steps make of a node. */
  ghost function RunFrom(node: Node, steps: seq<Step>): (after: Node)
    requires Sized(steps, |node.engines|)
    ensures |after.engines| == |node.engines|
  {
    if steps == [] then node
    else
      var last := steps[|steps| - 1];
      Apply(RunFrom(node, steps[..|steps| - 1]), last.op, last.outcomes)
  }

  ghost function Run(n: nat, steps: seq<Step>): (node: Node)
    requires Sized(steps, n)
    ensures |node.engines| == n
  {
    RunFrom(Fresh(n), steps)
  }

  /** No release of the run names a tag twice. */
  ghost predicate ListsAreSets(steps: seq<Step>) {
    forall k :: 0 <= k < |steps| && steps[k].op.Release? ==> NoRepeats(steps[k].op.tags)
  }

  /** Whatever calls fail: records, engines and node view agree, no shard in discovery lacks memory, no call is improper. */
  lemma {:induction false} RunIsSafe(n: nat, steps: seq<Step>)
    requires Sized(steps, n)
    ensures Consistent(Run(n, steps))
    ensures ListsAreSets(steps) ==> EverybodyProper(Run(n, steps))
  {
    if steps == [] {
      assert Union(Recorded(Fresh(n))) == {};
    } else {
      var init, last := steps[..|steps| - 1], steps[|steps| - 1];
      var node := Run(n, init);
      RunIsSafe(n, init);
      OpKeepsConsistent(node, last.op, last.outcomes);
      if ListsAreSets(steps) {
        OpKeepsProper(node, last.op, last.outcomes);
      }
    }
  }

  /** Releasing again calls exactly the shards whose call raised, and completes when those calls return. */
  lemma ReleaseRetry(node: Node, tags: seq<Tag>, first: seq<Outcome>, second: seq<Outcome>, i: nat)
    requires Consistent(node) && |first| == |second| == |node.engines| && i < |node.engines|
    ensures var once := Apply(node, Release(tags), first);
            var twice := Apply(once, Release(tags), second);
            var missing := !(Elements(tags) <= node.engines[i].released);
            && (twice.engines[i] != once.engines[i] <==> missing && !first[i].Returned?)
            && (Elements(tags) <= twice.engines[i].released <==> missing ==> first[i].Returned? || second[i].Returned?)
  {
    var once := Apply(node, Release(tags), first);
    OpKeepsConsistent(node, Release(tags), first);
    var r0, r1 := Recorded(node)[i], Recorded(once)[i];
    WantedTags(tags, r0);
    WantedTags(tags, r1);
    assert ShardConsistent(r0, node.engines[i]) && ShardConsistent(r1, once.engines[i]);
    var w0, w1 := Wanted(tags, r0), Wanted(tags, r1);
    if w0 != [] {
      assert w0[0] in w0 && w0[0] in Elements(tags);
    }
    if w1 != [] {
      assert w1[0] in w1 && w1[0] in Elements(tags);
    }
  }

  /** Resuming again calls exactly the shards whose call raised; a shard has nothing released once a call returned. */
  lemma ResumeRetry(node: Node, tags: seq<Tag>, first: seq<Outcome>, second: seq<Outcome>, i: nat)
    requires Consistent(node) && |first| == |second| == |node.engines| && i < |node.engines|
    ensures var once := Apply(node, Resume(tags), first);
            var twice := Apply(once, Resume(tags), second);
            var missing := node.engines[i].released != {};
            && (twice.engines[i] != once.engines[i] <==> missing && !first[i].Returned?)
            && (twice.engines[i].released == {} <==> missing ==> first[i].Returned? || second[i].Returned?)
  {
    var once := Apply(node, Resume(tags), first);
    OpKeepsConsistent(node, Resume(tags), first);
    assert ShardConsistent(Recorded(node)[i], node.engines[i]);
    assert ShardConsistent(Recorded(once)[i], once.engines[i]);
  }

  /** What became of one shard. */
  lemma ShardAfter(node: Node, op: Op, outcomes: seq<Outcome>, i: nat)
    requires Consistent(node) && |outcomes| == |node.engines| && i < |node.engines|
    ensures ShardConsistent(node.engines[i].released, node.engines[i])
    ensures node.engines[i].routable ==> node.engines[i].released == {}
    ensures Apply(node, op, outcomes).engines[i] == Serve(node.engines[i], RequestFor(op, node.engines[i].released), outcomes[i])
  {
    assert ShardConsistent(Recorded(node)[i], node.engines[i]);
    hide RequestFor, Serve, Replay, PausesResumed;
  }

  /**
   A resume brings back exactly the shards that had something released and whose own call returned, whatever the calls on
   the others do; the shards that stay in discovery are those for which every pause was resumed before.
   */
  lemma ResumeRoutes(node: Node, tags: seq<Tag>, outcomes: seq<Outcome>, i: nat)
    requires Consistent(node) && |outcomes| == |node.engines| && i < |node.engines|
    ensures var before, after := node.engines[i], Apply(node, Resume(tags), outcomes).engines[i];
            && (after.routable <==> PausesResumed(before.calls) || (before.released != {} && outcomes[i].Returned?))
            && (after.released == {} <==> before.released == {} || outcomes[i].Returned?)
  {
    ShardAfter(node, Resume(tags), outcomes, i);
    hide Replay, PausesResumed;
  }

  // ---------------------------------------------------------------- shards out of discovery with nothing to resume

  /** Out of discovery with nothing released, so that a resume passes it over. */
  predicate Stranded(e: Engine) {
    e.released == {} && !e.routable
  }

  /** A shard becomes stranded only by a release that raises after pausing, and stops being so only by a release that returns. */
  lemma WhenStranded(node: Node, op: Op, outcomes: seq<Outcome>, i: nat)
    requires Consistent(node) && |outcomes| == |node.engines| && i < |node.engines|
    ensures Stranded(Apply(node, op, outcomes).engines[i]) <==>
            && node.engines[i].released == {}
            && if op.Release? && op.tags != [] then outcomes[i].RaisedPaused? || (outcomes[i].Refused? && !node.engines[i].routable)
               else !node.engines[i].routable
  {
    hide *;
    ShardAfter(node, op, outcomes, i);
    WhenServed(node.engines[i], op, outcomes[i]);
  }

  lemma WhenServed(e: Engine, op: Op, outcome: Outcome)
    requires e.routable ==> e.released == {}
    ensures Stranded(Serve(e, RequestFor(op, e.released), outcome)) <==>
            && e.released == {}
            && if op.Release? && op.tags != [] then outcome.RaisedPaused? || (outcome.Refused? && !e.routable) else !e.routable
  {
    if op.Release? {
      if e.released == {} {
        NothingFiltered(op.tags);
        if op.tags != [] {
          assert op.tags[0] in Elements(op.tags);
        }
      } else {
        var t :| t in e.released;
        assert t in Serve(e, RequestFor(op, e.released), outcome).released;
      }
    }
  }

  lemma {:induction false} NothingFiltered(tags: seq<Tag>)
    ensures Wanted(tags, {}) == tags
  {
    if tags != [] {
      NothingFiltered(tags[..|tags| - 1]);
    }
  }

  predicate ReleasesShard(step: Step, i: nat) {
    step.op.Release? && step.op.tags != [] && i < |step.outcomes| && step.outcomes[i].Returned?
  }

  predicate ResumesShard(step: Step, i: nat) {
    step.op.Resume? && i < |step.outcomes| && step.outcomes[i].Returned?
  }

  predicate SomeRelease(steps: seq<Step>, i: nat) {
    exists k :: 0 <= k < |steps| && ReleasesShard(steps[k], i)
  }

  /** A release of tags that returned on the shard, and later a resume that did. */
  predicate Restores(steps: seq<Step>, i: nat) {
    exists k, l :: 0 <= k < l < |steps| && ReleasesShard(steps[k], i) && ResumesShard(steps[l], i)
  }

  lemma SomeReleaseGrows(steps: seq<Step>, last: Step, i: nat)
    ensures SomeRelease(steps + [last], i) <==> SomeRelease(steps, i) || ReleasesShard(last, i)
  {
    var more := steps + [last];
    assert more[|steps|] == last && forall k :: 0 <= k < |steps| ==> more[k] == steps[k];
    if SomeRelease(steps, i) {
      var k :| 0 <= k < |steps| && ReleasesShard(steps[k], i);
      assert ReleasesShard(more[k], i);
    }
    hide ReleasesShard;
  }

  lemma RestoresGrows(steps: seq<Step>, last: Step, i: nat)
    ensures Restores(steps + [last], i) <==> Restores(steps, i) || (SomeRelease(steps, i) && ResumesShard(last, i))
  {
    hide ReleasesShard, ResumesShard;
    var more := steps + [last];
    assert more[|steps|] == last && forall k :: 0 <= k < |steps| ==> more[k] == steps[k];
    if Restores(steps, i) {
      var k, l :| 0 <= k < l < |steps| && ReleasesShard(steps[k], i) && ResumesShard(steps[l], i);
      assert ReleasesShard(more[k], i) && ResumesShard(more[l], i);
    } else if SomeRelease(steps, i) && ResumesShard(last, i) {
      var k :| 0 <= k < |steps| && ReleasesShard(steps[k], i);
      assert ReleasesShard(more[k], i) && ResumesShard(more[|steps|], i);
    }
  }

  /** Whether a shard is in discovery after so many of the steps. */
  ghost predicate RoutableAfter(node: Node, steps: seq<Step>, m: nat, i: nat)
    requires Sized(steps, |node.engines|) && m <= |steps| && i < |node.engines|
  {
    assert Sized(steps[..m], |node.engines|);
    RunFrom(node, steps[..m]).engines[i].routable
  }

  /**
   A stranded shard stays out of discovery through any further operations, until a release on it has returned and after that
   a resume: it is in discovery at some moment if and only if there are two such steps.
   */
  lemma StrandedUntilRestored(node: Node, steps: seq<Step>, i: nat)
    requires Consistent(node) && Sized(steps, |node.engines|) && i < |node.engines| && Stranded(node.engines[i])
    ensures (exists m :: 0 <= m <= |steps| && RoutableAfter(node, steps, m, i)) <==> Restores(steps, i)
  {
    hide *;
    StrandedRun(node, steps, i);
  }

  lemma {:induction false} StrandedRun(node: Node, steps: seq<Step>, i: nat)
    requires Consistent(node) && Sized(steps, |node.engines|) && i < |node.engines| && Stranded(node.engines[i])
    ensures Consistent(RunFrom(node, steps))
    ensures Restores(steps, i) ==> exists m :: 0 <= m <= |steps| && RoutableAfter(node, steps, m, i)
    ensures !Restores(steps, i) ==> forall m :: 0 <= m <= |steps| ==> !RoutableAfter(node, steps, m, i)
    ensures !Restores(steps, i) ==> (RunFrom(node, steps).engines[i].released == {} <==> !SomeRelease(steps, i))
  {
    hide *;
    if steps == [] {
      NoSteps(node, i);
    } else {
      var init, last := steps[..|steps| - 1], steps[|steps| - 1];
      RunParts(node, steps);
      StrandedRun(node, init, i);
      var before := RunFrom(node, init);
      OpKeepsConsistent(before, last.op, last.outcomes);
      assert steps == init + [last];
      SomeReleaseGrows(init, last, i);
      RestoresGrows(init, last, i);
      forall m | 0 <= m <= |init|
        ensures RoutableAfter(node, steps, m, i) == RoutableAfter(node, init, m, i)
      {
        SamePrefix(node, steps, m, i);
      }
      LastRoutable(node, init, |init|, i);
      LastRoutable(node, steps, |steps|, i);
      if !Restores(init, i) {
        OneStep(before, last, i);
      } else {
        var m :| 0 <= m <= |init| && RoutableAfter(node, init, m, i);
        assert RoutableAfter(node, steps, m, i);
      }
    }
  }

  lemma NoSteps(node: Node, i: nat)
    requires i < |node.engines| && Stranded(node.engines[i])
    ensures RunFrom(node, []) == node && !RoutableAfter(node, [], 0, i) && !SomeRelease([], i) && !Restores([], i)
    ensures node.engines[i].released == {}
  {
  }

  lemma RunParts(node: Node, steps: seq<Step>)
    requires Sized(steps, |node.engines|) && steps != []
    ensures var init, last := steps[..|steps| - 1], steps[|steps| - 1];
            && Sized(init, |node.engines|) && |last.outcomes| == |node.engines|
            && RunFrom(node, steps) == Apply(RunFrom(node, init), last.op, last.outcomes)
  {
    hide Apply;
  }

  lemma SamePrefix(node: Node, steps: seq<Step>, m: nat, i: nat)
    requires Sized(steps, |node.engines|) && steps != [] && m < |steps| && i < |node.engines|
    ensures Sized(steps[..|steps| - 1], |node.engines|)
    ensures RoutableAfter(node, steps, m, i) == RoutableAfter(node, steps[..|steps| - 1], m, i)
  {
    assert steps[..|steps| - 1][..m] == steps[..m];
    hide RunFrom;
  }

  lemma LastRoutable(node: Node, steps: seq<Step>, m: nat, i: nat)
    requires Sized(steps, |node.engines|) && m == |steps| && i < |node.engines|
    ensures RoutableAfter(node, steps, m, i) == RunFrom(node, steps).engines[i].routable
  {
    assert steps[..m] == steps;
    hide RunFrom;
  }

  /** One step on a shard that is out of discovery. */
  lemma OneStep(node: Node, step: Step, i: nat)
    requires Consistent(node) && |step.outcomes| == |node.engines| && i < |node.engines| && !node.engines[i].routable
    ensures var before, after := node.engines[i], Apply(node, step.op, step.outcomes).engines[i];
            && (after.routable <==> before.released != {} && ResumesShard(step, i))
            && (!after.routable ==> (after.released == {} <==> before.released == {} && !ReleasesShard(step, i)))
  {
    ShardAfter(node, step.op, step.outcomes, i);
    if step.op.Release? {
      var wanted := Wanted(step.op.tags, node.engines[i].released);
      WantedTags(step.op.tags, node.engines[i].released);
      NothingFiltered(step.op.tags);
      if wanted != [] {
        assert wanted[0] in Elements(wanted);
      }
    }
    hide Replay, PausesResumed, Wanted;
  }
}
