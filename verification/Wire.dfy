/**
 The data-plane conversation as a protocol: the reader thread and the handler thread take steps in any order, each step
 moves as many bytes as the network likes, both directions hold only so many bytes, and the connection may break.
 */
module Wire {
  import opened Bytes
  import opened Framing

  datatype Request = Request(srcPtr: nat, nbytes: nat)
  datatype Outcome = Data(bytes: seq<byte>) | Refused | Lost

  /** What does not change during a conversation: the served memory, the reads to perform and the room in each direction. */
  datatype World = World(regions: seq<Region>, mem: Memory, plan: seq<Request>, upRoom: nat, downRoom: nat) {
    ghost predicate Valid() {
      && 1 <= upRoom && 1 <= downRoom
      && Reachable(regions, mem)
      && forall i :: 0 <= i < |plan| ==> plan[i].srcPtr < U64 && plan[i].nbytes < U64
    }

    predicate Serves(q: Request) {
      IsServed(regions, q.srcPtr, q.nbytes)
    }

    /** What reading `q` must give. */
    ghost function Answer(q: Request): Outcome
      requires Valid()
    {
      if Serves(q) then
        ServedIsCovered(regions, mem, q.srcPtr, q.nbytes);
        Data(mem.Read(q.srcPtr, q.nbytes))
      else Refused
    }

    ghost function ReplyTo(q: Request): seq<byte>
      requires Valid()
    {
      if Serves(q) then
        ServedIsCovered(regions, mem, q.srcPtr, q.nbytes);
        PackReplyHeader(STATUS_OK, q.nbytes) + mem.Read(q.srcPtr, q.nbytes)
      else PackReplyHeader(STATUS_REJECTED, 0)
    }
  }

  /**
   Reader: `unsent` is what `sendall` still has to hand over, `got` what it has received of the current reply.
   Handler: `header` is what it has received of the next request, `reply` what `sendall` still has to hand over.
   `up` and `down` are the bytes under way; once `broken`, no more are added.
   */
  datatype State = State(done: seq<Outcome>, waiting: bool, dead: bool, unsent: seq<byte>, got: seq<byte>,
                         up: seq<byte>, down: seq<byte>, header: seq<byte>, reply: seq<byte>, closed: bool, broken: bool)

  const INIT := State([], false, false, [], [], [], [], [], [], false, false)

  datatype Event =
    | Issue | Send(k: nat) | Receive(k: nat) | Finish | Fail
    | HandlerReceive(k: nat) | HandlerParse | HandlerSend(k: nat) | HandlerStop
    | Break(upKept: nat, downKept: nat)

  /** How many bytes the reader asks `recv` for. */
  function Wanted(got: seq<byte>): int {
    if |got| < REPLY_HEADER_SIZE then REPLY_HEADER_SIZE - |got|
    else
      var (status, actual) := UnpackReplyHeader(got[..REPLY_HEADER_SIZE]);
      if status == STATUS_OK then REPLY_HEADER_SIZE + actual - |got| else 0
  }

  ghost predicate Enabled(w: World, s: State, e: Event)
    requires w.Valid()
  {
    match e
    case Issue => !s.waiting && !s.dead && |s.done| < |w.plan|
    case Send(k) => !s.broken && 1 <= k <= |s.unsent| && |s.up| + k <= w.upRoom
    case Receive(k) => s.waiting && s.unsent == [] && 1 <= k <= |s.down| && k <= Wanted(s.got)
    case Finish => s.waiting && s.unsent == [] && Wanted(s.got) == 0
    case Fail => s.waiting && s.broken && (s.unsent != [] || (s.down == [] && Wanted(s.got) != 0))
    case HandlerReceive(k) => !s.closed && s.reply == [] && 1 <= k <= |s.up| && |s.header| + k <= REQUEST_SIZE
    case HandlerParse => !s.closed && s.reply == [] && |s.header| == REQUEST_SIZE
    case HandlerSend(k) => !s.broken && 1 <= k <= |s.reply| && |s.down| + k <= w.downRoom
    case HandlerStop => s.broken && (s.reply != [] || (!s.closed && s.up == []))
    case Break(i, j) => !s.broken && i <= |s.up| && j <= |s.down|
  }

  ghost function Apply(w: World, s: State, e: Event): State
    requires w.Valid() && Enabled(w, s, e)
  {
    match e
    case Issue =>
      var q := w.plan[|s.done|];
      s.(waiting := true, unsent := PackRequest(OP_READ, q.srcPtr, q.nbytes))
    case Send(k) => s.(unsent := s.unsent[k..], up := s.up + s.unsent[..k])
    case Receive(k) => s.(got := s.got + s.down[..k], down := s.down[k..])
    case Finish =>
      var (status, actual) := UnpackReplyHeader(s.got[..REPLY_HEADER_SIZE]);
      s.(waiting := false, got := [], dead := status != STATUS_OK,
         done := s.done + [if status == STATUS_OK then Data(s.got[REPLY_HEADER_SIZE..]) else Refused])
    case Fail => s.(waiting := false, unsent := [], got := [], dead := true, done := s.done + [Lost])
    case HandlerReceive(k) => s.(header := s.header + s.up[..k], up := s.up[k..])
    case HandlerParse =>
      var (op, srcPtr, nbytes) := UnpackRequest(s.header);
      if Accepts(w.regions, op, srcPtr, nbytes) then
        ServedIsCovered(w.regions, w.mem, srcPtr, nbytes);
        s.(header := [], reply := Reply(w.regions, w.mem, op, srcPtr, nbytes))
      else
        s.(header := [], reply := PackReplyHeader(STATUS_REJECTED, 0), closed := true)
    case HandlerSend(k) => s.(reply := s.reply[k..], down := s.down + s.reply[..k])
    case HandlerStop => s.(header := [], reply := [], closed := true)
    case Break(i, j) => s.(up := s.up[..i], down := s.down[..j], broken := true)
  }

  // ---------------------------------------------------------------- safety

  /** The request is on its way to the handler. */
  ghost predicate Asking(w: World, s: State)
    requires w.Valid() && |s.done| < |w.plan|
  {
    var q := w.plan[|s.done|];
    && !s.closed && s.got == [] && s.down == [] && s.reply == []
    && s.header + s.up + s.unsent == PackRequest(OP_READ, q.srcPtr, q.nbytes)
  }

  /** The reply is on its way to the reader. */
  ghost predicate Answering(w: World, s: State)
    requires w.Valid() && |s.done| < |w.plan|
  {
    var q := w.plan[|s.done|];
    && s.closed == !w.Serves(q)
    && s.header == [] && s.up == [] && s.unsent == []
    && s.got + s.down + s.reply == w.ReplyTo(q)
  }

  /** Over a working connection everything under way belongs to the one read in progress. */
  ghost predicate Working(w: World, s: State)
    requires w.Valid() && (s.waiting ==> |s.done| < |w.plan|)
  {
    if s.waiting then Asking(w, s) || Answering(w, s)
    else s.unsent == s.got == s.up == s.down == s.header == s.reply == [] && s.closed == s.dead
  }

  /** After it broke, what the reader has and may still get is the beginning of the answer. */
  ghost predicate Broken(w: World, s: State)
    requires w.Valid() && (s.waiting ==> |s.done| < |w.plan|)
  {
    |s.header| <= REQUEST_SIZE &&
    if s.waiting then s.got + s.down <= w.ReplyTo(w.plan[|s.done|]) && (s.unsent != [] ==> s.got + s.down == [])
    else s.got == s.down == []
  }

  /** Every read that is over got its answer; only the last one may have failed instead, with the connection. */
  ghost predicate Delivered(w: World, s: State)
    requires w.Valid()
  {
    && |s.done| <= |w.plan|
    && (forall i :: 0 <= i < |s.done| ==>
          s.done[i] == w.Answer(w.plan[i]) || (s.broken && i == |s.done| - 1 && s.done[i] == Lost))
    && (s.dead <==> s.done != [] && !s.done[|s.done| - 1].Data?)
    && (forall i :: 0 <= i < |s.done| - 1 ==> s.done[i].Data?)
  }

  ghost predicate Inv(w: World, s: State)
    requires w.Valid()
  {
    && Delivered(w, s)
    && (s.waiting ==> !s.dead && |s.done| < |w.plan|)
    && if s.broken then Broken(w, s) else Working(w, s)
  }

  /** The first nine bytes of an answer tell the reader exactly how long it is. */
  lemma WantedIsMissing(w: World, q: Request, got: seq<byte>, rest: seq<byte>)
    requires w.Valid() && q.nbytes < U64 && got + rest == w.ReplyTo(q) && REPLY_HEADER_SIZE <= |got|
    ensures Wanted(got) == |rest|
    ensures UnpackReplyHeader(got[..REPLY_HEADER_SIZE])
            == if w.Serves(q) then (STATUS_OK, q.nbytes) else (STATUS_REJECTED, 0)
    ensures w.Serves(q) ==>
              got[REPLY_HEADER_SIZE..] + rest == (ServedIsCovered(w.regions, w.mem, q.srcPtr, q.nbytes);
                                                  w.mem.Read(q.srcPtr, q.nbytes))
  {
    hide PackReplyHeader, UnpackReplyHeader;
    var head := got[..REPLY_HEADER_SIZE];
    assert got + rest == head + (got[REPLY_HEADER_SIZE..] + rest);
    if w.Serves(q) {
      ServedIsCovered(w.regions, w.mem, q.srcPtr, q.nbytes);
      ReplyHeaderRoundTrip(STATUS_OK, q.nbytes);
      assert w.ReplyTo(q)[..REPLY_HEADER_SIZE] == PackReplyHeader(STATUS_OK, q.nbytes);
    } else {
      ReplyHeaderRoundTrip(STATUS_REJECTED, 0);
      assert w.ReplyTo(q)[..REPLY_HEADER_SIZE] == PackReplyHeader(STATUS_REJECTED, 0);
    }
  }

  /** Moving bytes along a direction changes neither what is under way nor whose turn it is. */
  lemma UpMoveKeepsInv(w: World, s: State, e: Event)
    requires w.Valid() && Inv(w, s) && Enabled(w, s, e) && (e.Send? || e.HandlerReceive?) && !s.broken
    ensures Inv(w, Apply(w, s, e)) && Measure(w, Apply(w, s, e)) < Measure(w, s)
  {
    hide PackReplyHeader, UnpackReplyHeader, PackRequest, UnpackRequest, World.ReplyTo, World.Answer, Delivered;
    var s' := Apply(w, s, e);
    SameDone(w, s, s');
    assert Asking(w, s);
    assert s'.header + s'.up + s'.unsent == s.header + s.up + s.unsent;
    assert Asking(w, s');
  }

  lemma DownMoveKeepsInv(w: World, s: State, e: Event)
    requires w.Valid() && Inv(w, s) && Enabled(w, s, e) && (e.Receive? || e.HandlerSend?) && !s.broken
    ensures Inv(w, Apply(w, s, e)) && Measure(w, Apply(w, s, e)) < Measure(w, s)
  {
    hide PackReplyHeader, UnpackReplyHeader, PackRequest, UnpackRequest, World.ReplyTo, World.Answer, Delivered;
    var s' := Apply(w, s, e);
    SameDone(w, s, s');
    assert Answering(w, s) && !Asking(w, s);
    assert s'.got + s'.down + s'.reply == s.got + s.down + s.reply;
    assert Answering(w, s') && !Asking(w, s');
  }

  lemma SameDone(w: World, s: State, s': State)
    requires w.Valid() && Delivered(w, s) && s'.done == s.done && s'.dead == s.dead && (s.broken ==> s'.broken)
    ensures Delivered(w, s')
  {
    hide World.Answer;
  }

  lemma OneMoreDone(w: World, s: State, s': State)
    requires w.Valid() && Delivered(w, s) && !s.dead && |s.done| < |w.plan| && |s'.done| == |s.done| + 1
    requires s'.done == s.done + [s'.done[|s.done|]] && s'.dead == !s'.done[|s.done|].Data? && s'.broken == s.broken
    requires s'.done[|s.done|] == w.Answer(w.plan[|s.done|]) || (s.broken && s'.done[|s.done|] == Lost)
    ensures Delivered(w, s')
  {
    hide World.Answer;
    forall i | 0 <= i < |s.done|
      ensures s'.done[i] == w.Answer(w.plan[i]) && s'.done[i].Data?
    {
      assert s'.done[i] == s.done[i] && s.done[i].Data?;
    }
  }

  /** The read in progress is answered, also when the connection broke in the meantime. */
  lemma FinishKeepsInv(w: World, s: State)
    requires w.Valid() && Inv(w, s) && Enabled(w, s, Finish)
    ensures Inv(w, Apply(w, s, Finish)) && Measure(w, Apply(w, s, Finish)) < Measure(w, s)
  {
    hide PackReplyHeader, UnpackReplyHeader, PackRequest, World.ReplyTo, Delivered;
    var q := w.plan[|s.done|];
    var rest := if s.broken then w.ReplyTo(q)[|s.got|..] else s.down + s.reply;
    assert s.got + rest == w.ReplyTo(q) by {
      if s.broken {
        assert s.got <= s.got + s.down <= w.ReplyTo(q);
      } else {
        assert s.got + (s.down + s.reply) == s.got + s.down + s.reply;
      }
    }
    WantedIsMissing(w, q, s.got, rest);
    assert rest == [] && s.got == w.ReplyTo(q);
    assert s.down == [];
    assert s.got[REPLY_HEADER_SIZE..] + rest == s.got[REPLY_HEADER_SIZE..];
    OneMoreDone(w, s, Apply(w, s, Finish));
  }

  lemma ParseKeepsInv(w: World, s: State)
    requires w.Valid() && Inv(w, s) && Enabled(w, s, HandlerParse) && !s.broken
    ensures Inv(w, Apply(w, s, HandlerParse)) && Measure(w, Apply(w, s, HandlerParse)) < Measure(w, s)
  {
    hide PackReplyHeader, UnpackReplyHeader, PackRequest, UnpackRequest, Delivered;
    assert s.waiting;
    var q := w.plan[|s.done|];
    assert Asking(w, s) && s.up == [] && s.unsent == [] && s.header == PackRequest(OP_READ, q.srcPtr, q.nbytes);
    RequestRoundTrip(OP_READ, q.srcPtr, q.nbytes);
    var s' := Apply(w, s, HandlerParse);
    SameDone(w, s, s');
    assert s'.reply == w.ReplyTo(q) && s'.closed == !w.Serves(q);
    assert Answering(w, s') && !Asking(w, s');
  }

  lemma IssueKeepsInv(w: World, s: State)
    requires w.Valid() && Inv(w, s) && Enabled(w, s, Issue)
    ensures Inv(w, Apply(w, s, Issue)) && Measure(w, Apply(w, s, Issue)) < Measure(w, s)
  {
    hide PackReplyHeader, UnpackReplyHeader, PackRequest, World.ReplyTo, World.Answer, Delivered;
    var s' := Apply(w, s, Issue);
    SameDone(w, s, s');
    assert [] + [] == s'.got + s'.down || !s.broken;
    if !s.broken {
      assert Asking(w, s');
    }
  }

  lemma BreakKeepsInv(w: World, s: State, e: Event)
    requires w.Valid() && Inv(w, s) && Enabled(w, s, e) && e.Break?
    ensures Inv(w, Apply(w, s, e)) && Measure(w, Apply(w, s, e)) < Measure(w, s)
  {
    hide PackReplyHeader, UnpackReplyHeader, PackRequest, World.ReplyTo, World.Answer, Delivered;
    var s' := Apply(w, s, e);
    SameDone(w, s, s');
    if s.waiting && Answering(w, s) {
      assert s.got + s.down + s.reply == (s'.got + s'.down) + (s.down[e.downKept..] + s.reply);
    } else {
      assert s'.got + s'.down == [];
    }
  }

  /** After the break the reader only takes what is left or gives up, and what the handler does no longer matters. */
  lemma BrokenStepKeepsInv(w: World, s: State, e: Event)
    requires w.Valid() && Inv(w, s) && Enabled(w, s, e) && s.broken && !e.Issue? && !e.Finish?
    ensures Inv(w, Apply(w, s, e)) && Measure(w, Apply(w, s, e)) < Measure(w, s)
  {
    hide *;
    BrokenParts(w, s);
    var s' := Apply(w, s, e);
    if e.Fail? {
      FailedIs(w, s);
      OneMoreDone(w, s, s');
    } else {
      BrokenMove(w, s, e);
      SameDone(w, s, s');
    }
    BrokenWhole(w, s');
  }

  lemma BrokenParts(w: World, s: State)
    requires w.Valid() && Inv(w, s) && s.broken
    ensures Delivered(w, s) && |s.done| <= |w.plan| && (s.waiting ==> !s.dead && |s.done| < |w.plan|)
    ensures Broken(w, s) && Measure(w, s) == AfterBreak(w, s)
  {
    hide World.Answer, Broken, AfterBreak;
  }

  lemma BrokenWhole(w: World, s: State)
    requires w.Valid() && s.broken && Delivered(w, s) && (s.waiting ==> !s.dead && |s.done| < |w.plan|) && Broken(w, s)
    ensures Inv(w, s) && |s.done| <= |w.plan| && Measure(w, s) == AfterBreak(w, s)
  {
    hide World.Answer, Broken, AfterBreak;
  }

  lemma FailedIs(w: World, s: State)
    requires w.Valid() && s.broken && Enabled(w, s, Fail) && |s.done| <= |w.plan|
    requires (s.waiting ==> |s.done| < |w.plan|) && Broken(w, s)
    ensures s.waiting
    ensures var s' := Apply(w, s, Fail);
            && s'.done == s.done + [Lost] && s'.dead && s'.broken && !s'.waiting
            && Broken(w, s') && AfterBreak(w, s') < AfterBreak(w, s)
  {
    hide World.ReplyTo, Wanted;
  }

  lemma BrokenMove(w: World, s: State, e: Event)
    requires w.Valid() && s.broken && Enabled(w, s, e) && !e.Issue? && !e.Finish? && !e.Fail?
    requires |s.done| <= |w.plan| && (s.waiting ==> |s.done| < |w.plan|) && Broken(w, s)
    ensures var s' := Apply(w, s, e);
            && s'.done == s.done && s'.dead == s.dead && s'.waiting == s.waiting && s'.broken
            && Broken(w, s') && AfterBreak(w, s') < AfterBreak(w, s)
  {
    hide World.ReplyTo, Wanted, Accepts, UnpackRequest, Reply, PackReplyHeader;
    if e.Receive? {
      var s' := Apply(w, s, e);
      assert s'.got + s'.down == s.got + s.down;
    } else if e.HandlerParse? {
      SomeReply(w, s, e);
    }
  }

  lemma SomeReply(w: World, s: State, e: Event)
    requires w.Valid() && Enabled(w, s, e) && e.HandlerParse?
    ensures Apply(w, s, e).reply != []
  {
    hide PackReplyHeader, UnpackRequest;
  }

  lemma OnlyBroken(w: World, s: State, e: Event)
    requires w.Valid() && Enabled(w, s, e) && (e.Fail? || e.HandlerStop?)
    ensures s.broken
  {
  }

  lemma StepKeepsInv(w: World, s: State, e: Event)
    requires w.Valid() && Inv(w, s) && Enabled(w, s, e)
    ensures Inv(w, Apply(w, s, e))
    ensures Measure(w, Apply(w, s, e)) < Measure(w, s)
  {
    hide *;
    match e
    case Issue => IssueKeepsInv(w, s);
    case Finish => FinishKeepsInv(w, s);
    case Break(_, _) => BreakKeepsInv(w, s, e);
    case HandlerParse => if s.broken { BrokenStepKeepsInv(w, s, e); } else { ParseKeepsInv(w, s); }
    case Send(_) => if s.broken { BrokenStepKeepsInv(w, s, e); } else { UpMoveKeepsInv(w, s, e); }
    case HandlerReceive(_) => if s.broken { BrokenStepKeepsInv(w, s, e); } else { UpMoveKeepsInv(w, s, e); }
    case Receive(_) => if s.broken { BrokenStepKeepsInv(w, s, e); } else { DownMoveKeepsInv(w, s, e); }
    case HandlerSend(_) => if s.broken { BrokenStepKeepsInv(w, s, e); } else { DownMoveKeepsInv(w, s, e); }
    case Fail => OnlyBroken(w, s, e); BrokenStepKeepsInv(w, s, e);
    case HandlerStop => OnlyBroken(w, s, e); BrokenStepKeepsInv(w, s, e);
  }

  // ---------------------------------------------------------------- progress

  /** Byte moves and turns left; a break leaves at most those of `AfterBreak`. */
  ghost function Measure(w: World, s: State): nat
    requires w.Valid() && Inv(w, s)
  {
    if s.broken then AfterBreak(w, s)
    else 2 * |w.plan| + 5
         + if !s.waiting then Ahead(w, |s.done|)
           else Ahead(w, |s.done| + 1)
                + if Asking(w, s) then 2 * |s.unsent| + |s.up| + 2 * |w.ReplyTo(w.plan[|s.done|])| + 2
                  else 2 * |s.reply| + |s.down| + 1
  }

  /** What is still to arrive, the reads still to begin or to end, and the handler's last steps. */
  ghost function AfterBreak(w: World, s: State): nat
    requires w.Valid() && |s.done| <= |w.plan| && (s.waiting ==> |s.done| < |w.plan|)
  {
    |s.down| + 2 * (|w.plan| - |s.done|) - (if s.waiting then 1 else 0)
    + if s.closed then (if s.reply == [] then 0 else 1) else 3 + |s.up| + (if s.reply == [] then 1 else 0)
  }

  ghost function Ahead(w: World, i: nat): nat
    requires w.Valid() && i <= |w.plan|
    decreases |w.plan| - i
  {
    if i == |w.plan| then 0
    else 2 * REQUEST_SIZE + 2 * |w.ReplyTo(w.plan[i])| + 3 + Ahead(w, i + 1)
  }

  /** Nothing but a break can happen. */
  ghost predicate Stuck(w: World, s: State)
    requires w.Valid()
  {
    forall e: Event :: e.Break? || !Enabled(w, s, e)
  }

  /**
   However little room there is, a conversation is stuck only when every read was answered, or one was refused, or one
   failed with the connection; over a broken connection the handler has stopped then.
   */
  lemma StuckMeansFinished(w: World, s: State)
    requires w.Valid() && Inv(w, s) && Stuck(w, s)
    ensures !s.waiting && (s.dead || |s.done| == |w.plan|)
    ensures s.broken ==> s.closed && s.reply == []
  {
    hide World.ReplyTo, World.Answer, Delivered, Wanted, PackRequest;
    DoneFits(w, s);
    assert !Enabled(w, s, Issue) && !Enabled(w, s, Finish) && !Enabled(w, s, HandlerParse);
    assert !Enabled(w, s, Send(1)) && !Enabled(w, s, Receive(1)) && !Enabled(w, s, Fail) && !Enabled(w, s, HandlerStop);
    assert !Enabled(w, s, HandlerReceive(1)) && !Enabled(w, s, HandlerSend(1));
    if s.waiting && (s.broken || Answering(w, s)) {
      WantsWhatIsLeft(w, s);
    }
  }

  lemma DoneFits(w: World, s: State)
    requires w.Valid() && Delivered(w, s)
    ensures |s.done| <= |w.plan|
  {
    hide World.Answer;
  }

  /** While something of the answer is missing the reader wants more, but never more than is missing. */
  lemma WantsWhatIsLeft(w: World, s: State)
    requires w.Valid() && Inv(w, s) && s.waiting && (s.broken || Answering(w, s))
    ensures Wanted(s.got) >= 0 && (!s.broken && |s.down| + |s.reply| > 0 ==> Wanted(s.got) > 0)
    ensures |s.down| > 0 ==> Wanted(s.got) > 0
    ensures !s.broken && Wanted(s.got) > 0 ==> |s.down| + |s.reply| > 0
  {
    hide Delivered, World.Answer, World.ReplyTo, Wanted, Working, Asking;
    var q := w.plan[|s.done|];
    if s.broken {
      assert s.got <= s.got + s.down <= w.ReplyTo(q);
      WantedLeft(w, q, s.got, w.ReplyTo(q)[|s.got|..]);
    } else {
      assert s.got + (s.down + s.reply) == s.got + s.down + s.reply;
      WantedLeft(w, q, s.got, s.down + s.reply);
    }
  }

  lemma WantedLeft(w: World, q: Request, got: seq<byte>, rest: seq<byte>)
    requires w.Valid() && q.nbytes < U64 && got + rest == w.ReplyTo(q)
    ensures Wanted(got) >= 0 && (Wanted(got) > 0 <==> rest != [])
  {
    hide *;
    if REPLY_HEADER_SIZE <= |got| {
      WantedIsMissing(w, q, got, rest);
    } else {
      WantsHeader(got);
      ReplyHasHeader(w, q);
      assert |got + rest| == |got| + |rest|;
    }
  }

  lemma WantsHeader(got: seq<byte>)
    requires |got| < REPLY_HEADER_SIZE
    ensures Wanted(got) == REPLY_HEADER_SIZE - |got|
  {
  }

  lemma ReplyHasHeader(w: World, q: Request)
    requires w.Valid()
    ensures |w.ReplyTo(q)| >= REPLY_HEADER_SIZE
  {
    hide PackReplyHeader;
  }

  // ---------------------------------------------------------------- runs

  /** A run from the initial state: the states after 0, 1, 2, ... events. */
  ghost predicate IsRun(w: World, run: seq<State>)
    requires w.Valid()
  {
    && run != [] && run[0] == INIT
    && forall i :: 0 <= i < |run| - 1 ==> Follows(w, run[i], run[i + 1])
  }

  ghost predicate Follows(w: World, s: State, s': State)
    requires w.Valid()
  {
    exists e :: Enabled(w, s, e) && Apply(w, s, e) == s'
  }

  lemma {:induction false} RunKeepsInv(w: World, run: seq<State>, i: nat)
    requires w.Valid() && IsRun(w, run) && i < |run|
    ensures Inv(w, run[i]) && Measure(w, run[i]) + i <= Measure(w, INIT)
  {
    if i > 0 {
      RunKeepsInv(w, run, i - 1);
      assert Follows(w, run[i - 1], run[i - 1 + 1]);
      var e :| Enabled(w, run[i - 1], e) && Apply(w, run[i - 1], e) == run[i];
      StepKeepsInv(w, run[i - 1], e);
    }
  }

  /**
   Under every interleaving, chunking and break, each finished read got exactly the bytes at its address (or the refusal it
   deserves), except that the last one fails when the connection breaks; runs are bounded, and a run in which nothing but a
   break can happen any more has finished: it answered every read up to and including the first refused or failed one.
   */
  lemma EveryRunDelivers(w: World, run: seq<State>)
    requires w.Valid() && IsRun(w, run)
    ensures |run| <= Measure(w, INIT) + 1
    ensures var last := run[|run| - 1];
            && |last.done| <= |w.plan|
            && (forall i :: 0 <= i < |last.done| ==>
                  last.done[i] == w.Answer(w.plan[i]) || (last.broken && i == |last.done| - 1 && last.done[i] == Lost))
            && (Stuck(w, last) ==> |last.done| == |w.plan| || (last.done != [] && !last.done[|last.done| - 1].Data?))
  {
    hide Stuck, Apply, Measure, World.Answer, World.ReplyTo, Enabled;
    var last := run[|run| - 1];
    RunKeepsInv(w, run, |run| - 1);
    if Stuck(w, last) {
      StuckMeansFinished(w, last);
    }
  }
}
