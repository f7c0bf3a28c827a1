/**
 What recording and dropping do to the tracked sessions: which servers stay recorded, in which order sessions are
 kept, and which one leaves when the cache is full.
 */
module SessionTracking {
  import opened Finalize

  ghost predicate Distinct<T>(s: seq<T>) {
    forall i, j :: 0 <= i < j < |s| ==> s[i] != s[j]
  }

  ghost predicate TrackingInv(t: Tracking) {
    && Distinct(t.order) && (forall session :: session in t.order <==> session in t.served)
  }

  lemma DistinctMore<T>(s: seq<T>, x: T)
    ensures Distinct(s + [x]) <==> Distinct(s) && x !in s
  {
    var more := s + [x];
    if Distinct(more) {
      forall i, j | 0 <= i < j < |s|
        ensures s[i] != s[j]
      {
        assert more[i] != more[j];
      }
      forall i | 0 <= i < |s|
        ensures s[i] != x
      {
        assert more[i] != more[|s|];
      }
    }
  }

  lemma {:induction false} WithoutFacts(order: seq<Session>, session: Session)
    requires Distinct(order)
    ensures Distinct(Without(order, session))
    ensures forall x :: x in Without(order, session) <==> x in order && x != session
  {
    if order != [] {
      var n := |order| - 1;
      assert order == order[..n] + [order[n]];
      DistinctMore(order[..n], order[n]);
      WithoutFacts(order[..n], session);
      DistinctMore(Without(order[..n], session), order[n]);
      hide Distinct;
      assert Without(order[..n], session) + [] == Without(order[..n], session);
    }
  }

  lemma {:induction false} UnconfirmedCount(servers: seq<Server>, acked: set<Server>)
    requires Distinct(servers) && acked <= (set x | x in servers)
    ensures |Unconfirmed(servers, acked)| + |acked| == |servers|
  {
    if servers == [] {
      assert acked == {};
    } else {
      var n := |servers| - 1;
      var init, last := servers[..n], servers[n];
      assert servers == init + [last];
      UnconfirmedCount(init, acked - {last});
      SameUnconfirmed(init, acked, last);
    }
  }

  lemma {:induction false} SameUnconfirmed(servers: seq<Server>, acked: set<Server>, last: Server)
    requires last !in servers
    ensures Unconfirmed(servers, acked - {last}) == Unconfirmed(servers, acked)
  {
    if servers != [] {
      var n := |servers| - 1;
      assert servers == servers[..n] + [servers[n]];
      SameUnconfirmed(servers[..n], acked, last);
    }
  }

  // ---------------------------------------------------------------- which sessions are tracked

  /** An acquisition of a server for a session. */
  datatype Use = Use(session: Session, server: Server)

  function Track(uses: seq<Use>): Tracking {
    if uses == [] then Tracking([], map[], map[], 0)
    else
      var last := uses[|uses| - 1];
      Record(Track(uses[..|uses| - 1]), last.session, last.server)
  }

  /** The different sessions in the order of their last use. */
  function LastUses(uses: seq<Use>): seq<Session> {
    if uses == [] then []
    else
      var last := uses[|uses| - 1].session;
      Without(LastUses(uses[..|uses| - 1]), last) + [last]
  }

  lemma {:induction false} WithoutConcat(a: seq<Session>, b: seq<Session>, session: Session)
    ensures Without(a + b, session) == Without(a, session) + Without(b, session)
  {
    if b == [] {
      assert a + b == a;
    } else {
      var n := |b| - 1;
      assert (a + b)[..|a + b| - 1] == a + b[..n];
      WithoutConcat(a, b[..n], session);
    }
  }

  lemma {:induction false} WithoutAbsent(order: seq<Session>, session: Session)
    requires session !in order
    ensures Without(order, session) == order
  {
    if order != [] {
      var n := |order| - 1;
      assert order == order[..n] + [order[n]];
      WithoutAbsent(order[..n], session);
    }
  }

  lemma {:induction false} WithoutLength(order: seq<Session>, session: Session)
    requires Distinct(order)
    ensures |Without(order, session)| == |order| - if session in order then 1 else 0
  {
    if order != [] {
      var n := |order| - 1;
      assert order == order[..n] + [order[n]];
      DistinctMore(order[..n], order[n]);
      hide Distinct;
      WithoutLength(order[..n], session);
    }
  }

  /** What recording does to the order: the session becomes the last, and above the limit the first one leaves. */
  lemma RecordOrder(t: Tracking, session: Session, server: Server)
    requires TrackingInv(t) && |t.order| <= ROUTING_CACHE_MAX
    ensures var t' := Record(t, session, server);
            && TrackingInv(t')
            && t'.order == if session in t.order then Without(t.order, session) + [session]
                           else if |t.order| < ROUTING_CACHE_MAX then t.order + [session]
                           else t.order[1..] + [session]
  {
    hide *;
    TrackedSessions(t);
    if session in t.order {
      OrderOfKnown(t, session, server);
    } else {
      OrderOfNew(t, session, server);
    }
  }

  lemma OrderOfKnown(t: Tracking, session: Session, server: Server)
    requires TrackingInv(t) && session in t.order
    ensures var t' := Record(t, session, server);
            TrackingInv(t') && t'.order == Without(t.order, session) + [session]
  {
    hide *;
    TrackedSessions(t);
    WithoutFacts(t.order, session);
    DistinctMore(Without(t.order, session), session);
    RecordKnown(t, session, server);
    Tracks(Record(t, session, server));
  }

  lemma OrderOfNew(t: Tracking, session: Session, server: Server)
    requires TrackingInv(t) && session !in t.order && |t.order| <= ROUTING_CACHE_MAX
    ensures var t' := Record(t, session, server);
            TrackingInv(t') && t'.order == (if |t.order| < ROUTING_CACHE_MAX then t.order else t.order[1..]) + [session]
  {
    hide *;
    CacheLimit();
    TrackedSessions(t);
    RecordNew(t, session, server);
    var rest := if |t.order| < ROUTING_CACHE_MAX then t.order else t.order[1..];
    if |t.order| == ROUTING_CACHE_MAX {
      assert t.order == [t.order[0]] + rest;
      DistinctTail(t.order);
    }
    WithoutConcat(rest, [session], session);
    WithoutAbsent(rest, session);
    WithoutSelf(session);
    assert rest + [] == rest;
    DistinctMore(rest, session);
    Tracks(Record(t, session, server));
  }

  lemma CacheLimit()
    ensures ROUTING_CACHE_MAX == 65536
  {
  }

  lemma WithoutSelf(session: Session)
    ensures Without([session], session) == []
  {
    assert [session][..0] == [];
  }

  lemma DistinctTail(order: seq<Session>)
    requires Distinct(order) && order != []
    ensures Distinct(order[1..]) && order[0] !in order[1..]
  {
  }

  lemma TrackedSessions(t: Tracking)
    requires TrackingInv(t)
    ensures Distinct(t.order) && forall session :: session in t.order <==> session in t.served
  {
  }

  lemma Tracks(t: Tracking)
    requires Distinct(t.order) && forall session :: session in t.order <==> session in t.served
    ensures TrackingInv(t)
  {
  }

  lemma RecordKnown(t: Tracking, session: Session, server: Server)
    requires session in t.served
    ensures var t' := Record(t, session, server);
            && t'.order == Without(t.order, session) + [session]
            && t'.served == t.served[session := AddServer(t.served[session], server)]
  {
    hide Without;
  }

  lemma RecordNew(t: Tracking, session: Session, server: Server)
    requires session !in t.served && |t.order| <= ROUTING_CACHE_MAX
    ensures var full := |t.order| == ROUTING_CACHE_MAX;
            var rest := if full then t.order[1..] else t.order;
            var t' := Record(t, session, server);
            && t'.order == Without(rest + [session], session) + [session]
            && t'.served == (if full then t.served - {t.order[0]} else t.served)[session := AddServer([], server)]
  {
    hide Without;
    var more := t.(order := t.order + [session], served := t.served[session := []]);
    if |t.order| == ROUTING_CACHE_MAX {
      var less := more.(order := more.order[1..], served := more.served - {more.order[0]});
      assert more.order[1..] == t.order[1..] + [session] && more.order[0] == t.order[0];
      assert Evict(less) == less && Evict(more) == Evict(less);
    }
  }

  /** The tracked sessions are the most recently used ones: all of them, unless the cache is full. */
  lemma {:induction false} MostRecentStay(uses: seq<Use>) returns (forgotten: seq<Session>)
    ensures var t := Track(uses);
            && TrackingInv(t) && |t.order| <= ROUTING_CACHE_MAX
            && LastUses(uses) == forgotten + t.order
            && (forgotten != [] ==> |t.order| == ROUTING_CACHE_MAX)
            && Distinct(LastUses(uses))
  {
    hide *;
    CacheLimit();
    NothingUsed();
    forgotten := [];
    if uses != [] {
      var init, last := uses[..|uses| - 1], uses[|uses| - 1];
      var t, session := Track(init), last.session;
      var before := MostRecentStay(init);
      UsedOnce(uses);
      RecordOrder(t, session, last.server);
      WithoutConcat(before, t.order, session);
      WithoutFacts(before + t.order, session);
      DistinctMore(Without(before + t.order, session), session);
      TrackedSessions(t);
      WithoutLength(t.order, session);
      if session in t.order {
        DisjointParts(before, t.order, session);
        WithoutAbsent(before, session);
        forgotten := before;
      } else {
        WithoutAbsent(t.order, session);
        if |t.order| == ROUTING_CACHE_MAX {
          forgotten := Without(before, session) + [t.order[0]];
          assert t.order == [t.order[0]] + t.order[1..];
        } else {
          WithoutAbsent([], session);
        }
      }
    }
  }

  lemma NothingUsed()
    ensures Track([]) == Tracking([], map[], map[], 0) && LastUses([]) == [] && TrackingInv(Track([])) && Distinct<Session>([])
  {
  }

  lemma UsedOnce(uses: seq<Use>)
    requires uses != []
    ensures var init, last := uses[..|uses| - 1], uses[|uses| - 1];
            && Track(uses) == Record(Track(init), last.session, last.server)
            && LastUses(uses) == Without(LastUses(init), last.session) + [last.session]
  {
    hide Record, Without;
  }

  lemma DisjointParts(a: seq<Session>, b: seq<Session>, session: Session)
    requires Distinct(a + b) && session in b
    ensures session !in a
  {
    var j :| 0 <= j < |b| && b[j] == session;
    forall i | 0 <= i < |a|
      ensures a[i] != session
    {
      assert (a + b)[i] != (a + b)[|a| + j];
    }
  }

  // ---------------------------------------------------------------- what one change does to the others

  /** At most as many sessions as the cache takes, each with its different servers, at least one. */
  ghost predicate CacheInv(t: Tracking) {
    && TrackingInv(t) && |t.order| <= ROUTING_CACHE_MAX
    && forall session :: session in t.served ==> t.served[session] != [] && Distinct(t.served[session])
  }

  /** Recording `session` makes `other` leave a full cache. */
  ghost predicate Evicts(t: Tracking, session: Session, other: Session) {
    session !in t.served && |t.order| == ROUTING_CACHE_MAX && other == t.order[0]
  }

  lemma RecordEffect(t: Tracking, session: Session, server: Server)
    requires CacheInv(t)
    ensures var t' := Record(t, session, server);
            && CacheInv(t') && ServedBy(t', session) == AddServer(ServedBy(t, session), server)
            && (forall other :: other in t'.served ==> other in t.served || other == session)
            && forall other :: other != session ==>
                 ServedBy(t', other) == if Evicts(t, session, other) then [] else ServedBy(t, other)
  {
    hide *;
    CacheParts(t);
    if session in t.served {
      EffectOnKnown(t, session, server);
    } else {
      EffectOnNew(t, session, server);
    }
  }

  lemma CacheParts(t: Tracking)
    requires CacheInv(t)
    ensures TrackingInv(t) && |t.order| <= ROUTING_CACHE_MAX
    ensures forall session :: session in t.served ==> t.served[session] != [] && Distinct(t.served[session])
  {
    hide TrackingInv, Distinct;
  }

  lemma EffectOnKnown(t: Tracking, session: Session, server: Server)
    requires CacheInv(t) && session in t.served
    ensures var t' := Record(t, session, server);
            && CacheInv(t') && ServedBy(t', session) == AddServer(ServedBy(t, session), server)
            && (forall other :: other in t'.served ==> other in t.served || other == session)
            && forall other :: other != session ==>
                 ServedBy(t', other) == if Evicts(t, session, other) then [] else ServedBy(t, other)
  {
    hide Record, Without, Distinct, TrackingInv;
    TrackedSessions(t);
    RecordOrder(t, session, server);
    RecordKnown(t, session, server);
    DistinctMore(t.served[session], server);
    WithoutLength(t.order, session);
  }

  lemma EffectOnNew(t: Tracking, session: Session, server: Server)
    requires CacheInv(t) && session !in t.served
    ensures var t' := Record(t, session, server);
            && CacheInv(t') && ServedBy(t', session) == AddServer(ServedBy(t, session), server)
            && (forall other :: other in t'.served ==> other in t.served || other == session)
            && forall other :: other != session ==>
                 ServedBy(t', other) == if Evicts(t, session, other) then [] else ServedBy(t, other)
  {
    hide Record, Without, Distinct, TrackingInv;
    TrackedSessions(t);
    RecordOrder(t, session, server);
    RecordNew(t, session, server);
    OnlyOne(server);
  }

  lemma OnlyOne(server: Server)
    ensures AddServer([], server) == [server] && Distinct([server])
  {
  }

  lemma RecordFrame(t: Tracking, session: Session, server: Server)
    ensures var t' := Record(t, session, server);
            t'.inflight == t.inflight && t'.leaks == t.leaks
  {
    hide Without, AddServer, ServedBy;
    EvictFrame(if session in t.served then t else t.(order := t.order + [session], served := t.served[session := []]));
  }

  lemma {:induction false} EvictFrame(t: Tracking)
    ensures Evict(t).inflight == t.inflight && Evict(t).leaks == t.leaks
    decreases |t.order|
  {
    if |t.order| > ROUTING_CACHE_MAX {
      EvictFrame(t.(order := t.order[1..], served := t.served - {t.order[0]}));
    }
  }

  lemma DropEffect(t: Tracking, session: Session)
    requires CacheInv(t)
    ensures var t' := Drop(t, session);
            && CacheInv(t') && t'.inflight == t.inflight && t'.leaks == t.leaks && ServedBy(t', session) == []
            && (forall other :: other in t'.served ==> other in t.served && other != session)
            && forall other :: other != session ==> ServedBy(t', other) == ServedBy(t, other)
  {
    hide Distinct, Without, TrackingInv;
    TrackedSessions(t);
    WithoutFacts(t.order, session);
    WithoutLength(t.order, session);
    Tracks(Drop(t, session));
  }
}
