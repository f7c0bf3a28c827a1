/**
 Which servers a generate call touched, and the programs it may have left on them (`dynamo_agent_loop.py`): every
 server acquired for a session is asked to finalize, with three attempts each, and the ones that never
 acknowledge are counted as leaks.
 */
module Finalize {
  import opened Wrappers

  type Server = string
  type Session = string
  type Request = string

  const ROUTING_CACHE_MAX := 65536
  const ATTEMPTS := 3

  // ---------------------------------------------------------------- the client's fields

  /** Tracked sessions, least recently used first, the servers each one acquired, and the requests inside `generate`. */
  datatype Tracking = Tracking(order: seq<Session>, served: map<Session, seq<Server>>, inflight: map<Request, Session>,
                               leaks: nat)

  function Without(order: seq<Session>, session: Session): seq<Session> {
    if order == [] then []
    else
      var n := |order| - 1;
      Without(order[..n], session) + if order[n] == session then [] else [order[n]]
  }

  function AddServer(servers: seq<Server>, server: Server): seq<Server> {
    if server in servers then servers else servers + [server]
  }

  /** Forgets the oldest sessions above the limit. */
  function Evict(t: Tracking): Tracking
    decreases |t.order|
  {
    if |t.order| <= ROUTING_CACHE_MAX then t
    else Evict(t.(order := t.order[1..], served := t.served - {t.order[0]}))
  }

  function ServedBy(t: Tracking, session: Session): seq<Server> {
    if session in t.served then t.served[session] else []
  }

  /** `_record_served_server` */
  function Record(t: Tracking, session: Session, server: Server): Tracking {
    var room := if session in t.served then t
                else Evict(t.(order := t.order + [session], served := t.served[session := []]));
    room.(order := Without(room.order, session) + [session],
          served := room.served[session := AddServer(ServedBy(t, session), server)])
  }

  /** `_drop_session` */
  function Drop(t: Tracking, session: Session): Tracking {
    t.(order := Without(t.order, session), served := t.served - {session})
  }

  /** A request enters `generate`: from now on the servers acquired under it belong to the session. */
  function Entered(t: Tracking, request: Request, session: Session): Tracking {
    t.(inflight := t.inflight[request := session])
  }

  /** A request leaves `generate`. */
  function Left(t: Tracking, request: Request): Tracking {
    t.(inflight := t.inflight - {request})
  }

  /** A server acquired under a request is recorded for the session that the request belongs to, if any. */
  function Attributed(t: Tracking, request: Request, server: Server): Tracking {
    if request in t.inflight then Record(t, t.inflight[request], server) else t
  }

  /** The servers a client was made with, and whether it has a load balancer. */
  datatype Pool = Pool(statics: set<Server>, balanced: bool)

  /** Where one `finalize_program` goes: to the recorded servers, else where the load balancer says, else to all static ones. */
  datatype Target = Routed | Direct(servers: set<Server>)

  function Route(pool: Pool, t: Tracking, session: Session): Target {
    if ServedBy(t, session) != [] then Direct(set x | x in ServedBy(t, session))
    else if pool.balanced then Routed
    else Direct(pool.statics)
  }

  /** The servers that one `finalize_program` asks; `reached` is the load balancer's answer, if it gives one. */
  function Asked(target: Target, reached: Option<Server>): set<Server> {
    match target
    case Direct(servers) => servers
    case Routed => if reached.Some? then {reached.value} else {}
  }

  /** It returns when all of them acknowledge. */
  predicate Confirms(target: Target, reached: Option<Server>, acks: set<Server>) {
    (target.Routed? ==> reached.Some?) && Asked(target, reached) <= acks
  }

  /** Whom one `finalize_program` needs an acknowledgement from. */
  lemma ConfirmsIff(pool: Pool, t: Tracking, session: Session, reached: Option<Server>, acks: set<Server>)
    ensures Confirms(Route(pool, t, session), reached, acks) <==>
            if session in t.served && t.served[session] != [] then forall x :: x in t.served[session] ==> x in acks
            else if pool.balanced then reached.Some? && reached.value in acks
            else forall x :: x in pool.statics ==> x in acks
  {
    if session in t.served && t.served[session] != [] {
      forall x | x in t.served[session]
        ensures x in Asked(Route(pool, t, session), reached)
      {
      }
    }
  }

  /** The servers without an acknowledgement. */
  function Unconfirmed(servers: seq<Server>, acked: set<Server>): seq<Server> {
    if servers == [] then []
    else
      var n := |servers| - 1;
      Unconfirmed(servers[..n], acked) + if servers[n] in acked then [] else [servers[n]]
  }

  class Client {
    var order: seq<Session>
    var served: map<Session, seq<Server>>
    var inflight: map<Request, Session>
    var leaks: nat
    const threshold: nat
    const pool: Pool

    ghost function State(): Tracking
      reads this
    {
      Tracking(order, served, inflight, leaks)
    }

    constructor (threshold: nat, pool: Pool)
      ensures State() == Tracking([], map[], map[], 0) && this.threshold == threshold && this.pool == pool
    {
      order, served, inflight, leaks := [], map[], map[], 0;
      this.threshold, this.pool := threshold, pool;
    }

    method RecordServedServer(session: Session, server: Server)
      modifies this
      ensures State() == Record(old(State()), session, server)
    {
      var servers := if session in served then served[session] else [];
      if session !in served {
        order, served := order + [session], served[session := []];
        while |order| > ROUTING_CACHE_MAX
          invariant Evict(State()) == Evict(old(State()).(order := old(order) + [session], served := old(served)[session := []]))
          decreases |order|
        {
          served, order := served - {order[0]}, order[1..];
        }
      }
      order := Without(order, session) + [session];
      if server !in servers {
        servers := servers + [server];
      }
      served := served[session := servers];
    }

    method DropSession(session: Session)
      modifies this
      ensures State() == Drop(old(State()), session)
    {
      served := served - {session};
      order := Without(order, session);
    }

    /** `_acquire_server`, once the load balancer has answered. */
    method AcquireServer(request: Request, server: Server)
      modifies this
      ensures State() == Attributed(old(State()), request, server)
    {
      if request in inflight {
        RecordServedServer(inflight[request], server);
      }
    }

    /** `generate` up to the call of its parent. */
    method BeginGenerate(request: Request, session: Session)
      modifies this
      ensures State() == Entered(old(State()), request, session)
    {
      inflight := inflight[request := session];
    }

    /** The `finally` of `generate`, and the look-up that decides how to finalize. */
    method EndGenerate(request: Request, session: Session) returns (servers: seq<Server>)
      modifies this
      ensures State() == Left(old(State()), request)
      ensures servers == ServedBy(old(State()), session)
    {
      inflight := inflight - {request};
      servers := if session in served then served[session] else [];
    }

    /** `_finalize_served_with_recovery` with what the attempts at each server yield. */
    method FinalizeServed(session: Session, servers: seq<Server>, replies: map<Server, seq<bool>>) returns (raised: bool)
      requires forall k :: 0 <= k < |servers| ==> servers[k] in replies && |replies[servers[k]]| == ATTEMPTS
      modifies this
      ensures State() == Settle(old(State()), session, servers, set s | s in servers && true in replies[s])
      ensures raised == (leaks > old(leaks) && leaks >= threshold)
    {
      ghost var acked := set s | s in servers && true in replies[s];
      var unconfirmed := [];
      for k := 0 to |servers|
        invariant unconfirmed == Unconfirmed(servers[..k], acked)
        modifies {}
      {
        assert servers[..k + 1][..k] == servers[..k];
        var confirmed := FinalizeOne(replies[servers[k]]);
        if !confirmed {
          unconfirmed := unconfirmed + [servers[k]];
        }
      }
      assert servers[..|servers|] == servers;
      DropSession(session);
      raised := false;
      if unconfirmed != [] {
        leaks := leaks + |unconfirmed|;
        raised := leaks >= threshold;
      }
    }

    /**
     `finalize_program`: it is confirmed if every server recorded for the session acknowledges; with none recorded, if the
     one that the load balancer names does; without a load balancer, if all static ones do. Only then the session is dropped.
     */
    method FinalizeProgram(session: Session, reached: Option<Server>, acks: set<Server>) returns (confirmed: bool)
      modifies this
      ensures confirmed <==>
                if session in old(served) && old(served)[session] != [] then forall x :: x in old(served)[session] ==> x in acks
                else if pool.balanced then reached.Some? && reached.value in acks
                else forall x :: x in pool.statics ==> x in acks
      ensures State() == if confirmed then Drop(old(State()), session) else old(State())
    {
      var servers := if session in served then served[session] else [];
      if servers != [] {
        confirmed := forall x :: x in servers ==> x in acks;
      } else if pool.balanced {
        confirmed := reached.Some? && reached.value in acks;
      } else {
        confirmed := forall x :: x in pool.statics ==> x in acks;
      }
      if confirmed {
        DropSession(session);
      }
    }

    /**
     The chain for sessions without recorded servers: up to three times `finalize_program`, then a broadcast that counts
     as unconfirmed. `reached` and `acks` are what the load balancer and the servers say at each attempt.
     */
    method FinalizeUntracked(session: Session, reached: seq<Option<Server>>, acks: seq<set<Server>>)
      returns (attempts: nat, confirmed: bool, raised: bool)
      requires |reached| == |acks| == ATTEMPTS
      modifies this
      ensures var target := Route(pool, old(State()), session);
              && attempts <= ATTEMPTS && (forall k :: 0 <= k < attempts ==> !Confirms(target, reached[k], acks[k]))
              && confirmed == (attempts < ATTEMPTS) && (confirmed ==> Confirms(target, reached[attempts], acks[attempts]))
      ensures State() == Drop(old(State()), session).(leaks := old(leaks) + if confirmed then 0 else 1)
      ensures raised == (!confirmed && leaks >= threshold)
    {
      attempts, confirmed, raised := 0, false, false;
      while attempts < ATTEMPTS
        invariant attempts <= ATTEMPTS && State() == old(State())
        invariant forall k :: 0 <= k < attempts ==> !Confirms(Route(pool, old(State()), session), reached[k], acks[k])
      {
        ConfirmsIff(pool, State(), session, reached[attempts], acks[attempts]);
        confirmed := FinalizeProgram(session, reached[attempts], acks[attempts]);
        if confirmed {
          return;
        }
        attempts := attempts + 1;
      }
      confirmed := false;
      DropSession(session);
      leaks := leaks + 1;
      raised := leaks >= threshold;
    }
  }

  /** The bounded retry loop at one server. */
  method FinalizeOne(replies: seq<bool>) returns (confirmed: bool)
    requires |replies| == ATTEMPTS
    ensures confirmed <==> true in replies
  {
    for attempt := 0 to ATTEMPTS
      invariant true !in replies[..attempt]
    {
      if replies[attempt] {
        return true;
      }
    }
    assert replies[..ATTEMPTS] == replies;
    confirmed := false;
  }

  /** Every server was asked: the session is dropped and the servers that never acknowledged are counted. */
  function Settle(t: Tracking, session: Session, servers: seq<Server>, acked: set<Server>): Tracking {
    Drop(t, session).(leaks := t.leaks + |Unconfirmed(servers, acked)|)
  }
}
