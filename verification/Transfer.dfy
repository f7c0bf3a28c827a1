/** `transfer_backend.py`: framing, the receive loops, and the two ends of a data-plane connection. */
module Framing {
  import opened Bytes

  const REQUEST_SIZE: nat := 17
  const REPLY_HEADER_SIZE: nat := 9
  const OP_READ: nat := 0
  const STATUS_OK: nat := 0
  const STATUS_REJECTED: nat := 1
  const U64: nat := 0x1_0000_0000_0000_0000

  /** `struct.Struct(">BQQ").pack(op, srcPtr, nbytes)` */
  function PackRequest(op: nat, srcPtr: nat, nbytes: nat): (s: seq<byte>)
    ensures |s| == REQUEST_SIZE
  {
    BigEndian(op, 1) + BigEndian(srcPtr, 8) + BigEndian(nbytes, 8)
  }

  function UnpackRequest(s: seq<byte>): (nat, nat, nat)
    requires |s| == REQUEST_SIZE
  {
    (FromBigEndian(s[..1]), FromBigEndian(s[1..9]), FromBigEndian(s[9..]))
  }

  /** `struct.Struct(">BQ").pack(status, nbytes)` */
  function PackReplyHeader(status: nat, nbytes: nat): (s: seq<byte>)
    ensures |s| == REPLY_HEADER_SIZE
  {
    BigEndian(status, 1) + BigEndian(nbytes, 8)
  }

  function UnpackReplyHeader(s: seq<byte>): (nat, nat)
    requires |s| == REPLY_HEADER_SIZE
  {
    (FromBigEndian(s[..1]), FromBigEndian(s[1..]))
  }

  lemma Widths()
    ensures Pow256(1) == 256 && Pow256(8) == U64
  {
    assert Pow256(2) == 0x1_0000;
    assert Pow256(4) == 0x1_0000_0000;
    assert Pow256(6) == 0x1_0000_0000_0000;
  }

  lemma RequestRoundTrip(op: nat, srcPtr: nat, nbytes: nat)
    requires op < 256 && srcPtr < U64 && nbytes < U64
    ensures UnpackRequest(PackRequest(op, srcPtr, nbytes)) == (op, srcPtr, nbytes)
  {
    var s := PackRequest(op, srcPtr, nbytes);
    Widths();
    BigEndianRoundTrip(op, 1);
    BigEndianRoundTrip(srcPtr, 8);
    BigEndianRoundTrip(nbytes, 8);
    assert s[..1] == BigEndian(op, 1) && s[1..9] == BigEndian(srcPtr, 8) && s[9..] == BigEndian(nbytes, 8);
  }

  lemma ReplyHeaderRoundTrip(status: nat, nbytes: nat)
    requires status < 256 && nbytes < U64
    ensures UnpackReplyHeader(PackReplyHeader(status, nbytes)) == (status, nbytes)
  {
    var s := PackReplyHeader(status, nbytes);
    Widths();
    BigEndianRoundTrip(status, 1);
    BigEndianRoundTrip(nbytes, 8);
    assert s[..1] == BigEndian(status, 1) && s[1..] == BigEndian(nbytes, 8);
  }

  /** A served address range. */
  datatype Region = Region(base: nat, capacity: nat)

  /** The memory behind the served regions: `bytes` at address `base`. */
  datatype Memory = Memory(base: nat, bytes: seq<byte>) {
    predicate Covers(srcPtr: nat, nbytes: nat) {
      base <= srcPtr && srcPtr + nbytes <= base + |bytes|
    }

    function Read(srcPtr: nat, nbytes: nat): (s: seq<byte>)
      requires Covers(srcPtr, nbytes)
      ensures |s| == nbytes
    {
      bytes[srcPtr - base..srcPtr - base + nbytes]
    }
  }

  /** Only registered ranges may be read, and only in full. */
  predicate IsServed(regions: seq<Region>, srcPtr: nat, nbytes: nat) {
    exists i :: 0 <= i < |regions| && Within(regions[i], srcPtr, nbytes)
  }

  predicate Within(r: Region, srcPtr: nat, nbytes: nat) {
    srcPtr >= r.base && srcPtr + nbytes <= r.base + r.capacity
  }

  /** Registered regions lie in the memory, whose addresses fit the wire format. */
  ghost predicate Reachable(regions: seq<Region>, mem: Memory) {
    && mem.base + |mem.bytes| < U64
    && forall i :: 0 <= i < |regions| ==> mem.Covers(regions[i].base, regions[i].capacity)
  }

  lemma ReachableWhateverTheBytes(regions: seq<Region>, mem: Memory, mem': Memory)
    requires Reachable(regions, mem) && mem.base == mem'.base && |mem.bytes| == |mem'.bytes|
    ensures Reachable(regions, mem')
  {
    assert forall i :: 0 <= i < |regions| ==> mem.Covers(regions[i].base, regions[i].capacity);
  }

  lemma ServedIsCovered(regions: seq<Region>, mem: Memory, srcPtr: nat, nbytes: nat)
    requires Reachable(regions, mem) && IsServed(regions, srcPtr, nbytes)
    ensures mem.Covers(srcPtr, nbytes)
  {
    var i :| 0 <= i < |regions| && Within(regions[i], srcPtr, nbytes);
    assert mem.Covers(regions[i].base, regions[i].capacity);
  }

  /** Whether the handler answers a request with data. */
  predicate Accepts(regions: seq<Region>, op: nat, srcPtr: nat, nbytes: nat) {
    op == OP_READ && IsServed(regions, srcPtr, nbytes)
  }

  /** The bytes sent back for one request. */
  function Reply(regions: seq<Region>, mem: Memory, op: nat, srcPtr: nat, nbytes: nat): seq<byte>
    requires Accepts(regions, op, srcPtr, nbytes) ==> mem.Covers(srcPtr, nbytes)
  {
    if Accepts(regions, op, srcPtr, nbytes)
    then PackReplyHeader(STATUS_OK, nbytes) + mem.Read(srcPtr, nbytes)
    else PackReplyHeader(STATUS_REJECTED, 0)
  }

  /** A handler's whole conversation: what it sends for a stream of requests, and whether it keeps the connection. */
  datatype Served = Served(output: seq<byte>, open: bool)

  ghost function Serve(regions: seq<Region>, mem: Memory, input: seq<byte>): Served
    requires Reachable(regions, mem)
  {
    if |input| < REQUEST_SIZE then Served([], true)
    else
      var (op, srcPtr, nbytes) := UnpackRequest(input[..REQUEST_SIZE]);
      if Accepts(regions, op, srcPtr, nbytes) then
        ServedIsCovered(regions, mem, srcPtr, nbytes);
        var rest := Serve(regions, mem, input[REQUEST_SIZE..]);
        Served(Reply(regions, mem, op, srcPtr, nbytes) + rest.output, rest.open)
      else
        Served(Reply(regions, mem, op, srcPtr, nbytes), false)
  }

  /**
   What the handler makes of a request and what follows it, byte for byte: it answers a read inside a registered region with
   0, the length and the bytes at that address, and goes on; anything else with 1 and length 0, and ends.
   */
  lemma ServeFirst(regions: seq<Region>, mem: Memory, op: byte, srcPtr: nat, nbytes: nat, rest: seq<byte>)
    requires Reachable(regions, mem) && srcPtr < U64 && nbytes < U64
    ensures var s := Serve(regions, mem, [op] + BigEndian(srcPtr, 8) + BigEndian(nbytes, 8) + rest);
            if op == 0 && exists r :: r in regions && r.base <= srcPtr && srcPtr + nbytes <= r.base + r.capacity then
              var lo := srcPtr - mem.base;
              && 0 <= lo && lo + nbytes <= |mem.bytes|
              && s.output == [0] + BigEndian(nbytes, 8) + mem.bytes[lo..lo + nbytes] + Serve(regions, mem, rest).output
              && s.open == Serve(regions, mem, rest).open
            else s == Served([1, 0, 0, 0, 0, 0, 0, 0, 0], false)
  {
    hide UnpackRequest, FromBigEndian, BigEndian, Reachable, Memory.Covers;
    var request := PackRequest(op, srcPtr, nbytes);
    var input := [op] + BigEndian(srcPtr, 8) + BigEndian(nbytes, 8) + rest;
    SingleByte(op);
    SingleByte(0);
    SingleByte(1);
    ZeroBytes(8);
    RequestRoundTrip(op, srcPtr, nbytes);
    assert input == request + rest;
    assert input[..REQUEST_SIZE] == request && input[REQUEST_SIZE..] == rest;
    ServedIff(regions, srcPtr, nbytes);
    if Accepts(regions, op, srcPtr, nbytes) {
      ServedIsCovered(regions, mem, srcPtr, nbytes);
      CoveredRange(mem, srcPtr, nbytes);
    }
  }

  /** Nothing is answered before a request is complete. */
  lemma ServeNothing(regions: seq<Region>, mem: Memory, input: seq<byte>)
    requires Reachable(regions, mem) && |input| < 17
    ensures Serve(regions, mem, input) == Served([], true)
  {
  }

  lemma ServedIff(regions: seq<Region>, srcPtr: nat, nbytes: nat)
    ensures IsServed(regions, srcPtr, nbytes) <==>
            exists r :: r in regions && r.base <= srcPtr && srcPtr + nbytes <= r.base + r.capacity
  {
    if r :| r in regions && r.base <= srcPtr && srcPtr + nbytes <= r.base + r.capacity {
      var i :| 0 <= i < |regions| && regions[i] == r;
      assert Within(regions[i], srcPtr, nbytes);
    }
  }

  lemma CoveredRange(mem: Memory, srcPtr: nat, nbytes: nat)
    requires mem.Covers(srcPtr, nbytes)
    ensures var lo := srcPtr - mem.base;
            0 <= lo && lo + nbytes <= |mem.bytes| && mem.Read(srcPtr, nbytes) == mem.bytes[lo..lo + nbytes]
  {
  }

  lemma SingleByte(b: byte)
    ensures BigEndian(b, 1) == [b]
  {
    assert BigEndian(b / 256, 0) == [];
  }

  lemma {:induction false} ZeroBytes(k: nat)
    ensures BigEndian(0, k) == seq(k, _ => 0)
  {
    if k > 0 {
      ZeroBytes(k - 1);
    }
  }

  /** A handler that gets one well-formed request. */
  lemma ServeOne(regions: seq<Region>, mem: Memory, op: nat, srcPtr: nat, nbytes: nat)
    requires Reachable(regions, mem) && op < 256 && srcPtr < U64 && nbytes < U64
    ensures var s := Serve(regions, mem, PackRequest(op, srcPtr, nbytes));
            && s.open == Accepts(regions, op, srcPtr, nbytes)
            && (s.open ==> mem.Covers(srcPtr, nbytes)
                           && s.output == PackReplyHeader(STATUS_OK, nbytes) + mem.Read(srcPtr, nbytes))
            && (!s.open ==> s.output == PackReplyHeader(STATUS_REJECTED, 0))
  {
    var input := PackRequest(op, srcPtr, nbytes);
    RequestRoundTrip(op, srcPtr, nbytes);
    assert input[..REQUEST_SIZE] == input && input[REQUEST_SIZE..] == [];
    if Accepts(regions, op, srcPtr, nbytes) {
      ServedIsCovered(regions, mem, srcPtr, nbytes);
    }
  }
}

module Transfer {
  import opened Bytes
  import opened Framing
  import opened Wrappers

  /** One direction of a TCP connection: a reliable byte queue read in chunks of any size. */
  class Channel {
    var pending: seq<byte>

    constructor ()
      ensures pending == []
    {
      pending := [];
    }

    method SendAll(data: seq<byte>)
      modifies this
      ensures pending == old(pending) + data
    {
      pending := pending + data;
    }

    /** `recv(n)`: at least one and at most `n` bytes, however many the network likes; none only at the end. */
    method Recv(n: nat) returns (chunk: seq<byte>)
      requires 0 < n
      modifies this
      ensures chunk + pending == old(pending) && |chunk| <= n
      ensures chunk == [] <==> old(pending) == []
    {
      if pending == [] {
        return [];
      }
      var k: nat :| 1 <= k <= n && k <= |pending|;
      chunk, pending := pending[..k], pending[k..];
    }
  }

  /** Reads exactly `nbytes`, or reports the end of the stream, wherever in the message it came. */
  method RecvExact(conn: Channel, nbytes: nat) returns (r: Option<seq<byte>>)
    modifies conn
    ensures nbytes <= |old(conn.pending)| ==>
              r == Some(old(conn.pending)[..nbytes]) && conn.pending == old(conn.pending)[nbytes..]
    ensures |old(conn.pending)| < nbytes ==> r == None && conn.pending == []
  {
    var chunks: seq<seq<byte>> := [];
    var remaining := nbytes;
    while remaining > 0
      invariant 0 <= remaining <= nbytes && |Flatten(chunks)| == nbytes - remaining
      invariant Flatten(chunks) + conn.pending == old(conn.pending)
    {
      var chunk := conn.Recv(remaining);
      if chunk == [] {
        return None;
      }
      ghost var so := chunks;
      chunks := chunks + [chunk];
      assert chunks[..|chunks| - 1] == so;
      remaining := remaining - |chunk|;
    }
    return Some(Flatten(chunks));
  }

  /** Fills the first `nbytes` of `target`; false if the stream ends before. */
  method RecvIntoExact(conn: Channel, target: array<byte>, nbytes: nat) returns (ok: bool)
    requires nbytes <= target.Length
    modifies conn, target
    ensures ok <==> nbytes <= |old(conn.pending)|
    ensures ok ==> target[..nbytes] == old(conn.pending)[..nbytes] && conn.pending == old(conn.pending)[nbytes..]
    ensures target[nbytes..] == old(target[nbytes..])
  {
    var offset := 0;
    while offset < nbytes
      invariant offset <= nbytes && offset <= |old(conn.pending)|
      invariant conn.pending == old(conn.pending)[offset..]
      invariant target[..offset] == old(conn.pending)[..offset]
      invariant target[nbytes..] == old(target[nbytes..])
    {
      var chunk := conn.Recv(nbytes - offset);
      if chunk == [] {
        return false;
      }
      forall i | 0 <= i < |chunk| {
        target[offset + i] := chunk[i];
      }
      assert chunk == old(conn.pending)[offset..offset + |chunk|];
      assert target[..offset + |chunk|] == target[..offset] + chunk;
      offset := offset + |chunk|;
    }
    return true;
  }

  /** The serving side: which regions of the pool may be read. */
  class TcpServer {
    const memBase: nat
    const mem: array<byte>
    var regions: seq<Region>

    constructor (memBase: nat, mem: array<byte>)
      requires memBase + mem.Length < U64
      ensures Valid() && this.memBase == memBase && this.mem == mem && regions == []
    {
      this.memBase, this.mem, this.regions := memBase, mem, [];
    }

    ghost predicate Valid()
      reads this, mem
    {
      Reachable(regions, View())
    }

    ghost function View(): Memory
      reads this, mem
    {
      Memory(memBase, mem[..])
    }

    method RegisterRegions(more: seq<Region>)
      requires Valid() && Reachable(more, View())
      modifies this
      ensures Valid() && regions == old(regions) + more
    {
      for i := 0 to |more|
        invariant regions == old(regions) + more[..i]
      {
        regions := regions + [more[i]];
      }
    }

    /** One turn of the handler: `None` at the end of the stream, else whether the request was accepted. */
    method ServeRequest(up: Channel, down: Channel) returns (accepted: Option<bool>)
      requires Valid() && up != down
      modifies up, down
      ensures accepted == None <==> |old(up.pending)| < REQUEST_SIZE
      ensures accepted == None ==> up.pending == [] && down.pending == old(down.pending)
      ensures accepted != None ==>
                var (op, srcPtr, nbytes) := UnpackRequest(old(up.pending)[..REQUEST_SIZE]);
                && accepted == Some(Accepts(regions, op, srcPtr, nbytes))
                && (accepted.value ==> View().Covers(srcPtr, nbytes))
                && up.pending == old(up.pending)[REQUEST_SIZE..]
                && down.pending == old(down.pending) + Reply(regions, View(), op, srcPtr, nbytes)
    {
      var header := RecvExact(up, REQUEST_SIZE);
      if header == None {
        return None;
      }
      var (op, srcPtr, nbytes) := UnpackRequest(header.value);
      if !Accepts(regions, op, srcPtr, nbytes) {
        down.SendAll(PackReplyHeader(STATUS_REJECTED, 0));
        return Some(false);
      }
      ServedIsCovered(regions, View(), srcPtr, nbytes);
      down.SendAll(PackReplyHeader(STATUS_OK, nbytes));
      down.SendAll(mem[srcPtr - memBase..srcPtr - memBase + nbytes]);
      return Some(true);
    }

    /** Handles the requests sent so far, until it must reject one. */
    method ServeConn(up: Channel, down: Channel) returns (open: bool)
      requires Valid() && up != down
      modifies up, down
      ensures var s := Serve(regions, View(), old(up.pending));
              down.pending == old(down.pending) + s.output && open == s.open
      ensures open ==> up.pending == []
    {
      hide UnpackRequest, PackReplyHeader, FromBigEndian, BigEndian, Reply, Accepts;
      ghost var view, sent := View(), down.pending;
      ghost var goal := Serve(regions, view, up.pending);
      while true
        invariant View() == view
        invariant var rest := Serve(regions, view, up.pending);
                  down.pending + rest.output == sent + goal.output && rest.open == goal.open
        decreases |up.pending|
      {
        var accepted := ServeRequest(up, down);
        if accepted != Some(true) {
          return accepted == None;
        }
      }
    }
  }

  datatype ReadError = ConnectionClosed | Rejected

  /** The reading side: one connection, kept across reads. */
  class TcpPeer {
    const up: Channel
    const down: Channel
    var open: bool

    constructor ()
      ensures Idle() && open && fresh(up) && fresh(down)
    {
      up := new Channel();
      down := new Channel();
      open := true;
    }

    /** No request is under way. */
    ghost predicate Idle()
      reads this, up, down
    {
      up != down && (open ==> up.pending == [] && down.pending == [])
    }

    /** Takes in a reply of which, if the connection broke, only a part arrived. */
    method Receive(target: array<byte>, ghost status: nat, ghost data: seq<byte>) returns (r: Result<(), ReadError>)
      requires status < 256 && |data| < U64 && |data| <= target.Length && (status == STATUS_OK || data == [])
      requires down.pending <= PackReplyHeader(status, |data|) + data
      modifies down, target
      ensures var whole := |old(down.pending)| == REPLY_HEADER_SIZE + |data|;
              r == if !whole then Failure(ConnectionClosed)
                   else if status == STATUS_OK then Success(())
                   else Failure(Rejected)
      ensures r.Success? ==> target[..|data|] == data && down.pending == []
      ensures target[|data|..] == old(target[|data|..])
    {
      hide PackReplyHeader, UnpackReplyHeader;
      ReplyHeaderRoundTrip(status, |data|);
      ghost var arrived := down.pending;
      if REPLY_HEADER_SIZE <= |arrived| {
        assert arrived[..REPLY_HEADER_SIZE] == PackReplyHeader(status, |data|);
        assert arrived[REPLY_HEADER_SIZE..] <= data;
      }
      var header := RecvExact(down, REPLY_HEADER_SIZE);
      if header == None {
        return Failure(ConnectionClosed);
      }
      var (status', actual) := UnpackReplyHeader(header.value);
      if status' != STATUS_OK {
        return Failure(Rejected);
      }
      var ok := RecvIntoExact(down, target, actual);
      return if ok then Success(()) else Failure(ConnectionClosed);
    }

    /**
     Asks for a range and waits for it. `server.ServeConn` stands for the peer's handler thread: both ends alternate,
     and the module `Wire` shows that no other interleaving of the two threads gives another answer. If `broken`, the
     connection fails after some of the reply's bytes.
     */
    method Read(server: TcpServer, target: array<byte>, srcPtr: nat, nbytes: nat, broken: bool)
      returns (r: Result<(), ReadError>)
      requires Idle() && server.Valid() && server.mem != target
      requires srcPtr < U64 && nbytes < U64 && nbytes <= target.Length
      modifies this, up, down, target
      ensures Idle() && (open <==> r.Success?)
      ensures r == if !old(open) || broken then Failure(ConnectionClosed)
                   else if IsServed(server.regions, srcPtr, nbytes) then Success(())
                   else Failure(Rejected)
      ensures r.Success? ==> server.View().Covers(srcPtr, nbytes)
                             && target[..nbytes] == server.View().Read(srcPtr, nbytes)
      ensures target[nbytes..] == old(target[nbytes..])
    {
      if !open {
        return Failure(ConnectionClosed);
      }
      hide UnpackRequest, PackRequest, PackReplyHeader, Reply, Serve;
      up.SendAll(PackRequest(OP_READ, srcPtr, nbytes));
      assert up.pending == PackRequest(OP_READ, srcPtr, nbytes);
      ServeOne(server.regions, server.View(), OP_READ, srcPtr, nbytes);
      open := server.ServeConn(up, down);
      ghost var status := if open then STATUS_OK else STATUS_REJECTED;
      ghost var data := if open then server.View().Read(srcPtr, nbytes) else [];
      assert down.pending == PackReplyHeader(status, |data|) + data;
      if broken {
        var arrived :| 0 <= arrived < |down.pending|;
        down.pending := down.pending[..arrived];
      }
      r := Receive(target, status, data);
      open := r.Success?;
    }
  }
}
