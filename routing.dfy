/**
 * The connection router of one routing endpoint, as far as choosing a
 * backend goes: the first-available destination selection (try the
 * configured destinations in order, keep the position of the one that
 * answered) and the path of `routing_select_thread` taken when no backend
 * can be reached, where the client receives a synthesised "can't connect"
 * error packet and both descriptors are shut down.
 */
module Routing {
  import opened Wrappers
  import opened Packet
  import opened SocketOps
  import opened Protocol

  /** Client error CR_CONN_HOST_ERROR, sent when no backend can be reached. */
  const CantConnectCode: nat := 2003
  const CantConnectSqlState: string := "HY000"

  // ---------------------------------------------------------------------
  // Decimal rendering of the bind port (`operator<<` on an integer)
  // ---------------------------------------------------------------------

  function DigitChar(d: nat): (r: char)
    requires d < 10
  {
    ('0' as int + d) as char
  }

  predicate IsDigit(c: char)
  {
    '0' <= c <= '9'
  }

  /** The decimal digits of `n`, without leading zeros. */
  function NatToString(n: nat): (s: string)
    ensures |s| >= 1 && forall i :: 0 <= i < |s| ==> IsDigit(s[i])
    ensures (s[0] == '0') == (n == 0)
    ensures n < 10 <==> |s| == 1
    decreases n
  {
    if n < 10 then [DigitChar(n)] else NatToString(n / 10) + [DigitChar(n % 10)]
  }

  function DigitValue(c: char): (r: nat)
    requires IsDigit(c)
  {
    c as int - '0' as int
  }

  /** The number a string of decimal digits denotes. */
  function DecimalValue(s: string): (r: nat)
    requires forall i :: 0 <= i < |s| ==> IsDigit(s[i])
  {
    if s == [] then 0 else 10 * DecimalValue(s[..|s| - 1]) + DigitValue(s[|s| - 1])
  }

  /** Reading back the rendered digits gives the number. */
  lemma {:induction false} DecimalRoundTrip(n: nat)
    ensures DecimalValue(NatToString(n)) == n
    decreases n
  {
    if n >= 10 {
      DecimalRoundTrip(n / 10);
      var s := NatToString(n);
      assert s[..|s| - 1] == NatToString(n / 10);
    }
  }

  /** The fixed start of the message. */
  const CantConnectPrefix: string := "Can't connect to remote MySQL server for client '"

  /** The message of the error packet: it names the endpoint's bind address and port. */
  function CantConnectMessage(bind: TcpAddress): (r: string)
  {
    CantConnectPrefix + bind.host + ":" + NatToString(bind.port) + "'"
  }

  /** The error packet sent to the client, with sequence id 0. */
  function CantConnectPacket(bind: TcpAddress): (r: seq<byte>)
  {
    ErrorPacketBytes(ErrorPacket(0, CantConnectCode, CantConnectMessage(bind), CantConnectSqlState))
  }

  /** The message for the endpoint bound to 127.0.0.1:7001. */
  lemma CantConnectMessageExample()
    ensures CantConnectMessage(TcpAddress("127.0.0.1", 7001)) ==
      "Can't connect to remote MySQL server for client '127.0.0.1:7001'"
  {
    PortDigits();
  }

  lemma PortDigits()
    ensures NatToString(7001) == "7001"
  {
    assert NatToString(7001) == NatToString(700) + ['1'];
    assert NatToString(700) == NatToString(70) + ['0'];
    assert NatToString(70) == NatToString(7) + ['0'];
  }

  // ---------------------------------------------------------------------
  // First-available selection
  // ---------------------------------------------------------------------

  /** The outcome of the `k`-th scripted connect; an exhausted script fails. */
  function Attempt(script: seq<int>, k: nat): (r: int)
  {
    if k < |script| then script[k] else -1
  }

  /** The script after `k` connects. */
  function Drop(script: seq<int>, k: nat): (r: seq<int>)
  {
    if k <= |script| then script[k..] else []
  }

  /** `k` is the first of `count` attempts that succeeds. */
  predicate FirstSuccess(script: seq<int>, count: nat, k: nat)
  {
    k < count && Attempt(script, k) >= 0 && forall j :: 0 <= j < k ==> Attempt(script, j) < 0
  }

  lemma AttemptTail(script: seq<int>, j: nat)
    ensures Attempt(Tail(script), j) == Attempt(script, j + 1)
    ensures ConnectResult(script) == Attempt(script, 0)
    ensures Drop(Tail(script), j) == Drop(script, j + 1)
  {
  }

  /** The connect attempts to destinations `lo` up to `hi` (exclusive), in order. */
  function ConnectCalls(dests: seq<TcpAddress>, lo: nat, hi: nat, timeout: nat): (r: seq<Event>)
    requires lo <= hi <= |dests|
    ensures |r| == hi - lo
    decreases hi - lo
  {
    if lo == hi then [] else [ConnectCall(dests[lo], timeout)] + ConnectCalls(dests, lo + 1, hi, timeout)
  }

  /** The `i`-th connect goes to the `i`-th destination. */
  lemma {:induction false} ConnectCallsAt(dests: seq<TcpAddress>, lo: nat, hi: nat, timeout: nat, i: nat)
    requires lo <= i < hi <= |dests|
    ensures ConnectCalls(dests, lo, hi, timeout)[i - lo] == ConnectCall(dests[i], timeout)
    decreases i - lo
  {
    if i > lo {
      ConnectCallsAt(dests, lo + 1, hi, timeout, i);
    }
  }

  /** A traversal's attempts are connects and nothing else. */
  lemma ConnectCallsOnly(dests: seq<TcpAddress>, lo: nat, hi: nat, timeout: nat)
    requires lo <= hi <= |dests|
    ensures forall i :: 0 <= i < hi - lo ==> ConnectCalls(dests, lo, hi, timeout)[i].ConnectCall?
  {
    forall i | 0 <= i < hi - lo ensures ConnectCalls(dests, lo, hi, timeout)[i].ConnectCall? {
      ConnectCallsAt(dests, lo, hi, timeout, lo + i);
    }
  }

  /** What one selection does: the descriptor, the new position, the connect calls and what is left of the script. */
  datatype SelectionRun = SelectionRun(fd: int, pos: nat, events: seq<Event>, rest: seq<int>)

  /**
   * The traversal itself: connect to destination `i`; stop there if the
   * connect succeeds, otherwise go on with the next one; past the end of
   * the list the result is -1.
   */
  function Traverse(dests: seq<TcpAddress>, i: nat, timeout: nat, script: seq<int>): (r: SelectionRun)
    requires i <= |dests|
    decreases |dests| - i
  {
    if i == |dests| then SelectionRun(-1, |dests|, [], script)
    else
      var call := ConnectCall(dests[i], timeout);
      if ConnectResult(script) >= 0 then SelectionRun(ConnectResult(script), i, [call], Tail(script))
      else
        var later := Traverse(dests, i + 1, timeout, Tail(script));
        later.(events := [call] + later.events)
  }

  /** After a refused first attempt, the first success moves one place down the script. */
  lemma FirstSuccessTail(script: seq<int>, count: nat, k: nat)
    requires 0 < k && FirstSuccess(script, count, k)
    ensures ConnectResult(script) < 0
    ensures FirstSuccess(Tail(script), count - 1, k - 1)
    ensures Attempt(Tail(script), k - 1) == Attempt(script, k)
    ensures Drop(Tail(script), k) == Drop(script, k + 1)
  {
    AttemptTail(script, 0);
    assert Attempt(script, 0) < 0;
    forall j | 0 <= j < k - 1 ensures Attempt(Tail(script), j) < 0 {
      AttemptTail(script, j);
      assert Attempt(script, j + 1) < 0;
    }
    AttemptTail(script, k - 1);
    AttemptTail(script, k);
  }

  /** After a refused first attempt, every remaining attempt still fails. */
  lemma AllFailTail(script: seq<int>, count: nat)
    requires 0 < count && forall j :: 0 <= j < count ==> Attempt(script, j) < 0
    ensures ConnectResult(script) < 0
    ensures forall j :: 0 <= j < count - 1 ==> Attempt(Tail(script), j) < 0
    ensures Drop(Tail(script), count - 1) == Drop(script, count)
  {
    AttemptTail(script, 0);
    assert Attempt(script, 0) < 0;
    forall j | 0 <= j < count - 1 ensures Attempt(Tail(script), j) < 0 {
      AttemptTail(script, j);
      assert Attempt(script, j + 1) < 0;
    }
    AttemptTail(script, count - 1);
  }

  /**
   * When the first `k` remaining destinations refuse and the next accepts,
   * exactly `k + 1` connects are made, in list order, the descriptor of
   * the last one is returned and it becomes the position.
   */
  lemma {:induction false} TraverseFailover(dests: seq<TcpAddress>, start: nat, timeout: nat, script: seq<int>, k: nat)
    requires start + k < |dests|
    requires FirstSuccess(script, |dests| - start, k)
    ensures var sel := Traverse(dests, start, timeout, script);
      && sel.fd == Attempt(script, k) && sel.fd >= 0
      && sel.pos == start + k
      && sel.events == ConnectCalls(dests, start, start + k + 1, timeout)
      && sel.rest == Drop(script, k + 1)
    decreases k
  {
    if k == 0 {
      AttemptTail(script, 0);
    } else {
      FirstSuccessTail(script, |dests| - start, k);
      TraverseFailover(dests, start + 1, timeout, Tail(script), k - 1);
      var later := Traverse(dests, start + 1, timeout, Tail(script));
    }
  }

  /** When every remaining destination refuses, each is tried once, in order, and -1 is returned. */
  lemma {:induction false} TraverseExhausted(dests: seq<TcpAddress>, start: nat, timeout: nat, script: seq<int>)
    requires start <= |dests|
    requires forall j :: 0 <= j < |dests| - start ==> Attempt(script, j) < 0
    ensures var sel := Traverse(dests, start, timeout, script);
      && sel.fd == -1 && sel.pos == |dests|
      && sel.events == ConnectCalls(dests, start, |dests|, timeout)
      && sel.rest == Drop(script, |dests| - start)
    decreases |dests| - start
  {
    if start < |dests| {
      AllFailTail(script, |dests| - start);
      TraverseExhausted(dests, start + 1, timeout, Tail(script));
    }
  }

  /** The traversal only goes forward, and it connects to exactly the destinations it passes. */
  lemma {:induction false} TraverseMakesOnlyConnects(dests: seq<TcpAddress>, start: nat, timeout: nat, script: seq<int>)
    requires start <= |dests|
    ensures var sel := Traverse(dests, start, timeout, script);
      && start <= sel.pos <= |dests|
      && (sel.fd >= 0 ==> sel.pos < |dests| && sel.events == ConnectCalls(dests, start, sel.pos + 1, timeout))
      && (sel.fd < 0 ==> sel.pos == |dests| && sel.events == ConnectCalls(dests, start, |dests|, timeout))
    decreases |dests| - start
  {
    if start < |dests| && ConnectResult(script) < 0 {
      TraverseMakesOnlyConnects(dests, start + 1, timeout, Tail(script));
    }
  }

  /** A selection that continues after the connect calls `made`. */
  function ResumeSelection(made: seq<Event>, run: SelectionRun): (r: SelectionRun)
  {
    run.(events := made + run.events)
  }

  /** One step of the traversal, after the calls `made`. */
  lemma TraverseStep(dests: seq<TcpAddress>, i: nat, timeout: nat, script: seq<int>, made: seq<Event>)
    requires i < |dests|
    ensures var call := ConnectCall(dests[i], timeout);
      ConnectResult(script) >= 0 ==>
        ResumeSelection(made, Traverse(dests, i, timeout, script)) ==
        SelectionRun(ConnectResult(script), i, made + [call], Tail(script))
    ensures var call := ConnectCall(dests[i], timeout);
      ConnectResult(script) < 0 ==>
        ResumeSelection(made, Traverse(dests, i, timeout, script)) ==
        ResumeSelection(made + [call], Traverse(dests, i + 1, timeout, Tail(script)))
  {
  }

  /** Past the end of the list the traversal stops with -1. */
  lemma TraverseDone(dests: seq<TcpAddress>, timeout: nat, script: seq<int>, made: seq<Event>)
    ensures ResumeSelection(made, Traverse(dests, |dests|, timeout, script)) == SelectionRun(-1, |dests|, made, script)
  {
  }

  // ---------------------------------------------------------------------
  // routing_select_thread, up to the relay
  // ---------------------------------------------------------------------

  /** What one client connection does before the relay starts. */
  datatype SelectEffect = SelectEffect(
    connected: bool, currentPos: nat, events: seq<Event>, connectScript: seq<int>, writeScript: seq<int>)

  /** The calls after a failed selection: the error packet's writes, two shutdowns, the closes of positive descriptors. */
  function FailureEvents(client: int, server: int, errorWrites: seq<Event>): (r: seq<Event>)
  {
    errorWrites + [ShutdownCall(client), ShutdownCall(server)]
      + (if client > 0 then [CloseCall(client)] else [])
      + (if server > 0 then [CloseCall(server)] else [])
  }

  /**
   * Pick a backend; unless both the backend and the client descriptor are
   * positive, send the "can't connect" error to the client, shut both
   * descriptors down and close those that are positive.
   */
  function SelectThreadSpec(
    bind: TcpAddress, dests: seq<TcpAddress>, start: nat, timeout: nat, client: int,
    connectScript: seq<int>, writeScript: seq<int>): (r: SelectEffect)
    requires start <= |dests|
  {
    var sel := Traverse(dests, start, timeout, connectScript);
    if sel.fd > 0 && client > 0 then
      SelectEffect(true, sel.pos, sel.events, sel.rest, writeScript)
    else
      var err := WriteAll(client, CantConnectPacket(bind), writeScript);
      SelectEffect(false, sel.pos, sel.events + FailureEvents(client, sel.fd, err.events),
        sel.rest, err.rest)
  }

  /**
   * With every destination unreachable and a client that accepts the whole
   * packet in one write: the client gets exactly one write, of the error
   * packet, then is shut down and closed; no read happens and nothing is
   * written anywhere else.
   */
  lemma UnreachableDestinations(
    bind: TcpAddress, dests: seq<TcpAddress>, start: nat, timeout: nat, client: int,
    connectScript: seq<int>, writeScript: seq<int>)
    requires start <= |dests| && client > 0
    requires forall j :: 0 <= j < |dests| - start ==> Attempt(connectScript, j) < 0
    requires 4 + |CantConnectSqlState| + |CantConnectMessage(bind)| <= MaxPayloadLength
    requires writeScript != [] && writeScript[0] >= |CantConnectPacket(bind)|
    ensures var e := SelectThreadSpec(bind, dests, start, timeout, client, connectScript, writeScript);
      && !e.connected
      && e.events == ConnectCalls(dests, start, |dests|, timeout)
           + [WriteCall(client, CantConnectPacket(bind)), ShutdownCall(client), ShutdownCall(-1), CloseCall(client)]
      && (forall i :: 0 <= i < |e.events| ==> !e.events[i].ReadCall?)
      && (forall i :: 0 <= i < |e.events| && e.events[i].WriteCall? ==> e.events[i].fd == client)
      && e.writeScript == writeScript[1..]
  {
    TraverseExhausted(dests, start, timeout, connectScript);
    ConnectCallsOnly(dests, start, |dests|, timeout);
    var e := ErrorPacket(0, CantConnectCode, CantConnectMessage(bind), CantConnectSqlState);
    ErrorPacketFraming(e);
    WriteAllOneShot(client, CantConnectPacket(bind), writeScript);
  }

  /** A connection that reaches a backend makes no call but its connects and changes no write script. */
  lemma ConnectedMakesOnlyConnects(
    bind: TcpAddress, dests: seq<TcpAddress>, start: nat, timeout: nat, client: int,
    connectScript: seq<int>, writeScript: seq<int>)
    requires start <= |dests|
    ensures var e := SelectThreadSpec(bind, dests, start, timeout, client, connectScript, writeScript);
      && (e.connected <==> Traverse(dests, start, timeout, connectScript).fd > 0 && client > 0)
      && (e.connected ==> forall i :: 0 <= i < |e.events| ==> e.events[i].ConnectCall?)
      && (e.connected ==> e.writeScript == writeScript)
      && e.currentPos <= |dests|
  {
    var sel := Traverse(dests, start, timeout, connectScript);
    TraverseMakesOnlyConnects(dests, start, timeout, connectScript);
    if sel.fd >= 0 {
      ConnectCallsOnly(dests, start, sel.pos + 1, timeout);
    }
  }

  /**
   * The scenario of the test: endpoint 127.0.0.1:7001, one destination
   * 127.0.0.1:7004 whose connect fails, client descriptor 1 whose write
   * takes the whole packet.
   */
  lemma NoValidDestinationsScenario(timeout: nat, packetSize: int)
    requires packetSize == |CantConnectPacket(TcpAddress("127.0.0.1", 7001))|
    ensures var e := SelectThreadSpec(TcpAddress("127.0.0.1", 7001), [TcpAddress("127.0.0.1", 7004)], 0, timeout, 1,
      [-1], [packetSize]);
      var pkt := ErrorPacketBytes(ErrorPacket(0, 2003,
        "Can't connect to remote MySQL server for client '127.0.0.1:7001'", "HY000"));
      && !e.connected
      && e.events == [ConnectCall(TcpAddress("127.0.0.1", 7004), timeout),
                     WriteCall(1, pkt), ShutdownCall(1), ShutdownCall(-1), CloseCall(1)]
  {
    var bind := TcpAddress("127.0.0.1", 7001);
    var dests := [TcpAddress("127.0.0.1", 7004)];
    CantConnectMessageExample();
    UnreachableDestinations(bind, dests, 0, timeout, 1, [-1], [packetSize]);
    assert ConnectCalls(dests, 0, 1, timeout) == [ConnectCall(TcpAddress("127.0.0.1", 7004), timeout)];
  }

  /** `MySQLRouting`: one routing endpoint with its destination list and selection cursor. */
  class MySQLRouting {
    const bindAddress: TcpAddress
    const destinations: seq<TcpAddress>
    const destinationConnectTimeout: nat
    const ops: SocketOperations
    const protocol: ClassicProtocol
    /** First-available cursor: the destination that last accepted a connection. */
    var currentPos: nat

    ghost predicate Valid()
      reads this
    {
      protocol.ops == ops && currentPos <= |destinations|
    }

    constructor (bindAddress: TcpAddress, destinations: seq<TcpAddress>, timeout: nat, ops: SocketOperations)
      ensures Valid() && currentPos == 0
      ensures this.bindAddress == bindAddress && this.destinations == destinations
      ensures destinationConnectTimeout == timeout && this.ops == ops
    {
      this.bindAddress := bindAddress;
      this.destinations := destinations;
      this.destinationConnectTimeout := timeout;
      this.ops := ops;
      this.protocol := new ClassicProtocol(ops);
      this.currentPos := 0;
    }

    /** First-available `get_server_socket`: try destinations from the cursor on, in order. */
    method GetServerSocket() returns (fd: int)
      requires Valid()
      modifies this, ops
      ensures Valid()
      ensures var sel := Traverse(destinations, old(currentPos), destinationConnectTimeout, old(ops.connectScript));
        && fd == sel.fd && currentPos == sel.pos
        && ops.log == old(ops.log) + sel.events && ops.connectScript == sel.rest
      ensures ops.readScript == old(ops.readScript) && ops.writeScript == old(ops.writeScript)
    {
      ghost var log0 := ops.log;
      ghost var whole := Traverse(destinations, currentPos, destinationConnectTimeout, ops.connectScript);
      ghost var made: seq<Event> := [];
      var i := currentPos;
      while i < |destinations|
        invariant i <= |destinations|
        invariant ops.log == log0 + made
        invariant whole == ResumeSelection(made, Traverse(destinations, i, destinationConnectTimeout, ops.connectScript))
        invariant ops.readScript == old(ops.readScript) && ops.writeScript == old(ops.writeScript)
        decreases |destinations| - i
      {
        TraverseStep(destinations, i, destinationConnectTimeout, ops.connectScript, made);
        var sock := ops.GetMysqlSocket(destinations[i], destinationConnectTimeout);
        made := made + [ConnectCall(destinations[i], destinationConnectTimeout)];
        if sock >= 0 {
          currentPos := i;
          return sock;
        }
        i := i + 1;
      }
      TraverseDone(destinations, destinationConnectTimeout, ops.connectScript, made);
      currentPos := |destinations|;
      fd := -1;
    }

    /**
     * The error path of `routing_select_thread`: the "can't connect" error
     * to the client, a shutdown of both descriptors, a close of those that
     * are positive.
     */
    method DropConnection(client: int, server: int)
      requires Valid()
      modifies ops
      ensures var err := WriteAll(client, CantConnectPacket(bindAddress), old(ops.writeScript));
        && ops.log == old(ops.log) + FailureEvents(client, server, err.events)
        && ops.writeScript == err.rest
      ensures ops.readScript == old(ops.readScript) && ops.connectScript == old(ops.connectScript)
    {
      var _ := protocol.SendError(client, CantConnectCode, CantConnectMessage(bindAddress), CantConnectSqlState);
      ghost var afterError := ops.log;
      ops.Shutdown(client);
      ops.Shutdown(server);
      ghost var tail: seq<Event> := [ShutdownCall(client), ShutdownCall(server)];
      assert ops.log == afterError + tail;
      if client > 0 {
        ops.Close(client);
        AppendAssoc(afterError, tail, [CloseCall(client)]);
        tail := tail + [CloseCall(client)];
      }
      if server > 0 {
        ops.Close(server);
        AppendAssoc(afterError, tail, [CloseCall(server)]);
        tail := tail + [CloseCall(server)];
      }
      AppendAssoc(old(ops.log), WriteAll(client, CantConnectPacket(bindAddress), old(ops.writeScript)).events, tail);
    }

    /**
     * `routing_select_thread(client, client_addr)` up to the point where
     * the relay would start; returns whether a backend was connected.
     */
    method RoutingSelectThread(client: int) returns (connected: bool)
      requires Valid()
      modifies this, ops
      ensures Valid()
      ensures var e := SelectThreadSpec(bindAddress, destinations, old(currentPos), destinationConnectTimeout, client,
          old(ops.connectScript), old(ops.writeScript));
        && connected == e.connected && currentPos == e.currentPos
        && ops.log == old(ops.log) + e.events
        && ops.connectScript == e.connectScript && ops.writeScript == e.writeScript
      ensures ops.readScript == old(ops.readScript)
    {
      ghost var log0 := ops.log;
      ghost var sel := Traverse(destinations, currentPos, destinationConnectTimeout, ops.connectScript);
      var server := GetServerSocket();
      if !(server > 0 && client > 0) {
        ghost var err := WriteAll(client, CantConnectPacket(bindAddress), ops.writeScript);
        DropConnection(client, server);
        AppendAssoc(log0, sel.events, FailureEvents(client, server, err.events));
        return false;
      }
      return true;
    }
  }
}
