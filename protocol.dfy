/**
 * The classic-protocol relay step `ClassicProtocol::copy_packets`;
 * `send_error`, the router's own answer to a client; and
 * `on_block_client_host`, which sends the backend server a fake handshake
 * response for a blocked client host so that the server does not count a
 * connection error. All socket traffic goes through the scripted socket
 * layer.
 */
module Protocol {
  import opened Wrappers
  import opened Packet
  import opened SocketOps

  /**
   * The state one client connection's relay keeps between calls: whether
   * the handshake is over, the last packet number seen, the shared buffer.
   */
  class Connection {
    var handshakeDone: bool
    var currPktnr: int
    const buffer: array<byte>

    constructor (bufferLength: nat)
      ensures !handshakeDone && currPktnr == 0
      ensures buffer.Length == bufferLength && fresh(buffer)
    {
      handshakeDone := false;
      currPktnr := 0;
      buffer := new byte[bufferLength](_ => 0);
    }
  }

  /**
   * A packet with sequence id `seqId` may follow packet number `curr`: it
   * must be the next number, except while the counter has not yet passed 0
   * (it starts at 0 and the server greeting carries 0).
   */
  predicate SequenceOk(curr: int, seqId: byte)
  {
    curr <= 0 || seqId as int == curr + 1
  }

  /** What the handshake checks decide about freshly read bytes. */
  datatype Verdict = Reject | ForwardServerError | Forward(pktnr: int)

  /**
   * During the handshake: fewer bytes than a header, or a sequence id out
   * of order, abort; a server error packet is forwarded and ends the
   * handshake; anything else is forwarded and its sequence id remembered.
   */
  function HandshakeVerdict(curr: int, data: seq<byte>): (r: Verdict)
  {
    if |data| < HeaderLength then Reject
    else if !SequenceOk(curr, data[3]) then Reject
    else if IsErrorPacket(data) then ForwardServerError
    else Forward(data[3] as int)
  }

  /** Everything one `copy_packets` call changes, and what it returns. */
  datatype CopyEffect = CopyEffect(
    result: int, reportBytesRead: nat, handshakeDone: bool, currPktnr: int,
    buffer: seq<byte>, events: seq<Event>, readScript: seq<ReadResult>, writeScript: seq<int>)

  /**
   * One `copy_packets` call: nothing happens unless the sender is readable;
   * one read at the buffer's full capacity; a failed or empty read gives -1;
   * the handshake verdict decides what is forwarded; once the handshake is
   * done the bytes are relayed unexamined. `report` is the caller's byte
   * count, written only when the call returns 0.
   */
  function CopyPacketsSpec(
    sender: int, receiver: int, readable: bool, handshakeDone: bool, currPktnr: int, report: nat,
    buffer: seq<byte>, readScript: seq<ReadResult>, writeScript: seq<int>): (res: CopyEffect)
  {
    if !readable then CopyEffect(0, 0, handshakeDone, currPktnr, buffer, [], readScript, writeScript)
    else
      var n := ReadCount(readScript, |buffer|);
      var read := [ReadCall(sender, |buffer|)];
      if n < 0 then CopyEffect(-1, report, handshakeDone, currPktnr, buffer, read, Tail(readScript), writeScript)
      else
        var data := readScript[0].data[..n];
        var filled := data + buffer[n..];
        if n == 0 then CopyEffect(-1, report, handshakeDone, currPktnr, filled, read, Tail(readScript), writeScript)
        else
          var r := RelaySpec(receiver, handshakeDone, currPktnr, report, data, writeScript);
          CopyEffect(r.result, r.reportBytesRead, r.handshakeDone, r.currPktnr, filled, read + r.events,
                     Tail(readScript), r.writeScript)
  }

  /** What a `copy_packets` call does after a read of the non-empty `data`. */
  datatype RelayEffect = RelayEffect(
    result: int, reportBytesRead: nat, handshakeDone: bool, currPktnr: int, events: seq<Event>, writeScript: seq<int>)

  /**
   * The handshake verdict decides what is forwarded; once the handshake is
   * done the bytes are relayed unexamined. A rejected packet is not written.
   * A forwarded packet's sequence id becomes the counter, and sequence id 2
   * ends the handshake, whether or not the write then succeeds.
   */
  function RelaySpec(receiver: int, handshakeDone: bool, currPktnr: int, report: nat, data: seq<byte>, writeScript: seq<int>): (r: RelayEffect)
  {
    var verdict := if handshakeDone then Forward(currPktnr) else HandshakeVerdict(currPktnr, data);
    var run := WriteAll(receiver, data, writeScript);
    match verdict
    case Reject =>
      RelayEffect(-1, report, handshakeDone, currPktnr, [], writeScript)
    case ForwardServerError =>
      RelayEffect(0, |data|, true, 2, run.events, run.rest)
    case Forward(p) =>
      // counter and handshake flag are updated on inspection, before the write
      var done := handshakeDone || p == 2;
      if run.ok then RelayEffect(0, |data|, done, p, run.events, run.rest)
      else RelayEffect(-1, report, done, p, run.events, run.rest)
  }

  // ---------------------------------------------------------------------
  // What the relay step promises
  // ---------------------------------------------------------------------

  /**
   * On a framed packet the handshake checks depend only on its header and
   * its first payload byte: out of order means reject, an ERR_Packet in
   * order means forward-and-finish, anything else is forwarded under its
   * own sequence id.
   */
  lemma VerdictOfFrame(curr: int, seqId: byte, payload: seq<byte>)
    requires |payload| <= MaxPayloadLength
    ensures var v := HandshakeVerdict(curr, Frame(seqId, payload));
      && (v == Reject <==> !SequenceOk(curr, seqId))
      && (v == ForwardServerError <==> SequenceOk(curr, seqId) && |payload| > 0 && payload[0] == ErrMarker)
      && (v.Forward? ==> v.pktnr == seqId as int)
  {
    FrameHeader(seqId, payload);
    var f := Frame(seqId, payload);
    assert f[3] == seqId;
    assert |payload| > 0 ==> f[HeaderLength] == payload[0];
  }

  /**
   * A call returns 0 or -1; one that fails leaves the reported count as it
   * was, and one that fails before writing anything also leaves handshake
   * flag and packet counter as they were.
   */
  lemma FailureKeepsState(
    sender: int, receiver: int, readable: bool, done: bool, curr: int, report: nat,
    buffer: seq<byte>, rs: seq<ReadResult>, ws: seq<int>)
    ensures var e := CopyPacketsSpec(sender, receiver, readable, done, curr, report, buffer, rs, ws);
      && (e.result == 0 || e.result == -1)
      && (e.result == -1 ==> e.reportBytesRead == report)
      && (e.result == -1 && (forall i :: 0 <= i < |e.events| ==> !e.events[i].WriteCall?) ==>
            e.handshakeDone == done && e.currPktnr == curr)
      && |e.buffer| == |buffer|
  {
    var e := CopyPacketsSpec(sender, receiver, readable, done, curr, report, buffer, rs, ws);
    var n := ReadCount(rs, |buffer|);
    if readable && n > 0 {
      var data := rs[0].data[..n];
      var run := WriteAll(receiver, data, ws);
      if e.result == -1 && RelaySpec(receiver, done, curr, report, data, ws).events == run.events {
        assert run.events[0] == WriteCall(receiver, data);
        assert e.events[1] == run.events[0];
      }
    }
  }

  /**
   * During the handshake an in-order packet that is not an error packet
   * sets the counter to its sequence id, and sequence id 2 ends the
   * handshake, before it is written: when the write fails the result is -1
   * and the caller's count is kept, but counter and flag have moved on.
   */
  lemma HandshakeWriteFailureAdvances(
    sender: int, receiver: int, curr: int, report: nat,
    buffer: seq<byte>, data: seq<byte>, rs: seq<ReadResult>, ws: seq<int>)
    requires HeaderLength <= |data| <= |buffer| && SequenceOk(curr, data[3]) && !IsErrorPacket(data)
    requires WriteResult(ws) < 0
    ensures var e := CopyPacketsSpec(sender, receiver, true, false, curr, report, buffer, [Received(data)] + rs, ws);
      && e.result == -1 && e.reportBytesRead == report
      && e.currPktnr == data[3] as int && (e.handshakeDone <==> data[3] == 2)
      && e.events == [ReadCall(sender, |buffer|), WriteCall(receiver, data)]
  {
    assert ([Received(data)] + rs)[0] == Received(data);
    assert data[..|data|] == data;
    WriteAllFirstFails(receiver, data, ws);
  }

  /** Once the handshake is done it stays done, and the packet counter is no longer touched. */
  lemma HandshakeDoneIsStable(
    sender: int, receiver: int, readable: bool, curr: int, report: nat,
    buffer: seq<byte>, rs: seq<ReadResult>, ws: seq<int>)
    ensures var e := CopyPacketsSpec(sender, receiver, readable, true, curr, report, buffer, rs, ws);
      e.handshakeDone && e.currPktnr == curr
  {
  }

  /**
   * A readable sender is read exactly once, at the buffer's capacity, and
   * every later call is a write to the receiver of what is left of the
   * bytes just read.
   */
  lemma OnlyReadBytesForwarded(
    sender: int, receiver: int, done: bool, curr: int, report: nat,
    buffer: seq<byte>, rs: seq<ReadResult>, ws: seq<int>)
    ensures var e := CopyPacketsSpec(sender, receiver, true, done, curr, report, buffer, rs, ws);
      && |e.events| >= 1 && e.events[0] == ReadCall(sender, |buffer|)
      && e.readScript == Tail(rs)
      && (ReadCount(rs, |buffer|) > 0 ==>
            var data := rs[0].data[..ReadCount(rs, |buffer|)];
            e.buffer[..|data|] == data &&
            forall i :: 1 <= i < |e.events| ==> OffersSuffix(e.events[i], receiver, data))
      && (ReadCount(rs, |buffer|) <= 0 ==> |e.events| == 1)
  {
    var n := ReadCount(rs, |buffer|);
    if n > 0 {
      var data := rs[0].data[..n];
      WriteAllOffersSuffixes(receiver, data, ws);
    }
  }

  /** CopyPacketsFdNotSet: a sender that is not readable is not read; 0 is returned and 0 bytes reported. */
  lemma NotReadableDoesNothing(
    sender: int, receiver: int, done: bool, curr: int, report: nat,
    buffer: seq<byte>, rs: seq<ReadResult>, ws: seq<int>)
    ensures CopyPacketsSpec(sender, receiver, false, done, curr, report, buffer, rs, ws) ==
      CopyEffect(0, 0, done, curr, buffer, [], rs, ws)
  {
  }

  /** CopyPacketsReadError: a failed read returns -1 and nothing is written. */
  lemma ReadFailureAborts(
    sender: int, receiver: int, done: bool, curr: int, report: nat,
    buffer: seq<byte>, rs: seq<ReadResult>, ws: seq<int>)
    requires rs == [] || rs[0].ReadFailed?
    ensures var e := CopyPacketsSpec(sender, receiver, true, done, curr, report, buffer, rs, ws);
      && e.result == -1 && e.handshakeDone == done && e.currPktnr == curr
      && e.events == [ReadCall(sender, |buffer|)] && e.writeScript == ws && e.buffer == buffer
  {
  }

  /**
   * CopyPacketsHandshakeDoneOK / CopyPacketsHandshakeDoneWriteError: after
   * the handshake the bytes read are written once, in full; the result is 0
   * with their count reported when that write succeeds, -1 when it fails.
   */
  lemma RelayAfterHandshake(
    sender: int, receiver: int, curr: int, report: nat,
    buffer: seq<byte>, data: seq<byte>, rs: seq<ReadResult>, ws: seq<int>)
    requires 0 < |data| <= |buffer|
    requires ws != [] && (ws[0] >= |data| || ws[0] < 0)
    ensures var e := CopyPacketsSpec(sender, receiver, true, true, curr, report, buffer, [Received(data)] + rs, ws);
      && e.handshakeDone
      && e.events == [ReadCall(sender, |buffer|), WriteCall(receiver, data)]
      && (e.result == 0 <==> ws[0] >= 0)
      && (ws[0] >= 0 ==> e.reportBytesRead == |data|)
      && e.buffer[..|data|] == data
  {
    assert ([Received(data)] + rs)[0] == Received(data);
    assert data[..|data|] == data;
    if ws[0] >= 0 {
      WriteAllOneShot(receiver, data, ws);
    } else {
      WriteAllFirstFails(receiver, data, ws);
    }
  }

  /** CopyPacketsHandshakePacketTooSmall: during the handshake fewer than 4 bytes give -1. */
  lemma ShortHandshakeReadAborts(
    sender: int, receiver: int, curr: int, report: nat,
    buffer: seq<byte>, data: seq<byte>, rs: seq<ReadResult>, ws: seq<int>)
    requires 0 < |data| < HeaderLength && |data| <= |buffer|
    ensures var e := CopyPacketsSpec(sender, receiver, true, false, curr, report, buffer, [Received(data)] + rs, ws);
      && e.result == -1 && !e.handshakeDone && e.currPktnr == curr
      && e.events == [ReadCall(sender, |buffer|)] && e.writeScript == ws
  {
    assert ([Received(data)] + rs)[0] == Received(data);
    assert data[..|data|] == data;
  }

  /**
   * CopyPacketsHandshakeInvalidPacketNumber: during the handshake a packet
   * whose sequence id is not the counter plus one gives -1; nothing is written.
   */
  lemma OutOfOrderAborts(
    sender: int, receiver: int, curr: int, report: nat,
    buffer: seq<byte>, data: seq<byte>, rs: seq<ReadResult>, ws: seq<int>)
    requires curr > 0 && HeaderLength <= |data| <= |buffer| && data[3] as int != curr + 1
    ensures var e := CopyPacketsSpec(sender, receiver, true, false, curr, report, buffer, [Received(data)] + rs, ws);
      && e.result == -1 && !e.handshakeDone && e.currPktnr == curr
      && e.events == [ReadCall(sender, |buffer|)] && e.writeScript == ws
  {
    assert ([Received(data)] + rs)[0] == Received(data);
    assert data[..|data|] == data;
  }

  /**
   * CopyPacketsHandshakeServerSendsError: during the handshake an in-order
   * error packet is written on in one piece, 0 is returned, the counter
   * becomes 2 and the handshake counts as done.
   */
  lemma ServerErrorForwarded(
    sender: int, receiver: int, curr: int, report: nat,
    buffer: seq<byte>, data: seq<byte>, rs: seq<ReadResult>, ws: seq<int>)
    requires |data| <= |buffer| && IsErrorPacket(data) && SequenceOk(curr, data[3])
    requires ws != [] && ws[0] >= |data|
    ensures var e := CopyPacketsSpec(sender, receiver, true, false, curr, report, buffer, [Received(data)] + rs, ws);
      && e.result == 0 && e.currPktnr == 2 && e.handshakeDone && e.reportBytesRead == |data|
      && e.events == [ReadCall(sender, |buffer|), WriteCall(receiver, data)]
  {
    assert ([Received(data)] + rs)[0] == Received(data);
    assert data[..|data|] == data;
    WriteAllOneShot(receiver, data, ws);
  }

  /** The test's packet: ErrorPacket(3, 122, "Access denied", "HY004") read while the counter is 1, then padding. */
  lemma InvalidPacketNumberScenario(
    sender: int, receiver: int, report: nat, buffer: seq<byte>, padding: seq<byte>, rs: seq<ReadResult>, ws: seq<int>)
    requires |ErrorPacketBytes(ErrorPacket(3, 122, "Access denied", "HY004")) + padding| <= |buffer|
    ensures var data := ErrorPacketBytes(ErrorPacket(3, 122, "Access denied", "HY004")) + padding;
      var e := CopyPacketsSpec(sender, receiver, true, false, 1, report, buffer, [Received(data)] + rs, ws);
      e.result == -1 && !e.handshakeDone && e.events == [ReadCall(sender, |buffer|)]
  {
    var e := ErrorPacket(3, 122, "Access denied", "HY004");
    ErrorPacketFraming(e);
    var data := ErrorPacketBytes(e) + padding;
    assert data[3] == 3;
    OutOfOrderAborts(sender, receiver, 1, report, buffer, data, rs, ws);
  }

  /** The test's packet: ErrorPacket(2, 0xaabb, "Access denied", "HY004") read while the counter is 1. */
  lemma ServerSendsErrorScenario(
    sender: int, receiver: int, report: nat, buffer: seq<byte>, rs: seq<ReadResult>, ws: seq<int>)
    requires |ErrorPacketBytes(ErrorPacket(2, 0xaabb, "Access denied", "HY004"))| <= |buffer|
    requires ws != [] && ws[0] >= |ErrorPacketBytes(ErrorPacket(2, 0xaabb, "Access denied", "HY004"))|
    ensures var data := ErrorPacketBytes(ErrorPacket(2, 0xaabb, "Access denied", "HY004"));
      var e := CopyPacketsSpec(sender, receiver, true, false, 1, report, buffer, [Received(data)] + rs, ws);
      e.result == 0 && e.currPktnr == 2 && e.events == [ReadCall(sender, |buffer|), WriteCall(receiver, data)]
  {
    var e := ErrorPacket(2, 0xaabb, "Access denied", "HY004");
    ErrorPacketFraming(e);
    var data := ErrorPacketBytes(e);
    assert data[3] == 2;
    ServerErrorForwarded(sender, receiver, 1, report, buffer, data, rs, ws);
  }

  /** SendErrorOKMultipleWrites: a write of 8 bytes, then one reporting 10000, sends the error packet. */
  lemma SendErrorMultipleWritesScenario(fd: int)
    ensures var pkt := ErrorPacketBytes(ErrorPacket(0, 55, "Error message", "HY000"));
      WriteAll(fd, pkt, [8, 10000]) == WriteAllRun(true, [WriteCall(fd, pkt), WriteCall(fd, pkt[8..])], [])
  {
    var pkt := ErrorPacketBytes(ErrorPacket(0, 55, "Error message", "HY000"));
    ErrorPacketFraming(ErrorPacket(0, 55, "Error message", "HY000"));
    assert |pkt| == 26;
    WriteAllShortThenRest(fd, pkt, [8, 10000]);
  }

  /** SendErrorWriteFail: a first write of -1 makes sending the error packet fail after one call. */
  lemma SendErrorWriteFailScenario(fd: int, ws: seq<int>)
    ensures var pkt := ErrorPacketBytes(ErrorPacket(0, 55, "Error message", "HY000"));
      WriteAll(fd, pkt, [-1] + ws) == WriteAllRun(false, [WriteCall(fd, pkt)], ws)
  {
    var pkt := ErrorPacketBytes(ErrorPacket(0, 55, "Error message", "HY000"));
    ErrorPacketFraming(ErrorPacket(0, 55, "Error message", "HY000"));
    WriteAllFirstFails(fd, pkt, [-1] + ws);
    assert ([-1] + ws)[1..] == ws;
  }

  /** `ClassicProtocol`: the protocol object, bound to its socket layer. */
  class ClassicProtocol {
    const ops: SocketOperations

    constructor (ops: SocketOperations)
      ensures this.ops == ops
    {
      this.ops := ops;
    }

    /**
     * `copy_packets(sender, receiver, readfds, buffer, &curr_pktnr,
     * handshake_done, &report_bytes_read, from_server)`, with `readable`
     * standing for the sender's bit in `readfds`.
     */
    method CopyPackets(sender: int, receiver: int, readable: bool, conn: Connection, reportIn: nat)
      returns (result: int, reportBytesRead: nat)
      modifies conn, conn.buffer, ops
      ensures var e := CopyPacketsSpec(sender, receiver, readable, old(conn.handshakeDone), old(conn.currPktnr),
                                       reportIn, old(conn.buffer[..]), old(ops.readScript), old(ops.writeScript));
        && result == e.result && reportBytesRead == e.reportBytesRead
        && conn.handshakeDone == e.handshakeDone && conn.currPktnr == e.currPktnr
        && conn.buffer[..] == e.buffer
        && ops.log == old(ops.log) + e.events
        && ops.readScript == e.readScript && ops.writeScript == e.writeScript
      ensures ops.connectScript == old(ops.connectScript)
    {
      if !readable {
        return 0, 0;
      }
      var n := ops.Read(sender, conn.buffer, conn.buffer.Length);
      if n <= 0 {
        return -1, reportIn;
      }
      ghost var data := old(ops.readScript)[0].data[..n];
      assert conn.buffer[..n] == data by {
        assert conn.buffer[..] == data + old(conn.buffer[..])[n..];
      }
      ghost var relay := RelaySpec(receiver, conn.handshakeDone, conn.currPktnr, reportIn, data, ops.writeScript);
      result, reportBytesRead := Relay(receiver, conn, n, reportIn, data);
      AppendAssoc(old(ops.log), [ReadCall(sender, conn.buffer.Length)], relay.events);
    }

    /** The part of `copy_packets` after a successful read of `n` bytes into the buffer. */
    method Relay(receiver: int, conn: Connection, n: nat, reportIn: nat, ghost data: seq<byte>)
      returns (result: int, reportBytesRead: nat)
      requires 0 < n <= conn.buffer.Length && conn.buffer[..n] == data
      modifies conn, ops
      ensures var r := RelaySpec(receiver, old(conn.handshakeDone), old(conn.currPktnr), reportIn, data, old(ops.writeScript));
        && result == r.result && reportBytesRead == r.reportBytesRead
        && conn.handshakeDone == r.handshakeDone && conn.currPktnr == r.currPktnr
        && ops.log == old(ops.log) + r.events && ops.writeScript == r.writeScript
      ensures ops.readScript == old(ops.readScript) && ops.connectScript == old(ops.connectScript)
    {
      var pktnr := conn.currPktnr;
      if !conn.handshakeDone {
        if n < HeaderLength {
          // a packet is at least a header
          return -1, reportIn;
        }
        pktnr := conn.buffer[3] as int;
        if conn.currPktnr > 0 && pktnr != conn.currPktnr + 1 {
          // packet number out of order
          return -1, reportIn;
        }
        assert SequenceOk(conn.currPktnr, data[3]);
        if n > HeaderLength && conn.buffer[HeaderLength] == ErrMarker {
          assert IsErrorPacket(data);
          // the server rejected the handshake: pass its error on; the handshake counts as done
          var _ := ops.WriteAllOf(receiver, conn.buffer[..n]);
          conn.currPktnr := 2;
          conn.handshakeDone := true;
          return 0, n;
        }
      }
      assert !conn.handshakeDone ==> HandshakeVerdict(conn.currPktnr, data) == Forward(pktnr);
      conn.currPktnr := pktnr;
      if pktnr == 2 {
        conn.handshakeDone := true;
      }
      var ok := ops.WriteAllOf(receiver, conn.buffer[..n]);
      if !ok {
        return -1, reportIn;
      }
      return 0, n;
    }

    /** `send_error(fd, code, message, sql_state, log_prefix)`: writes an error packet with sequence 0 in full. */
    method SendError(fd: int, code: nat, message: string, sqlState: string) returns (ok: bool)
      modifies ops
      ensures var run := WriteAll(fd, ErrorPacketBytes(ErrorPacket(0, code, message, sqlState)), old(ops.writeScript));
        ok == run.ok && ops.log == old(ops.log) + run.events && ops.writeScript == run.rest
      ensures ops.readScript == old(ops.readScript) && ops.connectScript == old(ops.connectScript)
    {
      ok := ops.WriteAllOf(fd, ErrorPacketBytes(ErrorPacket(0, code, message, sqlState)));
    }

    /** `on_block_client_host(fd, log_prefix)`: one write of the fake handshake response to the server `fd`. */
    method OnBlockClientHost(fd: int) returns (ok: bool)
      modifies ops
      ensures ok == (WriteResult(old(ops.writeScript)) >= 0)
      ensures ops.log == old(ops.log) + [WriteCall(fd, HandshakeResponseBytes(FakeHandshakeResponse))]
      ensures ops.writeScript == Tail(old(ops.writeScript))
      ensures ops.readScript == old(ops.readScript) && ops.connectScript == old(ops.connectScript)
    {
      var n := ops.Write(fd, HandshakeResponseBytes(FakeHandshakeResponse));
      ok := n >= 0;
    }
  }
}
