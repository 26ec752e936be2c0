/**
 * The socket-operations boundary of the router, as the tests replace it:
 * every read, write and backend connect returns the next scripted result,
 * and every call is recorded in a log in the order it was made.
 */
module SocketOps {
  import opened Wrappers

  /** A backend address. */
  datatype TcpAddress = TcpAddress(host: string, port: nat)

  /** A scripted read: the bytes the peer delivers, or a failure (-1). */
  datatype ReadResult = Received(data: seq<byte>) | ReadFailed

  /** A call made on the socket layer. */
  datatype Event =
    | ReadCall(fd: int, len: nat)
    | WriteCall(fd: int, data: seq<byte>)
    | ShutdownCall(fd: int)
    | CloseCall(fd: int)
    | ConnectCall(addr: TcpAddress, timeout: nat)

  /** An exhausted script answers -1, like a failing system call. */
  function WriteResult(script: seq<int>): (r: int)
  {
    if script == [] then -1 else script[0]
  }

  function Tail<T>(script: seq<T>): (r: seq<T>)
  {
    if script == [] then [] else script[1..]
  }

  /** What `read(fd, buf, len)` returns for the next scripted result. */
  function ReadCount(script: seq<ReadResult>, len: nat): (r: int)
  {
    if script == [] || script[0].ReadFailed? then -1 else Min(|script[0].data|, len)
  }

  /** What a write-until-done loop did: its verdict, its calls, the unused script. */
  datatype WriteAllRun = WriteAllRun(ok: bool, events: seq<Event>, rest: seq<int>)

  /**
   * A loop that keeps writing what is still `pending` to `fd` until the
   * counts returned cover it all (a count beyond what is left ends it too)
   * and gives up at the first negative count.
   */
  function WriteAll(fd: int, pending: seq<byte>, script: seq<int>): (run: WriteAllRun)
    decreases |script|
  {
    if pending == [] then WriteAllRun(true, [], script)
    else
      var call := WriteCall(fd, pending);
      var n := WriteResult(script);
      if n < 0 then WriteAllRun(false, [call], Tail(script))
      else
        var run := WriteAll(fd, pending[Min(n, |pending|)..], Tail(script));
        run.(events := [call] + run.events)
  }

  /** A run that continues after the calls `written` were already made. */
  function Resume(written: seq<Event>, run: WriteAllRun): (r: WriteAllRun)
  {
    run.(events := written + run.events)
  }

  /** One step of the write loop, after the calls `written`. */
  lemma WriteAllResumeStep(fd: int, pending: seq<byte>, script: seq<int>, written: seq<Event>)
    requires pending != []
    ensures WriteResult(script) < 0 ==>
      Resume(written, WriteAll(fd, pending, script)) == WriteAllRun(false, written + [WriteCall(fd, pending)], Tail(script))
    ensures WriteResult(script) >= 0 ==>
      Resume(written, WriteAll(fd, pending, script)) ==
      Resume(written + [WriteCall(fd, pending)], WriteAll(fd, pending[Min(WriteResult(script), |pending|)..], Tail(script)))
  {
  }

  /** `e` writes to `fd` what is left of `data` from some position on. */
  predicate OffersSuffix(e: Event, fd: int, data: seq<byte>)
  {
    e.WriteCall? && e.fd == fd && exists k :: 0 <= k < |data| && e.data == data[k..]
  }

  /** A remainder of a remainder is a remainder. */
  lemma OffersSuffixOfSuffix(e: Event, fd: int, data: seq<byte>, m: nat)
    requires m <= |data| && OffersSuffix(e, fd, data[m..])
    ensures OffersSuffix(e, fd, data)
  {
    var k :| 0 <= k < |data[m..]| && e.data == data[m..][k..];
    assert data[m..][k..] == data[m + k..];
  }

  /** Every call of the loop writes to `fd` a non-empty remainder of what was pending. */
  lemma {:induction false} WriteAllOffersSuffixes(fd: int, pending: seq<byte>, script: seq<int>)
    ensures forall i :: 0 <= i < |WriteAll(fd, pending, script).events| ==>
      OffersSuffix(WriteAll(fd, pending, script).events[i], fd, pending)
    decreases |script|
  {
    if pending != [] {
      var first := WriteCall(fd, pending);
      assert pending[0..] == pending;
      assert OffersSuffix(first, fd, pending);
      if WriteResult(script) >= 0 {
        var m := Min(script[0], |pending|);
        WriteAllOffersSuffixes(fd, pending[m..], Tail(script));
        var rest := WriteAll(fd, pending[m..], Tail(script)).events;
        var all := WriteAll(fd, pending, script).events;
        assert all == [first] + rest;
        forall i | 0 <= i < |all| ensures OffersSuffix(all[i], fd, pending) {
          if i > 0 {
            assert all[i] == rest[i - 1];
            OffersSuffixOfSuffix(all[i], fd, pending, m);
          }
        }
      }
    }
  }

  /** Sum of a script prefix. */
  function Sum(s: seq<int>): (r: int)
  {
    if s == [] then 0 else s[0] + Sum(s[1..])
  }

  predicate AllNonNegative(s: seq<int>)
  {
    forall i :: 0 <= i < |s| ==> s[i] >= 0
  }

  /**
   * The loop succeeds only when it used a prefix of the script made of
   * non-negative counts adding up to at least what was pending, and it
   * leaves the rest of the script unused.
   */
  lemma {:induction false} WriteAllSound(fd: int, pending: seq<byte>, script: seq<int>)
    ensures var run := WriteAll(fd, pending, script);
      run.ok ==> (exists k :: 0 <= k <= |script| && script[k..] == run.rest &&
                            AllNonNegative(script[..k]) && Sum(script[..k]) >= |pending|)
    decreases |script|
  {
    var run := WriteAll(fd, pending, script);
    if pending == [] {
      assert script[0..] == script && script[..0] == [];
    } else if run.ok {
      var n := script[0];
      var next := pending[Min(n, |pending|)..];
      var sub := WriteAll(fd, next, script[1..]);
      assert run.ok == sub.ok && run.rest == sub.rest;
      WriteAllSound(fd, next, script[1..]);
      var k :| 0 <= k <= |script[1..]| && script[1..][k..] == sub.rest &&
        AllNonNegative(script[1..][..k]) && Sum(script[1..][..k]) >= |next|;
      PrefixStep(script, k);
      assert script[k + 1..] == run.rest;
    }
  }

  /** A prefix one longer: its sum, its signs and what follows it. */
  lemma PrefixStep(script: seq<int>, k: nat)
    requires 0 <= k < |script| && script[0] >= 0 && AllNonNegative(script[1..][..k])
    ensures Sum(script[..k + 1]) == script[0] + Sum(script[1..][..k])
    ensures AllNonNegative(script[..k + 1])
    ensures script[k + 1..] == script[1..][k..]
  {
    var p := script[..k + 1];
    assert p[1..] == script[1..][..k];
    forall i | 0 <= i < |p| ensures p[i] >= 0 {
      if i > 0 {
        assert p[i] == script[1..][..k][i - 1];
      }
    }
  }

  /** Conversely, a script prefix of non-negative counts covering what is pending makes the loop succeed. */
  lemma {:induction false} WriteAllComplete(fd: int, pending: seq<byte>, script: seq<int>, k: nat)
    requires k <= |script|
    requires AllNonNegative(script[..k]) && Sum(script[..k]) >= |pending|
    ensures WriteAll(fd, pending, script).ok
    decreases k
  {
    if pending != [] {
      assert k > 0;
      assert script[..k][0] == script[0];
      assert script[..k][1..] == script[1..][..k - 1];
      assert Sum(script[..k]) == script[0] + Sum(script[1..][..k - 1]);
      if script[0] < |pending| {
        WriteAllComplete(fd, pending[script[0]..], script[1..], k - 1);
      }
    }
  }

  /** A write that reports the whole buffer at once is the only call. */
  lemma WriteAllOneShot(fd: int, data: seq<byte>, script: seq<int>)
    requires |data| > 0 && script != [] && script[0] >= |data|
    ensures WriteAll(fd, data, script) == WriteAllRun(true, [WriteCall(fd, data)], script[1..])
  {
    assert data[|data|..] == [];
  }

  /** A short write followed by one covering the rest: two calls, the second offering the rest. */
  lemma WriteAllShortThenRest(fd: int, data: seq<byte>, script: seq<int>)
    requires |script| >= 2 && 0 <= script[0] < |data| && script[1] >= |data| - script[0]
    ensures WriteAll(fd, data, script) ==
      WriteAllRun(true, [WriteCall(fd, data), WriteCall(fd, data[script[0]..])], script[2..])
  {
    var n := script[0];
    assert script[1..][1..] == script[2..];
    assert data[n..][|data[n..]|..] == [];
    assert WriteAll(fd, data[n..], script[1..]) == WriteAllRun(true, [WriteCall(fd, data[n..])], script[2..]);
  }

  /** A failing first write ends the loop with one call and a failure. */
  lemma WriteAllFirstFails(fd: int, data: seq<byte>, script: seq<int>)
    requires |data| > 0 && WriteResult(script) < 0
    ensures WriteAll(fd, data, script) == WriteAllRun(false, [WriteCall(fd, data)], Tail(script))
  {
  }

  /** Each connect returns a socket or, when it fails, -1. */
  function ConnectResult(script: seq<int>): (r: int)
  {
    if script == [] then -1 else script[0]
  }

  /**
   * The scripted socket layer. `readScript`, `writeScript` and `connectScript` are the
   * results still to be returned; `log` records the calls made so far.
   */
  class SocketOperations {
    var readScript: seq<ReadResult>
    var writeScript: seq<int>
    var connectScript: seq<int>
    var log: seq<Event>

    constructor (readScript: seq<ReadResult>, writeScript: seq<int>, connectScript: seq<int>)
      ensures this.readScript == readScript && this.writeScript == writeScript && this.connectScript == connectScript
      ensures log == []
    {
      this.readScript := readScript;
      this.writeScript := writeScript;
      this.connectScript := connectScript;
      log := [];
    }

    /** `read(fd, buf, len)`: up to `len` scripted bytes land at the start of `buf`. */
    method Read(fd: int, buf: array<byte>, len: nat) returns (n: int)
      requires len <= buf.Length
      modifies this, buf
      ensures n == ReadCount(old(readScript), len)
      ensures readScript == Tail(old(readScript)) && writeScript == old(writeScript) && connectScript == old(connectScript)
      ensures log == old(log) + [ReadCall(fd, len)]
      ensures n >= 0 ==> buf[..] == old(readScript)[0].data[..n] + old(buf[n..])
      ensures n < 0 ==> buf[..] == old(buf[..])
    {
      n := ReadCount(readScript, len);
      if n >= 0 {
        var data := readScript[0].data;
        var i := 0;
        while i < n
          invariant 0 <= i <= n
          invariant forall k :: 0 <= k < i ==> buf[k] == data[k]
          invariant forall k :: i <= k < buf.Length ==> buf[k] == old(buf[k])
          invariant readScript == old(readScript) && writeScript == old(writeScript)
          invariant connectScript == old(connectScript) && log == old(log)
        {
          buf[i] := data[i];
          i := i + 1;
        }
        assert buf[..] == data[..n] + old(buf[n..]);
      }
      readScript := Tail(readScript);
      log := log + [ReadCall(fd, len)];
    }

    /** `write(fd, data, |data|)`: the next scripted count, or -1. */
    method Write(fd: int, data: seq<byte>) returns (n: int)
      modifies this
      ensures n == WriteResult(old(writeScript))
      ensures writeScript == Tail(old(writeScript)) && readScript == old(readScript) && connectScript == old(connectScript)
      ensures log == old(log) + [WriteCall(fd, data)]
    {
      n := WriteResult(writeScript);
      writeScript := Tail(writeScript);
      log := log + [WriteCall(fd, data)];
    }

    /** `write_all(fd, data, |data|)`: writes until everything is reported sent or a write fails. */
    method WriteAllOf(fd: int, data: seq<byte>) returns (ok: bool)
      modifies this
      ensures var run := WriteAll(fd, data, old(writeScript));
        ok == run.ok && log == old(log) + run.events && writeScript == run.rest
      ensures readScript == old(readScript) && connectScript == old(connectScript)
    {
      ghost var log0 := log;
      ghost var whole := WriteAll(fd, data, writeScript);
      ghost var written: seq<Event> := [];
      var pending := data;
      ok := true;
      assert whole == Resume(written, WriteAll(fd, pending, writeScript));
      while pending != []
        invariant readScript == old(readScript) && connectScript == old(connectScript)
        invariant log == log0 + written
        invariant whole == Resume(written, WriteAll(fd, pending, writeScript))
        decreases |writeScript|
      {
        WriteAllResumeStep(fd, pending, writeScript, written);
        var n := Write(fd, pending);
        AppendAssoc(log0, written, [WriteCall(fd, pending)]);
        written := written + [WriteCall(fd, pending)];
        if n < 0 {
          ok := false;
          return;
        }
        pending := pending[Min(n, |pending|)..];
      }
    }

    method Shutdown(fd: int)
      modifies this
      ensures log == old(log) + [ShutdownCall(fd)]
      ensures readScript == old(readScript) && writeScript == old(writeScript) && connectScript == old(connectScript)
    {
      log := log + [ShutdownCall(fd)];
    }

    method Close(fd: int)
      modifies this
      ensures log == old(log) + [CloseCall(fd)]
      ensures readScript == old(readScript) && writeScript == old(writeScript) && connectScript == old(connectScript)
    {
      log := log + [CloseCall(fd)];
    }

    /** `get_mysql_socket(addr, timeout)`: a connected socket, or -1 when the connect fails. */
    method GetMysqlSocket(addr: TcpAddress, timeout: nat) returns (fd: int)
      modifies this
      ensures fd == ConnectResult(old(connectScript))
      ensures connectScript == Tail(old(connectScript)) && readScript == old(readScript) && writeScript == old(writeScript)
      ensures log == old(log) + [ConnectCall(addr, timeout)]
    {
      fd := ConnectResult(connectScript);
      connectScript := Tail(connectScript);
      log := log + [ConnectCall(addr, timeout)];
    }
  }
}
