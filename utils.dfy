/**
 * String and address helpers of the routing plugin: tokenising a string
 * the way `split_string` does with `std::getline`, and normalising a socket
 * address into a 16-byte array.
 */
module Utils {
  import opened Wrappers

  // ---------------------------------------------------------------------
  // Reference definitions for tokenising
  // ---------------------------------------------------------------------

  /** Number of occurrences of `d` in `s`. */
  function Count(s: string, d: char): (r: nat)
  {
    if s == [] then 0 else (if s[0] == d then 1 else 0) + Count(s[1..], d)
  }

  /** The tokens concatenated with `d` between each two of them. */
  function Join(tokens: seq<string>, d: char): (r: string)
  {
    if tokens == [] then ""
    else if |tokens| == 1 then tokens[0]
    else tokens[0] + [d] + Join(tokens[1..], d)
  }

  /** True when `d` does not occur in `t`. */
  predicate Free(t: string, d: char)
  {
    forall k :: 0 <= k < |t| ==> t[k] != d
  }

  /**
   * The fields of `s`: the pieces between consecutive occurrences of `d`,
   * including empty ones; there is always at least one.
   */
  function Fields(s: string, d: char): (r: seq<string>)
    ensures |r| >= 1
  {
    if s == [] then [""]
    else
      var rest := Fields(s[1..], d);
      if s[0] == d then [""] + rest else [[s[0]] + rest[0]] + rest[1..]
  }

  /** `tokens` with its empty strings removed, order kept. */
  function NonEmpty(tokens: seq<string>): (r: seq<string>)
  {
    if tokens == [] then []
    else (if tokens[0] == "" then [] else [tokens[0]]) + NonEmpty(tokens[1..])
  }

  /** What `split_string(data, d, allowEmpty)` returns. */
  function Split(data: string, d: char, allowEmpty: bool): (r: seq<string>)
  {
    if data == [] then []
    else if allowEmpty then Fields(data, d)
    else NonEmpty(Fields(data, d))
  }

  // ---------------------------------------------------------------------
  // Properties of the reference definitions
  // ---------------------------------------------------------------------

  /** Joining the fields of `s` with `d` gives `s` back. */
  lemma {:induction false} JoinFields(s: string, d: char)
    ensures Join(Fields(s, d), d) == s
  {
    if s != [] {
      var rest := Fields(s[1..], d);
      JoinFields(s[1..], d);
      if s[0] == d {
        assert Fields(s, d) == [""] + rest;
        assert ([""] + rest)[1..] == rest;
        assert s == [d] + s[1..];
      } else if |rest| == 1 {
        assert Fields(s, d) == [[s[0]] + rest[0]];
        assert s == [s[0]] + s[1..];
      } else {
        var r := Fields(s, d);
        assert r == [[s[0]] + rest[0]] + rest[1..];
        assert r[1..] == rest[1..];
        assert Join(rest, d) == rest[0] + [d] + Join(rest[1..], d);
        assert s == [s[0]] + s[1..];
      }
    }
  }

  /** No field contains the delimiter. */
  lemma {:induction false} FieldsFree(s: string, d: char)
    ensures forall i :: 0 <= i < |Fields(s, d)| ==> Free(Fields(s, d)[i], d)
  {
    if s != [] {
      FieldsFree(s[1..], d);
      var rest := Fields(s[1..], d);
      var r := Fields(s, d);
      if s[0] != d {
        assert Free([s[0]] + rest[0], d) by {
          assert Free(rest[0], d);
        }
        forall i | 1 <= i < |r| ensures Free(r[i], d) {
          assert r[i] == rest[i];
        }
      } else {
        forall i | 1 <= i < |r| ensures Free(r[i], d) {
          assert r[i] == rest[i - 1];
        }
      }
    }
  }

  /** There is one more field than there are delimiters. */
  lemma {:induction false} FieldsCount(s: string, d: char)
    ensures |Fields(s, d)| == Count(s, d) + 1
  {
    if s != [] {
      FieldsCount(s[1..], d);
    }
  }

  /** A string ending in the delimiter ends in an empty field. */
  lemma {:induction false} FieldsTrailing(s: string, d: char)
    requires s != [] && s[|s| - 1] == d
    ensures Fields(s, d)[|Fields(s, d)| - 1] == ""
  {
    var rest := Fields(s[1..], d);
    if |s| == 1 {
      assert s[1..] == [];
      assert Fields(s, d) == ["", ""];
    } else {
      assert s[1..][|s[1..]| - 1] == d;
      FieldsTrailing(s[1..], d);
      if s[0] != d {
        // the last field of `s` is the last field of `s[1..]` unless that is its only one
        FieldsCount(s[1..], d);
        assert Count(s[1..], d) >= 1 by { CountLast(s[1..], d); }
      }
    }
  }

  /** A string whose last character is `d` contains `d`. */
  lemma {:induction false} CountLast(s: string, d: char)
    requires s != [] && s[|s| - 1] == d
    ensures Count(s, d) >= 1
  {
    if s[0] != d {
      assert s[1..][|s[1..]| - 1] == d;
      CountLast(s[1..], d);
    }
  }

  /** A string without the delimiter is its own single field. */
  lemma {:induction false} FieldsOfFree(s: string, d: char)
    requires Free(s, d)
    ensures Fields(s, d) == [s]
  {
    if s != [] {
      FieldsOfFree(s[1..], d);
      assert s == [s[0]] + s[1..];
    }
  }

  /** The first field ends at the first delimiter; the others are the fields after it. */
  lemma {:induction false} FieldsAt(s: string, j: nat, d: char)
    requires j < |s| && s[j] == d && Free(s[..j], d)
    ensures Fields(s, d) == [s[..j]] + Fields(s[j + 1..], d)
  {
    if j == 0 {
    } else {
      assert s[1..][j - 1] == d;
      assert s[1..][..j - 1] == s[..j][1..];
      FieldsAt(s[1..], j - 1, d);
      assert s[1..][j..] == s[j + 1..];
      assert s[..j] == [s[0]] + s[1..][..j - 1];
    }
  }

  /**
   * Fields is the only way to cut `s` into delimiter-free tokens that join
   * back to `s`.
   */
  lemma {:induction false} FieldsUnique(tokens: seq<string>, s: string, d: char)
    requires |tokens| >= 1
    requires forall i :: 0 <= i < |tokens| ==> Free(tokens[i], d)
    requires Join(tokens, d) == s
    ensures tokens == Fields(s, d)
  {
    if |tokens| == 1 {
      FieldsOfFree(s, d);
    } else {
      var j := |tokens[0]|;
      assert s == tokens[0] + [d] + Join(tokens[1..], d);
      assert s[..j] == tokens[0];
      assert s[j + 1..] == Join(tokens[1..], d);
      FieldsAt(s, j, d);
      FieldsUnique(tokens[1..], s[j + 1..], d);
      assert tokens == [tokens[0]] + tokens[1..];
    }
  }

  /** Appending one token keeps it exactly when it is not empty. */
  lemma NonEmptySnoc(a: seq<string>, t: string)
    ensures NonEmpty(a + [t]) == NonEmpty(a) + (if t == "" then [] else [t])
  {
    NonEmptyAppend(a, [t]);
    assert [t][1..] == [];
  }

  /** Removing empty tokens distributes over concatenation. */
  lemma {:induction false} NonEmptyAppend(a: seq<string>, b: seq<string>)
    ensures NonEmpty(a + b) == NonEmpty(a) + NonEmpty(b)
  {
    if a != [] {
      assert (a + b)[0] == a[0];
      assert (a + b)[1..] == a[1..] + b;
      NonEmptyAppend(a[1..], b);
      var head := if a[0] == "" then [] else [a[0]];
      calc {
        NonEmpty(a + b);
        head + NonEmpty(a[1..] + b);
        head + (NonEmpty(a[1..]) + NonEmpty(b));
        (head + NonEmpty(a[1..])) + NonEmpty(b);
      }
    } else {
      assert a + b == b;
    }
  }

  /** NonEmpty keeps exactly the non-empty tokens: none of its tokens is empty and each is one of the input's. */
  lemma {:induction false} NonEmptyKeeps(tokens: seq<string>)
    ensures forall i :: 0 <= i < |NonEmpty(tokens)| ==>
      NonEmpty(tokens)[i] != "" && NonEmpty(tokens)[i] in tokens
    ensures forall t :: t in tokens && t != "" ==> t in NonEmpty(tokens)
  {
    if tokens != [] {
      NonEmptyKeeps(tokens[1..]);
      var head := if tokens[0] == "" then [] else [tokens[0]];
      assert NonEmpty(tokens) == head + NonEmpty(tokens[1..]);
      forall t | t in tokens && t != "" ensures t in NonEmpty(tokens) {
        if t != tokens[0] {
          assert t in tokens[1..];
        }
      }
    }
  }

  /**
   * What `split_string` promises: no token holds the delimiter; empty input
   * gives no tokens; without `allowEmpty` no token is empty and the tokens
   * are those of the `allowEmpty` call with the empty ones removed; with
   * `allowEmpty` on non-empty input there is one token more than there are
   * delimiters, joining them with the delimiter gives the input back, and a
   * trailing delimiter yields a final empty token.
   */
  lemma SplitProperties(data: string, d: char, allowEmpty: bool)
    ensures forall i :: 0 <= i < |Split(data, d, allowEmpty)| ==> Free(Split(data, d, allowEmpty)[i], d)
    ensures data == [] ==> Split(data, d, allowEmpty) == []
    ensures !allowEmpty ==> forall i :: 0 <= i < |Split(data, d, false)| ==> Split(data, d, false)[i] != ""
    ensures Split(data, d, false) == NonEmpty(Split(data, d, true))
    ensures allowEmpty && data != [] ==>
      && |Split(data, d, true)| == Count(data, d) + 1
      && Join(Split(data, d, true), d) == data
      && (data[|data| - 1] == d ==> Split(data, d, true)[|Split(data, d, true)| - 1] == "")
  {
    if data != [] {
      var f := Fields(data, d);
      FieldsFree(data, d);
      FieldsCount(data, d);
      JoinFields(data, d);
      NonEmptyKeeps(f);
      if data[|data| - 1] == d {
        FieldsTrailing(data, d);
      }
      forall i | 0 <= i < |NonEmpty(f)| ensures Free(NonEmpty(f)[i], d) {
        var t := NonEmpty(f)[i];
        var k :| 0 <= k < |f| && f[k] == t;
        assert Free(f[k], d);
      }
    }
  }

  // ---------------------------------------------------------------------
  // split_string
  // ---------------------------------------------------------------------

  /** Position of the first `d` at or after `pos`, or `|s|` when there is none. */
  function FindDelimiter(s: string, pos: nat, d: char): (j: nat)
    requires pos <= |s|
    ensures pos <= j <= |s|
    ensures j < |s| ==> s[j] == d
    ensures forall k :: pos <= k < j ==> s[k] != d
    decreases |s| - pos
  {
    if pos == |s| || s[pos] == d then pos else FindDelimiter(s, pos + 1, d)
  }

  /**
   * `std::getline(ss, token, d)` on a string stream whose cursor is at
   * `pos`: fails (None) when no character is left to extract; otherwise
   * yields the characters up to the next delimiter or the end, and moves the
   * cursor past the delimiter, which is consumed but not stored.
   */
  function GetLine(s: string, pos: nat, d: char): (r: Option<(string, nat)>)
    requires pos <= |s|
    ensures r.None? <==> pos == |s|
    ensures r.Some? ==> pos < r.value.1 <= |s| && Free(r.value.0, d)
    ensures r.Some? ==> r.value.0 == s[pos..FindDelimiter(s, pos, d)]
    ensures r.Some? && r.value.1 < |s| ==> s[r.value.1 - 1] == d
  {
    if pos == |s| then None
    else
      var j := FindDelimiter(s, pos, d);
      Some((s[pos..j], if j < |s| then j + 1 else j))
  }

  /** One getline call takes off the first field of what is left. */
  lemma TokenStep(data: string, pos: nat, d: char, token: string, next: nat)
    requires pos < |data| && GetLine(data, pos, d) == Some((token, next))
    ensures if next < |data| || data[|data| - 1] == d then
        next > 0 && data[next - 1] == d &&
        Fields(data[pos..], d) == [token] + Fields(data[next..], d)
      else
        next == |data| && Fields(data[pos..], d) == [token]
  {
    var j := FindDelimiter(data, pos, d);
    var rest := data[pos..];
    assert Free(rest[..j - pos], d) by {
      assert rest[..j - pos] == data[pos..j];
    }
    if j < |data| {
      assert rest[j - pos] == d;
      FieldsAt(rest, j - pos, d);
      assert rest[..j - pos] == data[pos..j];
      assert rest[j - pos + 1..] == data[j + 1..];
    } else {
      assert rest == data[pos..j];
      FieldsOfFree(rest, d);
    }
  }

  /**
   * The tokens `raw` taken so far by getline, with the cursor at `pos`, are
   * the first fields of `data`; when the cursor follows a delimiter (or is at
   * the start) the fields of the rest complete them.
   */
  ghost predicate Consumed(data: string, pos: nat, d: char, raw: seq<string>)
    requires pos <= |data|
  {
    if pos == 0 || data[pos - 1] == d then Fields(data, d) == raw + Fields(data[pos..], d)
    else pos == |data| && Fields(data, d) == raw
  }

  /** One getline call keeps `Consumed`. */
  lemma ConsumedStep(data: string, pos: nat, d: char, raw: seq<string>, token: string, next: nat)
    requires pos < |data| && Consumed(data, pos, d, raw)
    requires GetLine(data, pos, d) == Some((token, next))
    ensures next <= |data| && Consumed(data, next, d, raw + [token])
  {
    assert pos == 0 || data[pos - 1] == d;
    var before := Fields(data[pos..], d);
    assert Fields(data, d) == raw + before;
    TokenStep(data, pos, d, token, next);
    if next < |data| || data[|data| - 1] == d {
      var after := Fields(data[next..], d);
      assert before == [token] + after;
      AppendAssoc(raw, [token], after);
    }
  }

  /** `split_string(data, delimiter, allow_empty)`. */
  method SplitString(data: string, delimiter: char, allowEmpty: bool) returns (result: seq<string>)
    ensures result == Split(data, delimiter, allowEmpty)
  {
    if data == [] {
      return [];
    }
    result := [];
    var pos: nat := 0;
    ghost var raw: seq<string> := [];
    var line := GetLine(data, pos, delimiter);
    assert data[0..] == data;
    while line.Some?
      invariant pos <= |data|
      invariant line == GetLine(data, pos, delimiter)
      invariant result == if allowEmpty then raw else NonEmpty(raw)
      invariant Consumed(data, pos, delimiter, raw)
      decreases |data| - pos
    {
      var (token, next) := line.value;
      ConsumedStep(data, pos, delimiter, raw, token, next);
      if token != [] || allowEmpty {
        result := result + [token];
      }
      NonEmptySnoc(raw, token);
      raw := raw + [token];
      pos := next;
      line := GetLine(data, pos, delimiter);
    }
    SplitFinish(data, delimiter, allowEmpty, raw);
    // getline yields nothing after a final delimiter, so the empty last field is added here
    if allowEmpty && data[|data| - 1] == delimiter {
      result := result + [""];
    }
  }

  /** Once getline has consumed everything, a trailing delimiter stands for one more, empty, field. */
  lemma SplitFinish(data: string, d: char, allowEmpty: bool, raw: seq<string>)
    requires data != [] && Consumed(data, |data|, d, raw)
    ensures Split(data, d, allowEmpty) ==
      (if allowEmpty then raw else NonEmpty(raw)) + (if allowEmpty && data[|data| - 1] == d then [""] else [])
  {
    if data[|data| - 1] == d {
      assert data[|data|..] == [];
      assert Fields(data, d) == raw + [""];
      NonEmptyAppend(raw, [""]);
    } else {
      assert Fields(data, d) == raw;
    }
  }

  /** The two-argument `split_string(data, delimiter)`: empty tokens are kept. */
  method SplitStringDefault(data: string, delimiter: char) returns (result: seq<string>)
    ensures result == Split(data, delimiter, true)
  {
    result := SplitString(data, delimiter, true);
  }

  // ---------------------------------------------------------------------
  // Socket addresses
  // ---------------------------------------------------------------------

  /** The address families the helpers distinguish (`ss_family`). */
  datatype AddressFamily = AfInet | AfInet6 | AfUnix | AfUnspec

  /** Size of `struct sockaddr_storage`. */
  const StorageSize: nat := 128
  /** Offset of `sin_addr` in `struct sockaddr_in` (after family and port). */
  const SinAddrOffset: nat := 4
  /** Offset of `sin6_addr` in `struct sockaddr_in6` (after family, port and flow info). */
  const Sin6AddrOffset: nat := 8
  const In4Length: nat := 4
  const In6Length: nat := 16

  /** A `sockaddr_storage`: its family field and its raw bytes, read through either overlay. */
  datatype SockAddrStorage = SockAddrStorage(family: AddressFamily, bytes: seq<byte>)

  /**
   * `get_in_addr`: where the address field lies in the storage, given as an
   * offset. The IPv4 field is chosen exactly for AF_INET; every other family
   * is read as IPv6.
   */
  function GetInAddr(addr: SockAddrStorage): (offset: nat)
    ensures offset == SinAddrOffset <==> addr.family == AfInet
    ensures offset == Sin6AddrOffset <==> addr.family != AfInet
    ensures offset + In6Length <= StorageSize
  {
    if addr.family == AfInet then SinAddrOffset else Sin6AddrOffset
  }

  /** `std::memcpy(dst, src, |src|)` into a destination at least as long. */
  method MemCopy(dst: array<byte>, src: seq<byte>)
    requires |src| <= dst.Length
    modifies dst
    ensures dst[..|src|] == src
    ensures dst[|src|..] == old(dst[|src|..])
  {
    var i := 0;
    while i < |src|
      invariant 0 <= i <= |src|
      invariant dst[..i] == src[..i]
      invariant dst[|src|..] == old(dst[|src|..])
    {
      dst[i] := src[i];
      i := i + 1;
    }
  }

  /**
   * `in_addr_to_array`: 16 bytes, zero-initialised, then filled with the
   * IPv6 address for AF_INET6 and with the IPv4 address (bytes 0-3, the rest
   * left zero) for every other family.
   */
  method InAddrToArray(addr: SockAddrStorage) returns (r: seq<byte>)
    requires |addr.bytes| == StorageSize
    ensures |r| == 16
    ensures addr.family == AfInet6 ==> r == addr.bytes[Sin6AddrOffset..Sin6AddrOffset + In6Length]
    ensures addr.family != AfInet6 ==>
      r[..In4Length] == addr.bytes[SinAddrOffset..SinAddrOffset + In4Length] &&
      forall i :: In4Length <= i < 16 ==> r[i] == 0
  {
    var result := new byte[16](_ => 0);
    if addr.family == AfInet6 {
      MemCopy(result, addr.bytes[Sin6AddrOffset..Sin6AddrOffset + In6Length]);
    } else {
      MemCopy(result, addr.bytes[SinAddrOffset..SinAddrOffset + In4Length]);
      assert forall i :: In4Length <= i < 16 ==> result[i] == result[In4Length..][i - In4Length];
    }
    r := result[..];
  }
}
