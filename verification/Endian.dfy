/**
 Fixed-width and length-prefixed little-endian fields over a byte stream that
 arrives in pieces, and over a writer whose writes may fail.
 Models wire/endian/helper.go; encoding/binary's integer layout is `Put` and `Value`.
*/
module Endian {
  newtype byte = x: int | 0 <= x < 256
  type bytes = seq<byte>

  datatype Option<+T> = None | Some(value: T)

  /** What a read of one field makes of the bytes still to come. */
  datatype Parsed<+T> = Short | Got(value: T, rest: bytes) {
    /** The bytes left on the stream after the read; a failed read has used them all up. */
    function Rest(): bytes {
      if Short? then [] else rest
    }
  }

  function Pow256(k: nat): (p: nat)
    ensures p > 0
  {
    if k == 0 then 1 else 256 * Pow256(k - 1)
  }

  /** The low k bytes of n, least significant first. */
  function Put(n: nat, k: nat): (b: bytes)
    ensures |b| == k
  {
    if k == 0 then [] else [(n % 256) as byte] + Put(n / 256, k - 1)
  }

  /** The number written by b, least significant byte first. */
  function Value(b: bytes): (n: nat)
    ensures n < Pow256(|b|)
  {
    if b == [] then 0 else b[0] as nat + 256 * Value(b[1..])
  }

  lemma {:induction false} ValueOfPut(n: nat, k: nat)
    requires n < Pow256(k)
    ensures Value(Put(n, k)) == n
  {
    if k == 0 {
    } else {
      ValueOfPut(n / 256, k - 1);
      assert Put(n, k)[1..] == Put(n / 256, k - 1);
    }
  }

  lemma {:induction false} PutOfValue(b: bytes)
    ensures Put(Value(b), |b|) == b
  {
    if b == [] {
    } else {
      PutOfValue(b[1..]);
      assert b == [b[0]] + b[1..];
    }
  }

  lemma PowConstants()
    ensures Pow256(1) == 0x100 && Pow256(2) == 0x1_0000 && Pow256(4) == 0x1_0000_0000
  {
    assert Pow256(3) == 256 * Pow256(2);
  }

  lemma Reassociate<T>(a: seq<T>, b: seq<T>, c: seq<T>)
    ensures a + b + c == a + (b + c)
  {
  }

  lemma SplitAt<T>(a: seq<T>, b: seq<T>)
    ensures (a + b)[..|a|] == a && (a + b)[|a|..] == b
  {
  }

  // ----- the functions the readers and writers are proved against

  function ParseUint(k: nat, b: bytes): Parsed<nat> {
    if |b| < k then Short else Got(Value(b[..k]), b[k..])
  }

  /** A block preceded by its length in k bytes. */
  function ParseBlock(k: nat, b: bytes): Parsed<bytes> {
    match ParseUint(k, b)
    case Short => Short
    case Got(n, rest) => if |rest| < n then Short else Got(rest[..n], rest[n..])
  }

  /** A length that does not fit k bytes is truncated; the block itself never is. */
  function PutBlock(k: nat, block: bytes): (b: bytes)
    ensures |b| == k + |block|
  {
    Put(|block| % Pow256(k), k) + block
  }

  /** A length that fits its field is written as it is. */
  lemma PutBlockFits(k: nat, block: bytes)
    requires |block| < Pow256(k)
    ensures PutBlock(k, block) == Put(|block|, k) + block
  {
    SmallMod(|block|, Pow256(k));
  }

  lemma SmallMod(n: nat, m: nat)
    requires n < m
    ensures n % m == n
  {
  }

  lemma BlockRoundTrip(k: nat, block: bytes, tail: bytes)
    requires |block| < Pow256(k)
    ensures ParseBlock(k, PutBlock(k, block) + tail) == Got(block, tail)
  {
    var len := Put(|block|, k);
    PutBlockFits(k, block);
    Reassociate(len, block, tail);
    SplitAt(len, block + tail);
    SplitAt(block, tail);
    ValueOfPut(|block|, k);
  }

  /** The block comes back exactly when its length fits the length field. */
  lemma BlockRoundTripIff(k: nat, block: bytes)
    ensures ParseBlock(k, PutBlock(k, block)) == Got(block, []) <==> |block| < Pow256(k)
  {
    if |block| < Pow256(k) {
      BlockRoundTrip(k, block, []);
      assert PutBlock(k, block) + [] == PutBlock(k, block);
    } else {
      var b := PutBlock(k, block);
      assert Value(b[..k]) < Pow256(k);
    }
  }

  /** No strict prefix of a block that fits its length field reads as a block. */
  lemma PartialBlockIsShort(k: nat, block: bytes, p: bytes)
    requires |block| < Pow256(k)
    requires p <= PutBlock(k, block) && |p| < k + |block|
    ensures ParseBlock(k, p) == Short
  {
    if |p| >= k {
      ValueOfPut(|block|, k);
      PutBlockFits(k, block);
      assert p[..k] == PutBlock(k, block)[..k] == Put(|block|, k);
    }
  }

  function Flatten(chunks: seq<bytes>): bytes {
    if chunks == [] then [] else chunks[0] + Flatten(chunks[1..])
  }

  /** A connection's inbound side: the pieces its next reads return, and then an error. */
  class Stream {
    var chunks: seq<bytes>

    ghost function Rest(): bytes
      reads this
    {
      Flatten(chunks)
    }

    constructor (chunks: seq<bytes>)
      ensures this.chunks == chunks
    {
      this.chunks := chunks;
    }

    method Read(buf: array<byte>, from: nat) returns (n: nat, ok: bool)
      requires from <= buf.Length
      modifies this, buf
      ensures ok <==> old(chunks) != []
      ensures !ok ==> n == 0 && chunks == [] && buf[..] == old(buf[..])
      ensures from + n <= buf.Length
      ensures buf[..from] == old(buf[..from])
      ensures buf[from..from + n] + Rest() == old(Rest())
      ensures ok ==> |chunks| < |old(chunks)| || (|chunks| == |old(chunks)| && from + n == buf.Length)
    {
      if chunks == [] {
        return 0, false;
      }
      var chunk := chunks[0];
      n := if |chunk| < buf.Length - from then |chunk| else buf.Length - from;
      forall i | 0 <= i < n {
        buf[from + i] := chunk[i];
      }
      assert buf[from..from + n] == chunk[..n];
      if n == |chunk| {
        chunks := chunks[1..];
      } else {
        assert chunk == chunk[..n] + chunk[n..];
        chunks := [chunk[n..]] + chunks[1..];
        assert chunks[1..] == old(chunks)[1..];
      }
      ok := true;
    }

    /** io.ReadFull: reads piece by piece until buf is full or the stream ends. */
    method ReadFull(buf: array<byte>) returns (ok: bool)
      modifies this, buf
      ensures ok <==> buf.Length <= |old(Rest())|
      ensures ok ==> buf[..] == old(Rest())[..buf.Length] && Rest() == old(Rest())[buf.Length..]
      ensures !ok ==> Rest() == []
    {
      var n: nat := 0;
      ok := true;
      while n < buf.Length && ok
        invariant n <= buf.Length
        invariant buf[..n] + Rest() == old(Rest())
        invariant !ok ==> chunks == [] && n < buf.Length
        decreases ok, |chunks|, buf.Length - n
      {
        ghost var before := buf[..n];
        ghost var rest := Rest();
        var m;
        m, ok := Read(buf, n);
        assert buf[..n + m] == before + buf[n..n + m];
        if ok {
          n := n + m;
        } else {
          assert m == 0 && buf[..n] == before;
        }
      }
      assert buf[..n] == old(Rest())[..n];
      assert Rest() == old(Rest())[n..];
      if n == buf.Length {
        assert buf[..n] == buf[..];
      }
    }

    method ReadFixedBytes(len: nat) returns (r: Option<bytes>)
      modifies this
      ensures r == (if len <= |old(Rest())| then Some(old(Rest())[..len]) else None)
      ensures Rest() == if len <= |old(Rest())| then old(Rest())[len..] else []
    {
      var buf := new byte[len];
      var ok := ReadFull(buf);
      r := if ok then Some(buf[..]) else None;
    }

    /** ReadUint8, ReadUint16, ReadUint32 and ReadUint64 for k = 1, 2, 4 and 8. */
    method ReadUint(k: nat) returns (r: Option<nat>)
      modifies this
      ensures r == (match ParseUint(k, old(Rest())) case Short => None case Got(n, _) => Some(n))
      ensures Rest() == ParseUint(k, old(Rest())).Rest()
    {
      var buf := new byte[k];
      var ok := ReadFull(buf);
      r := if ok then Some(Value(buf[..])) else None;
    }

    /** ReadBytes (k = 4) and ReadShortBytes (k = 2). */
    method ReadBlock(k: nat) returns (r: Option<bytes>)
      modifies this
      ensures r == (match ParseBlock(k, old(Rest())) case Short => None case Got(b, _) => Some(b))
      ensures Rest() == ParseBlock(k, old(Rest())).Rest()
    {
      var bufLen := ReadUint(k);
      if bufLen == None {
        return None;
      }
      var buf := new byte[bufLen.value];
      var ok := ReadFull(buf);
      r := if ok then Some(buf[..]) else None;
    }
  }

  /** An io.Writer. A reliable one (bytes.Buffer) never fails; another may stop part way through a write. */
  class Writer {
    var out: bytes
    const reliable: bool

    constructor (reliable: bool)
      ensures out == [] && this.reliable == reliable
    {
      this.reliable := reliable;
      out := [];
    }

    method Write(b: bytes) returns (ok: bool)
      modifies this
      ensures reliable ==> ok
      ensures ok ==> out == old(out) + b
      ensures old(out) <= out <= old(out) + b
    {
      ok := *;
      var n: nat :| n <= |b|;
      ok := ok || reliable;
      out := out + if ok then b else b[..n];
    }

    /** WriteUint8, WriteUint16, WriteUint32 and WriteUint64 for k = 1, 2, 4 and 8. */
    method WriteUint(k: nat, val: nat) returns (ok: bool)
      requires val < Pow256(k)
      modifies this
      ensures reliable ==> ok
      ensures ok ==> out == old(out) + Put(val, k)
      ensures old(out) <= out <= old(out) + Put(val, k)
    {
      ok := Write(Put(val, k));
    }

    /** WriteBytes (k = 4) and WriteShortBytes (k = 2): the length and the block are two writes. */
    method WriteBlock(k: nat, block: bytes) returns (ok: bool)
      modifies this
      ensures reliable ==> ok
      ensures ok ==> out == old(out) + PutBlock(k, block)
      ensures old(out) <= out <= old(out) + PutBlock(k, block)
    {
      ok := WriteUint(k, |block| % Pow256(k));
      if ok {
        ok := Write(block);
      }
    }
  }
}
