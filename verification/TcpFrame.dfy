/**
 TCP frames: one opcode byte, a 32-bit length, the payload. Models tcp/connection.go.
 `Decode` is what calling ReadFrame until it fails yields.
*/
module TcpFrame {
  import opened Endian

  /** The opcode is Go's int; only its low byte is written. */
  datatype Frame = Frame(opcode: int, payload: bytes) {
    predicate FitsWire() {
      0 <= opcode < 256 && |payload| < 0x1_0000_0000
    }
  }

  const OP_BINARY := 2
  const OP_CLOSE := 8
  const OP_PING := 9
  const OP_PONG := 10

  function Encode(f: Frame): (b: bytes)
    ensures |b| == 5 + |f.payload|
  {
    Put(f.opcode % 256, 1) + PutBlock(4, f.payload)
  }

  function EncodeAll(fs: seq<Frame>): bytes {
    if fs == [] then [] else Encode(fs[0]) + EncodeAll(fs[1..])
  }

  function ParseFrame(b: bytes): (r: Parsed<Frame>)
    ensures r.Got? ==> |r.rest| < |b|
  {
    match ParseUint(1, b)
    case Short => Short
    case Got(op, rest) =>
      match ParseBlock(4, rest)
      case Short => Short
      case Got(payload, rest') => Got(Frame(op, payload), rest')
  }

  function Decode(b: bytes): seq<Frame>
    decreases |b|
  {
    match ParseFrame(b)
    case Short => []
    case Got(f, rest) => [f] + Decode(rest)
  }

  method ReadFrame(s: Stream) returns (r: Option<Frame>)
    modifies s
    ensures r == (match ParseFrame(old(s.Rest())) case Short => None case Got(f, _) => Some(f))
    ensures s.Rest() == ParseFrame(old(s.Rest())).Rest()
  {
    var opcode := s.ReadUint(1);
    if opcode == None {
      return None;
    }
    var payload := s.ReadBlock(4);
    if payload == None {
      return None;
    }
    r := Some(Frame(opcode.value, payload.value));
  }

  /** A frame is three writes; a failing one leaves a prefix of the frame behind. */
  method WriteFrame(w: Writer, code: int, payload: bytes) returns (ok: bool)
    modifies w
    ensures w.reliable ==> ok
    ensures ok ==> w.out == old(w.out) + Encode(Frame(code, payload))
    ensures old(w.out) <= w.out <= old(w.out) + Encode(Frame(code, payload))
  {
    PowConstants();
    ghost var before, opcode, block := w.out, Put(code % 256, 1), PutBlock(4, payload);
    assert Encode(Frame(code, payload)) == opcode + block;
    ok := w.WriteUint(1, code % 256);
    if ok {
      ok := w.WriteBlock(4, payload);
      Reassociate(before, opcode, block);
    } else {
      assert before + opcode <= before + (opcode + block);
    }
  }

  lemma FrameRoundTrip(f: Frame, tail: bytes)
    requires f.FitsWire()
    ensures ParseFrame(Encode(f) + tail) == Got(f, tail)
  {
    PowConstants();
    var b := Encode(f) + tail;
    ValueOfPut(f.opcode, 1);
    assert b[..1] == Put(f.opcode, 1);
    assert b[1..] == PutBlock(4, f.payload) + tail;
    BlockRoundTrip(4, f.payload, tail);
  }

  /** The opcode, the length, low byte first, and the payload. */
  lemma FrameLayout(f: Frame)
    requires f.FitsWire()
    ensures var b := Encode(f);
      && b[0] as int == f.opcode
      && b[1] as nat + 256 * (b[2] as nat + 256 * (b[3] as nat + 256 * b[4] as nat)) == |f.payload|
      && b[5..] == f.payload
  {
    PowConstants();
    SmallMod(f.opcode, 256);
    PutBlockFits(4, f.payload);
    assert Put(f.opcode, 1) == [f.opcode as byte] + Put(f.opcode / 256, 0);
    PutFour(|f.payload|);
  }

  lemma PutFour(n: nat)
    requires n < 0x1_0000_0000
    ensures var b := Put(n, 4);
      b[0] as nat + 256 * (b[1] as nat + 256 * (b[2] as nat + 256 * b[3] as nat)) == n
  {
    var a, b, c := n / 256, n / 256 / 256, n / 256 / 256 / 256;
    assert Put(n, 4) == [(n % 256) as byte] + Put(a, 3);
    assert Put(a, 3) == [(a % 256) as byte] + Put(b, 2);
    assert Put(b, 2) == [(b % 256) as byte] + Put(c, 1);
    assert Put(c, 1) == [(c % 256) as byte] + Put(c / 256, 0);
    assert c < 256;
  }

  /** A frame survives the wire exactly when its opcode is a byte and its length a 32-bit number. */
  lemma FrameRoundTripIff(f: Frame)
    ensures ParseFrame(Encode(f)) == Got(f, []) <==> f.FitsWire()
  {
    PowConstants();
    if f.FitsWire() {
      FrameRoundTrip(f, []);
      assert Encode(f) + [] == Encode(f);
    } else {
      var b := Encode(f);
      assert b[1..] == PutBlock(4, f.payload);
      assert Value(b[..1]) < 256;
      BlockRoundTripIff(4, f.payload);
    }
  }

  /** No strict prefix of a frame reads as a frame. */
  lemma PartialFrameIsShort(f: Frame, p: bytes)
    requires f.FitsWire()
    requires p <= Encode(f) && p != Encode(f)
    ensures ParseFrame(p) == Short
  {
    if p != [] {
      PowConstants();
      assert Encode(f)[1..] == PutBlock(4, f.payload);
      assert p[1..] <= PutBlock(4, f.payload);
      PartialBlockIsShort(4, f.payload, p[1..]);
    }
  }

  ghost predicate AllFit(fs: seq<Frame>) {
    forall f | f in fs :: f.FitsWire()
  }

  lemma DecodeStep(f: Frame, tail: bytes)
    requires f.FitsWire()
    ensures Decode(Encode(f) + tail) == [f] + Decode(tail)
  {
    FrameRoundTrip(f, tail);
  }

  /** Complete frames decode to themselves, and decoding goes on with what follows them. */
  lemma {:induction false} DecodeStream(fs: seq<Frame>, tail: bytes)
    requires AllFit(fs)
    ensures Decode(EncodeAll(fs) + tail) == fs + Decode(tail)
  {
    if fs == [] {
      assert EncodeAll(fs) + tail == tail;
    } else {
      var first, more := fs[0], fs[1..];
      calc {
        Decode(EncodeAll(fs) + tail);
        { Reassociate(Encode(first), EncodeAll(more), tail); }
        Decode(Encode(first) + (EncodeAll(more) + tail));
        { DecodeStep(first, EncodeAll(more) + tail); }
        [first] + Decode(EncodeAll(more) + tail);
        { DecodeStream(more, tail); }
        [first] + (more + Decode(tail));
        { Reassociate([first], more, Decode(tail)); assert [first] + more == fs; }
        fs + Decode(tail);
      }
    }
  }

  /** How many frames lie wholly within the first n bytes. */
  function Complete(fs: seq<Frame>, n: nat): (k: nat)
    ensures k <= |fs|
  {
    if fs == [] || n < |Encode(fs[0])| then 0 else 1 + Complete(fs[1..], n - |Encode(fs[0])|)
  }

  /** `Complete` is the largest number of frames that fit in n bytes. */
  lemma {:induction false} CompleteIsMaximal(fs: seq<Frame>, n: nat, k: nat)
    requires k <= |fs|
    ensures k <= Complete(fs, n) <==> |EncodeAll(fs[..k])| <= n
  {
    if k == 0 {
    } else {
      assert fs[..k][1..] == fs[1..][..k - 1];
      if n >= |Encode(fs[0])| {
        CompleteIsMaximal(fs[1..], n - |Encode(fs[0])|, k - 1);
      }
    }
  }

  lemma CutWithin(e: bytes, rest: bytes, p: bytes)
    requires p <= e + rest && |p| < |e|
    ensures p <= e && p != e
  {
    assert p == (e + rest)[..|p|] == e[..|p|];
  }

  lemma TakeMore<T>(s: seq<T>, k: nat)
    requires s != [] && k < |s|
    ensures s[..1 + k] == [s[0]] + s[1..][..k]
  {
  }

  lemma CutAfter(e: bytes, rest: bytes, p: bytes)
    requires p <= e + rest && |e| <= |p|
    ensures p == e + p[|e|..] && p[|e|..] <= rest
  {
    assert p == (e + rest)[..|p|];
    assert p[..|e|] == e;
    assert p[|e|..] == rest[..|p| - |e|];
  }

  /** A stream cut anywhere yields its complete frames and nothing else. */
  lemma {:induction false} DecodeCutStream(fs: seq<Frame>, p: bytes)
    requires AllFit(fs)
    requires p <= EncodeAll(fs)
    ensures Decode(p) == fs[..Complete(fs, |p|)]
  {
    if fs == [] {
    } else {
      var first, more := fs[0], fs[1..];
      var e := Encode(first);
      if |p| < |e| {
        CutWithin(e, EncodeAll(more), p);
        PartialFrameIsShort(first, p);
      } else {
        var q := p[|e|..];
        CutAfter(e, EncodeAll(more), p);
        calc {
          Decode(p);
          Decode(e + q);
          { DecodeStep(first, q); }
          [first] + Decode(q);
          { DecodeCutStream(more, q); }
          [first] + more[..Complete(more, |q|)];
          { TakeMore(fs, Complete(more, |q|)); }
          fs[..1 + Complete(more, |q|)];
        }
      }
    }
  }

  lemma {:induction false} EncodeAllConcat(a: seq<Frame>, b: seq<Frame>)
    ensures EncodeAll(a + b) == EncodeAll(a) + EncodeAll(b)
  {
    if a == [] {
      assert a + b == b;
    } else {
      EncodeAllConcat(a[1..], b);
      assert (a + b)[1..] == a[1..] + b;
      Reassociate(Encode(a[0]), EncodeAll(a[1..]), EncodeAll(b));
    }
  }
}
