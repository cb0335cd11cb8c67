/**
 A user or service connection after its handshake (core/channel.go): the read loop, Push and Close.
*/
module Channels {
  import opened Endian
  import opened TcpFrame

  /** The frames before the first close frame. */
  function BeforeClose(fs: seq<Frame>): seq<Frame> {
    if fs == [] || fs[0].opcode == OP_CLOSE then [] else [fs[0]] + BeforeClose(fs[1..])
  }

  function Pings(fs: seq<Frame>): nat {
    if fs == [] then 0 else (if fs[0].opcode == OP_PING then 1 else 0) + Pings(fs[1..])
  }

  /** The payloads handed to the listener. */
  function Messages(fs: seq<Frame>): seq<bytes> {
    if fs == [] then []
    else (if fs[0].opcode != OP_PING && fs[0].payload != [] then [fs[0].payload] else []) + Messages(fs[1..])
  }

  function Repeat(f: Frame, n: nat): (fs: seq<Frame>)
    ensures |fs| == n && forall g | g in fs :: g == f
  {
    if n == 0 then [] else Repeat(f, n - 1) + [f]
  }

  const PONG := Frame(OP_PONG, [])

  /** What attempts to write pongs have put out: a pong each, or a part of one where the writer is not reliable. */
  predicate ArePongs(parts: seq<bytes>, reliable: bool) {
    forall p | p in parts :: p <= Encode(PONG) && (reliable ==> p == Encode(PONG))
  }

  lemma {:induction false} FlattenAppend(parts: seq<bytes>, p: bytes)
    ensures Flatten(parts + [p]) == Flatten(parts) + p
  {
    if parts == [] {
      assert [p][1..] == [] && p + [] == p;
    } else {
      FlattenAppend(parts[1..], p);
      assert (parts + [p])[1..] == parts[1..] + [p];
      Reassociate(parts[0], Flatten(parts[1..]), p);
    }
  }

  /** On a reliable writer the parts are whole pongs. */
  lemma {:induction false} ReliablePongs(parts: seq<bytes>)
    requires ArePongs(parts, true)
    ensures Flatten(parts) == EncodeAll(Repeat(PONG, |parts|))
  {
    if parts == [] {
    } else {
      var init, last := parts[..|parts| - 1], parts[|parts| - 1];
      assert parts == init + [last] && last in parts;
      assert forall p | p in init :: p in parts;
      ReliablePongs(init);
      FlattenAppend(init, last);
      EncodeAllConcat(Repeat(PONG, |init|), [PONG]);
      assert [PONG][1..] == [] && Encode(PONG) + [] == Encode(PONG);
    }
  }

  class Channel {
    const conn: Stream
    const out: Writer
    var pongs: nat            // pong writes attempted
    var received: seq<bytes>  // payloads handed to MessageListener.Receive, in launch order
    var closed: bool
    var fired: nat            // how often Close ran its body

    constructor (conn: Stream, out: Writer)
      ensures this.conn == conn && this.out == out
      ensures pongs == 0 && received == [] && !closed && fired == 0
    {
      this.conn, this.out := conn, out;
      pongs, received, closed, fired := 0, [], false, 0;
    }

    method NextFrame() returns (r: Option<Frame>)
      modifies conn
      ensures r == None ==> Decode(old(conn.Rest())) == [] && conn.Rest() == []
      ensures r != None ==> Decode(old(conn.Rest())) == [r.value] + Decode(conn.Rest())
    {
      ghost var now := conn.Rest();
      r := ReadFrame(conn);
      if r != None {
        ReadOne(now, r.value, conn.Rest());
      }
    }

    /** What is done with one frame that is not a close frame; `part` is what a pong puts out. */
    method Handle(f: Frame) returns (ghost part: bytes)
      requires f.opcode != OP_CLOSE
      modifies this`pongs, this`received, out
      ensures received == old(received) + Heard(f)
      ensures pongs == old(pongs) + if f.opcode == OP_PING then 1 else 0
      ensures out.out == old(out.out) + part
      ensures if f.opcode == OP_PING then ArePongs([part], out.reliable) else part == []
    {
      part := [];
      if f.opcode == OP_PING {
        var _ := WriteFrame(out, OP_PONG, []);
        pongs := pongs + 1;
        part := out.out[|old(out.out)|..];
        return;
      }
      var payload := f.payload;
      if |payload| == 0 {
        return;
      }
      received := received + [payload];
    }

    /**
     Runs until a close frame or a failed read. The listener gets every non-empty payload that is not a
     ping's, in order; every ping is answered by a pong, and nothing else is written; a close frame's own
     payload is dropped.
    */
    method Readloop() returns (remoteClosed: bool, ghost parts: seq<bytes>)
      modifies this, conn, out
      ensures received == old(received) + Messages(BeforeClose(Decode(old(conn.Rest()))))
      ensures pongs == old(pongs) + Pings(BeforeClose(Decode(old(conn.Rest()))))
      ensures out.out == old(out.out) + Flatten(parts) && ArePongs(parts, out.reliable)
      ensures |parts| == Pings(BeforeClose(Decode(old(conn.Rest()))))
      ensures remoteClosed <==> BeforeClose(Decode(old(conn.Rest()))) != Decode(old(conn.Rest()))
      ensures !remoteClosed ==> conn.Rest() == []
      ensures closed == old(closed) && fired == old(fired)
    {
      ghost var all := Decode(conn.Rest());
      ghost var todo := all;
      parts := [];
      while true
        invariant todo == Decode(conn.Rest())
        invariant received + Messages(BeforeClose(todo)) == old(received) + Messages(BeforeClose(all))
        invariant pongs == old(pongs) + |parts| && |parts| + Pings(BeforeClose(todo)) == Pings(BeforeClose(all))
        invariant out.out == old(out.out) + Flatten(parts) && ArePongs(parts, out.reliable)
        invariant BeforeClose(todo) != todo <==> BeforeClose(all) != all
        invariant closed == old(closed) && fired == old(fired)
        decreases |todo|
      {
        var frame := NextFrame();
        if frame == None {
          return false, parts;
        }
        var f := frame.value;
        todo := Decode(conn.Rest());
        if f.opcode == OP_CLOSE {
          return true, parts;
        }
        FrameInFront(f, todo);
        Reassociate(received, Heard(f), Messages(BeforeClose(todo)));
        ghost var part := Handle(f);
        Reassociate(old(out.out), Flatten(parts), part);
        if f.opcode == OP_PING {
          FlattenAppend(parts, part);
          parts := parts + [part];
        }
      }
    }

    /** An empty payload is not written, and that is no error. */
    method Push(payload: bytes) returns (ok: bool)
      modifies out
      ensures payload == [] ==> ok && out.out == old(out.out)
      ensures out.reliable ==> ok
      ensures ok && payload != [] ==> out.out == old(out.out) + Encode(Frame(OP_BINARY, payload))
      ensures old(out.out) <= out.out <= old(out.out) + Encode(Frame(OP_BINARY, payload))
    {
      if |payload| == 0 {
        return true;
      }
      ok := WriteFrame(out, OP_BINARY, payload);
    }

    method Close()
      modifies this
      ensures closed && fired == old(fired) + if old(closed) then 0 else 1
      ensures received == old(received) && pongs == old(pongs)
    {
      if !closed {
        closed := true;
        fired := fired + 1;
      }
    }
  }

  lemma {:induction false} BeforeCloseIsCut(fs: seq<Frame>)
    ensures BeforeClose(fs) <= fs
    ensures forall f | f in BeforeClose(fs) :: f.opcode != OP_CLOSE
    ensures BeforeClose(fs) != fs ==> fs[|BeforeClose(fs)|].opcode == OP_CLOSE
  {
    if fs != [] && fs[0].opcode != OP_CLOSE {
      BeforeCloseIsCut(fs[1..]);
      assert fs == [fs[0]] + fs[1..];
    }
  }

  lemma ReadOne(b: bytes, f: Frame, rest: bytes)
    requires ParseFrame(b) == Got(f, rest)
    ensures Decode(b) == [f] + Decode(rest)
  {
  }

  /** The payload a frame hands to the listener, if it does. */
  function Heard(f: Frame): seq<bytes> {
    if f.opcode != OP_PING && f.payload != [] then [f.payload] else []
  }

  /** What one more frame in front adds. */
  lemma FrameInFront(f: Frame, fs: seq<Frame>)
    requires f.opcode != OP_CLOSE
    ensures Pings(BeforeClose([f] + fs)) == (if f.opcode == OP_PING then 1 else 0) + Pings(BeforeClose(fs))
    ensures Messages(BeforeClose([f] + fs)) == Heard(f) + Messages(BeforeClose(fs))
    ensures BeforeClose([f] + fs) == [f] + fs <==> BeforeClose(fs) == fs
  {
    assert ([f] + fs)[1..] == fs;
    assert ([f] + BeforeClose(fs))[1..] == BeforeClose(fs);
  }

  /**
   End to end: what the peer's WriteFrames sent, cut off anywhere and delivered in any pieces, reaches the
   listener as the messages of the frames that arrived whole.
  */
  method ReceiveAll(fs: seq<Frame>, arrived: bytes, chunks: seq<bytes>, out: Writer)
    returns (received: seq<bytes>, pongs: nat, ghost parts: seq<bytes>)
    requires AllFit(fs)
    requires arrived <= EncodeAll(fs) && Flatten(chunks) == arrived
    modifies out
    ensures received == Messages(BeforeClose(fs[..Complete(fs, |arrived|)]))
    ensures pongs == Pings(BeforeClose(fs[..Complete(fs, |arrived|)]))
    ensures out.out == old(out.out) + Flatten(parts) && ArePongs(parts, out.reliable) && |parts| == pongs
    ensures out.reliable ==> out.out == old(out.out) + EncodeAll(Repeat(PONG, pongs))
  {
    var conn := new Stream(chunks);
    var ch := new Channel(conn, out);
    DecodeCutStream(fs, arrived);
    var _, sent := ch.Readloop();
    received, pongs, parts := ch.received, ch.pongs, sent;
    if out.reliable {
      ReliablePongs(parts);
    }
  }
}
