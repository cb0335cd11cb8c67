/**
 The way down: a logic server pushes a packet for some channels of a gateway
 (services/server/serv/handler.go, container/container.go), and the gateway hands it to each.
*/
module Downlink {
  import opened Endian
  import opened Packets
  import opened TcpFrame

  /** What leaves the server for gateway `server`: ServerDispatcher.Push and then container.Push. */
  function Addressed(p: Packet, server: bytes, channels: seq<bytes>): Packet {
    p.(destChannels := Some(Join(channels)), destServer := Some(server))
  }

  /** What reaches the users: the packet without its routing metas. */
  function Stripped(p: Packet): Packet {
    p.(destServer := None, destChannels := None)
  }

  datatype Delivery = Delivery(channelId: bytes, packet: Packet)

  /** The deliveries a gateway attempts for a packet: none unless the packet names it and some channels. */
  function Deliveries(gateway: bytes, p: Packet): seq<Delivery> {
    if p.destServer != Some(gateway) || p.destChannels.None? then []
    else ToEach(Split(p.destChannels.value), Stripped(p))
  }

  function ToEach(ids: seq<bytes>, p: Packet): (ds: seq<Delivery>)
    ensures |ds| == |ids|
    ensures forall i | 0 <= i < |ids| :: ds[i] == Delivery(ids[i], p)
  {
    if ids == [] then [] else [Delivery(ids[0], p)] + ToEach(ids[1..], p)
  }

  class Gateway {
    const serviceId: bytes
    var attempts: seq<Delivery>  // Srv.Push calls made, whether or not they succeeded

    constructor (serviceId: bytes)
      ensures this.serviceId == serviceId && attempts == []
    {
      this.serviceId, attempts := serviceId, [];
    }

    method SrvPush(channelId: bytes, p: Packet) returns (ok: bool)
      modifies this
      ensures attempts == old(attempts) + [Delivery(channelId, p)]
    {
      attempts := attempts + [Delivery(channelId, p)];
      ok := *;
    }

    /**
     A channel that cannot be pushed to does not stop the others. Each gets the packet as it is, but for the two
     routing metas.
    */
    method PushMessage(p: Packet) returns (ok: bool)
      modifies this
      ensures ok <==> p.destServer == Some(serviceId) && p.destChannels.Some?
      ensures attempts == old(attempts) + Deliveries(serviceId, p)
      ensures !ok ==> attempts == old(attempts)
      ensures ok ==> |attempts| == |old(attempts)| + |Split(p.destChannels.value)|
      ensures ok ==> forall i | 0 <= i < |Split(p.destChannels.value)| ::
        attempts[|old(attempts)| + i] == Delivery(
          Split(p.destChannels.value)[i], Packet(p.command, p.channelId, p.flag, p.status, p.body, None, None))
    {
      if p.destServer != Some(serviceId) {
        assert attempts + [] == attempts;
        return false;
      }
      if p.destChannels.None? {
        assert attempts + [] == attempts;
        return false;
      }
      var channelIds := Split(p.destChannels.value);
      var payload := Stripped(p);
      ghost var all := ToEach(channelIds, payload);
      for i := 0 to |channelIds|
        invariant attempts == old(attempts) + all[..i]
      {
        var _ := SrvPush(channelIds[i], payload);
        assert all[..i + 1] == all[..i] + [all[i]];
      }
      assert all[..|channelIds|] == all;
      ok := true;
    }

    /** One read of a client to a logic server; a close frame counts as an error. */
    method NextFrame(conn: Stream) returns (r: Option<Frame>)
      modifies conn
      ensures r == None ==> Decode(old(conn.Rest())) == [] || Decode(old(conn.Rest()))[0].opcode == OP_CLOSE
      ensures r != None ==> r.value.opcode != OP_CLOSE && Decode(old(conn.Rest())) == [r.value] + Decode(conn.Rest())
    {
      r := ReadFrame(conn);
      if r != None && r.value.opcode == OP_CLOSE {
        r := None;
      }
    }

    /** Reads frames until an error, and hands on the packets in the binary ones. */
    method Readloop(conn: Stream, parse: bytes -> Option<Packet>)
      modifies this, conn
      ensures attempts == old(attempts) + FromFrames(serviceId, Decode(old(conn.Rest())), parse)
    {
      ghost var todo := Decode(conn.Rest());
      ghost var done: seq<Delivery> := [];
      ghost var all := FromFrames(serviceId, todo, parse);
      while true
        invariant todo == Decode(conn.Rest())
        invariant attempts == old(attempts) + done && done + FromFrames(serviceId, todo, parse) == all
        decreases |todo|
      {
        var frame := NextFrame(conn);
        if frame == None {
          assert done + [] == done;
          return;
        }
        FrameInFront(serviceId, frame.value, Decode(conn.Rest()), parse);
        todo := Decode(conn.Rest());
        if frame.value.opcode != OP_BINARY {
          continue;
        }
        var packet := parse(frame.value.payload);
        if packet == None {
          continue;
        }
        var _ := PushMessage(packet.value);
        Reassociate(done, Deliveries(serviceId, packet.value), FromFrames(serviceId, todo, parse));
        Reassociate(old(attempts), done, Deliveries(serviceId, packet.value));
        done := done + Deliveries(serviceId, packet.value);
      }
    }
  }

  /** The deliveries a gateway attempts for the frames on one of its clients' connections. */
  function FromFrames(gateway: bytes, fs: seq<Frame>, parse: bytes -> Option<Packet>): seq<Delivery> {
    if fs == [] || fs[0].opcode == OP_CLOSE then []
    else if fs[0].opcode == OP_BINARY && parse(fs[0].payload).Some?
    then Deliveries(gateway, parse(fs[0].payload).value) + FromFrames(gateway, fs[1..], parse)
    else FromFrames(gateway, fs[1..], parse)
  }

  lemma FrameInFront(gateway: bytes, f: Frame, fs: seq<Frame>, parse: bytes -> Option<Packet>)
    requires f.opcode != OP_CLOSE
    ensures FromFrames(gateway, [f] + fs, parse) ==
      if f.opcode == OP_BINARY && parse(f.payload).Some?
      then Deliveries(gateway, parse(f.payload).value) + FromFrames(gateway, fs, parse)
      else FromFrames(gateway, fs, parse)
  {
    assert ([f] + fs)[1..] == fs;
  }

  /** A push on its way to a gateway. */
  datatype Outgoing = Outgoing(packet: Packet, channels: seq<bytes>)

  function Frames(server: bytes, out: seq<Outgoing>, marshal: Packet -> bytes): seq<Frame> {
    if out == [] then []
    else
      var p := Addressed(out[0].packet, server, out[0].channels);
      [Frame(OP_BINARY, marshal(p))] + Frames(server, out[1..], marshal)
  }

  function Expected(out: seq<Outgoing>): seq<Delivery> {
    if out == [] then [] else ToEach(out[0].channels, Stripped(out[0].packet)) + Expected(out[1..])
  }

  lemma {:induction false} FramesCarryPushes(
    server: bytes, out: seq<Outgoing>, marshal: Packet -> bytes, parse: bytes -> Option<Packet>)
    requires forall p :: parse(marshal(p)) == Some(p)
    requires forall o | o in out :: o.channels != [] && forall c | c in o.channels :: COMMA !in c
    ensures FromFrames(server, Frames(server, out, marshal), parse) == Expected(out)
  {
    if out == [] {
    } else {
      var f := Frame(OP_BINARY, marshal(Addressed(out[0].packet, server, out[0].channels)));
      FramesCarryPushes(server, out[1..], marshal, parse);
      FrameInFront(server, f, Frames(server, out[1..], marshal), parse);
      PushReachesItsChannels(out[0].packet, server, out[0].channels, server);
    }
  }

  /**
   Over raw bytes: what a server pushed to a gateway, delivered in any pieces, makes the gateway attempt every
   channel of every push, in order, when marshalling can be undone and each packet fits a frame.
  */
  method DeliverAll(
    gateway: Gateway, out: seq<Outgoing>, marshal: Packet -> bytes, parse: bytes -> Option<Packet>, chunks: seq<bytes>)
    requires forall p :: parse(marshal(p)) == Some(p)
    requires forall o | o in out :: o.channels != [] && forall c | c in o.channels :: COMMA !in c
    requires AllFit(Frames(gateway.serviceId, out, marshal))
    requires Flatten(chunks) == EncodeAll(Frames(gateway.serviceId, out, marshal))
    modifies gateway
    ensures gateway.attempts == old(gateway.attempts) + Expected(out)
  {
    ghost var fs := Frames(gateway.serviceId, out, marshal);
    var conn := new Stream(chunks);
    DecodeStream(fs, []);
    assert EncodeAll(fs) + [] == EncodeAll(fs) && fs + Decode([]) == fs;
    FramesCarryPushes(gateway.serviceId, out, marshal, parse);
    gateway.Readloop(conn, parse);
  }

  /** One Push for a non-empty list of comma-free channels reaches exactly those channels of that gateway, in order. */
  lemma PushReachesItsChannels(p: Packet, server: bytes, channels: seq<bytes>, gateway: bytes)
    ensures gateway != server ==> Deliveries(gateway, Addressed(p, server, channels)) == []
    ensures Deliveries(server, Addressed(p, server, channels)) == ToEach(channels, Stripped(p)) <==>
      channels != [] && forall c | c in channels :: COMMA !in c
    ensures forall d | d in Deliveries(server, Addressed(p, server, channels)) ::
      d.packet == Packet(p.command, p.channelId, p.flag, p.status, p.body, None, None)
  {
    SplitOfJoinIff(channels);
    var got := Split(Join(channels));
    var ds := Deliveries(server, Addressed(p, server, channels));
    assert Stripped(Addressed(p, server, channels)) == Stripped(p);
    assert ds == ToEach(got, Stripped(p));
    forall d | d in ds ensures d.packet == Stripped(p) {
      var i :| 0 <= i < |ds| && ds[i] == d;
    }
    if ds == ToEach(channels, Stripped(p)) {
      assert |got| == |channels|;
      forall i | 0 <= i < |got| ensures got[i] == channels[i] {
        assert ds[i] == Delivery(got[i], Stripped(p)) == Delivery(channels[i], Stripped(p));
      }
      assert got == channels;
    }
  }
}
