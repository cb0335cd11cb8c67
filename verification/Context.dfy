/**
 What a handler works with (core/context.go): the request, the session it came in on, and the
 ways to answer it and to dispatch to other users.
*/
module Contexts {
  import opened Endian
  import opened Locations
  import opened SessionStore
  import opened Packets

  /** A call of Dispatcher.Push and whether it succeeded. */
  datatype Pushed = Pushed(gateway: bytes, channels: seq<bytes>, packet: Packet, ok: bool)

  class Dispatcher {
    var pushes: seq<Pushed>

    constructor ()
      ensures pushes == []
    {
      pushes := [];
    }

    method Push(gateway: bytes, channels: seq<bytes>, p: Packet) returns (ok: bool)
      modifies this
      ensures pushes == old(pushes) + [Pushed(gateway, channels, p, ok)]
    {
      ok := *;
      pushes := pushes + [Pushed(gateway, channels, p, ok)];
    }
  }

  /** A registered handler, known by a number; the zero handler stands for nil. */
  type HandleFunc = nat
  const NIL_HANDLER: HandleFunc := 0

  /** The session made up for a request that came without one. */
  function AutoGenerated(p: Packet): Session
    requires p.destServer.Some?
  {
    Session([], p.channelId, p.destServer.value, [])
  }

  function ResponseTo(request: Packet, status: Status, body: Body): Packet {
    NewFrom(request).(status := status, body := body, flag := Flag.Response)
  }

  class Context {
    var dispatcher: Dispatcher?
    var storage: RedisStorage?
    var handlers: seq<HandleFunc>
    var index: nat
    var request: Option<Packet>
    var session: Option<Session>

    constructor ()
      ensures dispatcher == null && storage == null && handlers == [] && index == 0
      ensures request == None && session == None
    {
      dispatcher, storage, handlers, index, request, session := null, null, [], 0, None, None;
    }

    /** The dispatcher and the storage stay; Serve overwrites them. */
    method Reset()
      modifies this
      ensures handlers == [] && index == 0 && request == None && session == None
      ensures dispatcher == old(dispatcher) && storage == old(storage)
    {
      request, index, handlers, session := None, 0, [], None;
    }

    /** Runs the next handler, if there is one and it is not nil; says which one ran. */
    method Next() returns (ran: Option<HandleFunc>)
      modifies this`index
      ensures index == old(index) + if old(index) < |handlers| then 1 else 0
      ensures ran == if old(index) < |handlers| && handlers[old(index)] != NIL_HANDLER
                     then Some(handlers[old(index)]) else None
    {
      if index >= |handlers| {
        return None;
      }
      var f := handlers[index];
      index := index + 1;
      ran := if f == NIL_HANDLER then None else Some(f);
    }

    /** A request without a session must name the gateway it came from. */
    ghost predicate CanAnswer()
      reads this
    {
      request.Some? && (session.Some? || request.value.destServer.Some?)
    }

    ghost function Current(): Session
      requires CanAnswer()
      reads this
    {
      if session.Some? then session.value else AutoGenerated(request.value)
    }

    method GetSession() returns (s: Session)
      requires CanAnswer()
      modifies this`session
      ensures s == old(Current()) && session == Some(s) && CanAnswer()
    {
      if session == None {
        session := Some(AutoGenerated(request.value));
      }
      s := session.value;
    }

    /**
     An answer goes to the session's gateway, for the session's channel alone: the request's command and channel,
     marked as a response, with the status and body given.
    */
    method Resp(status: Status, body: Body) returns (ok: bool)
      requires CanAnswer() && dispatcher != null
      modifies this`session, dispatcher
      ensures CanAnswer() && Current() == old(Current()) && session.Some?
      ensures dispatcher.pushes == old(dispatcher.pushes) +
        [Pushed(old(Current()).gateId, [old(Current()).channelId],
                Packet(request.value.command, request.value.channelId, Flag.Response, status, body, None, None), ok)]
    {
      var s := GetSession();
      ok := dispatcher.Push(s.gateId, [s.channelId], ResponseTo(request.value, status, body));
    }

    method GroupByGateway(recvs: seq<Location>) returns (group: map<bytes, seq<bytes>>)
      requires CanAnswer()
      modifies this`session
      ensures CanAnswer() && Current() == old(Current())
      ensures Grouped(group, recvs, Current().channelId)
    {
      ghost var own := Current().channelId;
      group := map[];
      for i := 0 to |recvs|
        invariant CanAnswer() && Current() == old(Current())
        invariant Grouped(group, recvs[..i], own)
      {
        var s := GetSession();
        assert recvs[..i + 1] == recvs[..i] + [recvs[i]];
        GroupStep(recvs[..i], recvs[i], own);
        if recvs[i].channelId == s.channelId {
          continue;
        }
        if recvs[i].gateId !in group {
          group := group[recvs[i].gateId := []];
        }
        group := group[recvs[i].gateId := group[recvs[i].gateId] + [recvs[i].channelId]];
      }
      assert recvs[..|recvs|] == recvs;
    }

    /** One push for each group, in any order, until one fails. */
    method PushGroups(group: map<bytes, seq<bytes>>, packet: Packet) returns (ok: bool, ghost more: seq<Pushed>)
      requires dispatcher != null
      modifies dispatcher
      ensures dispatcher.pushes == old(dispatcher.pushes) + more
      ensures PushedGroups(more, group, packet) && UntilFailure(more, ok)
      ensures ok ==> forall g | g in group :: PushedTo(more, g)
    {
      var todo := group.Keys;
      ok, more := true, [];
      while todo != {} && ok
        invariant dispatcher.pushes == old(dispatcher.pushes) + more && todo <= group.Keys
        invariant PushedGroups(more, group, packet) && UntilFailure(more, ok)
        invariant forall p | p in more :: p.gateway !in todo
        invariant forall g | g in group && g !in todo :: PushedTo(more, g)
        decreases |todo|
      {
        var gateway :| gateway in todo;
        ok := dispatcher.Push(gateway, group[gateway], packet);
        ghost var was := more;
        more := more + [Pushed(gateway, group[gateway], packet, ok)];
        PushedToMore(was, more[|was|]);
        todo := todo - {gateway};
      }
    }

    /**
     Pushes to every receiver but the sender's own channel, once per gateway, in some order of the gateways,
     and stops at the first push that fails.
    */
    method Dispatch(body: Body, recvs: seq<Location>) returns (ok: bool, ghost more: seq<Pushed>)
      requires CanAnswer() && dispatcher != null
      modifies this`session, dispatcher
      ensures CanAnswer() && Current() == old(Current())
      ensures dispatcher.pushes == old(dispatcher.pushes) + more
      ensures WholeGroups(more, recvs, Current().channelId) && UntilFailure(more, ok)
      ensures forall p | p in more ::
        p.packet == Packet(request.value.command, request.value.channelId, Flag.Push, Success, body, None, None)
      ensures ok ==> multiset(Targets(more)) == multiset(Receivers(recvs, Current().channelId))
      ensures !ok ==> more != [] && multiset(Targets(more)) <= multiset(Receivers(recvs, Current().channelId))
    {
      ghost var own := Current().channelId;
      if |recvs| == 0 {
        more := [];
        return true, more;
      }
      var packet := NewFrom(request.value).(flag := Flag.Push, body := body);
      var group := GroupByGateway(recvs);
      ok, more := PushGroups(group, packet);
      GroupsAreWhole(more, group, packet, recvs, own);
      TargetsAreReceivers(more, recvs, own);
      if ok {
        forall r | r in Receivers(recvs, own) ensures PushedTo(more, r.gateId) {
          ReceiverHasGroup(recvs, own, r);
        }
      }
    }
  }

  // ----- what Dispatch is proved against

  /** The channels of gateway g among the receivers, without the sender's own, in receiver order. */
  function ChannelsAt(recvs: seq<Location>, own: bytes, g: bytes): seq<bytes> {
    if recvs == [] then []
    else
      var r := recvs[|recvs| - 1];
      ChannelsAt(recvs[..|recvs| - 1], own, g) + if r.gateId == g && r.channelId != own then [r.channelId] else []
  }

  /** The receivers without the sender's own channel. */
  function Receivers(recvs: seq<Location>, own: bytes): seq<Location> {
    if recvs == [] then []
    else
      var r := recvs[|recvs| - 1];
      Receivers(recvs[..|recvs| - 1], own) + if r.channelId != own then [r] else []
  }

  function AtGateway(channels: seq<bytes>, g: bytes): seq<Location> {
    if channels == [] then []
    else AtGateway(channels[..|channels| - 1], g) + [Location(channels[|channels| - 1], g)]
  }

  /** Whom a list of pushes addresses. */
  function Targets(pushes: seq<Pushed>): seq<Location> {
    if pushes == [] then []
    else Targets(pushes[..|pushes| - 1]) +
         AtGateway(pushes[|pushes| - 1].channels, pushes[|pushes| - 1].gateway)
  }

  ghost predicate DistinctGateways(pushes: seq<Pushed>) {
    forall i, j | 0 <= i < j < |pushes| :: pushes[i].gateway != pushes[j].gateway
  }

  /** No gateway is pushed to twice, and each push has all of its gateway's receivers, at least one. */
  ghost predicate WholeGroups(pushes: seq<Pushed>, recvs: seq<Location>, own: bytes) {
    && DistinctGateways(pushes)
    && forall p | p in pushes :: p.channels == ChannelsAt(recvs, own, p.gateway) && p.channels != []
  }

  ghost predicate Grouped(group: map<bytes, seq<bytes>>, recvs: seq<Location>, own: bytes) {
    forall g :: (g in group <==> ChannelsAt(recvs, own, g) != [])
      && (g in group ==> group[g] == ChannelsAt(recvs, own, g))
  }

  ghost predicate PushedTo(pushes: seq<Pushed>, gateway: bytes) {
    exists p :: p in pushes && p.gateway == gateway
  }

  lemma PushedToMore(pushes: seq<Pushed>, last: Pushed)
    ensures forall g :: PushedTo(pushes + [last], g) <==> PushedTo(pushes, g) || g == last.gateway
  {
    var more := pushes + [last];
    assert forall p :: p in more <==> p in pushes || p == last;
    forall g ensures PushedTo(more, g) <==> PushedTo(pushes, g) || g == last.gateway {
      if PushedTo(pushes, g) {
        var p :| p in pushes && p.gateway == g;
        assert p in more;
      }
      if g == last.gateway {
        assert last in more;
      }
    }
  }

  ghost predicate PushedGroups(pushes: seq<Pushed>, group: map<bytes, seq<bytes>>, packet: Packet) {
    && DistinctGateways(pushes)
    && forall p | p in pushes :: p.gateway in group && p.channels == group[p.gateway] && p.packet == packet
  }

  /** All pushes succeeded, but for the last one when the whole failed. */
  ghost predicate UntilFailure(pushes: seq<Pushed>, ok: bool) {
    && (forall i | 0 <= i < |pushes| - 1 :: pushes[i].ok)
    && (if pushes == [] then ok else pushes[|pushes| - 1].ok == ok)
  }

  lemma GroupStep(recvs: seq<Location>, r: Location, own: bytes)
    ensures forall g | r.gateId == g && r.channelId != own ::
      ChannelsAt(recvs + [r], own, g) == ChannelsAt(recvs, own, g) + [r.channelId]
    ensures forall g | r.gateId != g || r.channelId == own ::
      ChannelsAt(recvs + [r], own, g) == ChannelsAt(recvs, own, g)
  {
    assert (recvs + [r])[..|recvs|] == recvs;
  }

  lemma GroupsAreWhole(
    pushes: seq<Pushed>, group: map<bytes, seq<bytes>>, packet: Packet, recvs: seq<Location>, own: bytes)
    requires Grouped(group, recvs, own) && PushedGroups(pushes, group, packet)
    ensures WholeGroups(pushes, recvs, own)
  {
  }

  lemma {:induction false} ReceiverHasGroup(recvs: seq<Location>, own: bytes, r: Location)
    requires r in Receivers(recvs, own)
    ensures ChannelsAt(recvs, own, r.gateId) != []
  {
    var init, last := recvs[..|recvs| - 1], recvs[|recvs| - 1];
    if last != r || last.channelId == own {
      ReceiverHasGroup(init, own, r);
    }
  }

  lemma {:induction false} CountAtGateway(channels: seq<bytes>, g: bytes, r: Location)
    ensures multiset(AtGateway(channels, g))[r] == if r.gateId == g then multiset(channels)[r.channelId] else 0
  {
    if channels == [] {
    } else {
      var init, last := channels[..|channels| - 1], channels[|channels| - 1];
      CountAtGateway(init, g, r);
      assert channels == init + [last];
    }
  }

  lemma {:induction false} CountReceivers(recvs: seq<Location>, own: bytes, r: Location)
    ensures multiset(Receivers(recvs, own))[r] == multiset(ChannelsAt(recvs, own, r.gateId))[r.channelId]
  {
    if recvs == [] {
    } else {
      CountReceivers(recvs[..|recvs| - 1], own, r);
    }
  }

  lemma {:induction false} CountTargets(pushes: seq<Pushed>, recvs: seq<Location>, own: bytes, r: Location)
    requires WholeGroups(pushes, recvs, own)
    ensures multiset(Targets(pushes))[r] ==
      if PushedTo(pushes, r.gateId) then multiset(Receivers(recvs, own))[r] else 0
  {
    if pushes == [] {
    } else {
      var init, last := pushes[..|pushes| - 1], pushes[|pushes| - 1];
      assert pushes == init + [last];
      CountTargets(init, recvs, own, r);
      CountAtGateway(last.channels, last.gateway, r);
      CountReceivers(recvs, own, r);
      assert last in pushes;
    }
  }

  /** Nobody is addressed more often than listed; everybody exactly as often once all gateways have been pushed to. */
  lemma TargetsAreReceivers(pushes: seq<Pushed>, recvs: seq<Location>, own: bytes)
    requires WholeGroups(pushes, recvs, own)
    ensures multiset(Targets(pushes)) <= multiset(Receivers(recvs, own))
    ensures (forall r | r in Receivers(recvs, own) :: PushedTo(pushes, r.gateId))
      <==> multiset(Targets(pushes)) == multiset(Receivers(recvs, own))
  {
    forall r ensures multiset(Targets(pushes))[r] <= multiset(Receivers(recvs, own))[r] {
      CountTargets(pushes, recvs, own, r);
    }
    if forall r | r in Receivers(recvs, own) :: PushedTo(pushes, r.gateId) {
      forall r ensures multiset(Targets(pushes))[r] == multiset(Receivers(recvs, own))[r] {
        CountTargets(pushes, recvs, own, r);
        assert r in Receivers(recvs, own) || multiset(Receivers(recvs, own))[r] == 0;
      }
    }
    if multiset(Targets(pushes)) == multiset(Receivers(recvs, own)) {
      forall r | r in Receivers(recvs, own) ensures PushedTo(pushes, r.gateId) {
        CountTargets(pushes, recvs, own, r);
        assert r in multiset(Receivers(recvs, own));
      }
    }
  }
}
