/**
 The login handlers (services/server/handler/login_handler.go), the server's message listener
 (services/server/serv/handler.go) and the gateway's handler (services/gateway/serv/handler.go).
*/
module Handlers {
  import opened Endian
  import opened Locations
  import opened SessionStore
  import opened Packets
  import opened Contexts
  import opened ChannelIds
  import Routers

  /** The push that answers a request on session s. */
  function AnswerOn(s: Session, request: Packet, status: Status, body: Body, delivered: bool): Pushed {
    Pushed(s.gateId, [s.channelId],
           Packet(request.command, request.channelId, Flag.Response, status, body, None, None), delivered)
  }

  /** The push that tells a former login to go, unless that is the sender's own channel. */
  function KickoutPush(request: Packet, former: Location, own: bytes, delivered: bool): seq<Pushed> {
    if former.channelId == own then []
    else [Pushed(former.gateId, [former.channelId],
                 Packet(request.command, request.channelId, Flag.Push, Success, Kickout(former.channelId), None, None),
                 delivered)]
  }

  lemma {:induction false} SingleReceiver(pushes: seq<Pushed>, r: Location, own: bytes)
    requires WholeGroups(pushes, [r], own)
    ensures forall p | p in pushes :: p.gateway == r.gateId && p.channels == [r.channelId] && r.channelId != own
    ensures |pushes| <= 1
    ensures pushes == [] ==> (multiset(Targets(pushes)) == multiset(Receivers([r], own)) <==> r.channelId == own)
  {
    assert [r][..0] == [];
    forall p | p in pushes ensures p.gateway == r.gateId && p.channels == [r.channelId] && r.channelId != own {
      assert ChannelsAt([], own, p.gateway) == [];
      assert ChannelsAt([r], own, p.gateway) ==
        if r.gateId == p.gateway && r.channelId != own then [r.channelId] else [];
    }
    assert |pushes| >= 2 ==> pushes[0].gateway == pushes[1].gateway;
    assert Receivers([r], own) == if r.channelId != own then [r] else [];
    assert r.channelId != own ==> r in multiset(Receivers([r], own));
  }

  /** What dispatching a kickout to one location pushes: the kickout, or nothing when that is the sender's channel. */
  lemma OneKickout(more: seq<Pushed>, former: Location, own: bytes)
    requires WholeGroups(more, [former], own)
    requires more == [] ==> multiset(Targets(more)) == multiset(Receivers([former], own))
    ensures more == [] <==> former.channelId == own
    ensures more != [] ==>
      more == [more[0]] && more[0].gateway == former.gateId && more[0].channels == [former.channelId]
  {
    SingleReceiver(more, former, own);
    if more != [] {
      assert more[0] in more;
      assert more == [more[0]];
    }
  }

  method KickOut(ctx: Context, former: Location) returns (delivered: bool)
    requires ctx.CanAnswer() && ctx.dispatcher != null
    modifies ctx`session, ctx.dispatcher
    ensures ctx.CanAnswer() && ctx.Current() == old(ctx.Current())
    ensures ctx.dispatcher.pushes == old(ctx.dispatcher.pushes) +
      KickoutPush(ctx.request.value, former, ctx.Current().channelId, delivered)
  {
    ghost var more;
    delivered, more := ctx.Dispatch(Kickout(former.channelId), [former]);
    OneKickout(more, former, ctx.Current().channelId);
  }

  datatype LoginOutcome = LoginOutcome(status: Status, kicked: Option<Location>, delivered: bool)

  /** The pushes of a login: the kickout of the location it found, if any, and the answer. */
  function LoginPushes(request: Packet, on: Session, r: LoginOutcome, answered: bool): seq<Pushed> {
    (if r.kicked.Some? then KickoutPush(request, r.kicked.value, on.channelId, r.delivered) else []) +
    [AnswerOn(on, request, r.status,
              if r.status == Success && request.body.LoginBody?
              then LoginResp(request.body.session.channelId) else ErrorResp,
              answered)]
  }

  /**
   Login: the previous location of the account, when it can be read, is told to go, then the store is written,
   location first. Success is answered only when both writes were acknowledged. A sign-in whose body is not a
   session is answered with an error and changes nothing.
  */
  method DoSysLogin(ctx: Context) returns (r: LoginOutcome, answered: bool, ghost reach: Reach)
    requires ctx.CanAnswer() && ctx.dispatcher != null && ctx.storage != null && ctx.storage.Valid()
    modifies ctx`session, ctx.dispatcher, ctx.storage, ctx.storage.cli`data, ctx.storage.cli`errors
    ensures ctx.storage.Valid() && ctx.CanAnswer() && ctx.Current() == old(ctx.Current())
    ensures r.status == InvalidPacketBody <==> !ctx.request.value.body.LoginBody?
    ensures r.status == InvalidPacketBody ==> r.kicked == None && ctx.storage.tables == old(ctx.storage.tables)
    ensures ctx.storage.cli.up ==> r.status != SystemException
    ensures r.status == InvalidPacketBody || r.status == SystemException || (r.status == Success && reach == Both)
    ensures ctx.request.value.body.LoginBody? ==>
      ctx.storage.tables == Added(old(ctx.storage.tables), ctx.request.value.body.session, ctx.storage.cli.now, reach)
    ensures ctx.request.value.body.LoginBody? && (r.status == Success || reach != Neither || r.kicked.Some?) ==>
      r.kicked == Lookup(old(ctx.storage.tables).locs, ctx.request.value.body.session.account, ctx.storage.cli.now)
    ensures ctx.dispatcher.pushes ==
      old(ctx.dispatcher.pushes) + LoginPushes(ctx.request.value, ctx.Current(), r, answered)
    ensures r.status == Success <==>
      ctx.request.value.body.LoginBody? && ctx.storage.cli.errors == old(ctx.storage.cli.errors)
    ensures ctx.dispatcher.pushes != [] &&
      ctx.dispatcher.pushes[|ctx.dispatcher.pushes| - 1].packet.status == r.status
  {
    reach := Neither;
    if !ctx.request.value.body.LoginBody? {
      r := LoginOutcome(InvalidPacketBody, None, false);
      answered := ctx.Resp(InvalidPacketBody, ErrorResp);
      return;
    }
    var session := ctx.request.value.body.session;
    var former := ctx.storage.GetLocation(session.account, []);
    if former == Err {
      r := LoginOutcome(SystemException, None, false);
      answered := ctx.Resp(SystemException, ErrorResp);
      return;
    }
    var kicked, delivered := None, false;
    if former.Ok? {
      kicked := Some(former.value);
      delivered := KickOut(ctx, former.value);
    }
    ghost var before := ctx.dispatcher.pushes;
    var added;
    added, answered, reach := AddAndAnswer(ctx, session);
    r := LoginOutcome(if added then Success else SystemException, kicked, delivered);
    Reassociate(old(ctx.dispatcher.pushes), before[|old(ctx.dispatcher.pushes)|..],
                ctx.dispatcher.pushes[|before|..]);
  }

  /** The second half of a login: the session is stored, and the sender told how that went. */
  method AddAndAnswer(ctx: Context, session: Session) returns (added: bool, answered: bool, ghost reach: Reach)
    requires ctx.CanAnswer() && ctx.dispatcher != null && ctx.storage != null && ctx.storage.Valid()
    modifies ctx`session, ctx.dispatcher, ctx.storage, ctx.storage.cli`data, ctx.storage.cli`errors
    ensures ctx.storage.Valid() && ctx.CanAnswer() && ctx.Current() == old(ctx.Current())
    ensures (added ==> reach == Both) && (ctx.storage.cli.up ==> added)
    ensures added <==> ctx.storage.cli.errors == old(ctx.storage.cli.errors)
    ensures ctx.storage.cli.errors >= old(ctx.storage.cli.errors)
    ensures ctx.storage.tables == Added(old(ctx.storage.tables), session, ctx.storage.cli.now, reach)
    ensures ctx.dispatcher.pushes == old(ctx.dispatcher.pushes) + [
      if added then AnswerOn(ctx.Current(), ctx.request.value, Success, LoginResp(session.channelId), answered)
      else AnswerOn(ctx.Current(), ctx.request.value, SystemException, ErrorResp, answered)]
  {
    added, reach := ctx.storage.Add(session);
    if added {
      answered := ctx.Resp(Success, LoginResp(session.channelId));
    } else {
      answered := ctx.Resp(SystemException, ErrorResp);
    }
  }

  /** Logout: deletes by the session's account and channel, location first. */
  method DoSysLogout(ctx: Context) returns (status: Status, answered: bool, ghost reach: Reach)
    requires ctx.CanAnswer() && ctx.dispatcher != null && ctx.storage != null && ctx.storage.Valid()
    modifies ctx`session, ctx.dispatcher, ctx.storage, ctx.storage.cli`data, ctx.storage.cli`errors
    ensures ctx.storage.Valid() && ctx.CanAnswer() && ctx.Current() == old(ctx.Current())
    ensures status in {Success, SystemException} && (status == Success ==> reach == Both)
    ensures ctx.storage.cli.up ==> status == Success
    ensures ctx.storage.tables ==
      Deleted(old(ctx.storage.tables), ctx.Current().account, ctx.Current().channelId, reach)
    ensures ctx.dispatcher.pushes == old(ctx.dispatcher.pushes) +
      [AnswerOn(ctx.Current(), ctx.request.value, status, if status == Success then NoBody else ErrorResp, answered)]
    ensures var answer := ctx.dispatcher.pushes[|ctx.dispatcher.pushes| - 1];
      && answer.gateway == ctx.Current().gateId && answer.channels == [ctx.Current().channelId]
      && answer.packet.flag == Flag.Response && answer.packet.status == status
      && answer.packet.command == ctx.request.value.command && answer.packet.channelId == ctx.request.value.channelId
      && (answer.packet.status == Success <==> ctx.storage.cli.errors == old(ctx.storage.cli.errors))
  {
    var s := ctx.GetSession();
    var deleted;
    deleted, reach := ctx.storage.Delete(s.account, s.channelId);
    if !deleted {
      status := SystemException;
      answered := ctx.Resp(status, ErrorResp);
    } else {
      status := Success;
      answered := ctx.Resp(status, NoBody);
    }
  }

  /** The session a request is served with: made up for a sign-in, looked up for anything else. */
  function SessionFor(p: Packet, found: Answer<Session>): Answer<Session>
    requires p.command == SIGN_IN ==> p.destServer.Some?
  {
    if p.command == SIGN_IN then Ok(AutoGenerated(p)) else found
  }

  /** How Receive ends; a sign-in on which no gateway has left its mark fails a type assertion. */
  datatype Outcome = Panics | Refused(status: Status, reply: Packet) | Served(ran: Option<HandleFunc>)

  /** RespErr. */
  function Refusal(p: Packet, status: Status): Packet {
    NewFrom(p).(status := status, flag := Flag.Response)
  }

  class ServHandler {
    const r: Routers.Router
    const cache: RedisStorage
    const dispatcher: Dispatcher

    constructor (r: Routers.Router, cache: RedisStorage)
      ensures this.r == r && this.cache == cache && fresh(dispatcher)
    {
      this.r, this.cache := r, cache;
      dispatcher := new Dispatcher();
    }

    /** Serves a request, or turns it down with a packet to the gateway it came from. */
    method Receive(packet: Packet) returns (outcome: Outcome, ghost used: Option<Session>)
      requires cache.Valid()
      modifies r`pool, r.pool, cache.cli`errors
      ensures outcome == Panics <==> packet.command == SIGN_IN && packet.destServer == None
      ensures outcome.Refused? ==> packet.command != SIGN_IN && outcome.status in {SessionNotFound, SystemException}
      ensures outcome.Refused? ==>
        outcome.reply ==
        Packet(packet.command, packet.channelId, Flag.Response, outcome.status, NoBody, None, None)
      ensures outcome == Refused(SystemException, Refusal(packet, SystemException)) <==>
        cache.cli.errors > old(cache.cli.errors)
      ensures cache.cli.up && outcome.Refused? ==> outcome.status == SessionNotFound
      ensures outcome.Refused? && outcome.status == SessionNotFound ==>
        Lookup(cache.tables.sessions, packet.channelId, cache.cli.now) == None
      ensures outcome.Served? ==> outcome.ran == Routers.FirstHandler(r.nodes, packet.command)
      ensures outcome.Served? <==> used.Some?
      ensures outcome.Served? ==>
        used == if packet.command == SIGN_IN then Some(Session([], packet.channelId, packet.destServer.value, []))
                else Lookup(cache.tables.sessions, packet.channelId, cache.cli.now)
    {
      used := None;
      var session: Session;
      if packet.command == SIGN_IN {
        if packet.destServer == None {
          return Outcome.Panics, None;
        }
        session := AutoGenerated(packet);
      } else {
        var found := cache.Get(packet.channelId);
        if found == SessionNil {
          return Refused(SessionNotFound, Refusal(packet, SessionNotFound)), None;
        } else if found == Err {
          return Refused(SystemException, Refusal(packet, SystemException)), None;
        }
        session := found.value;
      }
      var ok, f, _ := r.Serve(packet, dispatcher, cache, Some(session));
      outcome, used := Served(f), Some(session);
    }
  }

  // ----- the gateway

  /** A sign-in as the gateway forwards it: under a new channel id, with the session it proposes. */
  function SignIn(gateway: bytes, account: bytes, app: bytes, n: nat): Packet {
    var id := ChannelId(gateway, account, n);
    Packet(SIGN_IN, id, Flag.Request, Success, LoginBody(Session(account, id, gateway, app)), Some(gateway), None)
  }

  /** Any other request as the gateway forwards it: what the user wrote for channel and origin is overwritten. */
  function Stamped(p: Packet, channelId: bytes, gateway: bytes): Packet {
    p.(channelId := channelId, destServer := Some(gateway))
  }

  function SignOut(channelId: bytes, gateway: bytes): Packet {
    Packet(SIGN_OUT, channelId, Flag.Request, Success, NoBody, Some(gateway), None)
  }

  /** What the first frame of a connection holds, once its token has been checked. */
  datatype Greeting =
    | Unreadable
    | NotSignIn(request: Packet)
    | BadToken(request: Packet)
    | Login(account: bytes, app: bytes)

  /** What a later frame of a connection holds. */
  datatype Incoming = Garbled | Ping | OtherBasic | Logic(packet: Packet)

  class GatewayHandler {
    const serviceId: bytes
    var next: nat                // wire.Seq
    var forwarded: seq<Packet>   // packets handed to a client for a logic server

    constructor (serviceId: bytes)
      ensures this.serviceId == serviceId && forwarded == [] && next == 0
    {
      this.serviceId, next, forwarded := serviceId, 0, [];
    }

    /** container.Forward: refuses a packet without command or channel; a client must be found and its Send succeed. */
    method Forward(p: Packet, reachable: bool) returns (ok: bool)
      modifies this`forwarded
      ensures ok <==> p.command != [] && p.channelId != [] && reachable
      ensures forwarded == old(forwarded) + if ok then [p.(destServer := Some(serviceId))] else []
    {
      ok := p.command != [] && p.channelId != [] && reachable;
      forwarded := forwarded + if ok then [p.(destServer := Some(serviceId))] else [];
    }

    /**
     Every id given out is new, and the sign-in forwarded for it carries it in header and session alike. A user who
     does not sign in, or not with a good token, is told so.
    */
    method Accept(g: Greeting, reachable: bool) returns (id: Option<bytes>, told: Option<Packet>)
      modifies this
      ensures id == if g.Login? && reachable then Some(ChannelId(serviceId, g.account, old(next))) else None
      ensures forwarded == old(forwarded) +
        if id == None then []
        else [Packet(SIGN_IN, id.value, Flag.Request, Success,
                     LoginBody(Session(g.account, id.value, serviceId, g.app)), Some(serviceId), None)]
      ensures next == old(next) + if g.Login? then 1 else 0
      ensures told == match g
        case NotSignIn(p) => Some(Packet(p.command, p.channelId, Request, InvalidCommand, NoBody, None, None))
        case BadToken(p) => Some(Packet(p.command, p.channelId, Request, Unauthorized, NoBody, None, None))
        case _ => None
    {
      told := None;
      if !g.Login? {
        assert forwarded + [] == forwarded;
        if g.NotSignIn? {
          told := Some(NewFrom(g.request).(status := InvalidCommand));
        } else if g.BadToken? {
          told := Some(NewFrom(g.request).(status := Unauthorized));
        }
        return None, told;
      }
      var channelId := ChannelId(serviceId, g.account, next);
      var req := SignIn(serviceId, g.account, g.app, next).(destServer := None);
      next := next + 1;
      var ok := Forward(req, reachable);
      id := if ok then Some(channelId) else None;
    }

    /** A ping is answered here and goes no further; only logic packets are forwarded. */
    method Receive(channelId: bytes, incoming: Incoming, reachable: bool) returns (pong: bool)
      modifies this`forwarded
      ensures pong <==> incoming == Ping
      ensures forwarded == old(forwarded) +
        if incoming.Logic? && incoming.packet.command != [] && channelId != [] && reachable
        then [Stamped(incoming.packet, channelId, serviceId)] else []
      ensures |forwarded| > |old(forwarded)| ==>
        var sent, p := forwarded[|old(forwarded)|], incoming.packet;
        && sent.command == p.command && sent.flag == p.flag && sent.status == p.status && sent.body == p.body
        && sent.channelId == channelId && sent.destServer == Some(serviceId) && sent.destChannels == p.destChannels
    {
      pong := incoming == Ping;
      if incoming.Logic? {
        var _ := Forward(incoming.packet.(channelId := channelId), reachable);
      } else {
        assert forwarded + [] == forwarded;
      }
    }

    method Disconnect(channelId: bytes, reachable: bool)
      modifies this`forwarded
      ensures forwarded == old(forwarded) +
        if channelId != [] && reachable
        then [Packet(SIGN_OUT, channelId, Flag.Request, Success, NoBody, Some(serviceId), None)] else []
    {
      var _ := Forward(SignOut(channelId, serviceId).(destServer := None), reachable);
    }
  }
}
