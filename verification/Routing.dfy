/**
 Requests and their answers across gateways and logic servers
 (services/gateway/serv/handler.go, services/server/serv/handler.go, core/context.go,
 container/container.go). Every answer goes back to the gateway and channel its request came
 in on, for exactly those sets of gateways no service id of which extends another's.
*/
module Routing {
  import opened Endian
  import opened SessionStore
  import opened Packets
  import opened Contexts
  import opened ChannelIds
  import opened Handlers
  import opened Downlink
  import Runs

  /** Where a request came in. */
  datatype Origin = Origin(gateway: bytes, channelId: bytes)

  /** A request forwarded by a gateway; `origin` is history. */
  datatype Inbound = Inbound(packet: Packet, origin: Origin)

  /** A handler at work: its request and the session Receive gave it. */
  datatype Handling = Handling(request: Inbound, session: Session)

  /** An answer as Resp hands it to Dispatcher.Push. */
  datatype Answered = Answered(origin: Origin, gateway: bytes, channels: seq<bytes>, packet: Packet)

  /** `used` holds the sequence numbers each gateway has drawn, `conns` the channels it has admitted. */
  datatype State = State(
    used: set<(bytes, nat)>, conns: set<Origin>, requests: set<Inbound>,
    sessions: map<bytes, Session>, handling: set<Handling>, answers: seq<Answered>)

  datatype Step =
    | Accept(gateway: bytes, account: bytes, app: bytes, n: nat)
    | FromUser(conn: Origin, packet: Packet)
    | Disconnected(conn: Origin)
    | Receive(request: Inbound)
    | StoreSession(h: Handling)   // the second write of Add, by a login handler
    | LoseSession(channelId: bytes)  // a logout's delete, or expiry
    | Answer(h: Handling, status: Status, body: Body)

  /** The session Receive would serve a request with, if any. */
  function ServedWith(s: State, p: Packet): Answer<Session>
    requires p.command == SIGN_IN ==> p.destServer.Some?
  {
    SessionFor(p, if p.channelId in s.sessions then Ok(s.sessions[p.channelId]) else SessionNil)
  }

  /** Sign-in comes only from the gateway's Accept. */
  predicate Enabled(gateways: set<bytes>, s: State, step: Step) {
    match step
    case Accept(g, _, _, n) => g in gateways && (g, n) !in s.used
    case FromUser(conn, p) => conn in s.conns && p.command != SIGN_IN
    case Disconnected(conn) => conn in s.conns
    case Receive(r) =>
      r in s.requests && (r.packet.command == SIGN_IN ==> r.packet.destServer.Some?) && ServedWith(s, r.packet).Ok?
    case StoreSession(h) => h in s.handling && h.request.packet.command == SIGN_IN && h.request.packet.body.LoginBody?
    case LoseSession(_) => true
    case Answer(h, _, _) => h in s.handling
  }

  function Apply(gateways: set<bytes>, s: State, step: Step): State
    requires Enabled(gateways, s, step)
  {
    match step
    case Accept(g, account, app, n) =>
      var p := SignIn(g, account, app, n);
      var at := Origin(g, p.channelId);
      s.(used := s.used + {(g, n)}, conns := s.conns + {at}, requests := s.requests + {Inbound(p, at)})
    case FromUser(conn, p) =>
      s.(requests := s.requests + {Inbound(Stamped(p, conn.channelId, conn.gateway), conn)})
    case Disconnected(conn) =>
      s.(requests := s.requests + {Inbound(SignOut(conn.channelId, conn.gateway), conn)})
    case Receive(r) =>
      s.(handling := s.handling + {Handling(r, ServedWith(s, r.packet).value)})
    case StoreSession(h) =>
      var x := h.request.packet.body.session;
      s.(sessions := s.sessions[x.channelId := x])
    case LoseSession(c) =>
      s.(sessions := s.sessions - {c})
    case Answer(h, status, body) =>
      s.(answers := s.answers +
        [Answered(h.request.origin, h.session.gateId, [h.session.channelId],
                  ResponseTo(h.request.packet, status, body))])
  }

  const INITIAL := State({}, {}, {}, map[], {}, [])

  ghost function Next(gateways: set<bytes>): (State, Step, State) -> bool {
    (s, step, s') => Enabled(gateways, s, step) && s' == Apply(gateways, s, step)
  }

  ghost predicate IsRun(gateways: set<bytes>, states: seq<State>, steps: seq<Step>) {
    Runs.IsRun(INITIAL, Next(gateways), states, steps)
  }

  /** No gateway's service id is another's followed by an underscore and something. */
  ghost predicate Unconfusable(gateways: set<bytes>) {
    forall s, t | s in gateways && t in gateways && s != t :: !Extends(s, t)
  }

  /** g may have issued channel id c. */
  ghost predicate Issues(gateways: set<bytes>, g: bytes, c: bytes) {
    g in gateways && exists account, n :: c == ChannelId(g, account, n)
  }

  lemma IssuerIsUnique(gateways: set<bytes>, g: bytes, h: bytes, c: bytes)
    requires Unconfusable(gateways) && Issues(gateways, g, c) && Issues(gateways, h, c)
    ensures g == h
  {
    var a, m :| c == ChannelId(g, a, m);
    var b, n :| c == ChannelId(h, b, n);
    SharedIdMeansExtension(g, a, m, h, b, n);
  }

  ghost predicate RequestOk(gateways: set<bytes>, r: Inbound) {
    && Issues(gateways, r.origin.gateway, r.origin.channelId)
    && r.packet.channelId == r.origin.channelId
    && r.packet.destServer == Some(r.origin.gateway)
    && (r.packet.command == SIGN_IN ==>
          && r.packet.body.LoginBody?
          && r.packet.body.session.Location() == Locations.Location(r.origin.channelId, r.origin.gateway))
  }

  /** A session stored under a channel is that channel's, at a gateway that issues it. */
  ghost predicate SessionOk(gateways: set<bytes>, c: bytes, x: Session) {
    x.channelId == c && Issues(gateways, x.gateId, c)
  }

  ghost predicate Inv(gateways: set<bytes>, s: State) {
    && (forall conn | conn in s.conns :: Issues(gateways, conn.gateway, conn.channelId))
    && (forall r | r in s.requests :: RequestOk(gateways, r))
    && (forall c | c in s.sessions :: SessionOk(gateways, c, s.sessions[c]))
    && (forall h | h in s.handling ::
          RequestOk(gateways, h.request) && SessionOk(gateways, h.request.origin.channelId, h.session))
    && (forall a | a in s.answers :: |a.channels| == 1 && a.channels[0] == a.origin.channelId
          && Issues(gateways, a.origin.gateway, a.origin.channelId) && Issues(gateways, a.gateway, a.origin.channelId))
  }

  lemma StepKeepsInv(gateways: set<bytes>, s: State, step: Step)
    requires Inv(gateways, s) && Enabled(gateways, s, step)
    ensures Inv(gateways, Apply(gateways, s, step))
  {
    match step
    case Accept(g, account, app, n) =>
      assert Issues(gateways, g, SignIn(g, account, app, n).channelId);
    case FromUser(conn, p) =>
      assert RequestOk(gateways, Inbound(Stamped(p, conn.channelId, conn.gateway), conn));
    case Disconnected(conn) =>
      assert RequestOk(gateways, Inbound(SignOut(conn.channelId, conn.gateway), conn));
    case Receive(r) =>
      assert RequestOk(gateways, r);
      assert SessionOk(gateways, r.origin.channelId, ServedWith(s, r.packet).value);
    case StoreSession(h) =>
      assert RequestOk(gateways, h.request);
    case LoseSession(_) =>
    case Answer(h, status, body) =>
      assert SessionOk(gateways, h.request.origin.channelId, h.session);
  }

  lemma {:induction false} RunKeepsInv(gateways: set<bytes>, states: seq<State>, steps: seq<Step>, i: nat)
    requires IsRun(gateways, states, steps) && i < |states|
    ensures Inv(gateways, states[i])
  {
    if i == 0 {
    } else {
      RunKeepsInv(gateways, states, steps, i - 1);
      assert Runs.TakesStep(Next(gateways), states, steps, i - 1);
      StepKeepsInv(gateways, states[i - 1], steps[i - 1]);
    }
  }

  /**
   What a connection's user sends, and its end, are forwarded from its channel, with command and body as they were.
  */
  lemma RequestsAreForwarded(gateways: set<bytes>, states: seq<State>, steps: seq<Step>, k: nat)
    returns (r: Inbound)
    requires IsRun(gateways, states, steps) && k < |steps| && (steps[k].FromUser? || steps[k].Disconnected?)
    ensures r in states[k + 1].requests && r.origin == steps[k].conn
    ensures r.packet.channelId == r.origin.channelId && r.packet.destServer == Some(r.origin.gateway)
    ensures steps[k].Disconnected? ==> r.packet.command == SIGN_OUT
    ensures steps[k].FromUser? ==>
      r.packet.command == steps[k].packet.command && r.packet.body == steps[k].packet.body
  {
    assert Runs.TakesStep(Next(gateways), states, steps, k);
    assert states[k + 1] == Apply(gateways, states[k], steps[k]);
    var conn := steps[k].conn;
    r := if steps[k].FromUser? then Inbound(Stamped(steps[k].packet, conn.channelId, conn.gateway), conn)
         else Inbound(SignOut(conn.channelId, conn.gateway), conn);
  }

  /** A request of a lost session is refused, until the channel's session is stored again. */
  lemma LostSessionIsRefused(gateways: set<bytes>, states: seq<State>, steps: seq<Step>, k: nat, r: Inbound)
    requires IsRun(gateways, states, steps) && k < |steps| && steps[k] == LoseSession(r.packet.channelId)
    requires r.packet.command != SIGN_IN
    ensures !Enabled(gateways, states[k + 1], Receive(r))
  {
    assert Runs.TakesStep(Next(gateways), states, steps, k);
    assert states[k + 1] == Apply(gateways, states[k], steps[k]);
  }

  /** The answer is addressed to where its request came in. */
  predicate Home(a: Answered) {
    a.gateway == a.origin.gateway && a.channels == [a.origin.channelId]
  }

  /** With unconfusable service ids no answer of any run goes astray, for sign-in or any other command. */
  lemma NoMisrouting(gateways: set<bytes>, states: seq<State>, steps: seq<Step>, i: nat, a: Answered)
    requires Unconfusable(gateways)
    requires IsRun(gateways, states, steps) && i < |states| && a in states[i].answers
    ensures Home(a)
  {
    RunKeepsInv(gateways, states, steps, i);
    IssuerIsUnique(gateways, a.gateway, a.origin.gateway, a.origin.channelId);
    assert a.channels == [a.origin.channelId];
  }

  ghost predicate NeverMisroutes(gateways: set<bytes>) {
    forall states: seq<State>, steps: seq<Step>, a: Answered ::
      IsRun(gateways, states, steps) && a in states[|states| - 1].answers ==> Home(a)
  }

  lemma Extend(gateways: set<bytes>, states: seq<State>, steps: seq<Step>, step: Step)
    returns (states': seq<State>, steps': seq<Step>)
    requires IsRun(gateways, states, steps) && Enabled(gateways, states[|states| - 1], step)
    ensures IsRun(gateways, states', steps')
    ensures states'[|states'| - 1] == Apply(gateways, states[|states| - 1], step)
  {
    states', steps' :=
      Runs.Extend(INITIAL, Next(gateways), states, steps, step, Apply(gateways, states[|states| - 1], step));
  }

  /** A user signs in at g and the login handler stores the session. */
  lemma SignsIn(gateways: set<bytes>, states: seq<State>, steps: seq<Step>, g: bytes, account: bytes, n: nat)
    returns (states': seq<State>, steps': seq<Step>)
    requires IsRun(gateways, states, steps) && g in gateways && (g, n) !in states[|states| - 1].used
    ensures IsRun(gateways, states', steps')
    ensures var s, s' := states[|states| - 1], states'[|states'| - 1];
      var c := ChannelId(g, account, n);
      && s'.used == s.used + {(g, n)} && s'.conns == s.conns + {Origin(g, c)}
      && s'.sessions == s.sessions[c := Session(account, c, g, [])] && s'.answers == s.answers
  {
    var r := Inbound(SignIn(g, account, [], n), Origin(g, ChannelId(g, account, n)));
    var session := AutoGenerated(r.packet);
    states', steps' := Extend(gateways, states, steps, Accept(g, account, [], n));
    states', steps' := Extend(gateways, states', steps', Receive(r));
    states', steps' := Extend(gateways, states', steps', StoreSession(Handling(r, session)));
  }

  /**
   When t extends s, every id a gateway of service id t gives to a user is one that s can give too; the answer to a
   request the user of s made then goes to the user of t.
  */
  lemma ExtensionMisroutes(gateways: set<bytes>, s: bytes, t: bytes, b: bytes, n: nat)
    returns (states: seq<State>, steps: seq<Step>, a: Answered)
    requires s in gateways && t in gateways && s != t && Extends(s, t)
    ensures IsRun(gateways, states, steps) && a in states[|states| - 1].answers
    ensures a.origin == Origin(s, ChannelId(t, b, n)) && a.gateway == t && !Home(a)
  {
    var account := t[|s| + 1..] + [UNDERSCORE] + b;
    var c := ChannelId(s, account, n);
    ExtensionSharesAnId(s, t, b, n);
    states, steps := [INITIAL], [];
    states, steps := SignsIn(gateways, states, steps, s, account, n);
    states, steps := SignsIn(gateways, states, steps, t, b, n);
    var conn := Origin(s, c);
    var packet := SignOut(c, s);
    var r := Inbound(Stamped(packet, c, s), conn);
    var h := Handling(r, Session(b, c, t, []));
    states, steps := Extend(gateways, states, steps, FromUser(conn, packet));
    states, steps := Extend(gateways, states, steps, Receive(r));
    states, steps := Extend(gateways, states, steps, Answer(h, Success, NoBody));
    a := Answered(conn, t, [c], ResponseTo(r.packet, Success, NoBody));
  }

  /** Answers never go astray exactly when no gateway's service id extends another's. */
  lemma NeverMisroutesIff(gateways: set<bytes>)
    ensures NeverMisroutes(gateways) <==> Unconfusable(gateways)
  {
    if Unconfusable(gateways) {
      forall states: seq<State>, steps: seq<Step>, a: Answered
        | IsRun(gateways, states, steps) && a in states[|states| - 1].answers ensures Home(a)
      {
        NoMisrouting(gateways, states, steps, |states| - 1, a);
      }
    } else {
      var s, t :| s in gateways && t in gateways && s != t && Extends(s, t);
      var states, steps, a := ExtensionMisroutes(gateways, s, t, [], 0);
      assert !Home(a);
    }
  }

  /** The packet that answers a request. */
  predicate Answers(p: Packet, request: Packet, status: Status, body: Body) {
    && p.command == request.command && p.channelId == request.channelId && p.flag == Flag.Response
    && p.status == status && p.body == body
  }

  /** Every answer of a run carries the status and the body some handler of its request answered with. */
  lemma {:induction false} AnswersAreGiven(
    gateways: set<bytes>, states: seq<State>, steps: seq<Step>, i: nat, a: Answered) returns (k: nat)
    requires IsRun(gateways, states, steps) && i < |states| && a in states[i].answers
    ensures k < i && steps[k].Answer? && a.origin == steps[k].h.request.origin
    ensures Answers(a.packet, steps[k].h.request.packet, steps[k].status, steps[k].body)
  {
    assert Runs.TakesStep(Next(gateways), states, steps, i - 1);
    assert Enabled(gateways, states[i - 1], steps[i - 1]);
    assert states[i] == Apply(gateways, states[i - 1], steps[i - 1]);
    if a in states[i - 1].answers {
      k := AnswersAreGiven(gateways, states, steps, i - 1, a);
    } else {
      k := i - 1;
    }
  }

  /**
   End to end: the packet an answer becomes is delivered by no other gateway, and by the request's own gateway
   to the request's own channel alone, exactly if that channel's id has no comma in it.
  */
  lemma AnswerIsDelivered(
    gateways: set<bytes>, states: seq<State>, steps: seq<Step>, i: nat, a: Answered, gateway: bytes)
    requires Unconfusable(gateways)
    requires IsRun(gateways, states, steps) && i < |states| && a in states[i].answers
    ensures gateway != a.origin.gateway ==> Deliveries(gateway, Addressed(a.packet, a.gateway, a.channels)) == []
    ensures COMMA !in a.origin.channelId <==>
      Deliveries(a.origin.gateway, Addressed(a.packet, a.gateway, a.channels)) ==
      [Delivery(a.origin.channelId, Stripped(a.packet))]
    ensures forall d | d in Deliveries(a.origin.gateway, Addressed(a.packet, a.gateway, a.channels)) ::
      d.packet == Packet(
        a.packet.command, a.packet.channelId, a.packet.flag, a.packet.status, a.packet.body, None, None)
  {
    NoMisrouting(gateways, states, steps, i, a);
    PushReachesItsChannels(a.packet, a.gateway, a.channels, gateway);
    PushReachesItsChannels(a.packet, a.gateway, a.channels, a.origin.gateway);
    assert ToEach(a.channels, Stripped(a.packet)) == [Delivery(a.origin.channelId, Stripped(a.packet))];
  }
}
