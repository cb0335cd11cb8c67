/**
 Login and logout handlers running at the same time on one session store
 (storage/redis.go, services/server/handler/login_handler.go, services/server/serv/handler.go).
 Every Redis call is a step of its own, time passes between steps, and nothing is locked.
 A channel id logs in at most once: the gateway never issues an id twice.
*/
module SessionProtocol {
  import opened Endian
  import opened Locations
  import opened SessionStore
  import Runs

  /** DoSysLogin: read the old location, write the location, write the session. */
  datatype LoginPc =
    | Arrived
    | Looked(former: Option<Location>)
    | Written   // between the two writes of Add
    | LoggedIn
    | Rejected  // the location could not be read; nothing was written
    | Broken    // a write of Add returned an error

  datatype Login = Login(session: Session, pc: LoginPc) {
    /** Add has been left, by its last write or by an error. */
    predicate PastAdd() {
      pc == LoggedIn || pc == Broken
    }
  }

  /** Receive and DoSysLogout: get the session, delete the location, delete the session. */
  datatype LogoutPc = Asked | Known(session: Session) | LocationGone(session: Session) | Over

  datatype Logout = Logout(channelId: bytes, pc: LogoutPc)

  /** A write that was acknowledged, one that had no effect, and one whose acknowledgement was lost. */
  datatype Fate = Acknowledged | Refused | Unanswered

  /** `gone` remembers the channels whose logout has deleted their account's location. */
  datatype State = State(
    tables: Tables, now: nat, logins: map<bytes, Login>, logouts: map<nat, Logout>, gone: set<bytes>)

  datatype Step =
    | Tick(nanos: nat)
    | LoginArrives(session: Session)
    | ReadOld(channelId: bytes, readable: bool)
    | WriteLocation(channelId: bytes, fate: Fate)
    | WriteSession(channelId: bytes, fate: Fate)
    | LogoutArrives(id: nat, channelId: bytes)
    | FindSession(id: nat, readable: bool)
    | DeleteLocation(id: nat, fate: Fate)
    | DeleteSession(id: nat, fate: Fate)

  predicate LoginAt(s: State, channelId: bytes, pc: LoginPc) {
    channelId in s.logins && s.logins[channelId].pc == pc
  }

  predicate Enabled(s: State, step: Step) {
    match step
    case Tick(_) => true
    case LoginArrives(x) => x.channelId !in s.logins
    case ReadOld(c, _) => LoginAt(s, c, Arrived)
    case WriteLocation(c, _) => c in s.logins && s.logins[c].pc.Looked?
    case WriteSession(c, _) => LoginAt(s, c, Written)
    case LogoutArrives(id, _) => id !in s.logouts
    case FindSession(id, _) => id in s.logouts && s.logouts[id].pc == Asked
    case DeleteLocation(id, _) => id in s.logouts && s.logouts[id].pc.Known?
    case DeleteSession(id, _) => id in s.logouts && s.logouts[id].pc.LocationGone?
  }

  function LoginTo(s: State, c: bytes, pc: LoginPc): State
    requires c in s.logins
  {
    s.(logins := s.logins[c := s.logins[c].(pc := pc)])
  }

  function LogoutTo(s: State, id: nat, pc: LogoutPc): State
    requires id in s.logouts
  {
    s.(logouts := s.logouts[id := s.logouts[id].(pc := pc)])
  }

  function Apply(s: State, step: Step): State
    requires Enabled(s, step)
  {
    match step
    case Tick(nanos) => s.(now := s.now + nanos)
    case LoginArrives(x) => s.(logins := s.logins[x.channelId := Login(x, Arrived)])
    case ReadOld(c, readable) =>
      LoginTo(s, c, if readable then Looked(Lookup(s.tables.locs, s.logins[c].session.account, s.now)) else Rejected)
    case WriteLocation(c, fate) =>
      var t := if fate == Refused then s.tables else PutLocation(s.tables, s.logins[c].session, s.now);
      LoginTo(s, c, if fate == Acknowledged then Written else Broken).(tables := t)
    case WriteSession(c, fate) =>
      var t := if fate == Refused then s.tables else PutSession(s.tables, s.logins[c].session, s.now);
      LoginTo(s, c, if fate == Acknowledged then LoggedIn else Broken).(tables := t)
    case LogoutArrives(id, c) => s.(logouts := s.logouts[id := Logout(c, Asked)])
    case FindSession(id, readable) =>
      var found := Lookup(s.tables.sessions, s.logouts[id].channelId, s.now);
      LogoutTo(s, id, if readable && found.Some? then Known(found.value) else Over)
    case DeleteLocation(id, fate) =>
      var x := s.logouts[id].pc.session;
      var s' := LogoutTo(s, id, if fate == Acknowledged then LocationGone(x) else Over);
      if fate == Refused then s' else s'.(tables := DropLocation(s.tables, x.account), gone := s.gone + {x.channelId})
    case DeleteSession(id, fate) =>
      var x := s.logouts[id].pc.session;
      var s' := LogoutTo(s, id, Over);
      if fate == Refused then s' else s'.(tables := DropSession(s.tables, x.channelId))
  }

  const INITIAL := State(EMPTY, 0, map[], map[], {})

  ghost predicate Next(s: State, step: Step, s': State) {
    Enabled(s, step) && s' == Apply(s, step)
  }

  ghost predicate IsRun(states: seq<State>, steps: seq<Step>) {
    Runs.IsRun(INITIAL, Next, states, steps)
  }

  /** The ids of a login fit the length fields of a location's byte form. */
  predicate Fits(step: Step) {
    step.LoginArrives? ==> step.session.Location().Fits()
  }

  /** A run of logins whose locations are read back as they were written. */
  ghost predicate IsFitRun(states: seq<State>, steps: seq<Step>) {
    IsRun(states, steps) && forall step | step in steps :: Fits(step)
  }

  // ----- what every step keeps

  ghost predicate LoginsInv(s: State) {
    && (forall c | c in s.logins :: s.logins[c].session.channelId == c && s.logins[c].session.Location().Fits())
    && (forall c | c in s.gone :: c in s.logins && s.logins[c].PastAdd())
  }

  /** A location is the one its channel's login wrote, and no logout has deleted it. */
  ghost predicate LocationsInv(s: State) {
    forall a | a in s.tables.locs ::
      var loc := s.tables.locs[a].value;
      && loc.channelId in s.logins
      && loc.channelId !in s.gone
      && s.logins[loc.channelId].session.account == a
      && s.logins[loc.channelId].session.Location() == loc
      && (s.logins[loc.channelId].pc == Written || s.logins[loc.channelId].PastAdd())
      && s.tables.locs[a].expires <= s.now + TTL
  }

  ghost predicate SessionsInv(s: State) {
    forall c | c in s.tables.sessions ::
      c in s.logins && s.logins[c].session == s.tables.sessions[c].value && s.logins[c].PastAdd()
  }

  /** A login that went through has its session until a logout has deleted its location, and outlives it. */
  ghost predicate CompletedInv(s: State) {
    forall c | LoginAt(s, c, LoggedIn) && c !in s.gone ::
      && c in s.tables.sessions
      && (forall a | a in s.tables.locs :: s.tables.locs[a].value.channelId == c ==>
            s.tables.locs[a].expires <= s.tables.sessions[c].expires)
  }

  ghost predicate LogoutsInv(s: State) {
    forall id | id in s.logouts :: (s.logouts[id].pc.Known? || s.logouts[id].pc.LocationGone? ==>
      var x := s.logouts[id].pc.session;
      && x.channelId in s.logins
      && s.logins[x.channelId].session == x
      && s.logins[x.channelId].PastAdd()
      && (s.logouts[id].pc.LocationGone? ==> x.channelId in s.gone))
  }

  ghost predicate Inv(s: State) {
    LoginsInv(s) && LocationsInv(s) && SessionsInv(s) && CompletedInv(s) && LogoutsInv(s)
  }

  lemma QuietStepKeepsInv(s: State, step: Step)
    requires Inv(s) && Enabled(s, step)
    requires step.Tick? || step.LogoutArrives?
    ensures Inv(Apply(s, step))
  {
    assert Apply(s, step).tables == s.tables && Apply(s, step).logins == s.logins;
  }

  lemma NewLoginKeepsInv(s: State, x: Session)
    requires Inv(s) && Enabled(s, LoginArrives(x)) && x.Location().Fits()
    ensures Inv(Apply(s, LoginArrives(x)))
  {
    assert x.channelId !in s.gone && x.channelId !in s.tables.sessions;
  }

  /** A login that moves on leaves all others, and all logouts, as they were. */
  lemma LoginMoves(s: State, step: Step, c: bytes)
    requires Enabled(s, step)
    requires step.ReadOld? || step.WriteLocation? || step.WriteSession?
    requires c == step.channelId
    ensures c in s.logins
    ensures var s' := Apply(s, step);
      && s'.logins == s.logins[c := Login(s.logins[c].session, s'.logins[c].pc)]
      && s'.logouts == s.logouts && s'.gone == s.gone && s'.now == s.now
  {
  }

  /** A login before the end of its Add is not gone and has no session yet. */
  lemma NotYetIn(s: State, c: bytes)
    requires Inv(s) && c in s.logins && !s.logins[c].PastAdd()
    ensures c !in s.gone && c !in s.tables.sessions
    ensures forall id | id in s.logouts && (s.logouts[id].pc.Known? || s.logouts[id].pc.LocationGone?) ::
      s.logouts[id].pc.session.channelId != c
  {
  }

  lemma ReadOldKeepsLogouts(s: State, c: bytes, readable: bool)
    requires Inv(s) && Enabled(s, ReadOld(c, readable))
    ensures LoginsInv(Apply(s, ReadOld(c, readable))) && LogoutsInv(Apply(s, ReadOld(c, readable)))
  {
    LoginMoves(s, ReadOld(c, readable), c);
    NotYetIn(s, c);
  }

  lemma ReadOldKeepsInv(s: State, c: bytes, readable: bool)
    requires Inv(s) && Enabled(s, ReadOld(c, readable))
    ensures Inv(Apply(s, ReadOld(c, readable)))
  {
    LoginMoves(s, ReadOld(c, readable), c);
    NotYetIn(s, c);
    ReadOldKeepsLogouts(s, c, readable);
    assert Apply(s, ReadOld(c, readable)).tables == s.tables;
  }

  lemma WriteLocationKeepsLocations(s: State, c: bytes, fate: Fate)
    requires Inv(s) && Enabled(s, WriteLocation(c, fate))
    ensures LocationsInv(Apply(s, WriteLocation(c, fate)))
  {
    NotYetIn(s, c);
  }

  lemma WriteLocationKeepsInv(s: State, c: bytes, fate: Fate)
    requires Inv(s) && Enabled(s, WriteLocation(c, fate))
    ensures Inv(Apply(s, WriteLocation(c, fate)))
  {
    var s' := Apply(s, WriteLocation(c, fate));
    LoginMoves(s, WriteLocation(c, fate), c);
    WriteLocationKeepsLocations(s, c, fate);
    NotYetIn(s, c);
    assert s'.tables.sessions == s.tables.sessions;
  }

  /** The location was written no later than the session now is. */
  lemma WriteSessionCompletes(s: State, c: bytes, fate: Fate)
    requires Inv(s) && Enabled(s, WriteSession(c, fate))
    ensures CompletedInv(Apply(s, WriteSession(c, fate)))
  {
  }

  lemma WriteSessionKeepsInv(s: State, c: bytes, fate: Fate)
    requires Inv(s) && Enabled(s, WriteSession(c, fate))
    ensures Inv(Apply(s, WriteSession(c, fate)))
  {
    LoginMoves(s, WriteSession(c, fate), c);
    WriteSessionCompletes(s, c, fate);
    WriteSessionKeepsSessions(s, c, fate);
    WriteSessionKeepsLogouts(s, c, fate);
    NotYetIn(s, c);
    assert Apply(s, WriteSession(c, fate)).tables.locs == s.tables.locs;
  }

  lemma WriteSessionKeepsLogouts(s: State, c: bytes, fate: Fate)
    requires Inv(s) && Enabled(s, WriteSession(c, fate))
    ensures LoginsInv(Apply(s, WriteSession(c, fate))) && LogoutsInv(Apply(s, WriteSession(c, fate)))
  {
    LoginMoves(s, WriteSession(c, fate), c);
    NotYetIn(s, c);
  }

  lemma WriteSessionKeepsSessions(s: State, c: bytes, fate: Fate)
    requires Inv(s) && Enabled(s, WriteSession(c, fate))
    ensures SessionsInv(Apply(s, WriteSession(c, fate)))
  {
    LoginMoves(s, WriteSession(c, fate), c);
  }

  lemma FindSessionKeepsInv(s: State, id: nat, readable: bool)
    requires Inv(s) && Enabled(s, FindSession(id, readable))
    ensures Inv(Apply(s, FindSession(id, readable)))
  {
  }

  lemma DeleteLocationKeepsLogouts(s: State, id: nat, fate: Fate)
    requires Inv(s) && Enabled(s, DeleteLocation(id, fate))
    ensures LogoutsInv(Apply(s, DeleteLocation(id, fate)))
  {
  }

  lemma DeleteLocationKeepsInv(s: State, id: nat, fate: Fate)
    requires Inv(s) && Enabled(s, DeleteLocation(id, fate))
    ensures Inv(Apply(s, DeleteLocation(id, fate)))
  {
    var x, s' := s.logouts[id].pc.session, Apply(s, DeleteLocation(id, fate));
    DeleteLocationKeepsLogouts(s, id, fate);
    assert s'.logins == s.logins && s'.tables.sessions == s.tables.sessions && s'.now == s.now;
    assert s'.gone == s.gone || s'.gone == s.gone + {x.channelId};
    assert forall a | a in s'.tables.locs :: a in s.tables.locs && s'.tables.locs[a] == s.tables.locs[a];
  }

  lemma DeleteSessionKeepsInv(s: State, id: nat, fate: Fate)
    requires Inv(s) && Enabled(s, DeleteSession(id, fate))
    ensures Inv(Apply(s, DeleteSession(id, fate)))
  {
    var s' := Apply(s, DeleteSession(id, fate));
    assert s'.logins == s.logins && s'.tables.locs == s.tables.locs;
  }

  lemma StepKeepsInv(s: State, step: Step)
    requires Inv(s) && Enabled(s, step) && Fits(step)
    ensures Inv(Apply(s, step))
  {
    match step
    case LoginArrives(x) => NewLoginKeepsInv(s, x);
    case ReadOld(c, readable) => ReadOldKeepsInv(s, c, readable);
    case WriteLocation(c, fate) => WriteLocationKeepsInv(s, c, fate);
    case WriteSession(c, fate) => WriteSessionKeepsInv(s, c, fate);
    case FindSession(id, readable) => FindSessionKeepsInv(s, id, readable);
    case DeleteLocation(id, fate) => DeleteLocationKeepsInv(s, id, fate);
    case DeleteSession(id, fate) => DeleteSessionKeepsInv(s, id, fate);
    case _ => QuietStepKeepsInv(s, step);
  }

  lemma {:induction false} RunKeepsInv(states: seq<State>, steps: seq<Step>, i: nat)
    requires IsFitRun(states, steps) && i < |states|
    ensures Inv(states[i])
  {
    if i == 0 {
    } else {
      RunKeepsInv(states, steps, i - 1);
      assert Runs.TakesStep(Next, states, steps, i - 1);
      StepKeepsInv(states[i - 1], steps[i - 1]);
    }
  }

  // ----- what it means for readers of the store

  /**
   At every moment of every run, a location that can be read belongs to a login of that very account, and
   the session of that login can be read too, unless its Add is between its writes (then there is none)
   or returned an error.
  */
  lemma LocationHasSession(states: seq<State>, steps: seq<Step>, i: nat, account: bytes)
    requires IsFitRun(states, steps) && i < |states|
    requires Lookup(states[i].tables.locs, account, states[i].now).Some?
    ensures var s := states[i];
      var loc := Lookup(s.tables.locs, account, s.now).value;
      var session := Lookup(s.tables.sessions, loc.channelId, s.now);
      && loc.channelId in s.logins
      && s.logins[loc.channelId].session.account == account
      && (s.logins[loc.channelId].pc == LoggedIn ==>
            session.Some? && session.value.account == account
            && session.value.channelId == loc.channelId && session.value.gateId == loc.gateId)
      && (s.logins[loc.channelId].pc == Written ==> session.None?)
      && s.logins[loc.channelId].pc in {LoggedIn, Written, Broken}
  {
    RunKeepsInv(states, steps, i);
  }

  /** Once a logout of a channel has deleted its account's location, no location ever names the channel again. */
  lemma {:induction false} GoneForGood(states: seq<State>, steps: seq<Step>, i: nat, j: nat, c: bytes)
    requires IsFitRun(states, steps) && i <= j < |states|
    requires c in states[i].gone
    ensures c in states[j].gone
    ensures forall a | a in states[j].tables.locs :: states[j].tables.locs[a].value.channelId != c
    decreases j - i
  {
    RunKeepsInv(states, steps, j);
    if i < j {
      GoneForGood(states, steps, i, j - 1, c);
      assert Runs.TakesStep(Next, states, steps, j - 1);
    }
  }

  /** A completed login's location is never readable for longer than its session. */
  lemma LocationExpiresFirst(states: seq<State>, steps: seq<Step>, i: nat, account: bytes)
    requires IsFitRun(states, steps) && i < |states| && account in states[i].tables.locs
    requires LoginAt(states[i], states[i].tables.locs[account].value.channelId, LoggedIn)
    ensures states[i].tables.locs[account].value.channelId in states[i].tables.sessions
    ensures states[i].tables.locs[account].expires <=
      states[i].tables.sessions[states[i].tables.locs[account].value.channelId].expires
  {
    RunKeepsInv(states, steps, i);
  }

  /** A session is the one its channel's own login brought, so a logout deletes the location of the right account. */
  lemma SessionIsTheLogins(states: seq<State>, steps: seq<Step>, i: nat, c: bytes)
    requires IsRun(states, steps) && i < |states|
    requires c in states[i].tables.sessions
    ensures c in states[i].logins && states[i].tables.sessions[c].value == states[i].logins[c].session
    ensures states[i].tables.sessions[c].value.channelId == c
  {
    forall s, step, s' | OwnSessions(s) && Next(s, step, s') ensures OwnSessions(s') {
      OwnSessionsStep(s, step, s');
    }
    Runs.Always(INITIAL, Next, OwnSessions, states, steps, i);
  }

  ghost predicate OwnSessions(s: State) {
    && (forall c | c in s.logins :: s.logins[c].session.channelId == c)
    && (forall c | c in s.tables.sessions :: c in s.logins && s.tables.sessions[c].value == s.logins[c].session)
  }

  lemma OwnSessionsStep(s: State, step: Step, s': State)
    requires OwnSessions(s) && Next(s, step, s')
    ensures OwnSessions(s')
  {
    LoginsStay(s, step);
  }

  /** Location `former`, read by the login of c, is where another login of the same account is. */
  ghost predicate KicksOut(s: State, c: bytes, former: Location) {
    && c in s.logins
    && former.channelId != c
    && former.channelId in s.logins
    && s.logins[former.channelId].session.account == s.logins[c].session.account
    && s.logins[former.channelId].session.Location() == former
  }

  ghost predicate KickoutInv(s: State) {
    forall c | c in s.logins && s.logins[c].pc.Looked? && s.logins[c].pc.former.Some? ::
      KicksOut(s, c, s.logins[c].pc.former.value)
  }

  lemma LoginsStay(s: State, step: Step)
    requires Enabled(s, step)
    ensures forall c | c in s.logins ::
      c in Apply(s, step).logins && Apply(s, step).logins[c].session == s.logins[c].session
    ensures forall c | c in Apply(s, step).logins && Apply(s, step).logins[c].pc.Looked? ::
      step == ReadOld(c, true) || (c in s.logins && s.logins[c].pc == Apply(s, step).logins[c].pc)
  {
  }

  lemma KickoutStep(s: State, step: Step)
    requires Inv(s) && KickoutInv(s) && Enabled(s, step)
    ensures KickoutInv(Apply(s, step))
  {
    var s' := Apply(s, step);
    LoginsStay(s, step);
    forall c | c in s'.logins && s'.logins[c].pc.Looked? && s'.logins[c].pc.former.Some?
      ensures KicksOut(s', c, s'.logins[c].pc.former.value)
    {
      if step == ReadOld(c, true) {
        assert LoginAt(s, c, Arrived) && s.logins[c].session.account in s.tables.locs;
      } else {
        assert KicksOut(s, c, s.logins[c].pc.former.value);
      }
    }
  }

  /** A login kicks out an earlier login of its own account, at the gateway that login came from, and never itself. */
  lemma {:induction false} KickoutTarget(states: seq<State>, steps: seq<Step>, i: nat)
    requires IsFitRun(states, steps) && i < |states|
    ensures KickoutInv(states[i])
  {
    if i == 0 {
    } else {
      assert Runs.TakesStep(Next, states, steps, i - 1);
      KickoutTarget(states, steps, i - 1);
      RunKeepsInv(states, steps, i - 1);
      KickoutStep(states[i - 1], steps[i - 1]);
    }
  }

  // ----- what can be read, in terms of the run alone

  /** The step writes location loc for account a. */
  predicate BringsLocation(s: State, step: Step, a: bytes, loc: Location) {
    && step.WriteLocation? && step.fate != Refused && step.channelId in s.logins
    && s.logins[step.channelId].session.account == a && Stored(s.logins[step.channelId].session) == loc
  }

  /** The step replaces or deletes the location of account a. */
  predicate EndsLocation(s: State, step: Step, a: bytes) {
    || (step.WriteLocation? && step.fate != Refused && step.channelId in s.logins
        && s.logins[step.channelId].session.account == a)
    || (step.DeleteLocation? && step.fate != Refused && step.id in s.logouts
        && s.logouts[step.id].pc.Known? && s.logouts[step.id].pc.session.account == a)
  }

  ghost predicate LocationSince(states: seq<State>, steps: seq<Step>, i: nat, a: bytes, loc: Location, now: nat)
    requires |states| == |steps| + 1 && i < |states|
  {
    exists k: nat | k < i :: BringsLocation(states[k], steps[k], a, loc) && now < states[k].now + TTL
      && forall j | k < j < i :: !EndsLocation(states[j], steps[j], a)
  }

  lemma LocationStep(s: State, step: Step, s': State, a: bytes, loc: Location, now: nat)
    requires Next(s, step, s')
    ensures Lookup(s'.tables.locs, a, now) == Some(loc) <==>
      if EndsLocation(s, step, a) then BringsLocation(s, step, a, loc) && now < s.now + TTL
      else Lookup(s.tables.locs, a, now) == Some(loc)
  {
  }

  lemma SinceOneMore(states: seq<State>, steps: seq<Step>, i: nat, a: bytes, loc: Location, now: nat)
    requires |states| == |steps| + 1 && 0 < i < |states|
    ensures LocationSince(states, steps, i, a, loc, now) <==>
      if EndsLocation(states[i - 1], steps[i - 1], a)
      then BringsLocation(states[i - 1], steps[i - 1], a, loc) && now < states[i - 1].now + TTL
      else LocationSince(states, steps, i - 1, a, loc, now)
  {
    if !EndsLocation(states[i - 1], steps[i - 1], a) && LocationSince(states, steps, i - 1, a, loc, now) {
      var k: nat :| k < i - 1 && BringsLocation(states[k], steps[k], a, loc) && now < states[k].now + TTL
        && forall j | k < j < i - 1 :: !EndsLocation(states[j], steps[j], a);
      assert forall j | k < j < i :: !EndsLocation(states[j], steps[j], a);
    }
    if LocationSince(states, steps, i, a, loc, now) {
      var k: nat :| k < i && BringsLocation(states[k], steps[k], a, loc) && now < states[k].now + TTL
        && forall j | k < j < i :: !EndsLocation(states[j], steps[j], a);
    }
  }

  /**
   However handlers interleave, the location read for an account is the one its last location write brought, if that
   is less than 48 hours ago and no logout of a session of the account has deleted since; otherwise there is none.
  */
  lemma {:induction false} LocationReadIff(
    states: seq<State>, steps: seq<Step>, i: nat, a: bytes, loc: Location, now: nat)
    requires IsRun(states, steps) && i < |states|
    ensures Lookup(states[i].tables.locs, a, now) == Some(loc) <==> LocationSince(states, steps, i, a, loc, now)
  {
    if i == 0 {
    } else {
      LocationReadIff(states, steps, i - 1, a, loc, now);
      assert Runs.TakesStep(Next, states, steps, i - 1);
      LocationStep(states[i - 1], steps[i - 1], states[i], a, loc, now);
      SinceOneMore(states, steps, i, a, loc, now);
    }
  }

  /** The step writes session x for channel c. */
  predicate BringsSession(s: State, step: Step, c: bytes, x: Session) {
    && step.WriteSession? && step.fate != Refused && step.channelId in s.logins
    && s.logins[step.channelId].session == x && x.channelId == c
  }

  /** The step replaces or deletes the session of channel c. */
  predicate EndsSession(s: State, step: Step, c: bytes) {
    || (step.WriteSession? && step.fate != Refused && step.channelId in s.logins
        && s.logins[step.channelId].session.channelId == c)
    || (step.DeleteSession? && step.fate != Refused && step.id in s.logouts
        && s.logouts[step.id].pc.LocationGone? && s.logouts[step.id].pc.session.channelId == c)
  }

  ghost predicate SessionSince(states: seq<State>, steps: seq<Step>, i: nat, c: bytes, x: Session, now: nat)
    requires |states| == |steps| + 1 && i < |states|
  {
    exists k: nat | k < i :: BringsSession(states[k], steps[k], c, x) && now < states[k].now + TTL
      && forall j | k < j < i :: !EndsSession(states[j], steps[j], c)
  }

  lemma SessionStep(s: State, step: Step, s': State, c: bytes, x: Session, now: nat)
    requires Next(s, step, s')
    ensures Lookup(s'.tables.sessions, c, now) == Some(x) <==>
      if EndsSession(s, step, c) then BringsSession(s, step, c, x) && now < s.now + TTL
      else Lookup(s.tables.sessions, c, now) == Some(x)
  {
  }

  lemma SessionSinceOneMore(states: seq<State>, steps: seq<Step>, i: nat, c: bytes, x: Session, now: nat)
    requires |states| == |steps| + 1 && 0 < i < |states|
    ensures SessionSince(states, steps, i, c, x, now) <==>
      if EndsSession(states[i - 1], steps[i - 1], c)
      then BringsSession(states[i - 1], steps[i - 1], c, x) && now < states[i - 1].now + TTL
      else SessionSince(states, steps, i - 1, c, x, now)
  {
    if !EndsSession(states[i - 1], steps[i - 1], c) && SessionSince(states, steps, i - 1, c, x, now) {
      var k: nat :| k < i - 1 && BringsSession(states[k], steps[k], c, x) && now < states[k].now + TTL
        && forall j | k < j < i - 1 :: !EndsSession(states[j], steps[j], c);
      assert forall j | k < j < i :: !EndsSession(states[j], steps[j], c);
    }
    if SessionSince(states, steps, i, c, x, now) {
      var k: nat :| k < i && BringsSession(states[k], steps[k], c, x) && now < states[k].now + TTL
        && forall j | k < j < i :: !EndsSession(states[j], steps[j], c);
    }
  }

  /**
   However handlers interleave, the session read for a channel is the one its session write brought, acknowledged or
   not, if that is less than 48 hours ago and no logout has deleted it since; otherwise there is none.
  */
  lemma {:induction false} SessionReadIff(
    states: seq<State>, steps: seq<Step>, i: nat, c: bytes, x: Session, now: nat)
    requires IsRun(states, steps) && i < |states|
    ensures Lookup(states[i].tables.sessions, c, now) == Some(x) <==> SessionSince(states, steps, i, c, x, now)
  {
    if i == 0 {
    } else {
      SessionReadIff(states, steps, i - 1, c, x, now);
      assert Runs.TakesStep(Next, states, steps, i - 1);
      SessionStep(states[i - 1], steps[i - 1], states[i], c, x, now);
      SessionSinceOneMore(states, steps, i, c, x, now);
    }
  }

  /** The time that has passed. */
  function Elapsed(steps: seq<Step>): nat {
    if steps == [] then 0
    else Elapsed(steps[..|steps| - 1]) + if steps[|steps| - 1].Tick? then steps[|steps| - 1].nanos else 0
  }

  lemma {:induction false} ClockIsElapsed(states: seq<State>, steps: seq<Step>, i: nat)
    requires IsRun(states, steps) && i < |states|
    ensures states[i].now == Elapsed(steps[..i])
  {
    if i == 0 {
    } else {
      ClockIsElapsed(states, steps, i - 1);
      assert Runs.TakesStep(Next, states, steps, i - 1);
      assert steps[..i][..i - 1] == steps[..i - 1];
    }
  }

  // ----- in which order handlers call the store

  /** A session is written only after the location's write was acknowledged. */
  lemma {:induction false} WrittenSince(states: seq<State>, steps: seq<Step>, i: nat, c: bytes) returns (k: nat)
    requires IsRun(states, steps) && i < |states| && LoginAt(states[i], c, Written)
    ensures k < i && steps[k] == WriteLocation(c, Acknowledged)
  {
    assert Runs.TakesStep(Next, states, steps, i - 1);
    if LoginAt(states[i - 1], c, Written) {
      k := WrittenSince(states, steps, i - 1, c);
    } else {
      k := i - 1;
    }
  }

  /** A login has gone through only when both its writes were acknowledged, the location's first. */
  lemma {:induction false} LoggedInSince(states: seq<State>, steps: seq<Step>, i: nat, c: bytes)
    returns (k: nat, j: nat)
    requires IsRun(states, steps) && i < |states| && LoginAt(states[i], c, LoggedIn)
    ensures k < j < i && steps[k] == WriteLocation(c, Acknowledged) && steps[j] == WriteSession(c, Acknowledged)
  {
    assert Runs.TakesStep(Next, states, steps, i - 1);
    if LoginAt(states[i - 1], c, LoggedIn) {
      k, j := LoggedInSince(states, steps, i - 1, c);
    } else {
      j := i - 1;
      k := WrittenSince(states, steps, j, c);
    }
  }

  ghost predicate FoundBy(states: seq<State>, steps: seq<Step>, k: int, id: nat, x: Session)
    requires |states| == |steps| + 1
  {
    && 0 <= k < |steps| && steps[k] == FindSession(id, true) && id in states[k].logouts
    && Lookup(states[k].tables.sessions, states[k].logouts[id].channelId, states[k].now) == Some(x)
  }

  /** A logout deletes for the session it was able to read, and for no other. */
  lemma {:induction false} KnownSince(states: seq<State>, steps: seq<Step>, i: nat, id: nat) returns (k: nat)
    requires IsRun(states, steps) && i < |states| && id in states[i].logouts
    requires states[i].logouts[id].pc.Known? || states[i].logouts[id].pc.LocationGone?
    ensures k < i && FoundBy(states, steps, k, id, states[i].logouts[id].pc.session)
  {
    assert Runs.TakesStep(Next, states, steps, i - 1);
    if id in states[i - 1].logouts
      && (states[i - 1].logouts[id].pc.Known? || states[i - 1].logouts[id].pc.LocationGone?) {
      k := KnownSince(states, steps, i - 1, id);
    } else {
      k := i - 1;
    }
  }

  /** It deletes the session only after the location's deletion was acknowledged. */
  lemma {:induction false} LocationGoneSince(states: seq<State>, steps: seq<Step>, i: nat, id: nat) returns (k: nat)
    requires IsRun(states, steps) && i < |states| && id in states[i].logouts && states[i].logouts[id].pc.LocationGone?
    ensures k < i && steps[k] == DeleteLocation(id, Acknowledged)
  {
    assert Runs.TakesStep(Next, states, steps, i - 1);
    if id in states[i - 1].logouts && states[i - 1].logouts[id].pc.LocationGone? {
      k := LocationGoneSince(states, steps, i - 1, id);
    } else {
      k := i - 1;
    }
  }

  /** Whatever the others do, a handler that is not done can make its next call, and that may go any way. */
  lemma HandlersGoOn(s: State, c: bytes, id: nat, answered: bool, fate: Fate)
    ensures c in s.logins ==>
      match s.logins[c].pc
      case Arrived => Enabled(s, ReadOld(c, answered))
      case Looked(_) => Enabled(s, WriteLocation(c, fate))
      case Written => Enabled(s, WriteSession(c, fate))
      case _ => true
    ensures id in s.logouts ==>
      match s.logouts[id].pc
      case Asked => Enabled(s, FindSession(id, answered))
      case Known(_) => Enabled(s, DeleteLocation(id, fate))
      case LocationGone(_) => Enabled(s, DeleteSession(id, fate))
      case Over => true
  {
  }

  /**
   A login that reads the old location finds exactly what the account's last location write brought, if that can still
   be read; that is whom it kicks out.
  */
  lemma LoginFindsIff(states: seq<State>, steps: seq<Step>, k: nat, c: bytes, loc: Location)
    requires IsRun(states, steps) && k < |steps| && steps[k] == ReadOld(c, true)
    ensures c in states[k].logins && c in states[k + 1].logins
    ensures states[k + 1].logins[c].pc == Looked(Some(loc)) <==>
      LocationSince(states, steps, k, states[k].logins[c].session.account, loc, states[k].now)
    ensures states[k + 1].logins[c].pc.Looked? && states[k + 1].tables == states[k].tables
  {
    assert Runs.TakesStep(Next, states, steps, k);
    LocationReadIff(states, steps, k, states[k].logins[c].session.account, loc, states[k].now);
  }

  /** The location a completed login wrote is still the account's as long as nothing has replaced or deleted it. */
  lemma CompletedLoginIsFound(states: seq<State>, steps: seq<Step>, k: nat, i: nat, x: Session)
    requires IsRun(states, steps) && k < i < |states| && x.Location().Fits()
    requires steps[k] == WriteLocation(x.channelId, Acknowledged)
    requires x.channelId in states[k].logins && states[k].logins[x.channelId].session == x
    requires states[i].now < states[k].now + TTL
    requires forall j | k < j < i && steps[j].WriteLocation? && steps[j].channelId in states[j].logins ::
      states[j].logins[steps[j].channelId].session.account != x.account
    requires forall j | k < j < i && steps[j].DeleteLocation? && steps[j].id in states[j].logouts
        && states[j].logouts[steps[j].id].pc.Known? ::
      states[j].logouts[steps[j].id].pc.session.account != x.account
    ensures Lookup(states[i].tables.locs, x.account, states[i].now) == Some(x.Location())
  {
    assert Runs.TakesStep(Next, states, steps, k);
    StoredIsReadBack(x);
    assert BringsLocation(states[k], steps[k], x.account, x.Location());
    assert forall j | k < j < i :: !EndsLocation(states[j], steps[j], x.account);
    LocationReadIff(states, steps, i, x.account, x.Location(), states[i].now);
  }

  // ----- why it says no more

  /** With an id too long for its length field the account's location is not the login's, or names another gateway. */
  lemma LongIdBreaksLocation(x: Session) returns (states: seq<State>, steps: seq<Step>)
    requires !x.Location().Fits()
    ensures IsRun(states, steps)
    ensures var s := states[|states| - 1];
      var found := Lookup(s.tables.locs, x.account, s.now);
      && s.logins == map[x.channelId := Login(x, LoggedIn)]
      && Lookup(s.tables.sessions, x.channelId, s.now) == Some(x)
      && found.Some? && (found.value.channelId != x.channelId || found.value.gateId != x.gateId)
  {
    states, steps := [INITIAL], [];
    states, steps := LogsIn(states, steps, x);
    StoredIsReadBack(x);
  }

  lemma Extend(states: seq<State>, steps: seq<Step>, step: Step)
    returns (states': seq<State>, steps': seq<Step>)
    requires IsRun(states, steps) && Enabled(states[|states| - 1], step)
    ensures IsRun(states', steps')
    ensures states'[|states'| - 1] == Apply(states[|states| - 1], step)
    ensures states' == states + [Apply(states[|states| - 1], step)]
  {
    states', steps' := Runs.Extend(INITIAL, Next, states, steps, step, Apply(states[|states| - 1], step));
  }

  /** A login all of whose store calls are answered. */
  lemma LogsIn(states: seq<State>, steps: seq<Step>, x: Session)
    returns (states': seq<State>, steps': seq<Step>)
    requires IsRun(states, steps)
    requires x.channelId !in states[|states| - 1].logins
    ensures IsRun(states', steps') && |states'| == |states| + 4
    ensures states' [..|states|] == states
    ensures var s, s' := states[|states| - 1], states'[|states'| - 1];
      && s'.tables == Added(s.tables, x, s.now, Both)
      && s'.logins == s.logins[x.channelId := Login(x, LoggedIn)]
      && s'.now == s.now && s'.logouts == s.logouts && s'.gone == s.gone
    ensures var s, between := states[|states| - 1], states'[|states'| - 2];
      && between.tables == Added(s.tables, x, s.now, LocationOnly)
      && between.logins == s.logins[x.channelId := Login(x, Written)]
      && between.now == s.now
  {
    var c := x.channelId;
    states', steps' := Extend(states, steps, LoginArrives(x));
    states', steps' := Extend(states', steps', ReadOld(c, true));
    states', steps' := Extend(states', steps', WriteLocation(c, Acknowledged));
    states', steps' := Extend(states', steps', WriteSession(c, Acknowledged));
  }

  /** A reader can see the location of a login whose session is not there yet. */
  lemma LocationBeforeSession(x: Session) returns (states: seq<State>, steps: seq<Step>, i: nat)
    requires x.Location().Fits()
    ensures IsRun(states, steps) && i < |states|
    ensures Lookup(states[i].tables.locs, x.account, states[i].now) == Some(x.Location())
    ensures Lookup(states[i].tables.sessions, x.channelId, states[i].now) == None
  {
    states, steps := [INITIAL], [];
    states, steps := LogsIn(states, steps, x);
    i := |states| - 2;
  }

  /** Both keys of a login can be read for 48 hours, and then no longer. */
  lemma LoginExpires(x: Session, nanos: nat) returns (states: seq<State>, steps: seq<Step>)
    requires x.Location().Fits()
    ensures IsRun(states, steps) && Elapsed(steps) == nanos
    ensures var s, lasts := states[|states| - 1], nanos < 48 * 3600 * 1_000_000_000;
      && LoginAt(s, x.channelId, LoggedIn)
      && Lookup(s.tables.locs, x.account, s.now) == (if lasts then Some(x.Location()) else None)
      && Lookup(s.tables.sessions, x.channelId, s.now) == if lasts then Some(x) else None
  {
    states, steps := [INITIAL], [];
    states, steps := LogsIn(states, steps, x);
    states, steps := Extend(states, steps, Tick(nanos));
    ClockIsElapsed(states, steps, |steps|);
    assert steps[..|steps|] == steps;
  }

  /** The second login of an account finds the first one, which is to be told to go. */
  lemma SecondLoginFindsFirst(x: Session, y: Session) returns (states: seq<State>, steps: seq<Step>)
    requires x.account == y.account && x.channelId != y.channelId && x.Location().Fits()
    ensures IsRun(states, steps)
    ensures var s := states[|states| - 1];
      && LoginAt(s, x.channelId, LoggedIn)
      && LoginAt(s, y.channelId, Looked(Some(Location(x.channelId, x.gateId))))
  {
    states, steps := [INITIAL], [];
    states, steps := LogsIn(states, steps, x);
    states, steps := Extend(states, steps, LoginArrives(y));
    states, steps := Extend(states, steps, ReadOld(y.channelId, true));
  }

  /**
   Deleting goes by account: when a kicked-out channel's logout comes after the newer login, the newer login
   keeps its session but loses its location, with every store call answered and no logout of its own.
  */
  lemma LateLogoutClearsNewerLogin(x: Session, y: Session) returns (states: seq<State>, steps: seq<Step>)
    requires x.account == y.account && x.channelId != y.channelId
    requires x.Location().Fits() && y.Location().Fits()
    ensures IsRun(states, steps)
    ensures var s := states[|states| - 1];
      && LoginAt(s, y.channelId, LoggedIn)
      && (forall id | id in s.logouts :: s.logouts[id].channelId == x.channelId)
      && Lookup(s.tables.sessions, y.channelId, s.now) == Some(y)
      && Lookup(s.tables.locs, y.account, s.now) == None
  {
    states, steps := [INITIAL], [];
    states, steps := LogsIn(states, steps, x);
    states, steps := LogsIn(states, steps, y);
    states, steps := LogsOut(states, steps, x);
  }

  /** A logout all of whose store calls are answered. */
  lemma LogsOut(states: seq<State>, steps: seq<Step>, x: Session)
    returns (states': seq<State>, steps': seq<Step>)
    requires IsRun(states, steps)
    requires states[|states| - 1].logouts == map[]
    requires Lookup(states[|states| - 1].tables.sessions, x.channelId, states[|states| - 1].now) == Some(x)
    ensures IsRun(states', steps')
    ensures var s, s' := states[|states| - 1], states'[|states'| - 1];
      && s'.tables == Deleted(s.tables, x.account, x.channelId, Both)
      && s'.logins == s.logins && s'.now == s.now
      && s'.logouts == map[0 := Logout(x.channelId, Over)]
  {
    states', steps' := Extend(states, steps, LogoutArrives(0, x.channelId));
    states', steps' := Extend(states', steps', FindSession(0, true));
    states', steps' := Extend(states', steps', DeleteLocation(0, Acknowledged));
    states', steps' := Extend(states', steps', DeleteSession(0, Acknowledged));
  }
}
