/**
 What the session store says after any history of logins and logouts handled one at a time
 (storage/redis.go, services/server/handler/login_handler.go, services/server/serv/handler.go).
*/
module LoginHistory {
  import opened Endian
  import opened Locations
  import opened SessionStore

  /** A handled login or logout, when it was, and how far its two store calls got. */
  datatype Event =
    | Login(session: Session, at: nat, reach: Reach)
    | Logout(channelId: bytes, at: nat, reach: Reach)

  /** Time does not go back. */
  ghost predicate Chronicle(h: seq<Event>) {
    forall i, j | 0 <= i < j < |h| :: h[i].at <= h[j].at
  }

  /** A logout of a channel without a readable session ends before DoSysLogout. */
  function AfterEvent(t: Tables, e: Event): Tables {
    match e
    case Login(s, at, reach) => Added(t, s, at, reach)
    case Logout(c, at, reach) =>
      match Lookup(t.sessions, c, at)
      case None => t
      case Some(s) => Deleted(t, s.account, s.channelId, reach)
  }

  function After(h: seq<Event>): Tables {
    if h == [] then EMPTY else AfterEvent(After(h[..|h| - 1]), h[|h| - 1])
  }

  // ----- the same in terms of the history alone

  /** Event i of h wrote session s for channel c. */
  predicate BroughtSession(h: seq<Event>, i: nat, c: bytes, s: Session)
    requires i < |h|
  {
    h[i].Login? && h[i].reach == Both && h[i].session == s && s.channelId == c
  }

  /** Event i of h replaced or removed the session of channel c. */
  predicate EndsSession(h: seq<Event>, i: nat, c: bytes)
    requires i < |h|
  {
    h[i].reach == Both && (if h[i].Login? then h[i].session.channelId == c else h[i].channelId == c)
  }

  /** c logged in with s less than 48 hours before `now`, and has not logged in again or out since. */
  ghost predicate HasSession(h: seq<Event>, c: bytes, s: Session, now: nat) {
    exists i: nat | i < |h| :: BroughtSession(h, i, c, s) && now < h[i].at + TTL
      && forall j: nat | i < j < |h| :: !EndsSession(h, j, c)
  }

  /** Event i of h wrote a location for account a that is read back as loc. */
  predicate BroughtLocation(h: seq<Event>, i: nat, a: bytes, loc: Location)
    requires i < |h|
  {
    h[i].Login? && h[i].reach != Neither && h[i].session.account == a && Stored(h[i].session) == loc
  }

  /** Event i of h replaced the location of account a, or was a logout of a session of a known then. */
  ghost predicate EndsLocation(h: seq<Event>, i: nat, a: bytes)
    requires i < |h|
  {
    && h[i].reach != Neither
    && if h[i].Login? then h[i].session.account == a
       else exists s: Session | HasSession(h[..i], h[i].channelId, s, h[i].at) :: s.account == a
  }

  ghost predicate HasLocation(h: seq<Event>, a: bytes, loc: Location, now: nat) {
    exists i: nat | i < |h| :: BroughtLocation(h, i, a, loc) && now < h[i].at + TTL
      && forall j: nat | i < j < |h| :: !EndsLocation(h, j, a)
  }

  lemma PrefixChronicle(h: seq<Event>, k: nat)
    requires Chronicle(h) && k <= |h|
    ensures Chronicle(h[..k])
  {
  }

  /** What one more event does to HasSession. */
  lemma SessionStep(h: seq<Event>, e: Event, c: bytes, s: Session, now: nat)
    ensures HasSession(h + [e], c, s, now) <==>
      if e.reach == Both && (if e.Login? then e.session.channelId == c else e.channelId == c)
      then e.Login? && e.session == s && now < e.at + TTL
      else HasSession(h, c, s, now)
  {
    var g, n := h + [e], |h|;
    assert forall i: nat | i < n :: g[i] == h[i];
    assert EndsSession(g, n, c) <==>
      e.reach == Both && (if e.Login? then e.session.channelId == c else e.channelId == c);
    if EndsSession(g, n, c) {
      if e.Login? && e.session == s && now < e.at + TTL {
        assert BroughtSession(g, n, c, s);
      }
    } else {
      if HasSession(h, c, s, now) {
        var i: nat :| i < n && BroughtSession(h, i, c, s) && now < h[i].at + TTL
          && forall j: nat | i < j < n :: !EndsSession(h, j, c);
        assert BroughtSession(g, i, c, s);
        forall j: nat | i < j < |g| ensures !EndsSession(g, j, c) {
          if j < n { assert !EndsSession(h, j, c); }
        }
      }
      if HasSession(g, c, s, now) {
        var i: nat :| i < |g| && BroughtSession(g, i, c, s) && now < g[i].at + TTL
          && forall j: nat | i < j < |g| :: !EndsSession(g, j, c);
        assert i < n && BroughtSession(h, i, c, s);
        forall j: nat | i < j < n ensures !EndsSession(h, j, c) {
          assert !EndsSession(g, j, c);
        }
      }
    }
  }

  /** Event e, coming after h, replaces or deletes the location of a. */
  ghost predicate Displaces(h: seq<Event>, e: Event, a: bytes) {
    && e.reach != Neither
    && if e.Login? then e.session.account == a
       else exists s: Session | HasSession(h, e.channelId, s, e.at) :: s.account == a
  }

  lemma EndsIsDisplaces(h: seq<Event>, e: Event, i: nat, a: bytes)
    requires i <= |h|
    ensures EndsLocation(h + [e], i, a) <==> if i < |h| then EndsLocation(h, i, a) else Displaces(h, e, a)
  {
    assert (h + [e])[..i] == h[..i];
    assert h[..|h|] == h;
  }

  lemma LocationKept(h: seq<Event>, e: Event, a: bytes, loc: Location, now: nat)
    requires !Displaces(h, e, a)
    ensures HasLocation(h, a, loc, now) ==> HasLocation(h + [e], a, loc, now)
  {
    var g, n := h + [e], |h|;
    if HasLocation(h, a, loc, now) {
      var i: nat :| i < n && BroughtLocation(h, i, a, loc) && now < h[i].at + TTL
        && forall j: nat | i < j < n :: !EndsLocation(h, j, a);
      assert BroughtLocation(g, i, a, loc);
      forall j: nat | i < j < |g| ensures !EndsLocation(g, j, a) {
        EndsIsDisplaces(h, e, j, a);
      }
    }
  }

  lemma LocationWasThere(h: seq<Event>, e: Event, a: bytes, loc: Location, now: nat)
    requires !Displaces(h, e, a) && HasLocation(h + [e], a, loc, now)
    ensures HasLocation(h, a, loc, now)
  {
    var g, n := h + [e], |h|;
    var i: nat :| i < |g| && BroughtLocation(g, i, a, loc) && now < g[i].at + TTL
      && forall j: nat | i < j < |g| :: !EndsLocation(g, j, a);
    assert i < n && BroughtLocation(h, i, a, loc);
    forall j: nat | i < j < n ensures !EndsLocation(h, j, a) {
      EndsIsDisplaces(h, e, j, a);
      assert !EndsLocation(g, j, a);
    }
  }

  lemma LocationReplaced(h: seq<Event>, e: Event, a: bytes, loc: Location, now: nat)
    requires Displaces(h, e, a)
    ensures HasLocation(h + [e], a, loc, now) <==> e.Login? && Stored(e.session) == loc && now < e.at + TTL
  {
    var g, n := h + [e], |h|;
    EndsIsDisplaces(h, e, n, a);
    if e.Login? && Stored(e.session) == loc && now < e.at + TTL {
      assert BroughtLocation(g, n, a, loc);
    }
    if HasLocation(g, a, loc, now) {
      var i: nat :| i < |g| && BroughtLocation(g, i, a, loc) && now < g[i].at + TTL
        && forall j: nat | i < j < |g| :: !EndsLocation(g, j, a);
      assert i == n;
    }
  }

  /** What one more event does to HasLocation. */
  lemma LocationStep(h: seq<Event>, e: Event, a: bytes, loc: Location, now: nat)
    ensures HasLocation(h + [e], a, loc, now) <==>
      if Displaces(h, e, a) then e.Login? && Stored(e.session) == loc && now < e.at + TTL
      else HasLocation(h, a, loc, now)
  {
    if Displaces(h, e, a) {
      LocationReplaced(h, e, a, loc, now);
    } else {
      LocationKept(h, e, a, loc, now);
      if HasLocation(h + [e], a, loc, now) {
        LocationWasThere(h, e, a, loc, now);
      }
    }
  }

  lemma {:induction false} SessionsAreOwn(h: seq<Event>, c: bytes)
    ensures c in After(h).sessions ==> After(h).sessions[c].value.channelId == c
  {
    if h == [] {
    } else {
      SessionsAreOwn(h[..|h| - 1], c);
    }
  }

  ghost predicate NotBefore(h: seq<Event>, now: nat) {
    forall e | e in h :: e.at <= now
  }

  /** What one event does to the session read for c. */
  lemma SessionAfterEvent(t: Tables, e: Event, c: bytes, s: Session, now: nat)
    requires e.at <= now
    requires e.Logout? && e.channelId in t.sessions ==> t.sessions[e.channelId].value.channelId == e.channelId
    ensures Lookup(AfterEvent(t, e).sessions, c, now) == Some(s) <==>
      if e.reach == Both && (if e.Login? then e.session.channelId == c else e.channelId == c)
      then e.Login? && e.session == s && now < e.at + TTL
      else Lookup(t.sessions, c, now) == Some(s)
  {
  }

  /** What one event does to the location read for a. */
  lemma LocationAfterEvent(t: Tables, e: Event, a: bytes, loc: Location, now: nat)
    ensures Lookup(AfterEvent(t, e).locs, a, now) == Some(loc) <==>
      if e.reach != Neither && (if e.Login? then e.session.account == a else KnownOf(t, e.channelId, e.at, a))
      then e.Login? && Stored(e.session) == loc && now < e.at + TTL
      else Lookup(t.locs, a, now) == Some(loc)
  {
    if e.Login? {
      var put := PutLocation(t, e.session, e.at);
      assert AfterEvent(t, e).locs == if e.reach == Neither then t.locs else put.locs;
    } else {
      var x := Lookup(t.sessions, e.channelId, e.at);
      assert AfterEvent(t, e).locs ==
        if x.None? || e.reach == Neither then t.locs else t.locs - {x.value.account};
    }
  }

  /** The session read for c is one of account a. */
  predicate KnownOf(t: Tables, c: bytes, now: nat, a: bytes) {
    var x := Lookup(t.sessions, c, now);
    x.Some? && x.value.account == a
  }

  /** Get(c) yields s exactly when c logged in with s and has not logged out since. */
  lemma {:induction false} GetMeans(h: seq<Event>, c: bytes, s: Session, now: nat)
    requires Chronicle(h) && NotBefore(h, now)
    ensures Lookup(After(h).sessions, c, now) == Some(s) <==> HasSession(h, c, s, now)
  {
    if h == [] {
    } else {
      var n := |h| - 1;
      var init, e := h[..n], h[n];
      assert h == init + [e];
      PrefixChronicle(h, n);
      assert NotBefore(init, now) && NotBefore(init, e.at);
      SessionStep(init, e, c, s, now);
      GetMeans(init, c, s, now);
      if e.Logout? {
        SessionsAreOwn(init, e.channelId);
      }
      SessionAfterEvent(After(init), e, c, s, now);
    }
  }

  lemma KnownAtLogout(h: seq<Event>, c: bytes, now: nat, a: bytes)
    requires Chronicle(h) && NotBefore(h, now)
    ensures KnownOf(After(h), c, now, a) <==>
      exists s: Session | HasSession(h, c, s, now) :: s.account == a
  {
    if Lookup(After(h).sessions, c, now).Some? {
      GetMeans(h, c, Lookup(After(h).sessions, c, now).value, now);
    }
    forall s: Session | HasSession(h, c, s, now) ensures Lookup(After(h).sessions, c, now) == Some(s) {
      GetMeans(h, c, s, now);
    }
  }

  /**
   GetLocation(a) yields the location of the last login of a that wrote one, if that is less than 48 hours ago
   and no logout of a session of a, known to the store then, came after it; otherwise nothing.
  */
  lemma {:induction false} GetLocationMeans(h: seq<Event>, a: bytes, loc: Location, now: nat)
    requires Chronicle(h) && NotBefore(h, now)
    ensures Lookup(After(h).locs, a, now) == Some(loc) <==> HasLocation(h, a, loc, now)
  {
    if h == [] {
    } else {
      var n := |h| - 1;
      var init, e := h[..n], h[n];
      assert h == init + [e];
      PrefixChronicle(h, n);
      assert NotBefore(init, now) && NotBefore(init, e.at);
      LocationStep(init, e, a, loc, now);
      GetLocationMeans(init, a, loc, now);
      LocationAfterEvent(After(init), e, a, loc, now);
      if e.Logout? {
        KnownAtLogout(init, e.channelId, e.at, a);
      }
    }
  }

  /** Every login that channel c had before event j was of another account. */
  predicate OfOtherAccounts(h: seq<Event>, j: nat, c: bytes, a: bytes)
    requires j <= |h|
  {
    forall k: nat | k < j && h[k].Login? && h[k].session.channelId == c :: h[k].session.account != a
  }

  /**
   The newest login of an account keeps its location for 48 hours unless a session of that account logs out: other
   accounts may log in and out as they like.
  */
  lemma NewestLoginIsFound(h: seq<Event>, i: nat, now: nat)
    requires Chronicle(h) && NotBefore(h, now)
    requires i < |h| && h[i].Login? && h[i].reach == Both && now < h[i].at + TTL
    requires forall j: nat | i < j < |h| ::
      if h[j].Login? then h[j].session.account != h[i].session.account
      else OfOtherAccounts(h, j, h[j].channelId, h[i].session.account)
    ensures Lookup(After(h).locs, h[i].session.account, now) == Some(Stored(h[i].session))
  {
    var a, loc := h[i].session.account, Stored(h[i].session);
    assert BroughtLocation(h, i, a, loc);
    forall j: nat | i < j < |h| ensures !EndsLocation(h, j, a) {
      if h[j].Logout? {
        forall s: Session | HasSession(h[..j], h[j].channelId, s, h[j].at) ensures s.account != a {
          var k: nat :| k < j && BroughtSession(h[..j], k, h[j].channelId, s);
        }
      }
    }
    assert HasLocation(h, a, loc, now);
    GetLocationMeans(h, a, loc, now);
  }
}
