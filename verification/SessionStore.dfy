/**
 The session store (storage/redis.go): two keys a login, one for the account's location and one
 for the channel's session, kept in Redis under byte keys with an expiry. Every Redis call can
 fail, with or without having had its effect. A protobuf blob stands for the message in it.
*/
module SessionStore {
  import opened Endian
  import opened Locations

  datatype Session = Session(account: bytes, channelId: bytes, gateId: bytes, app: bytes) {
    function Location(): Location {
      Locations.Location(channelId, gateId)
    }
  }

  datatype Timed<+T> = Timed(value: T, expires: nat)

  /** LocationExpired: 48 hours, in nanoseconds. */
  const TTL: nat := 48 * 3600 * 1_000_000_000

  // ----- what the store means: locations by account, sessions by channel

  datatype Tables = Tables(locs: map<bytes, Timed<Location>>, sessions: map<bytes, Timed<Session>>)

  const EMPTY := Tables(map[], map[])
  const NOWHERE := Location([], [])

  function Lookup<T>(m: map<bytes, Timed<T>>, key: bytes, now: nat): Option<T> {
    if key in m && now < m[key].expires then Some(m[key].value) else None
  }

  /**
   The location read back for a session: its own when that fits its length fields, else what truncation makes of it.
  */
  function Stored(s: Session): Location {
    if s.Location().Fits() then s.Location() else Locations.Decode(Encode(s.Location()), NOWHERE).loc
  }

  lemma StoredIsReadBack(s: Session)
    ensures Stored(s) == Locations.Decode(Encode(s.Location()), NOWHERE).loc
    ensures Stored(s) == s.Location() <==> s.Location().Fits()
  {
    RoundTripIff(s.Location(), NOWHERE);
    if Stored(s) == s.Location() && !s.Location().Fits() {
      DecodeOfEncodeIsOk(s.Location());
    }
  }

  lemma DecodeOfEncodeIsOk(loc: Location)
    requires Locations.Decode(Encode(loc), NOWHERE).loc == loc
    ensures loc.Fits()
  {
    PowConstants();
    ParsedIsShort(2, Encode(loc));
    var p := ParseBlock(2, Encode(loc));
    if p.Got? {
      ParsedIsShort(2, p.rest);
    }
  }

  function PutLocation(t: Tables, s: Session, now: nat): Tables {
    t.(locs := t.locs[s.account := Timed(Stored(s), now + TTL)])
  }

  function PutSession(t: Tables, s: Session, now: nat): Tables {
    t.(sessions := t.sessions[s.channelId := Timed(s, now + TTL)])
  }

  function DropLocation(t: Tables, account: bytes): Tables {
    t.(locs := t.locs - {account})
  }

  function DropSession(t: Tables, channelId: bytes): Tables {
    t.(sessions := t.sessions - {channelId})
  }

  /** How far a two-key operation got. */
  datatype Reach = Neither | LocationOnly | Both

  function Added(t: Tables, s: Session, now: nat, reach: Reach): Tables {
    match reach
    case Neither => t
    case LocationOnly => PutLocation(t, s, now)
    case Both => PutSession(PutLocation(t, s, now), s, now)
  }

  function Deleted(t: Tables, account: bytes, channelId: bytes, reach: Reach): Tables {
    match reach
    case Neither => t
    case LocationOnly => DropLocation(t, account)
    case Both => DropSession(DropLocation(t, account), channelId)
  }

  // ----- keys

  const SESSION_PREFIX: bytes := [108, 111, 103, 105, 110, 58, 115, 110, 58]        // login:sn:
  const LOCATION_PREFIX: bytes := [108, 111, 103, 105, 110, 58, 108, 111, 99, 58]   // login:loc:
  const COLON: byte := 58

  function KeySession(channel: bytes): bytes {
    SESSION_PREFIX + channel
  }

  function KeyLocation(account: bytes, device: bytes): bytes {
    if device == [] then LOCATION_PREFIX + account else LOCATION_PREFIX + account + [COLON] + device
  }

  lemma KeyLocationInjective(a: bytes, b: bytes)
    ensures KeyLocation(a, []) == KeyLocation(b, []) <==> a == b
  {
    assert KeyLocation(a, [])[10..] == a && KeyLocation(b, [])[10..] == b;
  }

  lemma KeySessionInjective(a: bytes, b: bytes)
    ensures KeySession(a) == KeySession(b) <==> a == b
  {
    assert KeySession(a)[9..] == a && KeySession(b)[9..] == b;
  }

  lemma KeysNeverCollide(account: bytes, device: bytes, channel: bytes)
    ensures KeyLocation(account, device) != KeySession(channel)
  {
    assert KeyLocation(account, device)[6] == 108 && KeySession(channel)[6] == 115;
  }

  /** The account that stands for an account with a device: its key without one is the key of the two. */
  function WithDevice(a: bytes, d: bytes): bytes {
    if d == [] then a else a + [COLON] + d
  }

  lemma KeyOfDevice(a: bytes, d: bytes)
    ensures KeyLocation(a, d) == KeyLocation(WithDevice(a, d), [])
  {
  }

  lemma SameWithDevice(a: bytes, d: bytes, b: bytes, e: bytes)
    requires WithDevice(a, d) == WithDevice(b, e) && |a| <= |b|
    ensures if |a| == |b| then a == b && d == e else a + [COLON] <= b
  {
    var s, t := WithDevice(a, d), WithDevice(b, e);
    assert s[..|a|] == a && t[..|b|] == b;
    assert a == b[..|a|];
    if |a| == |b| {
      if d != [] && e != [] {
        assert s[|a| + 1..] == d && t[|b| + 1..] == e;
      }
    } else {
      assert d != [] && s[|a|] == COLON && t[|a|] == b[|a|];
    }
  }

  lemma HasColon(a: bytes, b: bytes)
    ensures a + [COLON] <= b ==> COLON in b
  {
    if a + [COLON] <= b {
      assert b[|a|] == (a + [COLON])[|a|];
    }
  }

  /** With a device the key is injective on accounts without a colon. */
  lemma DeviceKeys(a: bytes, d: bytes, b: bytes, e: bytes)
    requires COLON !in a && COLON !in b
    ensures KeyLocation(a, d) == KeyLocation(b, e) <==> a == b && d == e
  {
    if KeyLocation(a, d) == KeyLocation(b, e) {
      KeyOfDevice(a, d);
      KeyOfDevice(b, e);
      KeyLocationInjective(WithDevice(a, d), WithDevice(b, e));
      if |a| <= |b| {
        HasColon(a, b);
        SameWithDevice(a, d, b, e);
      } else {
        HasColon(b, a);
        SameWithDevice(b, e, a, d);
      }
    }
  }

  ghost predicate ShareAKey(a: bytes, b: bytes) {
    exists d, e :: KeyLocation(a, d) == KeyLocation(b, e)
  }

  lemma ExtensionSharesAKey(a: bytes, b: bytes)
    requires a + [COLON] <= b
    ensures ShareAKey(a, b) && ShareAKey(b, a)
  {
    var r, e: bytes := b[|a| + 1..], [COLON];
    assert b == a + [COLON] + r;
    assert WithDevice(a, r + [COLON] + e) == WithDevice(b, e);
    KeyOfDevice(a, r + [COLON] + e);
    KeyOfDevice(b, e);
    assert KeyLocation(a, r + [COLON] + e) == KeyLocation(b, e);
  }

  /** Two accounts share a location key on some devices exactly when one is the other's with a colon and more. */
  lemma ShareAKeyIff(a: bytes, b: bytes)
    ensures ShareAKey(a, b) <==> a == b || a + [COLON] <= b || b + [COLON] <= a
  {
    if d, e :| KeyLocation(a, d) == KeyLocation(b, e) {
      KeyOfDevice(a, d);
      KeyOfDevice(b, e);
      KeyLocationInjective(WithDevice(a, d), WithDevice(b, e));
      if |a| <= |b| {
        SameWithDevice(a, d, b, e);
      } else {
        SameWithDevice(b, e, a, d);
      }
    }
    if a == b {
      assert KeyLocation(a, []) == KeyLocation(b, []);
    } else if a + [COLON] <= b {
      ExtensionSharesAKey(a, b);
    } else if b + [COLON] <= a {
      ExtensionSharesAKey(b, a);
    }
  }

  /** With a colon in it, an account's key is also the key of a shorter account on some device. */
  lemma DeviceKeysCollide(a: bytes, d: bytes)
    requires d != []
    ensures KeyLocation(a, d) == KeyLocation(a + [COLON] + d, [])
  {
  }

  // ----- Redis

  /** A protobuf blob is kept as the message it encodes. */
  datatype Blob = Raw(data: bytes) | Proto(session: Session)

  type Data = map<bytes, Timed<Blob>>

  datatype Reply = Nil | Failed | Found(blob: Blob)

  /** Calls to a Redis that is up succeed; to another they may fail, with or without their effect. */
  class Redis {
    const up: bool
    var data: Data
    var now: nat
    ghost var errors: nat  // calls that came back with an error

    constructor (up: bool)
      ensures data == map[] && this.up == up
    {
      this.up := up;
      data, now, errors := map[], 0, 0;
    }

    method Set(key: bytes, blob: Blob) returns (ok: bool)
      modifies this`data, this`errors
      ensures (up ==> ok) && errors == old(errors) + if ok then 0 else 1
      ensures data == old(data)[key := Timed(blob, now + TTL)] || (!ok && data == old(data))
    {
      ok := *;
      ok := ok || up;
      var applied: bool := *;
      if ok || applied {
        data := data[key := Timed(blob, now + TTL)];
      }
      errors := errors + if ok then 0 else 1;
    }

    method Del(key: bytes) returns (ok: bool)
      modifies this`data, this`errors
      ensures (up ==> ok) && errors == old(errors) + if ok then 0 else 1
      ensures data == old(data) - {key} || (!ok && data == old(data))
    {
      ok := *;
      ok := ok || up;
      var applied: bool := *;
      if ok || applied {
        data := data - {key};
      }
      errors := errors + if ok then 0 else 1;
    }

    function Read(key: bytes): Reply
      reads this`data, this`now
    {
      match Lookup(data, key, now)
      case None => Nil
      case Some(blob) => Found(blob)
    }

    method Get(key: bytes) returns (r: Reply)
      modifies this`errors
      ensures (up ==> r != Failed) && errors == old(errors) + if r == Failed then 1 else 0
      ensures r == Read(key) || r == Failed
    {
      var fails: bool := *;
      r := if fails && !up then Failed else Read(key);
      errors := errors + if r == Failed then 1 else 0;
    }

    /** Redis refuses an MGET without keys. */
    method MGet(keys: seq<bytes>) returns (ok: bool, list: seq<Reply>)
      modifies this`errors
      ensures (up && keys != [] ==> ok) && errors == old(errors) + if ok then 0 else 1
      ensures ok ==> keys != [] && |list| == |keys| && forall i | 0 <= i < |keys| :: list[i] == Read(keys[i])
    {
      var fails: bool := *;
      if (fails && !up) || keys == [] {
        errors := errors + 1;
        return false, [];
      }
      ok, list := true, seq(|keys|, i requires 0 <= i < |keys| reads this`data, this`now => Read(keys[i]));
    }
  }

  // ----- the store over Redis

  /** The bytes in Redis and the tables they stand for. */
  ghost predicate Represents(data: Data, t: Tables) {
    RepresentsLocs(data, t.locs) && RepresentsSessions(data, t.sessions)
  }

  ghost predicate RepresentsLocs(data: Data, locs: map<bytes, Timed<Location>>) {
    forall a {:trigger KeyLocation(a, [])} :: (a in locs <==> KeyLocation(a, []) in data)
      && (a in locs ==> HoldsLocation(data[KeyLocation(a, [])], locs[a]))
  }

  ghost predicate RepresentsSessions(data: Data, sessions: map<bytes, Timed<Session>>) {
    forall c {:trigger KeySession(c)} :: (c in sessions <==> KeySession(c) in data)
      && (c in sessions ==> data[KeySession(c)] == Timed(Proto(sessions[c].value), sessions[c].expires))
  }

  ghost predicate HoldsLocation(e: Timed<Blob>, loc: Timed<Location>) {
    e.value.Raw? && e.expires == loc.expires && Locations.Decode(e.value.data, NOWHERE).loc == loc.value
  }

  lemma LocationWritten(data: Data, t: Tables, s: Session, now: nat)
    requires Represents(data, t)
    ensures var entry := Timed(Raw(Encode(s.Location())), now + TTL);
      Represents(data[KeyLocation(s.account, []) := entry], PutLocation(t, s, now))
  {
    var data' := data[KeyLocation(s.account, []) := Timed(Raw(Encode(s.Location())), now + TTL)];
    var locs' := PutLocation(t, s, now).locs;
    StoredIsReadBack(s);
    forall a ensures (a in locs' <==> KeyLocation(a, []) in data')
      && (a in locs' ==> HoldsLocation(data'[KeyLocation(a, [])], locs'[a]))
    {
      KeyLocationInjective(a, s.account);
      assert a in t.locs <==> KeyLocation(a, []) in data;
    }
    forall c ensures KeySession(c) != KeyLocation(s.account, []) { KeysNeverCollide(s.account, [], c); }
  }

  lemma SessionWritten(data: Data, t: Tables, s: Session, now: nat)
    requires Represents(data, t)
    ensures Represents(data[KeySession(s.channelId) := Timed(Proto(s), now + TTL)], PutSession(t, s, now))
  {
    var data' := data[KeySession(s.channelId) := Timed(Proto(s), now + TTL)];
    var sessions' := PutSession(t, s, now).sessions;
    forall c ensures (c in sessions' <==> KeySession(c) in data')
      && (c in sessions' ==> data'[KeySession(c)] == Timed(Proto(sessions'[c].value), sessions'[c].expires))
    {
      KeySessionInjective(c, s.channelId);
      assert c in t.sessions <==> KeySession(c) in data;
    }
    forall a ensures KeySession(s.channelId) != KeyLocation(a, []) { KeysNeverCollide(a, [], s.channelId); }
  }

  lemma LocationDropped(data: Data, t: Tables, account: bytes)
    requires Represents(data, t)
    ensures Represents(data - {KeyLocation(account, [])}, DropLocation(t, account))
  {
    var data' := data - {KeyLocation(account, [])};
    var locs' := t.locs - {account};
    forall a ensures (a in locs' <==> KeyLocation(a, []) in data')
      && (a in locs' ==> HoldsLocation(data'[KeyLocation(a, [])], locs'[a]))
    {
      KeyLocationInjective(a, account);
      assert a in t.locs <==> KeyLocation(a, []) in data;
    }
    forall c ensures KeySession(c) != KeyLocation(account, []) { KeysNeverCollide(account, [], c); }
  }

  lemma SessionDropped(data: Data, t: Tables, channelId: bytes)
    requires Represents(data, t)
    ensures Represents(data - {KeySession(channelId)}, DropSession(t, channelId))
  {
    var data' := data - {KeySession(channelId)};
    var sessions' := t.sessions - {channelId};
    forall c ensures (c in sessions' <==> KeySession(c) in data')
      && (c in sessions' ==> data'[KeySession(c)] == Timed(Proto(sessions'[c].value), sessions'[c].expires))
    {
      KeySessionInjective(c, channelId);
      assert c in t.sessions <==> KeySession(c) in data;
    }
    forall a ensures KeySession(channelId) != KeyLocation(a, []) { KeysNeverCollide(a, [], channelId); }
  }

  /** The tables are determined by the bytes. */
  lemma RepresentsIsFunctional(data: Data, t: Tables, u: Tables)
    requires Represents(data, t) && Represents(data, u)
    ensures t == u
  {
    assert t.locs.Keys == u.locs.Keys by {
      forall a ensures a in t.locs <==> a in u.locs { assert a in t.locs <==> KeyLocation(a, []) in data; }
    }
    assert t.sessions.Keys == u.sessions.Keys by {
      forall c ensures c in t.sessions <==> c in u.sessions { assert c in t.sessions <==> KeySession(c) in data; }
    }
    forall a | a in t.locs ensures t.locs[a] == u.locs[a] {
      assert HoldsLocation(data[KeyLocation(a, [])], t.locs[a]);
      assert HoldsLocation(data[KeyLocation(a, [])], u.locs[a]);
    }
    forall c | c in t.sessions ensures t.sessions[c] == u.sessions[c] {
      assert data[KeySession(c)] == Timed(Proto(t.sessions[c].value), t.sessions[c].expires);
    }
  }

  /** ErrSessionNil and the other errors of the store. */
  datatype Answer<+T> = Ok(value: T) | SessionNil | Err

  /** The locations of those accounts that have one, in the order asked for. */
  function Located(t: Tables, accounts: seq<bytes>, now: nat): seq<Location> {
    if accounts == [] then []
    else Located(t, accounts[..|accounts| - 1], now) +
         (match Lookup(t.locs, accounts[|accounts| - 1], now) case None => [] case Some(loc) => [loc])
  }

  lemma {:induction false} LocatedMeansLookedUp(t: Tables, accounts: seq<bytes>, now: nat, loc: Location)
    ensures loc in Located(t, accounts, now) <==> exists a :: a in accounts && Lookup(t.locs, a, now) == Some(loc)
  {
    if accounts == [] {
    } else {
      var init, last := accounts[..|accounts| - 1], accounts[|accounts| - 1];
      LocatedMeansLookedUp(t, init, now, loc);
      assert accounts == init + [last];
      assert forall a :: a in accounts <==> a in init || a == last;
    }
  }

  class RedisStorage {
    const cli: Redis
    ghost var tables: Tables

    ghost predicate Valid()
      reads this, cli`data
    {
      Represents(cli.data, tables)
    }

    constructor (up: bool)
      ensures Valid() && tables == EMPTY && fresh(cli) && cli.up == up
    {
      cli := new Redis(up);
      tables := EMPTY;
    }

    method SetLocation(s: Session) returns (ok: bool)
      requires Valid()
      modifies this, cli`data, cli`errors
      ensures Valid()
      ensures (cli.up ==> ok) && (ok <==> cli.errors == old(cli.errors)) && cli.errors >= old(cli.errors)
      ensures tables == PutLocation(old(tables), s, cli.now) || (!ok && tables == old(tables))
    {
      var loc := new LocationVar(s.Location());
      var data := LocationVar.Bytes(loc);
      LocationWritten(cli.data, tables, s, cli.now);
      ok := cli.Set(KeyLocation(s.account, []), Raw(data));
      if ok || cli.data != old(cli.data) {
        tables := PutLocation(tables, s, cli.now);
      }
    }

    method SetSession(s: Session) returns (ok: bool)
      requires Valid()
      modifies this, cli`data, cli`errors
      ensures Valid()
      ensures (cli.up ==> ok) && (ok <==> cli.errors == old(cli.errors)) && cli.errors >= old(cli.errors)
      ensures tables == PutSession(old(tables), s, cli.now) || (!ok && tables == old(tables))
    {
      SessionWritten(cli.data, tables, s, cli.now);
      ok := cli.Set(KeySession(s.channelId), Proto(s));
      if ok || cli.data != old(cli.data) {
        tables := PutSession(tables, s, cli.now);
      }
    }

    method DelLocation(account: bytes) returns (ok: bool)
      requires Valid()
      modifies this, cli`data, cli`errors
      ensures Valid()
      ensures (cli.up ==> ok) && (ok <==> cli.errors == old(cli.errors)) && cli.errors >= old(cli.errors)
      ensures tables == DropLocation(old(tables), account) || (!ok && tables == old(tables))
    {
      LocationDropped(cli.data, tables, account);
      ok := cli.Del(KeyLocation(account, []));
      if ok || cli.data != old(cli.data) {
        tables := DropLocation(tables, account);
      }
    }

    method DelSession(channelId: bytes) returns (ok: bool)
      requires Valid()
      modifies this, cli`data, cli`errors
      ensures Valid()
      ensures (cli.up ==> ok) && (ok <==> cli.errors == old(cli.errors)) && cli.errors >= old(cli.errors)
      ensures tables == DropSession(old(tables), channelId) || (!ok && tables == old(tables))
    {
      SessionDropped(cli.data, tables, channelId);
      ok := cli.Del(KeySession(channelId));
      if ok || cli.data != old(cli.data) {
        tables := DropSession(tables, channelId);
      }
    }

    /** The location is always written before the session. */
    method Add(s: Session) returns (ok: bool, ghost reach: Reach)
      requires Valid()
      modifies this, cli`data, cli`errors
      ensures Valid()
      ensures (cli.up ==> ok) && (ok <==> cli.errors == old(cli.errors)) && cli.errors >= old(cli.errors)
      ensures tables == Added(old(tables), s, cli.now, reach) && (ok ==> reach == Both)
    {
      ok := SetLocation(s);
      reach := if tables == old(tables) && !ok then Neither else LocationOnly;
      if !ok {
        return;
      }
      ghost var between := tables;
      ok := SetSession(s);
      if ok || tables != between {
        reach := Both;
      }
    }

    /** Whatever channel the account's location names by now, it is what goes first. */
    method Delete(account: bytes, channelId: bytes) returns (ok: bool, ghost reach: Reach)
      requires Valid()
      modifies this, cli`data, cli`errors
      ensures Valid()
      ensures (cli.up ==> ok) && (ok <==> cli.errors == old(cli.errors)) && cli.errors >= old(cli.errors)
      ensures tables == Deleted(old(tables), account, channelId, reach) && (ok ==> reach == Both)
    {
      ok := DelLocation(account);
      reach := if tables == old(tables) && !ok then Neither else LocationOnly;
      if !ok {
        return;
      }
      ghost var between := tables;
      ok := DelSession(channelId);
      if ok || tables != between {
        reach := Both;
      }
    }

    method Get(channelId: bytes) returns (r: Answer<Session>)
      requires Valid()
      modifies cli`errors
      ensures (cli.up ==> r != Err) && cli.errors == old(cli.errors) + if r == Err then 1 else 0
      ensures r == Err || r == (match Lookup(tables.sessions, channelId, cli.now)
        case None => SessionNil
        case Some(s) => Ok(s))
    {
      var reply := cli.Get(KeySession(channelId));
      assert channelId in tables.sessions <==> KeySession(channelId) in cli.data;
      match reply {
        case Nil => r := SessionNil;
        case Failed => r := Err;
        case Found(blob) => r := Ok(blob.session);
      }
    }

    /** A location is only ever written without a device, so one is found for the account that stands for the two. */
    method GetLocation(account: bytes, device: bytes) returns (r: Answer<Location>)
      requires Valid()
      modifies cli`errors
      ensures (cli.up ==> r != Err) && cli.errors == old(cli.errors) + if r == Err then 1 else 0
      ensures r == Err || r == (match Lookup(tables.locs, WithDevice(account, device), cli.now)
        case None => SessionNil
        case Some(loc) => Ok(loc))
    {
      ghost var a := WithDevice(account, device);
      KeyOfDevice(account, device);
      var reply := cli.Get(KeyLocation(account, device));
      assert a in tables.locs <==> KeyLocation(a, []) in cli.data;
      match reply {
        case Nil => r := SessionNil;
        case Failed => r := Err;
        case Found(blob) =>
          assert HoldsLocation(cli.data[KeyLocation(a, [])], tables.locs[a]);
          var loc := new LocationVar(NOWHERE);
          var _ := loc.Unmarshal(blob.data);
          r := Ok(loc.loc);
      }
    }

    method KeyLocations(accounts: seq<bytes>) returns (keys: seq<bytes>)
      ensures |keys| == |accounts| && forall i | 0 <= i < |keys| :: keys[i] == KeyLocation(accounts[i], [])
    {
      keys := [];
      for i := 0 to |accounts|
        invariant |keys| == i && forall j | 0 <= j < i :: keys[j] == KeyLocation(accounts[j], [])
      {
        keys := keys + [KeyLocation(accounts[i], [])];
      }
    }

    method GetLocations(accounts: seq<bytes>) returns (ok: bool, result: seq<Location>)
      requires Valid()
      modifies cli`errors
      ensures (cli.up && accounts != [] ==> ok) && cli.errors == old(cli.errors) + if ok then 0 else 1
      ensures ok ==> accounts != [] && result == Located(tables, accounts, cli.now)
    {
      var keys := KeyLocations(accounts);
      var list;
      ok, list := cli.MGet(keys);
      result := [];
      if !ok {
        return;
      }
      for i := 0 to |list|
        invariant result == Located(tables, accounts[..i], cli.now) && cli.errors == old(cli.errors)
      {
        var account := accounts[i];
        assert accounts[..i + 1][..i] == accounts[..i];
        assert account in tables.locs <==> KeyLocation(account, []) in cli.data;
        if list[i] == Nil {
          continue;
        }
        assert HoldsLocation(cli.data[KeyLocation(account, [])], tables.locs[account]);
        var loc := new LocationVar(NOWHERE);
        var _ := loc.Unmarshal(list[i].blob.data);
        result := result + [loc.loc];
      }
      assert accounts[..|list|] == accounts;
    }
  }
}
