/**
 Where an account is logged in, and its byte form in the session store (iface/location.go).
*/
module Locations {
  import opened Endian

  datatype Location = Location(channelId: bytes, gateId: bytes) {
    /** Both fields fit the 16-bit length that precedes them. */
    predicate Fits() {
      |channelId| < 0x1_0000 && |gateId| < 0x1_0000
    }
  }

  /** What Unmarshal leaves in a location: also after an error, with the fields read so far. */
  datatype Unmarshalled = Unmarshalled(ok: bool, loc: Location)

  function Encode(loc: Location): bytes {
    PutBlock(2, loc.channelId) + PutBlock(2, loc.gateId)
  }

  /** Decoding into a location whose fields were `was`. */
  function Decode(data: bytes, was: Location): Unmarshalled {
    if data == [] then Unmarshalled(false, was)
    else match ParseBlock(2, data)
      case Short => Unmarshalled(false, Location([], was.gateId))
      case Got(channelId, rest) =>
        match ParseBlock(2, rest)
        case Short => Unmarshalled(false, Location(channelId, []))
        case Got(gateId, _) => Unmarshalled(true, Location(channelId, gateId))
  }

  /** A Go location variable, or a nil pointer to one. */
  class LocationVar {
    var loc: Location

    constructor (loc: Location)
      ensures this.loc == loc
    {
      this.loc := loc;
    }

    static method Bytes(v: LocationVar?) returns (data: bytes)
      ensures data == if v == null then [] else Encode(v.loc)
    {
      if v == null {
        return [];
      }
      var buf := new Writer(true);
      var _ := buf.WriteBlock(2, v.loc.channelId);
      var _ := buf.WriteBlock(2, v.loc.gateId);
      data := buf.out;
      assert [] + PutBlock(2, v.loc.channelId) == PutBlock(2, v.loc.channelId);
    }

    method Unmarshal(data: bytes) returns (ok: bool)
      modifies this
      ensures Unmarshalled(ok, loc) == Decode(data, old(loc))
    {
      if |data| == 0 {
        return false;
      }
      var buf := new Stream([data]);
      SingleChunk(data);
      var channelId := buf.ReadBlock(2);
      loc := loc.(channelId := if channelId == None then [] else channelId.value);
      if channelId == None {
        return false;
      }
      var gateId := buf.ReadBlock(2);
      loc := loc.(gateId := if gateId == None then [] else gateId.value);
      ok := gateId != None;
    }
  }

  lemma SingleChunk(data: bytes)
    ensures Flatten([data]) == data
  {
    assert [data][1..] == [];
    assert Flatten([data]) == data + Flatten([]);
  }

  lemma RoundTrip(loc: Location, tail: bytes, was: Location)
    requires loc.Fits()
    ensures Decode(Encode(loc) + tail, was) == Unmarshalled(true, loc)
  {
    PowConstants();
    assert Encode(loc) + tail == PutBlock(2, loc.channelId) + (PutBlock(2, loc.gateId) + tail);
    BlockRoundTrip(2, loc.channelId, PutBlock(2, loc.gateId) + tail);
    BlockRoundTrip(2, loc.gateId, tail);
  }

  /** The channel id and then the gate id, each after its length, low byte first. */
  lemma Layout(loc: Location)
    requires loc.Fits()
    ensures var b, n := Encode(loc), |loc.channelId|;
      && |b| == 4 + n + |loc.gateId|
      && b[0] as nat + 256 * b[1] as nat == n && b[2..2 + n] == loc.channelId
      && b[2 + n] as nat + 256 * b[3 + n] as nat == |loc.gateId| && b[4 + n..] == loc.gateId
  {
    PowConstants();
    PutBlockFits(2, loc.channelId);
    PutBlockFits(2, loc.gateId);
    PutTwo(|loc.channelId|);
    PutTwo(|loc.gateId|);
  }

  lemma PutTwo(n: nat)
    requires n < 0x1_0000
    ensures var b := Put(n, 2);
      b[0] as nat + 256 * b[1] as nat == n
  {
    assert Put(n, 2) == [(n % 256) as byte] + Put(n / 256, 1);
    assert Put(n / 256, 1) == [(n / 256 % 256) as byte] + Put(n / 256 / 256, 0);
  }

  /** A length of 65536 or more is truncated, so the round trip holds for no longer field. */
  lemma RoundTripIff(loc: Location, was: Location)
    ensures Decode(Encode(loc), was) == Unmarshalled(true, loc) <==> loc.Fits()
  {
    PowConstants();
    if loc.Fits() {
      RoundTrip(loc, [], was);
      assert Encode(loc) + [] == Encode(loc);
    } else if Decode(Encode(loc), was) == Unmarshalled(true, loc) {
      ParsedIsShort(2, Encode(loc));
      var rest := ParseBlock(2, Encode(loc)).rest;
      ParsedIsShort(2, rest);
      assert false;
    }
  }

  lemma ParsedIsShort(k: nat, b: bytes)
    ensures ParseBlock(k, b).Got? ==> |ParseBlock(k, b).value| < Pow256(k)
  {
  }

  lemma Injective(a: Location, b: Location)
    requires a.Fits() && b.Fits() && Encode(a) == Encode(b)
    ensures a == b
  {
    RoundTripIff(a, a);
    RoundTripIff(b, a);
  }

  /** A nil location is stored as nothing at all, which no location decodes from. */
  lemma NilIsRejected(loc: Location, was: Location)
    ensures !Decode([], was).ok && Encode(loc) != []
  {
  }
}
