/**
 Logic packets and the comma-separated list of channels one carries down to a gateway.
 The packet library is not part of this repository: a packet is a value here, marshalling keeps it.
*/
module Packets {
  import opened Endian
  import opened SessionStore

  datatype Status = Success | SystemException | InvalidPacketBody | SessionNotFound | InvalidCommand | Unauthorized
  datatype Flag = Request | Response | Push

  datatype Body =
    | NoBody
    | LoginBody(session: Session)
    | Kickout(kicked: bytes)
    | LoginResp(loggedIn: bytes)
    | ErrorResp
    | Content(data: bytes)

  /** The header fields and the two routing metas that the modelled code reads or writes. */
  datatype Packet = Packet(
    command: bytes, channelId: bytes, flag: Flag, status: Status, body: Body,
    destServer: Option<bytes>, destChannels: Option<bytes>)

  // The packet library spells the two login commands; all that matters here is that they differ.
  const SIGN_IN: bytes := [105, 110]
  const SIGN_OUT: bytes := [111, 117, 116]
  const COMMA: byte := 44

  /** pkt.NewFrom: a fresh packet for the same command and channel. */
  function NewFrom(p: Packet): Packet {
    Packet(p.command, p.channelId, Request, Success, NoBody, None, None)
  }

  /** strings.Join with a comma. */
  function Join(ids: seq<bytes>): bytes {
    if ids == [] then []
    else if |ids| == 1 then ids[0]
    else ids[0] + [COMMA] + Join(ids[1..])
  }

  /** strings.Split at commas: the pieces never contain one, and there is always a piece. */
  function Split(s: bytes): (ids: seq<bytes>)
    ensures ids != []
    ensures forall id | id in ids :: COMMA !in id
  {
    if s == [] then [[]]
    else if s[0] == COMMA then [[]] + Split(s[1..])
    else
      var rest := Split(s[1..]);
      [[s[0]] + rest[0]] + rest[1..]
  }

  lemma {:induction false} SplitPiece(id: bytes, rest: bytes)
    requires COMMA !in id
    ensures Split(id) == [id]
    ensures Split(id + [COMMA] + rest) == [id] + Split(rest)
  {
    var s := id + [COMMA] + rest;
    if id == [] {
      assert s[1..] == rest;
    } else {
      SplitPiece(id[1..], rest);
      assert s[1..] == id[1..] + [COMMA] + rest;
      assert id == [id[0]] + id[1..];
    }
  }

  lemma {:induction false} SplitOfJoin(ids: seq<bytes>)
    requires ids != [] && forall id | id in ids :: COMMA !in id
    ensures Split(Join(ids)) == ids
  {
    SplitPiece(ids[0], if |ids| == 1 then [] else Join(ids[1..]));
    if |ids| > 1 {
      SplitOfJoin(ids[1..]);
      assert ids == [ids[0]] + ids[1..];
    } else {
      assert ids == [ids[0]];
    }
  }

  /** The list that comes out is the list that went in exactly when it is non-empty and free of commas. */
  lemma SplitOfJoinIff(ids: seq<bytes>)
    ensures Split(Join(ids)) == ids <==> ids != [] && forall id | id in ids :: COMMA !in id
  {
    if ids != [] && forall id | id in ids :: COMMA !in id {
      SplitOfJoin(ids);
    }
  }

  lemma {:induction false} JoinOfSplit(s: bytes)
    ensures Join(Split(s)) == s
  {
    if s == [] {
    } else {
      var rest := Split(s[1..]);
      JoinOfSplit(s[1..]);
      assert s == [s[0]] + s[1..];
      if s[0] == COMMA {
        JoinOfMore([], rest);
      } else {
        JoinOfLonger([s[0]], rest[0], rest[1..]);
        assert rest == [rest[0]] + rest[1..];
      }
    }
  }

  lemma JoinOfMore(id: bytes, ids: seq<bytes>)
    requires ids != []
    ensures Join([id] + ids) == id + [COMMA] + Join(ids)
  {
    var all := [id] + ids;
    assert all[0] == id && all[1..] == ids;
  }

  lemma JoinOfLonger(p: bytes, id: bytes, ids: seq<bytes>)
    ensures Join([p + id] + ids) == p + Join([id] + ids)
  {
    if ids != [] {
      JoinOfMore(p + id, ids);
      JoinOfMore(id, ids);
      Reassociate(p + id, [COMMA], Join(ids));
      Reassociate(id, [COMMA], Join(ids));
      Reassociate(p, id, [COMMA] + Join(ids));
    }
  }
}
