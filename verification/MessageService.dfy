/**
 The message service (services/service/handler/message_handler.go): storing user and group messages,
 and one page of an offline sync. The tables are sequences and maps, and a query is a function of them.
 Which rows of an account a sync may list is an arbitrary fixed predicate `keep`.
*/
module MessageService {
  import opened Endian
  import opened OfflineQuery

  datatype Content = Content(kind: int, body: bytes, extra: bytes, sendTime: int)

  datatype Member = Member(id: int, account: bytes, group: bytes)

  datatype InsertReq = InsertReq(sender: bytes, dest: bytes, sendTime: int, kind: int, body: bytes, extra: bytes)

  /** The message an account has acknowledged, and when Redis forgets it. */
  datatype Ack = Ack(messageId: int, expiry: int)

  /** OfflineSyncIndexCount, OfflineMessageExpiresIn (in days) and OfflineReadIndexExpiresIn are the wire package's. */
  datatype Config = Config(limit: nat, days: nat, ackTtl: nat)

  /** Which of the four calls a sync request makes come back without an error. */
  datatype Reach = Reach(readAck: bool, readContent: bool, query: bool, writeAck: bool)

  const ALL_REACHED := Reach(true, true, true, true)
  const DAY: int := 24 * 3600 * 1_000_000_000

  function EarliestKept(cfg: Config, now: int): int {
    now - cfg.days * DAY
  }

  /** getSentTime: `content` is the send time of the message the cursor names, when it can be read. */
  function StartTime(cfg: Config, cursor: int, content: Option<int>, now: int): int {
    var start := if cursor <= 0 then 0 else if content.None? then now - DAY else content.value;
    if start == 0 || start < EarliestKept(cfg, now) then EarliestKept(cfg, now) else start
  }

  function StoredAck(acks: map<bytes, Ack>, account: bytes, now: int): int {
    if account in acks && acks[account].expiry > now then acks[account].messageId else 0
  }

  /** A cold start uses the stored ack, or nothing. */
  function Cursor(acks: map<bytes, Ack>, account: bytes, messageId: int, now: int): int {
    if messageId != 0 then messageId else StoredAck(acks, account, now)
  }

  function Acked(acks: map<bytes, Ack>, account: bytes, messageId: int, expiry: int): map<bytes, Ack> {
    if messageId == 0 then acks else acks[account := Ack(messageId, expiry)]
  }

  function SendTimeOf(contents: map<int, Content>, messageId: int): Option<int> {
    if messageId in contents then Some(contents[messageId].sendTime) else None
  }

  /** What a query returns from the sorted mailbox. */
  function Page(cfg: Config, sorted: seq<Row>, start: int): seq<Row> {
    Take(Newer(sorted, start), cfg.limit)
  }

  // ----- the service

  class ServiceHandler {
    const cfg: Config
    const keep: Row -> bool
    var rows: seq<Row>
    var contents: map<int, Content>
    var members: seq<Member>
    var acks: map<bytes, Ack>
    var next: int  // the id generator
    ghost var memberships: map<int, bytes>  // the group of every membership there ever was

    /**
     Ids are positive and new, whatever they are for. A row names a content of its own send time, or
     the membership of its account in its group.
    */
    ghost predicate Valid()
      reads this
    {
      && IdsDiffer(contents, memberships, next)
      && (forall m | m in members :: m.id in memberships && memberships[m.id] == m.group)
      && RowsName(rows, contents, memberships, next)
    }

    constructor (cfg: Config, keep: Row -> bool)
      ensures Valid() && rows == [] && contents == map[] && members == [] && acks == map[] && memberships == map[]
      ensures this.cfg == cfg && this.keep == keep
    {
      this.cfg, this.keep := cfg, keep;
      rows, contents, members, acks, next := [], map[], [], map[], 1;
      memberships := map[];
    }

    method NextId() returns (id: int)
      modifies this`next
      ensures id == old(next) && next == id + 1
    {
      id := next;
      next := next + 1;
    }

    /** One transaction for the content and the two index rows: the receiver's, then the sender's. */
    method InsertUserMessage(req: InsertReq, commits: bool) returns (ok: bool, messageId: int)
      requires Valid()
      modifies this`rows, this`contents, this`next
      ensures Valid() && messageId == old(next) && ok == commits
      ensures !ok ==> rows == old(rows) && contents == old(contents)
      ensures messageId !in old(contents)
      ensures ok ==> contents == old(contents)[messageId := Content(req.kind, req.body, req.extra, req.sendTime)]
      ensures ok ==> rows == old(rows) + UserRows(req, messageId)
      ensures ok ==> rows == old(rows) + [
        Row(messageId + 1, req.dest, req.sender, 0, messageId, [], req.sendTime),
        Row(messageId + 2, req.sender, req.dest, 1, messageId, [], req.sendTime)]
    {
      messageId := NextId();
      var content := Content(req.kind, req.body, req.extra, req.sendTime);
      var id0 := NextId();
      var id1 := NextId();
      var idx := [
        Row(id0, req.dest, req.sender, 0, messageId, [], req.sendTime),
        Row(id1, req.sender, req.dest, 1, messageId, [], req.sendTime)];
      assert idx == UserRows(req, messageId);
      ok := commits;
      if ok {
        UserRowsName(req, messageId, contents[messageId := content]);
        StoreKeepsNames(rows, idx, contents, memberships, messageId, content, next);
        contents := contents[messageId := content];
        rows := rows + idx;
      }
    }

    /** GroupJoin: a membership's id comes from the generator that numbers messages. */
    method GroupJoin(account: bytes, group: bytes, commits: bool) returns (ok: bool)
      requires Valid()
      modifies this`members, this`next, this`memberships
      ensures Valid()
      ensures ok <==> commits && !exists m | m in old(members) :: m.account == account && m.group == group
      ensures members == old(members) + if ok then [Member(old(next), account, group)] else []
      ensures memberships == if ok then old(memberships)[old(next) := group] else old(memberships)
    {
      var id := NextId();
      ok := commits && !exists m | m in members :: m.account == account && m.group == group;
      if ok {
        members := members + [Member(id, account, group)];
        memberships := memberships[id := group];
      }
    }

    /** The index rows of a group message name the memberships, not the message. */
    method InsertGroupMessage(req: InsertReq, commits: bool) returns (ok: bool, messageId: int)
      requires Valid()
      modifies this`rows, this`contents, this`next
      ensures Valid() && messageId == old(next) && ok == commits
      ensures !ok ==> rows == old(rows) && contents == old(contents)
      ensures ok ==> contents == old(contents)[messageId := Content(req.kind, req.body, req.extra, req.sendTime)]
      ensures ok ==> rows == old(rows) + GroupRows(req, MembersOf(members, req.dest), messageId + 1)
      ensures ok ==> rows[..|old(rows)|] == old(rows) && forall account ::
        CountRows(rows, account) == CountRows(old(rows), account) + CountMemberships(members, account, req.dest)
      ensures ok ==> forall r | r in rows[|old(rows)|..] :: IsGroupRow(r, req, members)
    {
      messageId := NextId();
      var receivers := MembersOf(members, req.dest);
      var ids: seq<Row> := [];
      for i := 0 to |receivers|
        invariant next == messageId + 1 + i && rows == old(rows) && contents == old(contents)
        invariant ids == GroupRows(req, receivers[..i], messageId + 1)
      {
        var id := NextId();
        var row := Row(id, receivers[i].account, req.sender, 0, receivers[i].id, receivers[i].group, req.sendTime);
        if receivers[i].account == req.sender {
          row := row.(direction := 1);
        }
        ids := ids + [row];
      }
      ok := commits;
      if ok {
        assert receivers[..|receivers|] == receivers;
        GroupRowsName(req, receivers, messageId + 1, memberships);
        var content := Content(req.kind, req.body, req.extra, req.sendTime);
        StoreKeepsNames(rows, ids, contents, memberships, messageId, content, next);
        contents := contents[messageId := content];
        forall account
          ensures CountRows(rows + ids, account)
            == CountRows(rows, account) + CountMemberships(members, account, req.dest)
        {
          GroupRowsCount(rows, req, members, messageId + 1, account);
        }
        GroupRowsAre(req, members, messageId + 1);
        rows := rows + ids;
      }
    }

    /** A write that comes back with an error may have been done all the same. */
    method SetMessageAck(account: bytes, messageId: int, now: int, reached: bool) returns (ok: bool)
      modifies this`acks
      ensures ok == (messageId == 0 || reached)
      ensures acks == old(acks) || acks == Acked(old(acks), account, messageId, now + cfg.ackTtl)
      ensures ok ==> acks == Acked(old(acks), account, messageId, now + cfg.ackTtl)
    {
      if messageId == 0 {
        return true;
      }
      ok := reached;
      var applied: bool := *;
      if ok || applied {
        acks := acks[account := Ack(messageId, now + cfg.ackTtl)];
      }
    }

    /** An ack or a content that cannot be read counts as absent. */
    method GetSentTime(account: bytes, messageId: int, now: int, reach: Reach) returns (start: int)
      ensures var cursor := if reach.readAck then Cursor(acks, account, messageId, now) else messageId;
        start == StartTime(cfg, cursor, if reach.readContent then SendTimeOf(contents, cursor) else None, now)
    {
      var msgId := messageId;
      if msgId == 0 {
        if reach.readAck && account in acks && now < acks[account].expiry {
          msgId := acks[account].messageId;
        }
      }
      start := 0;
      if msgId > 0 {
        if reach.readContent && msgId in contents {
          start := contents[msgId].sendTime;
        } else {
          start := now - 24 * 3600 * 1_000_000_000;
        }
      }
      var earliestKeepTime := now - cfg.days * DAY;
      if start == 0 || start < earliestKeepTime {
        start := earliestKeepTime;
      }
    }

    /** The ack moves to the message asked for, not to what is being handed out; without it nothing is handed out. */
    method GetOfflineMessageIndex(account: bytes, messageId: int, now: int, reach: Reach)
      returns (ok: bool, list: seq<Row>)
      modifies this`acks
      ensures ok == (reach.query && (messageId == 0 || reach.writeAck))
      ensures ok ==> acks == Acked(old(acks), account, messageId, now + cfg.ackTtl)
      ensures acks == old(acks) || (reach.query && acks == Acked(old(acks), account, messageId, now + cfg.ackTtl))
      ensures ok ==>
        var cursor := if reach.readAck then Cursor(old(acks), account, messageId, now) else messageId;
        var content := if reach.readContent then SendTimeOf(contents, cursor) else None;
        list == Page(cfg, SortByTime(Mailbox(rows, account, keep)), StartTime(cfg, cursor, content, now))
      ensures !ok ==> list == []
    {
      var start := GetSentTime(account, messageId, now, reach);
      if !reach.query {
        return false, [];
      }
      var indexes := Take(Newer(SortByTime(Mailbox(rows, account, keep)), start), cfg.limit);
      ok := SetMessageAck(account, messageId, now, reach.writeAck);
      list := if ok then indexes else [];
    }
  }

  /** The receiver's row and the sender's, both of the message. */
  function UserRows(req: InsertReq, messageId: int): seq<Row> {
    [Row(messageId + 1, req.dest, req.sender, 0, messageId, [], req.sendTime),
     Row(messageId + 2, req.sender, req.dest, 1, messageId, [], req.sendTime)]
  }

  lemma UserRowsName(req: InsertReq, messageId: int, contents: map<int, Content>)
    requires messageId > 0 && messageId in contents && contents[messageId].sendTime == req.sendTime
    ensures Unique(UserRows(req, messageId))
    ensures forall r | r in UserRows(req, messageId) ::
      messageId < r.id < messageId + 3 && NamesMessage(r, contents)
  {
    var idx := UserRows(req, messageId);
    AppendKeepsUnique([idx[0]], [idx[1]], idx[1].id);
    assert idx == [idx[0]] + [idx[1]];
  }

  function GroupRow(req: InsertReq, m: Member, id: int): Row {
    Row(id, m.account, req.sender, if m.account == req.sender then 1 else 0, m.id, m.group, req.sendTime)
  }

  function GroupRows(req: InsertReq, receivers: seq<Member>, firstId: int): seq<Row> {
    seq(|receivers|, i requires 0 <= i < |receivers| => GroupRow(req, receivers[i], firstId + i))
  }

  lemma {:induction false} GroupRowsName(
    req: InsertReq, receivers: seq<Member>, firstId: int, memberships: map<int, bytes>)
    requires forall m | m in receivers :: m.id in memberships && memberships[m.id] == m.group
    ensures Unique(GroupRows(req, receivers, firstId))
    ensures forall r | r in GroupRows(req, receivers, firstId) ::
      firstId <= r.id < firstId + |receivers| && NamesMembership(r, memberships)
  {
    var rows := GroupRows(req, receivers, firstId);
    if receivers == [] {
      assert rows == [];
    } else {
      var n := |receivers| - 1;
      var init := GroupRows(req, receivers[..n], firstId);
      GroupRowsName(req, receivers[..n], firstId, memberships);
      AppendKeepsUnique(init, [rows[n]], firstId + n);
      assert rows == init + [rows[n]];
      assert receivers[n] in receivers;
    }
  }

  function CountRows(rows: seq<Row>, account: bytes): nat {
    if rows == [] then 0
    else CountRows(rows[..|rows| - 1], account) + if rows[|rows| - 1].accountA == account then 1 else 0
  }

  /** How often an account is a member of the group, or of any group when none is named. */
  function CountMemberships(members: seq<Member>, account: bytes, group: bytes): nat {
    if members == [] then 0
    else
      var m := members[|members| - 1];
      CountMemberships(members[..|members| - 1], account, group) +
      if m.account == account && (group == [] || m.group == group) then 1 else 0
  }

  /** An index row of the group message for one of the members, from the sender, with the direction it has for him. */
  predicate IsGroupRow(r: Row, req: InsertReq, members: seq<Member>) {
    && r.accountB == req.sender && r.sendTime == req.sendTime && (r.direction == 1 <==> r.accountA == req.sender)
    && r.direction in {0, 1} && (req.dest == [] || r.group == req.dest)
    && Member(r.messageId, r.accountA, r.group) in members
  }

  lemma {:induction false} CountMore(rows: seq<Row>, more: seq<Row>, account: bytes)
    ensures CountRows(rows + more, account) == CountRows(rows, account) + CountRows(more, account)
  {
    if more == [] {
      assert rows + more == rows;
    } else {
      var init, last := more[..|more| - 1], more[|more| - 1];
      CountMore(rows, init, account);
      assert (rows + more)[..|rows + more| - 1] == rows + init;
    }
  }

  lemma OneMoreGroupRow(req: InsertReq, receivers: seq<Member>, m: Member, firstId: int)
    ensures GroupRows(req, receivers + [m], firstId) ==
      GroupRows(req, receivers, firstId) + [GroupRow(req, m, firstId + |receivers|)]
  {
  }

  /** Each membership in the group gives its account one row. */
  lemma {:induction false} CountGroupRows(req: InsertReq, members: seq<Member>, firstId: int, account: bytes)
    ensures CountRows(GroupRows(req, MembersOf(members, req.dest), firstId), account) ==
      CountMemberships(members, account, req.dest)
  {
    if members == [] {
      assert GroupRows(req, [], firstId) == [];
    } else {
      var init, m := members[..|members| - 1], members[|members| - 1];
      var before := MembersOf(init, req.dest);
      var rows := GroupRows(req, before, firstId);
      CountGroupRows(req, init, firstId, account);
      if req.dest == [] || m.group == req.dest {
        OneMoreGroupRow(req, before, m, firstId);
        CountMore(rows, [GroupRow(req, m, firstId + |before|)], account);
        CountOne(GroupRow(req, m, firstId + |before|), account);
      } else {
        assert before + [] == before;
      }
    }
  }

  lemma CountOne(r: Row, account: bytes)
    ensures CountRows([r], account) == if r.accountA == account then 1 else 0
  {
    assert [r][..0] == [];
  }

  lemma GroupRowsCount(rows: seq<Row>, req: InsertReq, members: seq<Member>, firstId: int, account: bytes)
    ensures CountRows(rows + GroupRows(req, MembersOf(members, req.dest), firstId), account) ==
      CountRows(rows, account) + CountMemberships(members, account, req.dest)
  {
    CountMore(rows, GroupRows(req, MembersOf(members, req.dest), firstId), account);
    CountGroupRows(req, members, firstId, account);
  }

  lemma GroupRowsAre(req: InsertReq, members: seq<Member>, firstId: int)
    ensures forall r | r in GroupRows(req, MembersOf(members, req.dest), firstId) :: IsGroupRow(r, req, members)
  {
    var receivers := MembersOf(members, req.dest);
    forall r | r in GroupRows(req, receivers, firstId) ensures IsGroupRow(r, req, members) {
      var i :| 0 <= i < |receivers| && GroupRows(req, receivers, firstId)[i] == r;
      assert receivers[i] in receivers;
    }
  }

  /** The query does not repeat a member. */
  lemma {:induction false} MembersOfCounts(members: seq<Member>, group: bytes, m: Member)
    ensures multiset(MembersOf(members, group))[m] ==
      if group == [] || m.group == group then multiset(members)[m] else 0
  {
    if members == [] {
    } else {
      var init, last := members[..|members| - 1], members[|members| - 1];
      MembersOfCounts(init, group, m);
      assert members == init + [last];
    }
  }

  /** A condition on an empty group name is no condition. */
  function MembersOf(members: seq<Member>, group: bytes): (r: seq<Member>)
    ensures forall m :: m in r <==> m in members && (group == [] || m.group == group)
  {
    if members == [] then []
    else
      var m := members[|members| - 1];
      MembersOf(members[..|members| - 1], group) + if group == [] || m.group == group then [m] else []
  }

  /** The row's message can be found, with the row's own send time. */
  predicate NamesMessage(r: Row, contents: map<int, Content>) {
    r.messageId > 0 && r.messageId in contents && contents[r.messageId].sendTime == r.sendTime
  }

  predicate NamesMembership(r: Row, memberships: map<int, bytes>) {
    r.messageId in memberships && memberships[r.messageId] == r.group
  }

  ghost predicate IdsDiffer(contents: map<int, Content>, memberships: map<int, bytes>, next: int) {
    && next > 0
    && (forall k | k in contents :: 0 < k < next)
    && (forall k | k in memberships :: 0 < k < next && k !in contents)
  }

  ghost predicate RowsName(rows: seq<Row>, contents: map<int, Content>, memberships: map<int, bytes>, next: int) {
    Unique(rows) && forall r | r in rows ::
      r.id < next && (NamesMessage(r, contents) || NamesMembership(r, memberships))
  }

  /** A transaction that stores a new content and rows for it, or for memberships. */
  lemma StoreKeepsNames(rows: seq<Row>, more: seq<Row>, contents: map<int, Content>, memberships: map<int, bytes>,
                        id: int, content: Content, next: int)
    requires IdsDiffer(contents, memberships, id) && RowsName(rows, contents, memberships, id) && id < next
    requires Unique(more) && forall r | r in more :: id < r.id < next
    requires forall r | r in more :: NamesMessage(r, contents[id := content]) || NamesMembership(r, memberships)
    ensures IdsDiffer(contents[id := content], memberships, next)
    ensures RowsName(rows + more, contents[id := content], memberships, next)
  {
    AppendKeepsUnique(rows, more, id);
  }

  ghost predicate Linked(rows: seq<Row>, contents: map<int, Content>) {
    forall r | r in rows :: NamesMessage(r, contents)
  }

  lemma AppendKeepsUnique(a: seq<Row>, b: seq<Row>, bound: int)
    requires Unique(a) && Unique(b)
    requires (forall r | r in a :: r.id < bound) && (forall r | r in b :: r.id >= bound)
    ensures Unique(a + b)
  {
    forall r | r in a + b ensures multiset(a + b)[r] == 1 {
      assert multiset(a + b)[r] == multiset(a)[r] + multiset(b)[r];
      assert (r in a) != (r in b);
    }
  }

  lemma {:induction false} MailboxHas(rows: seq<Row>, account: bytes, keep: Row -> bool)
    ensures forall r ::
      multiset(Mailbox(rows, account, keep))[r] == if r.accountA == account && keep(r) then multiset(rows)[r] else 0
  {
    if rows == [] {
    } else {
      MailboxHas(rows[..|rows| - 1], account, keep);
      SplitLast(rows);
    }
  }

  /** A mailbox has the account's rows, each once; the sync's query lists those in order. */
  lemma MailboxIsUnique(rows: seq<Row>, account: bytes, keep: Row -> bool)
    requires Unique(rows)
    ensures Unique(SortByTime(Mailbox(rows, account, keep)))
    ensures forall r :: r in SortByTime(Mailbox(rows, account, keep)) <==> r in rows && r.accountA == account && keep(r)
  {
    var box := Mailbox(rows, account, keep);
    MailboxHas(rows, account, keep);
    SortSorts(box);
    forall r ensures r in SortByTime(box) <==> r in rows && r.accountA == account && keep(r) {
      assert r in SortByTime(box) <==> r in multiset(SortByTime(box));
      assert r in rows <==> r in multiset(rows);
    }
    forall r | r in SortByTime(box) ensures multiset(SortByTime(box))[r] == 1 {
      assert multiset(SortByTime(box))[r] == multiset(rows)[r];
    }
  }
}
