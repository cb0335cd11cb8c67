/**
 The offline sync of a mailbox of user messages that grows meanwhile (services/service/handler/message_handler.go):
 messages are stored between a device's pulls, not always in the order of their send times.
*/
module OfflineGrowth {
  import opened Endian
  import opened OfflineQuery
  import opened MessageService
  import opened OfflineSync

  /** The mailbox as it is now, and the device. */
  datatype Mail = Mail(v: View, s: Sync) {
    /** Where the next pull starts. */
    function Start(): int {
      v.Start(s.Cursor())
    }
  }

  datatype Event = Pulled | Stored(row: Row, content: Content)

  /** A message gets a new id, and no two rows of the mailbox have one send time. */
  predicate Possible(v: View, e: Event) {
    e.Stored? ==>
      && e.row.messageId > 0 && e.row.messageId !in v.contents && e.content.sendTime == e.row.sendTime
      && e.row.sendTime > EarliestKept(v.cfg, v.now)
      && forall r | r in v.all :: r.sendTime != e.row.sendTime
  }

  function After(m: Mail, e: Event): Mail {
    match e
    case Pulled => m.(s := Do(m.v, m.s, Pull))
    case Stored(row, content) =>
      m.(v := m.v.(all := Insert(row, m.v.all), contents := m.v.contents[row.messageId := content]))
  }

  /** A fresh device on mailbox v, and what has happened since. */
  function Grown(v: View, events: seq<Event>): Mail {
    if events == [] then Mail(v, FRESH) else After(Grown(v, events[..|events| - 1]), events[|events| - 1])
  }

  predicate IsHistory(v: View, events: seq<Event>) {
    events == [] ||
    (IsHistory(v, events[..|events| - 1]) && Possible(Grown(v, events[..|events| - 1]).v, events[|events| - 1]))
  }

  /** The rows stored at or before the time the device has come to. */
  function Late(v: View, events: seq<Event>): set<Row> {
    if events == [] then {}
    else
      var init, last := events[..|events| - 1], events[|events| - 1];
      Late(v, init) +
      if last.Stored? && last.row.sendTime <= Grown(v, init).Start() then {last.row} else {}
  }

  // ----- one more row

  lemma {:induction false} NewerOfInsert(r: Row, s: seq<Row>, e: int)
    requires Ordered(s)
    ensures Newer(Insert(r, s), e) == if r.sendTime > e then Insert(r, Newer(s, e)) else Newer(s, e)
  {
    if s == [] || r.sendTime < s[0].sendTime {
      assert Insert(r, s) == [r] + s && ([r] + s)[1..] == s;
      NewerIsSuffix(s, e);
    } else {
      NewerOfInsert(r, s[1..], e);
      var more := Insert(r, s[1..]);
      assert ([s[0]] + more)[1..] == more;
      if s[0].sendTime > e {
        assert ([s[0]] + Newer(s[1..], e))[1..] == Newer(s[1..], e);
      } else {
        assert [] + Newer(more, e) == Newer(more, e) && [] + Newer(s[1..], e) == Newer(s[1..], e);
      }
    }
  }

  /** Storing one more row puts it into its account's sorted list, when that lists it and it is recent enough. */
  lemma StoredRowIsInserted(rows: seq<Row>, r: Row, account: bytes, keep: Row -> bool, e: int)
    ensures var all, all' := Newer(SortByTime(Mailbox(rows, account, keep)), e),
                             Newer(SortByTime(Mailbox(rows + [r], account, keep)), e);
      all' == if r.accountA == account && keep(r) && r.sendTime > e then Insert(r, all) else all
  {
    var box := Mailbox(rows, account, keep);
    assert (rows + [r])[..|rows|] == rows;
    SortSorts(box);
    if r.accountA == account && keep(r) {
      assert (box + [r])[..|box|] == box;
      NewerOfInsert(r, SortByTime(box), e);
    } else {
      assert box + [] == box;
    }
  }

  // ----- what every history keeps

  ghost predicate TimesDiffer(s: seq<Row>) {
    forall r, q | r in s && q in s && r.sendTime == q.sendTime :: r == q
  }

  ghost predicate Rising(s: seq<Row>) {
    forall i, j | 0 <= i < j < |s| :: s[i].sendTime < s[j].sendTime
  }

  /** The device knows the last row it received, if any. */
  ghost predicate KnowsLast(m: Mail) {
    if m.s.got == [] then m.s.last == 0 && m.s.ack == 0
    else m.s.got[|m.s.got| - 1] in m.v.all && m.s.last == m.s.got[|m.s.got| - 1].messageId
  }

  /** The time the device has come to. */
  function Reached(m: Mail): int {
    if m.s.got == [] then EarliestKept(m.v.cfg, m.v.now) else m.s.got[|m.s.got| - 1].sendTime
  }

  ghost predicate Orderly(v: View) {
    Plain(v) && TimesDiffer(v.all)
  }

  /** The device has the rows up to the time it has come to, but for the late ones. */
  ghost predicate Inv(m: Mail, late: set<Row>) {
    && Orderly(m.v) && KnowsLast(m) && Rising(m.s.got)
    && HasUpTo(m.v.all, m.s.got, Reached(m), late)
  }

  lemma StartIsReached(m: Mail)
    requires Orderly(m.v) && KnowsLast(m)
    ensures m.Start() == Reached(m)
  {
    if m.s.got == [] {
      StartIsKept(m.v, 0);
    } else {
      RowsAreKept(m.v, m.s.got[|m.s.got| - 1]);
    }
  }

  lemma RowsAreKept(v: View, r: Row)
    requires v.Valid() && r in v.all
    ensures r.sendTime > EarliestKept(v.cfg, v.now)
  {
  }

  lemma InsertKeepsUnique(r: Row, s: seq<Row>)
    requires Unique(s) && r !in s
    ensures Unique(Insert(r, s))
  {
    InsertHas(r, s);
    InsertIsPermutation(r, s);
    forall x | x in Insert(r, s) ensures multiset(Insert(r, s))[x] == 1 {
      assert multiset(Insert(r, s))[x] == multiset(s)[x] + multiset{r}[x];
    }
  }

  lemma InsertKeepsValid(v: View, r: Row, contents: map<int, Content>)
    requires v.Valid() && r !in v.all && r.sendTime > EarliestKept(v.cfg, v.now)
    ensures v.(all := Insert(r, v.all), contents := contents).Valid()
  {
    InsertKeepsOrder(r, v.all);
    InsertKeepsUnique(r, v.all);
  }

  lemma InsertKeepsLinks(s: seq<Row>, contents: map<int, Content>, r: Row, content: Content)
    requires Linked(s, contents) && r.messageId > 0 && r.messageId !in contents && content.sendTime == r.sendTime
    ensures Linked(Insert(r, s), contents[r.messageId := content])
  {
    InsertHas(r, s);
  }

  lemma InsertKeepsTimes(s: seq<Row>, r: Row)
    requires TimesDiffer(s) && forall q | q in s :: q.sendTime != r.sendTime
    ensures TimesDiffer(Insert(r, s))
  {
    InsertHas(r, s);
  }

  lemma InsertKeepsOrderly(v: View, r: Row, content: Content)
    requires Orderly(v) && Possible(v, Stored(r, content))
    ensures Orderly(v.(all := Insert(r, v.all), contents := v.contents[r.messageId := content]))
  {
    assert r !in v.all;
    InsertKeepsValid(v, r, v.contents[r.messageId := content]);
    InsertKeepsLinks(v.all, v.contents, r, content);
    InsertKeepsTimes(v.all, r);
  }

  /** The device has the rows up to time u, but for the late ones. */
  ghost predicate HasUpTo(all: seq<Row>, got: seq<Row>, u: int, late: set<Row>) {
    && (forall r :: r in got <==> r in all && r.sendTime <= u && r !in late)
    && (forall r | r in late :: r in all && r.sendTime <= u)
  }

  lemma InsertKeepsReceived(all: seq<Row>, got: seq<Row>, u: int, late: set<Row>, r: Row)
    requires HasUpTo(all, got, u, late) && r !in all
    ensures HasUpTo(Insert(r, all), got, u, late + if r.sendTime <= u then {r} else {})
  {
    InsertHas(r, all);
  }

  /** A message stored later than the device's time is to come; one stored too late is not. */
  lemma StoreStep(m: Mail, late: set<Row>, r: Row, content: Content)
    requires Inv(m, late) && Possible(m.v, Stored(r, content))
    ensures Inv(After(m, Stored(r, content)), late + if r.sendTime <= m.Start() then {r} else {})
  {
    assert r !in m.v.all;
    InsertKeepsOrderly(m.v, r, content);
    InsertKeepsReceived(m.v.all, m.s.got, Reached(m), late, r);
    StartIsReached(m);
    StillKnowsLast(m, r, content);
  }

  lemma StillKnowsLast(m: Mail, r: Row, content: Content)
    requires KnowsLast(m)
    ensures KnowsLast(After(m, Stored(r, content)))
    ensures Reached(After(m, Stored(r, content))) == Reached(m)
  {
    InsertHas(r, m.v.all);
  }

  lemma AllRises(v: View)
    requires Orderly(v)
    ensures Rising(v.all)
  {
    forall i, j | 0 <= i < j < |v.all| ensures v.all[i].sendTime < v.all[j].sendTime {
      if v.all[i].sendTime == v.all[j].sendTime {
        UniqueAt(v.all, i, j);
      }
    }
  }

  lemma PrefixCovers(s: seq<Row>, m: nat)
    requires Rising(s) && 0 < m <= |s|
    ensures Rising(s[..m]) && forall r :: r in s[..m] <==> r in s && r.sendTime <= s[m - 1].sendTime
  {
    forall r | r in s && r.sendTime <= s[m - 1].sendTime ensures r in s[..m] {
      var i :| 0 <= i < |s| && s[i] == r;
      assert i < m && s[..m][i] == r;
    }
  }

  lemma NewerRises(s: seq<Row>, u: int)
    requires Ordered(s) && Rising(s)
    ensures Rising(Newer(s, u))
  {
    NewerIsSuffix(s, u);
  }

  /** A page has all rows from its bound to its last one, in order. */
  lemma PageCovers(v: View, u: int)
    requires Orderly(v)
    ensures var page := Page(v.cfg, v.all, u);
      && Rising(page)
      && (page == [] ==> forall r | r in v.all :: r.sendTime <= u)
      && (page != [] ==> forall r :: r in page <==> r in v.all && u < r.sendTime <= page[|page| - 1].sendTime)
  {
    var newer, page := Newer(v.all, u), Page(v.cfg, v.all, u);
    AllRises(v);
    NewerRises(v.all, u);
    forall r ensures r in newer <==> r in v.all && r.sendTime > u {
      NewerHas(v.all, u, r);
    }
    if page != [] {
      assert page == newer[..|page|];
      PrefixCovers(newer, |page|);
    }
  }

  lemma RisingAppend(s: seq<Row>, t: seq<Row>, u: int)
    requires Rising(s) && Rising(t)
    requires (forall r | r in s :: r.sendTime <= u) && (forall r | r in t :: r.sendTime > u)
    ensures Rising(s + t)
  {
  }

  lemma PullStep(m: Mail, late: set<Row>)
    requires Inv(m, late)
    ensures Inv(After(m, Pulled), late)
  {
    var u, page := Reached(m), m.v.PageAfter(m.s.Cursor());
    StartIsReached(m);
    PageCovers(m.v, u);
    if page == [] {
      NoRows(m);
    } else {
      RisingAppend(m.s.got, page, u);
      NextRows(m, late, page);
    }
  }

  lemma NoRows(m: Mail)
    requires KnowsLast(m)
    ensures m.s.Received([]).got == m.s.got && KnowsLast(m.(s := m.s.Received([])))
  {
    assert m.s.got + [] == m.s.got;
  }

  lemma NextRows(m: Mail, late: set<Row>, page: seq<Row>)
    requires Inv(m, late) && page != [] && Rising(m.s.got + page)
    requires forall r :: r in page <==> r in m.v.all && Reached(m) < r.sendTime <= page[|page| - 1].sendTime
    ensures Inv(m.(s := m.s.Received(page)), late)
  {
    var m' := m.(s := m.s.Received(page));
    assert m'.s.got[|m'.s.got| - 1] == page[|page| - 1] && page[|page| - 1] in page;
    assert Reached(m') == page[|page| - 1].sendTime;
  }

  lemma FreshKeepsInv(v: View)
    requires Orderly(v)
    ensures Inv(Mail(v, FRESH), {})
  {
    forall r | r in v.all ensures r.sendTime > EarliestKept(v.cfg, v.now) {
      RowsAreKept(v, r);
    }
  }

  lemma {:induction false} HistoryKeepsInv(v: View, events: seq<Event>)
    requires Orderly(v) && IsHistory(v, events)
    ensures Inv(Grown(v, events), Late(v, events))
  {
    if events == [] {
      FreshKeepsInv(v);
    } else {
      var init, last := events[..|events| - 1], events[|events| - 1];
      HistoryKeepsInv(v, init);
      match last
      case Pulled => PullStep(Grown(v, init), Late(v, init));
      case Stored(r, content) => StoreStep(Grown(v, init), Late(v, init), r, content);
    }
  }

  /** At any time the device has, each once and in order, the rows up to its time that were not stored too late. */
  lemma ReceivedSoFar(v: View, events: seq<Event>)
    requires Orderly(v) && IsHistory(v, events)
    ensures var m := Grown(v, events);
      && Rising(m.s.got)
      && forall r :: r in m.s.got <==> r in m.v.all && r.sendTime <= m.Start() && r !in Late(v, events)
  {
    HistoryKeepsInv(v, events);
    StartIsReached(Grown(v, events));
  }

  /**
   When a pull comes back empty, the device has everything but the rows that were stored at or before the time it had
   come to then; so a growing mailbox is delivered whole if and only if there was no such row.
  */
  lemma GrowingIsDeliveredIff(v: View, events: seq<Event>)
    requires Orderly(v) && IsHistory(v, events)
    requires var m := Grown(v, events); m.v.PageAfter(m.s.Cursor()) == []
    ensures var m := Grown(v, events);
      && (forall r | r in m.v.all :: r in m.s.got <==> r !in Late(v, events))
      && ((forall r | r in m.v.all :: r in m.s.got) <==> Late(v, events) == {})
  {
    var m := Grown(v, events);
    HistoryKeepsInv(v, events);
    StartIsReached(m);
    PageCovers(m.v, m.Start());
    if late :| late in Late(v, events) {
      assert late in m.v.all && late !in m.s.got;
    }
  }

  /** A message stored after the first pull, at or before the time of the last row that pull brought, never comes. */
  lemma LateRowNeverComes(v: View, r: Row, content: Content, n: nat)
    requires Orderly(v) && r.messageId > 0 && r.messageId !in v.contents && content.sendTime == r.sendTime
    requires EarliestKept(v.cfg, v.now) < r.sendTime <= Grown(v, [Pulled]).Start()
    requires forall q | q in v.all :: q.sendTime != r.sendTime
    ensures r in PulledOn(v, r, content, n).v.all && r !in PulledOn(v, r, content, n).s.got
  {
    var events := [Pulled, Stored(r, content)] + Pullings(n);
    assert Possible(v, Stored(r, content));
    PullingsGoOn(v, r, content, n);
    HistoryKeepsInv(v, events);
  }

  function Pullings(n: nat): seq<Event> {
    if n == 0 then [] else Pullings(n - 1) + [Pulled]
  }

  /** One pull, the message stored, and n pulls more. */
  function PulledOn(v: View, r: Row, content: Content, n: nat): Mail {
    Grown(v, [Pulled, Stored(r, content)] + Pullings(n))
  }

  lemma {:induction false} PullingsGoOn(v: View, r: Row, content: Content, n: nat)
    requires Possible(v, Stored(r, content)) && r.sendTime <= Grown(v, [Pulled]).Start()
    ensures var events := [Pulled, Stored(r, content)] + Pullings(n);
      IsHistory(v, events) && r in Late(v, events)
  {
    var events := [Pulled, Stored(r, content)] + Pullings(n);
    if n == 0 {
      assert events == [Pulled, Stored(r, content)] && events[..1] == [Pulled] && [Pulled][..0] == [];
      assert IsHistory(v, []) && Possible(Grown(v, []).v, Pulled);
      assert IsHistory(v, [Pulled]);
      assert Grown(v, [Pulled]).v == v;
    } else {
      PullingsGoOn(v, r, content, n - 1);
      assert events[..|events| - 1] == [Pulled, Stored(r, content)] + Pullings(n - 1);
    }
  }

  // ----- the service's own mailboxes

  lemma MessageToIsInserted(rows: seq<Row>, req: InsertReq, id: int, account: bytes, keep: Row -> bool, e: int)
    requires req.dest == account != req.sender && keep(UserRows(req, id)[0]) && req.sendTime > e
    ensures Newer(SortByTime(Mailbox(rows + UserRows(req, id), account, keep)), e) ==
      Insert(UserRows(req, id)[0], Newer(SortByTime(Mailbox(rows, account, keep)), e))
  {
    var to, from := UserRows(req, id)[0], UserRows(req, id)[1];
    assert rows + UserRows(req, id) == rows + [to] + [from];
    StoredRowIsInserted(rows, to, account, keep, e);
    StoredRowIsInserted(rows + [to], from, account, keep, e);
  }

  /** Storing a message to an account, from another, is what Stored does to the account's mailbox. */
  method StoreFor(h: ServiceHandler, req: InsertReq, account: bytes, now: int)
    requires h.Valid() && req.dest == account != req.sender && h.keep(UserRows(req, h.next)[0])
    requires req.sendTime > EarliestKept(h.cfg, now)
    modifies h
    ensures h.Valid()
    ensures var row, content := UserRows(req, old(h.next))[0], Content(req.kind, req.body, req.extra, req.sendTime);
      ViewOf(h, account, now) == After(Mail(old(ViewOf(h, account, now)), FRESH), Stored(row, content)).v
  {
    MessageToIsInserted(h.rows, req, h.next, account, h.keep, EarliestKept(h.cfg, now));
    var _, _ := h.InsertUserMessage(req, true);
  }
}
