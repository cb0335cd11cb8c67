/**
 The offline sync as a whole (services/service/handler/message_handler.go): a device asks with the id of
 the last row it received, a restarted one with 0, and the pages together should be the sorted list.
 The clock stands still during a sync.
*/
module OfflineSync {
  import opened Endian
  import opened OfflineQuery
  import opened MessageService

  /**
   What the requests of one account at one moment read: the rows a sync has to deliver, which are those of its
   mailbox newer than the retention bound by send time, the contents and the clock.
  */
  datatype View = View(cfg: Config, all: seq<Row>, contents: map<int, Content>, now: int) {
    ghost predicate Valid() {
      Ordered(all) && Unique(all) && cfg.limit > 0 && (all != [] ==> all[0].sendTime > EarliestKept(cfg, now))
    }

    /** The start time read for a cursor. */
    function Start(cursor: int): int {
      StartTime(cfg, cursor, SendTimeOf(contents, cursor), now)
    }

    function PageAfter(cursor: int): seq<Row> {
      Page(cfg, all, Start(cursor))
    }

    /** The start time read for a message that has no content: a day ago, or the retention bound. */
    function Fallback(): int {
      StartTime(cfg, 1, None, now)
    }

    /** Where the page that begins after k rows ends. */
    function PageEnd(k: nat): (j: nat)
      requires k <= |all|
      ensures k <= j <= |all|
    {
      if |all| - k <= cfg.limit then |all| else k + cfg.limit
    }

    /** The page that begins after k rows. */
    function Next(k: nat): seq<Row>
      requires k <= |all|
    {
      all[k..PageEnd(k)]
    }

    /** Pages end after every `limit` rows, and after the last one. */
    predicate IsEnd(k: int)
      requires cfg.limit > 0
    {
      0 < k <= |all| && (k == |all| || IsMultiple(k, cfg.limit))
    }

    /** The start time read for the k-th row lies behind that row and before the next. */
    predicate ResumesAt(k: int)
      requires 0 < k <= |all|
    {
      Between(all, k, Start(all[k - 1].messageId))
    }

    ghost predicate ResumesEverywhere()
      requires cfg.limit > 0
    {
      forall k | IsEnd(k) :: ResumesAt(k)
    }
  }

  predicate IsMultiple(k: nat, m: nat)
    requires m > 0
  {
    k == 0 || (k >= m && IsMultiple(k - m, m))
  }

  lemma {:induction false} NotBetweenMultiples(k: nat, m: nat, d: nat)
    requires 0 < d < m && IsMultiple(k, m)
    ensures !IsMultiple(k + d, m)
  {
    if k == 0 {
    } else {
      NotBetweenMultiples(k - m, m, d);
    }
  }

  /** No query of the mailbox reaches behind the retention bound. */
  lemma PageOfMailbox(cfg: Config, sorted: seq<Row>, contents: map<int, Content>, now: int, cursor: int)
    requires Ordered(sorted)
    ensures var v := View(cfg, Newer(sorted, EarliestKept(cfg, now)), contents, now);
      Page(cfg, sorted, v.Start(cursor)) == v.PageAfter(cursor)
  {
    var v := View(cfg, Newer(sorted, EarliestKept(cfg, now)), contents, now);
    StartIsKept(v, cursor);
    NewerOfNewer(sorted, EarliestKept(cfg, now), v.Start(cursor));
  }

  lemma StartIsKept(v: View, cursor: int)
    ensures v.Start(cursor) >= EarliestKept(v.cfg, v.now)
    ensures cursor <= 0 ==> v.Start(cursor) == EarliestKept(v.cfg, v.now)
  {
  }

  /** The page handed out for the k-th row's id is the one after k rows exactly when its start lies there. */
  lemma NextPageIff(v: View, k: nat)
    requires v.Valid() && 0 < k <= |v.all|
    ensures v.PageAfter(v.all[k - 1].messageId) == v.Next(k) <==> v.ResumesAt(k)
  {
    NextIsTake(v, k);
    PageIff(v.all, v.cfg.limit, k, v.Start(v.all[k - 1].messageId));
  }

  lemma NextIsTake(v: View, k: nat)
    requires k <= |v.all|
    ensures Take(v.all[k..], v.cfg.limit) == v.Next(k)
  {
  }

  /** The page handed out without a cursor is the first one. */
  lemma FirstPage(v: View)
    requires v.Valid()
    ensures v.PageAfter(0) == v.Next(0)
  {
    StartIsKept(v, 0);
    NextIsTake(v, 0);
    PageIff(v.all, v.cfg.limit, 0, v.Start(0));
  }

  lemma ResumingRowHasAnId(v: View, k: nat)
    requires v.Valid() && 0 < k <= |v.all| && v.ResumesAt(k)
    ensures v.all[k - 1].messageId > 0
  {
    assert v.all[k - 1] in v.all;
    StartIsKept(v, v.all[k - 1].messageId);
  }

  /** The cursor stands at the beginning, or at the page end after k rows. */
  predicate At(v: View, k: nat, cursor: int)
    requires v.cfg.limit > 0
  {
    if k == 0 then cursor == 0 else v.IsEnd(k) && cursor == v.all[k - 1].messageId
  }

  lemma NextPage(v: View, k: nat, cursor: int)
    requires v.Valid() && At(v, k, cursor) && (k > 0 ==> v.ResumesAt(k))
    ensures v.PageAfter(cursor) == v.Next(k)
    ensures k > 0 ==> cursor > 0
  {
    if k == 0 {
      FirstPage(v);
    } else {
      ResumingRowHasAnId(v, k);
      NextPageIff(v, k);
    }
  }

  /** After the page that follows an end comes the next end. */
  lemma NextEnd(v: View, k: nat)
    requires v.cfg.limit > 0 && k < |v.all| && (k == 0 || v.IsEnd(k))
    ensures k < v.PageEnd(k) && v.IsEnd(v.PageEnd(k)) && forall i | k < i < v.PageEnd(k) :: !v.IsEnd(i)
  {
    forall i | k < i < v.PageEnd(k) ensures !v.IsEnd(i) {
      NotBetweenMultiples(k, v.cfg.limit, i - k);
    }
  }

  // ----- any number of pulls and cold restarts

  /** One account's device and its stored ack. `got` collects what the device has received. */
  datatype Sync = Sync(ack: int, last: int, got: seq<Row>) {
    function Cursor(): int {
      if last != 0 then last else ack
    }

    /** After a request that was answered with the list. */
    function Received(list: seq<Row>): Sync {
      Sync(if last == 0 then ack else last, if list == [] then last else list[|list| - 1].messageId, got + list)
    }
  }

  /** No ack is stored and the device has received nothing. */
  const FRESH := Sync(0, 0, [])

  datatype Action = Pull | Restart

  /** A restarted device has forgotten its last id and pulls with 0; then the ack is the cursor, and stays. */
  function Do(v: View, s: Sync, a: Action): Sync {
    match a
    case Restart => s.(last := 0)
    case Pull => s.Received(v.PageAfter(s.Cursor()))
  }

  function Run(v: View, actions: seq<Action>): Sync {
    if actions == [] then FRESH else Do(v, Run(v, actions[..|actions| - 1]), actions[|actions| - 1])
  }

  function Pulls(v: View, s: Sync, n: nat): Sync
    decreases n
  {
    if n == 0 then s else Pulls(v, Do(v, s, Pull), n - 1)
  }

  // ----- when pulling delivers the whole list

  /** After n pulls the device has the whole list, each row once and in order, and is told that nothing follows. */
  predicate CompleteAfter(v: View, s: Sync, n: nat) {
    var end := Pulls(v, s, n);
    end.got == v.all && v.PageAfter(end.Cursor()) == []
  }

  ghost predicate Completes(v: View, s: Sync) {
    exists n: nat :: CompleteAfter(v, s, n)
  }

  /** The device has exactly the first k rows, its last id is the k-th row's, and its ack lies before that row. */
  ghost predicate HasFirst(v: View, s: Sync, k: nat)
    requires v.cfg.limit > 0
  {
    var all := v.all;
    && At(v, k, s.last) && s.got == all[..k]
    && if k == 0 then s.ack == 0 else v.Start(s.ack) < all[k - 1].sendTime
  }

  lemma {:induction false} PullsOnlyAdd(v: View, s: Sync, n: nat)
    ensures s.got <= Pulls(v, s, n).got
    ensures v.PageAfter(s.Cursor()) == [] ==>
      Pulls(v, s, n).got == s.got && v.PageAfter(Pulls(v, s, n).Cursor()) == []
    decreases n
  {
    if n == 0 {
    } else {
      PullsOnlyAdd(v, Do(v, s, Pull), n - 1);
    }
  }

  /** From where the cursor resumes a pull leads to the next page end. */
  lemma GoodPull(v: View, s: Sync, k: nat)
    requires v.Valid() && HasFirst(v, s, k) && (k > 0 ==> v.ResumesAt(k)) && k < |v.all|
    ensures HasFirst(v, Do(v, s, Pull), v.PageEnd(k))
  {
    NextPage(v, k, s.last);
    NextEnd(v, k);
    ReceivedNext(v, s, k);
    AckLiesBefore(v, s, k, v.PageEnd(k));
  }

  lemma ReceivedNext(v: View, s: Sync, k: nat)
    requires v.cfg.limit > 0 && k < |v.all| && s.got == v.all[..k] && (s.last == 0 ==> s.ack == 0)
    ensures s.Received(v.Next(k)) == Sync(s.last, v.all[v.PageEnd(k) - 1].messageId, v.all[..v.PageEnd(k)])
  {
    var j := v.PageEnd(k);
    assert v.all[..k] + v.all[k..j] == v.all[..j];
  }

  lemma AckLiesBefore(v: View, s: Sync, k: nat, j: nat)
    requires v.Valid() && HasFirst(v, s, k) && (k > 0 ==> v.ResumesAt(k)) && k < j <= |v.all|
    ensures v.Start(s.last) < v.all[j - 1].sendTime
  {
    StartIsKept(v, 0);
    assert k < j - 1 ==> v.all[k].sendTime <= v.all[j - 1].sendTime;
    assert v.all[0].sendTime <= v.all[j - 1].sendTime;
  }

  /** From where it does not resume, a pull brings an empty page too early or rows that do not come next. */
  lemma BadPage(v: View, s: Sync, k: nat)
    requires v.Valid() && HasFirst(v, s, k) && k > 0 && !v.ResumesAt(k)
    ensures var page := v.PageAfter(s.Cursor());
      if page == [] then k < |v.all| else !(v.all[..k] + page <= v.all)
  {
    var page := v.PageAfter(s.Cursor());
    WrongPage(v.all, v.cfg.limit, k, v.Start(s.Cursor()));
    if v.all[..k] + page <= v.all {
      PrefixAfter(v.all, k, page);
    }
  }

  /** Then the device never has exactly the whole list and an empty page after it. */
  lemma BadPull(v: View, s: Sync, k: nat, n: nat)
    requires v.Valid() && HasFirst(v, s, k) && k > 0 && !v.ResumesAt(k)
    ensures !CompleteAfter(v, s, n)
  {
    BadPage(v, s, k);
    PullsOnlyAdd(v, s, n);
    if n > 0 {
      PullsOnlyAdd(v, Do(v, s, Pull), n - 1);
    }
  }

  lemma PrefixAfter<T>(s: seq<T>, k: nat, p: seq<T>)
    requires k <= |s| && s[..k] + p <= s
    ensures p <= s[k..]
  {
    assert p == (s[..k] + p)[k..] == s[..k + |p|][k..];
  }

  lemma {:induction false} CompletesFromIff(v: View, s: Sync, k: nat)
    requires v.Valid() && HasFirst(v, s, k)
    ensures Completes(v, s) <==> forall j | k <= j && v.IsEnd(j) :: v.ResumesAt(j)
    decreases |v.all| - k
  {
    if k > 0 && !v.ResumesAt(k) {
      forall n: nat ensures !CompleteAfter(v, s, n) {
        BadPull(v, s, k, n);
      }
    } else {
      NextPage(v, k, s.last);
      if k == |v.all| {
        assert CompleteAfter(v, s, 0);
      } else {
        GoodPull(v, s, k);
        NextEnd(v, k);
        CompletesFromIff(v, Do(v, s, Pull), v.PageEnd(k));
        OnePullMore(v, s);
      }
    }
  }

  lemma OnePullMore(v: View, s: Sync)
    requires v.PageAfter(s.Cursor()) != []
    ensures Completes(v, s) <==> Completes(v, Do(v, s, Pull))
  {
    if n: nat :| CompleteAfter(v, s, n) {
      assert CompleteAfter(v, Do(v, s, Pull), n - 1);
    }
    if n: nat :| CompleteAfter(v, Do(v, s, Pull), n) {
      assert CompleteAfter(v, s, n + 1);
    }
  }

  /**
   Pulling with the id of the last row received, from no ack, delivers the whole list and ends, if and only if
   at every page end the start time read for the row there lies behind it and before the next row.
  */
  lemma PullingCompletesIff(v: View)
    requires v.Valid()
    ensures Completes(v, FRESH) <==> v.ResumesEverywhere()
  {
    CompletesFromIff(v, FRESH, 0);
  }

  // ----- for mailboxes of user messages

  lemma LinkedResumesIff(v: View, k: nat)
    requires v.Valid() && Linked(v.all, v.contents) && 0 < k <= |v.all|
    ensures v.ResumesAt(k) <==>
      v.all[k - 1].sendTime != 0 && (k < |v.all| ==> v.all[k - 1].sendTime < v.all[k].sendTime)
  {
    assert v.all[k - 1] in v.all;
  }

  /**
   A mailbox of user messages is delivered whole exactly when no page ends between two rows of one send time;
   and a row of time 0, which counts as no time, may not end a page.
  */
  lemma LinkedCompletesIff(v: View)
    requires v.Valid() && Linked(v.all, v.contents)
    ensures Completes(v, FRESH) <==>
      forall k | v.IsEnd(k) ::
        v.all[k - 1].sendTime != 0 && (k < |v.all| ==> v.all[k - 1].sendTime < v.all[k].sendTime)
  {
    PullingCompletesIff(v);
    forall k | v.IsEnd(k)
      ensures v.ResumesAt(k) <==>
        v.all[k - 1].sendTime != 0 && (k < |v.all| ==> v.all[k - 1].sendTime < v.all[k].sendTime)
    {
      LinkedResumesIff(v, k);
    }
  }

  /** With distinct send times past the epoch it is delivered whole, whatever the page limit. */
  lemma DistinctTimesResume(v: View)
    requires v.Valid() && Linked(v.all, v.contents) && Distinct(v.all) && EarliestKept(v.cfg, v.now) >= 0
    ensures v.ResumesEverywhere() && Completes(v, FRESH)
  {
    NewerIsSuffix(v.all, EarliestKept(v.cfg, v.now));
    forall k | v.IsEnd(k) ensures v.ResumesAt(k) {
      assert v.all[k - 1] in v.all;
      LinkedResumesIff(v, k);
    }
    PullingCompletesIff(v);
  }

  lemma PageIsNewer(v: View, cursor: int)
    ensures forall r | r in v.PageAfter(cursor) :: r in v.all && r.sendTime > v.Start(cursor)
  {
    var newer := Newer(v.all, v.Start(cursor));
    forall r | r in Take(newer, v.cfg.limit) ensures r in v.all && r.sendTime > v.Start(cursor) {
      assert r in newer;
      NewerHas(v.all, v.Start(cursor), r);
    }
  }

  /** The last row received names a message of time u or later. */
  ghost predicate HasPassed(v: View, s: Sync, u: int) {
    exists r :: r in v.all && r.messageId == s.last && r.sendTime >= u
  }

  /** A mailbox of user messages with a clock past the retention time. */
  ghost predicate Plain(v: View) {
    v.Valid() && Linked(v.all, v.contents) && EarliestKept(v.cfg, v.now) >= 0
  }

  lemma PullPasses(v: View, s: Sync, u: int)
    requires Plain(v) && HasPassed(v, s, u)
    ensures forall r | r in v.PageAfter(s.Cursor()) :: r.sendTime > u
    ensures HasPassed(v, Do(v, s, Pull), u)
  {
    var q :| q in v.all && q.messageId == s.last && q.sendTime >= u;
    assert v.Start(s.last) == q.sendTime;
    PageIsNewer(v, s.last);
    var list := v.PageAfter(s.last);
    if list != [] {
      assert list[|list| - 1] in list;
    }
  }

  /** A device that has passed time u gets no more rows of that time. */
  lemma {:induction false} NothingFromThePast(v: View, s: Sync, u: int, n: nat)
    requires Plain(v) && HasPassed(v, s, u)
    ensures forall r | r in Pulls(v, s, n).got && r.sendTime <= u :: r in s.got
    decreases n
  {
    if n == 0 {
    } else {
      PullPasses(v, s, u);
      NothingFromThePast(v, Do(v, s, Pull), u, n - 1);
    }
  }

  /** The page end k lies between two rows of one send time, and no earlier one does. */
  predicate FirstTie(v: View, k: int)
    requires v.cfg.limit > 0
  {
    && v.IsEnd(k) && k < |v.all| && v.all[k - 1].sendTime == v.all[k].sendTime
    && forall i | 0 < i < k && v.IsEnd(i) :: v.all[i - 1].sendTime < v.all[i].sendTime
  }

  lemma NotAmongFirst(v: View, j: nat, k: nat)
    requires v.Valid() && j <= k < |v.all|
    ensures v.all[k] !in v.all[..j]
  {
    if v.all[k] in v.all[..j] {
      var i :| 0 <= i < j && v.all[..j][i] == v.all[k];
      UniqueAt(v.all, i, k);
    }
  }

  lemma PullTowardsTie(v: View, s: Sync, j: nat, k: nat) returns (s': Sync, next: nat)
    requires Plain(v) && FirstTie(v, k) && HasFirst(v, s, j) && j < k
    ensures s' == Do(v, s, Pull) && next <= k && HasFirst(v, s', next)
  {
    s' := Do(v, s, Pull);
    if j > 0 {
      LinkedResumesIff(v, j);
      assert v.all[j - 1] in v.all;
    }
    next := v.PageEnd(j);
    GoodPull(v, s, j);
    NextEnd(v, j);
  }

  lemma PullThenPulls(v: View, s: Sync, n: nat)
    requires n > 0
    ensures Pulls(v, s, n) == Pulls(v, Do(v, s, Pull), n - 1)
  {
  }

  lemma TieReached(v: View, s: Sync, k: nat, n: nat)
    requires Plain(v) && FirstTie(v, k) && HasFirst(v, s, k)
    ensures v.all[k] !in Pulls(v, s, n).got
  {
    NotAmongFirst(v, k, k);
    assert v.all[k - 1] in v.all;
    NothingFromThePast(v, s, v.all[k].sendTime, n);
  }

  lemma {:induction false} TieIsLostFrom(v: View, s: Sync, j: nat, k: nat, n: nat)
    requires Plain(v) && FirstTie(v, k) && HasFirst(v, s, j) && j <= k
    ensures v.all[k] !in Pulls(v, s, n).got
    decreases n
  {
    if j == k {
      TieReached(v, s, k, n);
    } else if n == 0 {
      NotAmongFirst(v, j, k);
    } else {
      var s', next := PullTowardsTie(v, s, j, k);
      TieIsLostFrom(v, s', next, k, n - 1);
      PullThenPulls(v, s, n);
    }
  }

  /** Of rows of one send time that the first such page end separates, the next one is never received. */
  lemma TieIsLost(v: View, k: nat, n: nat)
    requires Plain(v) && FirstTie(v, k)
    ensures v.all[k] !in Pulls(v, FRESH, n).got
  {
    TieIsLostFrom(v, FRESH, 0, k, n);
  }

  // ----- for mailboxes with group messages

  /** No row's message can be found. */
  ghost predicate Unlinked(rows: seq<Row>, contents: map<int, Content>) {
    forall r | r in rows :: r.messageId > 0 && r.messageId !in contents
  }

  lemma FallbackIsYesterday(v: View)
    requires v.cfg.days >= 1 && v.now > DAY
    ensures v.Fallback() == v.now - DAY
  {
    assert v.cfg.days * DAY >= DAY;
  }

  lemma UnlinkedResumesIff(v: View, k: nat)
    requires v.Valid() && Unlinked(v.all, v.contents) && 0 < k <= |v.all|
    ensures v.ResumesAt(k) <==> Between(v.all, k, v.Fallback())
  {
    assert v.all[k - 1] in v.all;
  }

  /** A mailbox of group messages is delivered whole exactly when it is empty, or one page all older than a day. */
  lemma GroupMailboxCompletesIff(v: View)
    requires v.Valid() && Unlinked(v.all, v.contents)
    ensures Completes(v, FRESH) <==>
      v.all == [] || (|v.all| <= v.cfg.limit && v.all[|v.all| - 1].sendTime <= v.Fallback())
  {
    var all := v.all;
    PullingCompletesIff(v);
    if all != [] {
      var n := |all|;
      assert v.IsEnd(n);
      UnlinkedResumesIff(v, n);
      if n > v.cfg.limit {
        assert v.IsEnd(v.cfg.limit);
        UnlinkedResumesIff(v, v.cfg.limit);
      } else {
        forall k | 0 < k < n ensures !v.IsEnd(k) {
          NotBetweenMultiples(0, v.cfg.limit, k);
        }
      }
    }
  }

  /** When they are older than a day and do not fit a page, the first page is all there ever is. */
  lemma OldGroupMessagesAreSkipped(v: View, n: nat)
    requires v.Valid() && Unlinked(v.all, v.contents) && n > 0
    requires |v.all| > v.cfg.limit && v.all[|v.all| - 1].sendTime <= v.Fallback()
    ensures Pulls(v, FRESH, n).got == v.all[..v.cfg.limit]
    ensures v.PageAfter(Pulls(v, FRESH, n).Cursor()) == []
  {
    var all, limit := v.all, v.cfg.limit;
    var s := Do(v, FRESH, Pull);
    FirstPage(v);
    assert all[limit - 1] in all;
    assert v.Start(s.Cursor()) == v.Fallback();
    SkippedIs(all, v.Fallback(), |all|);
    PullsOnlyAdd(v, s, n - 1);
  }

  /** A cursor met in a sync: none, or the message of some row. */
  ghost predicate IsCursor(v: View, cursor: int) {
    cursor == 0 || exists r :: r in v.all && r.messageId == cursor
  }

  lemma {:induction false} CursorsAreRows(v: View, s: Sync, n: nat)
    requires IsCursor(v, s.ack) && IsCursor(v, s.last)
    ensures IsCursor(v, Pulls(v, s, n).Cursor())
    decreases n
  {
    if n == 0 {
    } else {
      var list := v.PageAfter(s.Cursor());
      if list != [] {
        PageIsNewer(v, s.Cursor());
        assert list[|list| - 1] in list;
      }
      CursorsAreRows(v, Do(v, s, Pull), n - 1);
    }
  }

  /**
   A group message less than a day old and newer than every message that can be found: its own id does not lead
   past it, and no pull of any sync ever comes back empty.
  */
  lemma RecentGroupMessageRepeats(v: View, r: Row, n: nat)
    requires v.Valid() && r in v.all && r.messageId > 0 && r.messageId !in v.contents && r.sendTime > v.Fallback()
    requires forall q | q in v.all && q.messageId in v.contents ::
      NamesMessage(q, v.contents) && q.sendTime < r.sendTime
    ensures r in Newer(v.all, v.Start(r.messageId))
    ensures v.PageAfter(Pulls(v, FRESH, n).Cursor()) != []
  {
    var cursor := Pulls(v, FRESH, n).Cursor();
    CursorsAreRows(v, FRESH, n);
    StartIsKept(v, cursor);
    NewerHas(v.all, v.Start(r.messageId), r);
    NewerHas(v.all, v.Start(cursor), r);
  }

  // ----- with cold restarts

  ghost predicate HasAll(got: seq<Row>, rows: seq<Row>) {
    forall r | r in rows :: r in got
  }

  lemma HasMore(got: seq<Row>, all: seq<Row>, k: nat, j: nat)
    requires k <= j <= |all| && HasAll(got, all[..k])
    ensures HasAll(got + all[k..j], all[..j])
  {
    assert all[..j] == all[..k] + all[k..j];
  }

  /** The ack stands after a rows and the device after l of them; all rows up to there have been received. */
  ghost predicate SyncAt(v: View, s: Sync, a: nat, l: nat)
    requires v.cfg.limit > 0
  {
    && At(v, a, s.ack) && At(v, l, s.last)
    && (l == 0 || a <= l)
    && HasAll(s.got, v.all[..if a < l then l else a])
  }

  /** The row position of the next pull: after the device's last row, or after the ack when it knows none. */
  function From(a: nat, l: nat): nat {
    if l > 0 then l else a
  }

  lemma ReceivedMoves(v: View, s: Sync, a: nat, l: nat)
    requires v.cfg.limit > 0 && SyncAt(v, s, a, l) && (l > 0 ==> s.last > 0)
    ensures var k := From(a, l);
      SyncAt(v, s.Received(v.Next(k)), k, if k == |v.all| then l else v.PageEnd(k))
  {
    var k := From(a, l);
    if k < |v.all| {
      NextEnd(v, k);
    }
    HasMore(s.got, v.all, k, v.PageEnd(k));
  }

  lemma PullMoves(v: View, s: Sync, a: nat, l: nat)
    requires v.Valid() && v.ResumesEverywhere() && SyncAt(v, s, a, l)
    ensures v.PageAfter(s.Cursor()) == v.Next(From(a, l)) && (l > 0 ==> s.last > 0)
  {
    NextPage(v, a, s.ack);
    NextPage(v, l, s.last);
  }

  lemma {:induction false} RunPosition(v: View, actions: seq<Action>) returns (a: nat, l: nat)
    requires v.Valid() && v.ResumesEverywhere()
    ensures SyncAt(v, Run(v, actions), a, l)
    ensures actions != [] && actions[|actions| - 1] == Restart ==> l == 0
  {
    if actions == [] {
      a, l := 0, 0;
    } else {
      var init, last := actions[..|actions| - 1], actions[|actions| - 1];
      a, l := RunPosition(v, init);
      if last == Restart {
        l := 0;
      } else {
        var s := Run(v, init);
        PullMoves(v, s, a, l);
        ReceivedMoves(v, s, a, l);
        assert Run(v, actions) == s.Received(v.Next(From(a, l)));
        a, l := From(a, l), if From(a, l) == |v.all| then l else v.PageEnd(From(a, l));
      }
    }
  }

  /**
   For any sequence of pulls and restarts the ack stands after some row a and the device after some row l: the
   next pull gives exactly the page after l or, following a restart, after a; and nothing up to there is missing.
  */
  lemma SyncPosition(v: View, actions: seq<Action>) returns (a: nat, l: nat)
    requires v.Valid() && v.ResumesEverywhere()
    ensures SyncAt(v, Run(v, actions), a, l)
    ensures v.PageAfter(Run(v, actions).Cursor()) == v.Next(From(a, l))
    ensures actions != [] && actions[|actions| - 1] == Restart ==> l == 0
  {
    a, l := RunPosition(v, actions);
    PullMoves(v, Run(v, actions), a, l);
  }

  /** Whatever restarts there were, a pull comes back empty only when every row has been received. */
  lemma EmptyPullMeansAllReceived(v: View, actions: seq<Action>)
    requires v.Valid() && v.ResumesEverywhere()
    requires v.PageAfter(Run(v, actions).Cursor()) == []
    ensures forall r | r in v.all :: r in Run(v, actions).got
  {
    var a, l := SyncPosition(v, actions);
    assert |v.Next(From(a, l))| == 0;
    assert v.all[..From(a, l)] == v.all;
  }

  // ----- the service's own mailboxes

  function ViewOf(h: ServiceHandler, account: bytes, now: int): View
    reads h`rows, h`contents
  {
    View(h.cfg, Newer(SortByTime(Mailbox(h.rows, account, h.keep)), EarliestKept(h.cfg, now)), h.contents, now)
  }

  lemma PageOfView(h: ServiceHandler, account: bytes, now: int, cursor: int)
    ensures ViewOf(h, account, now).PageAfter(cursor) ==
      Page(h.cfg, SortByTime(Mailbox(h.rows, account, h.keep)),
           StartTime(h.cfg, cursor, SendTimeOf(h.contents, cursor), now))
  {
    SortSorts(Mailbox(h.rows, account, h.keep));
    PageOfMailbox(h.cfg, SortByTime(Mailbox(h.rows, account, h.keep)), h.contents, now, cursor);
  }

  /**
   What a sync has to deliver are the account's listed rows newer than the retention bound, each once and in order.
  */
  lemma ViewIsValid(h: ServiceHandler, account: bytes, now: int)
    requires h.Valid() && h.cfg.limit > 0
    ensures var v := ViewOf(h, account, now);
      && v.Valid()
      && forall r :: r in v.all <==>
           r in h.rows && r.accountA == account && h.keep(r) && r.sendTime > EarliestKept(h.cfg, now)
  {
    var sorted, e := SortByTime(Mailbox(h.rows, account, h.keep)), EarliestKept(h.cfg, now);
    SortSorts(Mailbox(h.rows, account, h.keep));
    MailboxIsUnique(h.rows, account, h.keep);
    NewerIsSuffix(sorted, e);
    SkippedSplits(sorted, e);
    SuffixIsUnique(sorted, Skipped(sorted, e));
    forall r ensures r in Newer(sorted, e) <==> r in sorted && r.sendTime > e {
      NewerHas(sorted, e, r);
    }
  }

  /** User messages are those that can be found by their rows, group messages those that cannot. */
  lemma UserAndGroupRows(h: ServiceHandler, account: bytes, now: int)
    requires h.Valid() && h.cfg.limit > 0
    ensures var v := ViewOf(h, account, now);
      && (Linked(v.all, h.contents) <==> forall r | r in v.all :: r.messageId !in h.memberships)
      && (Unlinked(v.all, h.contents) <==> forall r | r in v.all :: r.messageId in h.memberships)
  {
    ViewIsValid(h, account, now);
  }

  /** One request of the device, when every call comes back, is one Pull. */
  method PullOnce(h: ServiceHandler, account: bytes, now: int, s: Sync) returns (s': Sync, list: seq<Row>)
    requires s.ack == StoredAck(h.acks, account, now) && h.cfg.ackTtl > 0
    modifies h`acks
    ensures s' == Do(ViewOf(h, account, now), s, Pull)
    ensures s'.ack == StoredAck(h.acks, account, now)
    ensures list == ViewOf(h, account, now).PageAfter(s.Cursor())
  {
    PageOfView(h, account, now, s.Cursor());
    var _, indexes := h.GetOfflineMessageIndex(account, s.last, now, ALL_REACHED);
    list := indexes;
    s' := s.Received(list);
  }

  lemma PullBringsNext(v: View, s: Sync, k: nat)
    requires v.Valid() && v.ResumesEverywhere() && HasFirst(v, s, k)
    ensures v.PageAfter(s.Cursor()) == [] ==> Do(v, s, Pull).got == v.all
    ensures v.PageAfter(s.Cursor()) != [] ==> k < v.PageEnd(k) && HasFirst(v, Do(v, s, Pull), v.PageEnd(k))
  {
    NextPage(v, k, s.last);
    if k < |v.all| {
      GoodPull(v, s, k);
      NextEnd(v, k);
    }
  }

  /**
   A device that pulls until nothing comes, from a start without ack: it gets every row newer than the retention
   bound once and in order, and it comes to an end. By PullingCompletesIff it does so in no other mailbox.
  */
  method PullAll(h: ServiceHandler, account: bytes, now: int) returns (got: seq<Row>)
    requires h.Valid() && h.cfg.limit > 0 && h.cfg.ackTtl > 0 && StoredAck(h.acks, account, now) == 0
    requires ViewOf(h, account, now).ResumesEverywhere()
    modifies h`acks
    ensures got == ViewOf(h, account, now).all
  {
    ghost var v, k: nat := ViewOf(h, account, now), 0;
    ViewIsValid(h, account, now);
    var s, list := FRESH, [];
    while true
      invariant v == ViewOf(h, account, now) && s.ack == StoredAck(h.acks, account, now)
      invariant HasFirst(v, s, k)
      decreases |v.all| - k
    {
      PullBringsNext(v, s, k);
      s, list := PullOnce(h, account, now, s);
      if list == [] {
        return s.got;
      }
      k := v.PageEnd(k);
    }
  }

  lemma MembersRowIsWritten(req: InsertReq, receivers: seq<Member>, firstId: int, m: Member) returns (r: Row)
    requires m in receivers
    ensures r in GroupRows(req, receivers, firstId) && r == GroupRow(req, m, r.id)
  {
    var i :| 0 <= i < |receivers| && receivers[i] == m;
    r := GroupRows(req, receivers, firstId)[i];
  }

  /** After n pulls of a fresh device there is still something to hand out. */
  predicate NextIsNotEmpty(v: View, n: nat) {
    v.PageAfter(Pulls(v, FRESH, n).Cursor()) != []
  }

  /** As RecentGroupMessageRepeats, for a row of the service's tables that names a membership. */
  lemma GroupRowNeverSettles(h: ServiceHandler, account: bytes, now: int, r: Row, n: nat)
    requires h.Valid() && h.cfg.limit > 0 && h.cfg.days >= 1 && now > DAY
    requires r in h.rows && r.accountA == account && h.keep(r) && r.messageId in h.memberships
    requires now - DAY < r.sendTime
    requires forall q | q in h.rows && q.accountA == account && q.messageId in h.contents :: q.sendTime < r.sendTime
    ensures NextIsNotEmpty(ViewOf(h, account, now), n)
  {
    var v := ViewOf(h, account, now);
    ViewIsValid(h, account, now);
    FallbackIsYesterday(v);
    assert h.cfg.days * DAY >= DAY;
    RecentGroupMessageRepeats(v, r, n);
  }

  /**
   Storing a group message less than a day old, when the member's user messages are all older: from then on no sync
   of that member comes to an end.
  */
  method GroupMessageNeverSettles(h: ServiceHandler, req: InsertReq, m: Member, now: int)
    requires h.Valid() && h.cfg.limit > 0 && h.cfg.days >= 1 && now > DAY
    requires m in MembersOf(h.members, req.dest) && now - DAY < req.sendTime
    requires forall id :: h.keep(GroupRow(req, m, id))
    requires forall q | q in h.rows && q.accountA == m.account && q.messageId in h.contents :: q.sendTime < req.sendTime
    modifies h
    ensures forall n: nat :: NextIsNotEmpty(ViewOf(h, m.account, now), n)
  {
    ghost var rows, receivers := h.rows, MembersOf(h.members, req.dest);
    var _, messageId := h.InsertGroupMessage(req, true);
    ghost var r := MembersRowIsWritten(req, receivers, messageId + 1, m);
    GroupRowsName(req, receivers, messageId + 1, h.memberships);
    forall q | q in h.rows && q.accountA == m.account && q.messageId in h.contents ensures q.sendTime < r.sendTime {
      assert !NamesMembership(q, h.memberships);
      assert q in rows;
    }
    forall n: nat ensures NextIsNotEmpty(ViewOf(h, m.account, now), n) {
      GroupRowNeverSettles(h, m.account, now, r, n);
    }
  }
}
