/**
 The rows of the message index and the query of the offline sync over them: filter, order by send
 time, limit (services/service/handler/message_handler.go).
*/
module OfflineQuery {
  import opened Endian

  datatype Row = Row(
    id: int, accountA: bytes, accountB: bytes, direction: int, messageId: int, group: bytes, sendTime: int)

  function Insert(r: Row, s: seq<Row>): seq<Row> {
    if s == [] || r.sendTime < s[0].sendTime then [r] + s else [s[0]] + Insert(r, s[1..])
  }

  function SortByTime(rows: seq<Row>): seq<Row> {
    if rows == [] then [] else Insert(rows[|rows| - 1], SortByTime(rows[..|rows| - 1]))
  }

  ghost predicate Ordered(s: seq<Row>) {
    forall i, j | 0 <= i < j < |s| :: s[i].sendTime <= s[j].sendTime
  }

  ghost predicate Distinct(s: seq<Row>) {
    forall i, j | 0 <= i < j < |s| :: s[i].sendTime != s[j].sendTime
  }

  /** No row occurs twice; each has an id of its own. */
  ghost predicate Unique(s: seq<Row>) {
    forall r | r in s :: multiset(s)[r] == 1
  }

  lemma CountedTwice(s: seq<Row>, a: nat, b: nat)
    requires a < b < |s| && s[a] == s[b]
    ensures multiset(s)[s[a]] >= 2
  {
    assert s == s[..b] + s[b..];
    assert s[..b][a] in s[..b] && s[b..][0] in s[b..];
  }

  lemma UniqueAt(s: seq<Row>, i: nat, j: nat)
    requires Unique(s) && i < |s| && j < |s| && s[i] == s[j]
    ensures i == j
  {
    if i < j {
      CountedTwice(s, i, j);
    } else if j < i {
      CountedTwice(s, j, i);
    }
  }

  lemma SuffixIsUnique(s: seq<Row>, a: nat)
    requires Unique(s) && a <= |s|
    ensures Unique(s[a..])
  {
    assert s == s[..a] + s[a..];
    forall r | r in s[a..] ensures multiset(s[a..])[r] == 1 {
      assert multiset(s)[r] == multiset(s[..a])[r] + multiset(s[a..])[r];
    }
  }

  lemma SplitFirst<T>(s: seq<T>)
    requires s != []
    ensures multiset(s) == multiset{s[0]} + multiset(s[1..])
  {
    assert s == [s[0]] + s[1..];
  }

  lemma SplitLast<T>(s: seq<T>)
    requires s != []
    ensures multiset(s) == multiset(s[..|s| - 1]) + multiset{s[|s| - 1]}
  {
    assert s == s[..|s| - 1] + [s[|s| - 1]];
  }

  lemma SameElements<T>(s: seq<T>, t: seq<T>)
    requires multiset(s) == multiset(t)
    ensures forall x :: x in s <==> x in t
  {
    forall x ensures x in s <==> x in t {
      assert x in s <==> x in multiset(s);
      assert x in t <==> x in multiset(t);
    }
  }

  lemma {:induction false} InsertIsPermutation(r: Row, s: seq<Row>)
    ensures multiset(Insert(r, s)) == multiset(s) + multiset{r}
  {
    if s != [] && r.sendTime >= s[0].sendTime {
      InsertIsPermutation(r, s[1..]);
      SplitFirst(s);
    }
  }

  lemma {:induction false} InsertHas(r: Row, s: seq<Row>)
    ensures forall x :: x in Insert(r, s) <==> x == r || x in s
  {
    if s == [] {
    } else {
      InsertHas(r, s[1..]);
      assert s == [s[0]] + s[1..];
    }
  }

  lemma PrependKeepsOrder(r: Row, s: seq<Row>)
    requires Ordered(s) && forall x | x in s :: r.sendTime <= x.sendTime
    ensures Ordered([r] + s)
  {
  }

  lemma {:induction false} InsertKeepsOrder(r: Row, s: seq<Row>)
    requires Ordered(s)
    ensures Ordered(Insert(r, s))
  {
    if s == [] || r.sendTime < s[0].sendTime {
      PrependKeepsOrder(r, s);
    } else {
      var rest := Insert(r, s[1..]);
      InsertKeepsOrder(r, s[1..]);
      InsertHas(r, s[1..]);
      PrependKeepsOrder(s[0], rest);
    }
  }

  /** The sorted list has the same rows, in order of their send times. */
  lemma {:induction false} SortSorts(rows: seq<Row>)
    ensures Ordered(SortByTime(rows)) && multiset(SortByTime(rows)) == multiset(rows)
  {
    if rows == [] {
    } else {
      var init, last := rows[..|rows| - 1], rows[|rows| - 1];
      SortSorts(init);
      InsertKeepsOrder(last, SortByTime(init));
      InsertIsPermutation(last, SortByTime(init));
      SplitLast(rows);
    }
  }

  /** Rows with distinct send times can be listed in one order only. */
  lemma {:induction false} OrderIsUnique(s: seq<Row>, t: seq<Row>)
    requires Ordered(s) && Distinct(s) && Ordered(t) && multiset(s) == multiset(t)
    ensures s == t
  {
    assert |s| == |multiset(s)| == |multiset(t)| == |t|;
    if s != [] {
      SameFirst(s, t);
      SameRest(s, t);
      OrderIsUnique(s[1..], t[1..]);
      assert s == [s[0]] + s[1..] && t == [t[0]] + t[1..];
    }
  }

  lemma SameRest<T>(s: seq<T>, t: seq<T>)
    requires s != [] && t != [] && s[0] == t[0] && multiset(s) == multiset(t)
    ensures multiset(s[1..]) == multiset(t[1..])
  {
    SplitFirst(s);
    SplitFirst(t);
    assert multiset(s[1..]) == multiset(s) - multiset{s[0]};
    assert multiset(t[1..]) == multiset(t) - multiset{s[0]};
  }

  lemma SameFirst(s: seq<Row>, t: seq<Row>)
    requires s != [] && t != [] && Ordered(s) && Distinct(s) && Ordered(t) && multiset(s) == multiset(t)
    ensures s[0] == t[0]
  {
    SameElements(s, t);
    assert t[0] in t && s[0] in s;
    assert t[0] in s && s[0] in t;
    var i :| 0 <= i < |s| && s[i] == t[0];
    var j :| 0 <= j < |t| && t[j] == s[0];
    assert s[0].sendTime <= s[i].sendTime && t[0].sendTime <= t[j].sendTime;
    assert s[0].sendTime == s[i].sendTime;
  }

  function Newer(s: seq<Row>, start: int): seq<Row> {
    if s == [] then []
    else (if s[0].sendTime > start then [s[0]] else []) + Newer(s[1..], start)
  }

  function Take(s: seq<Row>, limit: nat): seq<Row> {
    if |s| <= limit then s else s[..limit]
  }

  function Mailbox(rows: seq<Row>, account: bytes, keep: Row -> bool): seq<Row> {
    if rows == [] then []
    else
      var r := rows[|rows| - 1];
      Mailbox(rows[..|rows| - 1], account, keep) + if r.accountA == account && keep(r) then [r] else []
  }

  /** How many leading rows are not newer than start. */
  function Skipped(s: seq<Row>, start: int): (k: nat)
    ensures k <= |s|
  {
    if s == [] || s[0].sendTime > start then 0 else 1 + Skipped(s[1..], start)
  }

  /** In an ordered list the newer rows are exactly those after the skipped ones. */
  lemma {:induction false} SkippedSplits(s: seq<Row>, start: int)
    requires Ordered(s)
    ensures forall i | 0 <= i < |s| :: s[i].sendTime > start <==> i >= Skipped(s, start)
  {
    if s != [] && s[0].sendTime <= start {
      SkippedSplits(s[1..], start);
      forall i | 0 <= i < |s| ensures s[i].sendTime > start <==> i >= Skipped(s, start) {
        assert i > 0 ==> s[i] == s[1..][i - 1];
      }
    }
  }

  lemma DropTwice<T>(s: seq<T>, k: nat)
    requires k < |s|
    ensures s[1..][k..] == s[k + 1..]
  {
  }

  lemma {:induction false} NewerIsSuffix(s: seq<Row>, start: int)
    requires Ordered(s)
    ensures Newer(s, start) == s[Skipped(s, start)..]
  {
    if s == [] {
    } else {
      NewerIsSuffix(s[1..], start);
      DropTwice(s, Skipped(s[1..], start));
      if s[0].sendTime > start {
        SkippedSplits(s, start);
        SkippedSplits(s[1..], start);
        assert s == [s[0]] + s[1..];
      }
    }
  }

  lemma SkippedIs(s: seq<Row>, start: int, k: nat)
    requires Ordered(s) && k <= |s|
    requires k > 0 ==> s[k - 1].sendTime <= start
    requires k < |s| ==> s[k].sendTime > start
    ensures Skipped(s, start) == k && Newer(s, start) == s[k..]
  {
    NewerIsSuffix(s, start);
    SkippedSplits(s, start);
    assert k > 0 ==> !(k - 1 >= Skipped(s, start));
  }

  lemma NewerOfSuffix(s: seq<Row>, a: nat, b: nat, start: int)
    requires Ordered(s) && a <= b <= |s|
    requires b > 0 ==> s[b - 1].sendTime <= start
    requires b < |s| ==> s[b].sendTime > start
    ensures Newer(s[a..], start) == s[b..]
  {
    var f := s[a..];
    SkippedIs(f, start, b - a);
    assert f[b - a..] == s[b..];
  }

  lemma OrderedSuffix(s: seq<Row>, a: nat)
    requires Ordered(s) && a <= |s|
    ensures Ordered(s[a..])
  {
  }

  /** Time t lies behind the first k rows and before the next. */
  predicate Between(s: seq<Row>, k: nat, t: int)
    requires k <= |s|
  {
    (k > 0 ==> s[k - 1].sendTime <= t) && (k < |s| ==> t < s[k].sendTime)
  }

  /** A query from the wrong side of a row neither continues the list there nor ends it. */
  lemma WrongPage(s: seq<Row>, limit: nat, k: nat, t: int)
    requires Ordered(s) && Unique(s) && limit > 0 && k <= |s| && !Between(s, k, t)
    ensures var page := Take(Newer(s, t), limit);
      if page == [] then k < |s| else !(page <= s[k..])
  {
    var j, page := Skipped(s, t), Take(Newer(s, t), limit);
    NewerIsSuffix(s, t);
    SkippedSplits(s, t);
    assert k > 0 ==> (s[k - 1].sendTime > t <==> k - 1 >= j);
    if page != [] && page <= s[k..] {
      assert s[j] == page[0] == s[k..][0] == s[k];
      UniqueAt(s, j, k);
    }
  }

  /** A query returns the rows after the first k exactly when its start lies between them and the next. */
  lemma PageIff(s: seq<Row>, limit: nat, k: nat, t: int)
    requires Ordered(s) && Unique(s) && limit > 0 && k <= |s|
    ensures Take(Newer(s, t), limit) == Take(s[k..], limit) <==> Between(s, k, t)
  {
    if Between(s, k, t) {
      SkippedIs(s, t, k);
    } else {
      WrongPage(s, limit, k, t);
      assert Take(s[k..], limit) <= s[k..];
    }
  }

  /** Asking from a bound at or above the first one gives the part of its list that is newer. */
  lemma NewerOfNewer(s: seq<Row>, e: int, start: int)
    requires Ordered(s) && e <= start
    ensures Newer(s, start) == Newer(Newer(s, e), start)
    ensures Ordered(Newer(s, e))
  {
    NewerIsSuffix(s, e);
    SkippedSplits(s, e);
    NewerIsSuffix(s, start);
    SkippedSplits(s, start);
    var a, b := Skipped(s, e), Skipped(s, start);
    assert a > 0 ==> !(s[a - 1].sendTime > e);
    assert a > 0 ==> !(s[a - 1].sendTime > start);
    assert a <= b;
    NewerOfSuffix(s, a, b, start);
    OrderedSuffix(s, a);
  }

  lemma {:induction false} NewerHas(s: seq<Row>, t: int, r: Row)
    ensures r in Newer(s, t) <==> r in s && r.sendTime > t
  {
    if s == [] {
    } else {
      NewerHas(s[1..], t, r);
      assert s == [s[0]] + s[1..];
    }
  }
}
