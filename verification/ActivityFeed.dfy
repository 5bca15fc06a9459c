/**
 The dashboard's activity feed: the newest rows of each table, merged, sorted and cut, against
 the newest rows of all tables together.
 */
module ActivityFeed {
  import opened Common

  type UserId = nat
  type OrgId = nat

  const FEED_SIZE := 20

  datatype Kind = Conversation | Artifact | Analysis | Task | Policy | Member

  /** A row of any of the six tables; timestamp is the column the feed orders that table by. */
  datatype Row = Row(
    user: UserId, org: Option<OrgId>, timestamp: int, deleted: bool, title: string, status: Option<string>)

  /** Rows by table and primary key. */
  type Database = map<(Kind, nat), Row>

  /** A member's item has a fixed title; every other item shows its row's. */
  datatype Title = OfRow(text: string) | MemberUpdated

  datatype Item = Item(kind: Kind, id: nat, timestamp: int, title: Title, status: Option<string>, org: Option<OrgId>)

  /** tasks computes its own start of the range, a moment after activity has. */
  datatype Query = Query(user: UserId, org: Option<OrgId>, since: int, taskSince: int)

  predicate InScope(q: Query, kind: Kind, row: Row) {
    if q.org.None? then !kind.Policy? && !kind.Member? && row.user == q.user && row.org.None?
    else row.org == q.org
  }

  predicate Matches(q: Query, kind: Kind, row: Row) {
    && InScope(q, kind, row)
    && (kind.Artifact? ==> !row.deleted)
    && row.timestamp >= if kind.Task? then q.taskSince else q.since
  }

  function ToItem(kind: Kind, id: nat, row: Row): Item {
    Item(kind, id, row.timestamp, if kind.Member? then MemberUpdated else OfRow(row.title), row.status, row.org)
  }

  /** The in-range rows of one table, as feed items. */
  function ItemsOf(db: Database, q: Query, kind: Kind): set<Item> {
    set k | k in db && k.0 == kind && Matches(q, kind, db[k]) :: ToItem(kind, k.1, db[k])
  }

  function AllItems(db: Database, q: Query): set<Item> {
    set k | k in db && Matches(q, k.0, db[k]) :: ToItem(k.0, k.1, db[k])
  }

  function ToSet(items: seq<Item>): set<Item> {
    set x | x in items
  }

  ghost predicate SortedDesc(items: seq<Item>) {
    forall i, j :: 0 <= i < j < |items| ==> items[i].timestamp >= items[j].timestamp
  }

  ghost predicate NoRepeats(items: seq<Item>) {
    forall i, j :: 0 <= i < j < |items| ==> items[i] != items[j]
  }

  function Min(a: nat, b: nat): nat {
    if a < b then a else b
  }

  /** ORDER BY timestamp DESC LIMIT n over rows; which of several equal timestamps survive is open. */
  ghost predicate IsNewest(items: seq<Item>, rows: set<Item>, n: nat) {
    && NoRepeats(items) && SortedDesc(items)
    && ToSet(items) <= rows
    && |items| == Min(n, |rows|)
    && forall x, y :: x in rows && x !in items && y in items ==> x.timestamp <= y.timestamp
  }

  // ----- sorting -----

  function InsertDesc(items: seq<Item>, x: Item): (r: seq<Item>)
    ensures |r| == |items| + 1
  {
    if items == [] || items[|items| - 1].timestamp >= x.timestamp then items + [x]
    else InsertDesc(items[..|items| - 1], x) + [items[|items| - 1]]
  }

  /** sorted(key=timestamp, reverse=True): descending, equal timestamps in their given order. */
  function SortDesc(items: seq<Item>): (r: seq<Item>)
    ensures |r| == |items|
  {
    if items == [] then [] else InsertDesc(SortDesc(items[..|items| - 1]), items[|items| - 1])
  }

  lemma {:induction false} InsertDescKeeps(items: seq<Item>, x: Item)
    requires SortedDesc(items)
    ensures SortedDesc(InsertDesc(items, x))
    ensures forall y :: y in InsertDesc(items, x) <==> y in items || y == x
  {
    if items != [] && items[|items| - 1].timestamp < x.timestamp {
      var init := items[..|items| - 1];
      InsertDescKeeps(init, x);
      forall y | y in InsertDesc(init, x)
        ensures y.timestamp >= items[|items| - 1].timestamp
      {
        assert y in init || y == x;
      }
    }
  }

  lemma {:induction false} SortDescKeeps(items: seq<Item>)
    ensures SortedDesc(SortDesc(items))
    ensures ToSet(SortDesc(items)) == ToSet(items)
  {
    if items != [] {
      var init := items[..|items| - 1];
      SortDescKeeps(init);
      InsertDescKeeps(SortDesc(init), items[|items| - 1]);
      forall y
        ensures y in SortDesc(items) <==> y in items
      {
        assert y in SortDesc(init) <==> y in init by {
          assert y in ToSet(SortDesc(init)) <==> y in ToSet(init);
        }
      }
    }
  }

  lemma NoRepeatsSnoc(init: seq<Item>, last: Item)
    ensures NoRepeats(init + [last]) <==> NoRepeats(init) && last !in init
  {
    var items := init + [last];
    assert forall i :: 0 <= i < |init| ==> items[i] == init[i];
    if last in init {
      var i :| 0 <= i < |init| && init[i] == last;
      assert items[i] == items[|init|];
    }
    if NoRepeats(items) {
      forall i, j | 0 <= i < j < |init|
        ensures init[i] != init[j]
      {
        assert items[i] != items[j];
      }
    }
  }

  lemma {:induction false} SetSize(items: seq<Item>)
    ensures |ToSet(items)| <= |items|
    ensures NoRepeats(items) <==> |ToSet(items)| == |items|
  {
    if items != [] {
      var init, last := items[..|items| - 1], items[|items| - 1];
      assert items == init + [last];
      SetSize(init);
      NoRepeatsSnoc(init, last);
      assert ToSet(items) == ToSet(init) + {last};
      if last in init {
        assert ToSet(items) == ToSet(init);
      }
    }
  }

  lemma CutOfSortedIsNewest(s: seq<Item>, n: nat)
    requires NoRepeats(s) && SortedDesc(s)
    ensures IsNewest(s[..Min(n, |s|)], ToSet(s), n)
  {
    SetSize(s);
    var cut := s[..Min(n, |s|)];
    forall x, y | x in ToSet(s) && x !in cut && y in cut
      ensures x.timestamp <= y.timestamp
    {
      var i :| 0 <= i < |s| && s[i] == x;
      var j :| 0 <= j < |cut| && cut[j] == y;
      assert forall m :: 0 <= m < |cut| ==> s[m] in cut;
    }
  }

  lemma SortCutIsNewest(items: seq<Item>, n: nat)
    requires NoRepeats(items)
    ensures IsNewest(SortDesc(items)[..Min(n, |items|)], ToSet(items), n)
  {
    SortDescKeeps(items);
    SetSize(items);
    SetSize(SortDesc(items));
    CutOfSortedIsNewest(SortDesc(items), n);
  }

  // ----- truncated sources lose nothing the feed could show -----

  ghost predicate Outranked(x: Item, top: set<Item>, n: nat) {
    |top| >= n && forall y :: y in top ==> x.timestamp <= y.timestamp
  }

  /** Every row missing from the candidates is outranked by n candidates. */
  ghost predicate Covers(candidates: set<Item>, rows: set<Item>, n: nat) {
    && candidates <= rows
    && forall x :: x in rows && x !in candidates ==> exists top :: top <= candidates && Outranked(x, top, n)
  }

  lemma NewestCovers(items: seq<Item>, rows: set<Item>, n: nat)
    requires IsNewest(items, rows, n)
    ensures Covers(ToSet(items), rows, n)
  {
    SetSize(items);
    forall x | x in rows && x !in ToSet(items)
      ensures exists top :: top <= ToSet(items) && Outranked(x, top, n)
    {
      assert |ToSet(items)| < |rows| by {
        SubsetSize(ToSet(items), rows);
      }
      assert Outranked(x, ToSet(items), n);
    }
  }

  lemma CoversUnion(a: set<Item>, rowsA: set<Item>, b: set<Item>, rowsB: set<Item>, n: nat)
    requires Covers(a, rowsA, n) && Covers(b, rowsB, n)
    ensures Covers(a + b, rowsA + rowsB, n)
  {
    forall x | x in rowsA + rowsB && x !in a + b
      ensures exists top :: top <= a + b && Outranked(x, top, n)
    {
      if x in rowsA {
        var top :| top <= a && Outranked(x, top, n);
        assert top <= a + b;
      } else {
        var top :| top <= b && Outranked(x, top, n);
        assert top <= a + b;
      }
    }
  }

  lemma NewestOfCover(items: seq<Item>, candidates: set<Item>, rows: set<Item>, n: nat)
    requires Covers(candidates, rows, n) && IsNewest(items, candidates, n)
    ensures IsNewest(items, rows, n)
  {
    SubsetSize(candidates, rows);
    SetSize(items);
    forall x, y | x in rows && x !in items && y in items
      ensures x.timestamp <= y.timestamp
    {
      if x !in candidates {
        var top :| top <= candidates && Outranked(x, top, n);
        SubsetSize(top, candidates);
        if top <= ToSet(items) {
          FullSubset(top, ToSet(items));
        } else {
          var z :| z in top && z !in ToSet(items);
          assert z.timestamp <= y.timestamp;
        }
      }
    }
    if candidates != rows {
      var x :| x in rows && x !in candidates;
      var top :| top <= candidates && Outranked(x, top, n);
      SubsetSize(top, candidates);
    }
  }

  lemma FullSubset(a: set<Item>, b: set<Item>)
    requires a <= b && |a| >= |b|
    ensures a == b
  {
    SubsetSize(a, b);
  }

  /** Any two readings of "the newest n" agree on the timestamps. */
  lemma NewestTimestampsAgree(f: seq<Item>, g: seq<Item>, rows: set<Item>, n: nat, k: nat)
    requires IsNewest(f, rows, n) && IsNewest(g, rows, n) && k < |f|
    ensures |f| == |g| && f[k].timestamp == g[k].timestamp
  {
    NotNewer(f, g, rows, n, k);
    NotNewer(g, f, rows, n, k);
  }

  /** Whatever is newer than g[k] stands before it in g. */
  lemma NewerStandsBefore(x: Item, g: seq<Item>, rows: set<Item>, n: nat, k: nat)
    requires IsNewest(g, rows, n) && k < |g| && x in rows && x.timestamp > g[k].timestamp
    ensures x in ToSet(g[..k])
  {
    assert g[k] in g;
    assert x in g;
    var j :| 0 <= j < |g| && g[j] == x;
    assert g[..k][j] == x;
  }

  lemma HeadSize(items: seq<Item>, m: nat)
    requires NoRepeats(items) && m <= |items|
    ensures |ToSet(items[..m])| == m
  {
    SetSize(items[..m]);
  }

  lemma InHead(f: seq<Item>, rows: set<Item>, n: nat, k: nat, x: Item)
    requires IsNewest(f, rows, n) && k < |f| && x in f[..k + 1]
    ensures x in rows && x.timestamp >= f[k].timestamp
  {
    var i :| 0 <= i <= k && f[i] == x;
    assert f[i] in ToSet(f);
  }

  lemma NotNewer(f: seq<Item>, g: seq<Item>, rows: set<Item>, n: nat, k: nat)
    requires IsNewest(f, rows, n) && IsNewest(g, rows, n) && k < |f|
    ensures f[k].timestamp <= g[k].timestamp
  {
    if f[k].timestamp > g[k].timestamp {
      forall x | x in ToSet(f[..k + 1])
        ensures x in ToSet(g[..k])
      {
        InHead(f, rows, n, k, x);
        NewerStandsBefore(x, g, rows, n, k);
      }
      HeadSize(f, k + 1);
      HeadSize(g, k);
      SubsetSize(ToSet(f[..k + 1]), ToSet(g[..k]));
      assert false;
    }
  }

  // ----- the feed -----

  /** ids is what the database answers for one table. */
  ghost predicate IsAnswer(db: Database, q: Query, kind: Kind, ids: seq<nat>) {
    && (forall i :: 0 <= i < |ids| ==> (kind, ids[i]) in db)
    && IsNewest(Answered(db, kind, ids), ItemsOf(db, q, kind), FEED_SIZE)
  }

  function Answered(db: Database, kind: Kind, ids: seq<nat>): seq<Item>
    requires forall i :: 0 <= i < |ids| ==> (kind, ids[i]) in db
  {
    seq(|ids|, i requires 0 <= i < |ids| => ToItem(kind, ids[i], db[(kind, ids[i])]))
  }

  /** Sources that hold candidates of some tables only, one copy each. */
  ghost predicate Gathered(db: Database, q: Query, kinds: set<Kind>, sources: seq<Item>) {
    && NoRepeats(sources)
    && (forall x :: x in sources ==> x.kind in kinds)
    && Covers(ToSet(sources), ItemsOfKinds(db, q, kinds), FEED_SIZE)
  }

  function ItemsOfKinds(db: Database, q: Query, kinds: set<Kind>): set<Item> {
    set k | k in db && k.0 in kinds && Matches(q, k.0, db[k]) :: ToItem(k.0, k.1, db[k])
  }

  lemma NoRepeatsConcat(a: seq<Item>, b: seq<Item>)
    requires NoRepeats(a) && NoRepeats(b) && forall x, y :: x in a && y in b ==> x.kind != y.kind
    ensures NoRepeats(a + b)
  {
    forall i, j | 0 <= i < j < |a + b|
      ensures (a + b)[i] != (a + b)[j]
    {
      if i < |a| <= j {
        assert a[i] in a && b[j - |a|] in b;
      }
    }
  }

  lemma GatherMore(db: Database, q: Query, kinds: set<Kind>, sources: seq<Item>, kind: Kind, ids: seq<nat>)
    requires Gathered(db, q, kinds, sources) && kind !in kinds && IsAnswer(db, q, kind, ids)
    ensures Gathered(db, q, kinds + {kind}, sources + Answered(db, kind, ids))
  {
    var more := Answered(db, kind, ids);
    NoRepeatsConcat(sources, more);
    NewestCovers(more, ItemsOf(db, q, kind), FEED_SIZE);
    CoversUnion(ToSet(sources), ItemsOfKinds(db, q, kinds), ToSet(more), ItemsOf(db, q, kind), FEED_SIZE);
    assert ToSet(sources + more) == ToSet(sources) + ToSet(more);
    KindsSplit(db, q, kinds, kind);
  }

  lemma KindsSplit(db: Database, q: Query, kinds: set<Kind>, kind: Kind)
    ensures ItemsOfKinds(db, q, kinds + {kind}) == ItemsOfKinds(db, q, kinds) + ItemsOf(db, q, kind)
  {
  }

  /** One table's loop: an item per row, appended to the sources. */
  method AppendRows(db: Database, kind: Kind, ids: seq<nat>, sources: seq<Item>) returns (all: seq<Item>)
    requires forall i :: 0 <= i < |ids| ==> (kind, ids[i]) in db
    ensures all == sources + Answered(db, kind, ids)
  {
    all := sources;
    for i := 0 to |ids|
      invariant all == sources + Answered(db, kind, ids)[..i]
    {
      all := all + [ToItem(kind, ids[i], db[(kind, ids[i])])];
    }
  }

  method AddTable(db: Database, ghost q: Query, ghost kinds: set<Kind>, kind: Kind, ids: seq<nat>, sources: seq<Item>)
    returns (all: seq<Item>)
    requires Gathered(db, q, kinds, sources) && kind !in kinds && IsAnswer(db, q, kind, ids)
    ensures all == sources + Answered(db, kind, ids)
    ensures Gathered(db, q, kinds + {kind}, all)
  {
    GatherMore(db, q, kinds, sources, kind, ids);
    all := AppendRows(db, kind, ids, sources);
  }

  function Tables(q: Query): set<Kind> {
    {Conversation, Artifact, Analysis, Task} + if q.org.Some? then {Policy, Member} else {}
  }

  /** The per-table queries of activity, in its order; policies and members only for an organization. */
  method Gather(db: Database, q: Query, answers: Kind -> seq<nat>) returns (sources: seq<Item>)
    requires forall kind :: IsAnswer(db, q, kind, answers(kind))
    ensures Gathered(db, q, Tables(q), sources)
  {
    sources := GatherOwn(db, q, answers(Conversation), answers(Artifact), answers(Analysis), answers(Task));
    if q.org.Some? {
      ghost var kinds := {Conversation, Artifact, Analysis, Task};
      sources := AddTable(db, q, kinds, Policy, answers(Policy), sources);
      sources := AddTable(db, q, kinds + {Policy}, Member, answers(Member), sources);
      assert kinds + {Policy} + {Member} == Tables(q);
    } else {
      assert Tables(q) == {Conversation, Artifact, Analysis, Task};
    }
  }

  method GatherOwn(db: Database, ghost q: Query, conversations: seq<nat>, artifacts: seq<nat>, analyses: seq<nat>,
                   tasks: seq<nat>) returns (sources: seq<Item>)
    requires IsAnswer(db, q, Conversation, conversations) && IsAnswer(db, q, Artifact, artifacts)
    requires IsAnswer(db, q, Analysis, analyses) && IsAnswer(db, q, Task, tasks)
    ensures Gathered(db, q, {Conversation, Artifact, Analysis, Task}, sources)
  {
    sources := [];
    GatheredNothing(db, q);
    sources := AddTable(db, q, {}, Conversation, conversations, sources);
    assert {} + {Conversation} == {Conversation};
    sources := AddTable(db, q, {Conversation}, Artifact, artifacts, sources);
    assert {Conversation} + {Artifact} == {Conversation, Artifact};
    sources := AddTable(db, q, {Conversation, Artifact}, Analysis, analyses, sources);
    assert {Conversation, Artifact} + {Analysis} == {Conversation, Artifact, Analysis};
    sources := AddTable(db, q, {Conversation, Artifact, Analysis}, Task, tasks, sources);
    assert {Conversation, Artifact, Analysis} + {Task} == {Conversation, Artifact, Analysis, Task};
  }

  lemma GatheredNothing(db: Database, q: Query)
    ensures Gathered(db, q, {}, [])
  {
  }

  lemma TablesHoldAll(db: Database, q: Query)
    ensures ItemsOfKinds(db, q, Tables(q)) == AllItems(db, q)
  {
    forall k | k in db && Matches(q, k.0, db[k])
      ensures k.0 in Tables(q)
    {
    }
  }

  /** answers gives, per table, the ids its query returned. */
  method Activity(db: Database, q: Query, answers: Kind -> seq<nat>) returns (items: seq<Item>)
    requires forall kind :: IsAnswer(db, q, kind, answers(kind))
    ensures IsNewest(items, AllItems(db, q), FEED_SIZE)
  {
    var sources := Gather(db, q, answers);
    TablesHoldAll(db, q);
    items := SortDesc(sources)[..Min(FEED_SIZE, |sources|)];
    SortCutIsNewest(sources, FEED_SIZE);
    NewestOfCover(items, ToSet(sources), AllItems(db, q), FEED_SIZE);
  }

  /** The feed shows the timestamps of sorting every in-range row and cutting once. */
  lemma FeedEqualsSortingEverything(db: Database, q: Query, feed: seq<Item>, everything: seq<Item>, k: nat)
    requires IsNewest(feed, AllItems(db, q), FEED_SIZE)
    requires NoRepeats(everything) && ToSet(everything) == AllItems(db, q)
    ensures |feed| == Min(FEED_SIZE, |everything|) == Min(FEED_SIZE, |SortDesc(everything)|)
    ensures k < |feed| ==> feed[k].timestamp == SortDesc(everything)[k].timestamp
    ensures forall x, y :: x in AllItems(db, q) && x !in feed && y in feed ==> x.timestamp <= y.timestamp
  {
    SortCutIsNewest(everything, FEED_SIZE);
    SetSize(everything);
    SortDescKeeps(everything);
    if k < |feed| {
      NewestTimestampsAgree(feed, SortDesc(everything)[..Min(FEED_SIZE, |everything|)], AllItems(db, q), FEED_SIZE, k);
    }
  }

  /** A personal feed shows only the user's own rows outside every organization; an organization's feed only its own. */
  lemma FeedIsScoped(db: Database, q: Query, feed: seq<Item>, x: Item)
    requires IsNewest(feed, AllItems(db, q), FEED_SIZE) && x in feed
    ensures (x.kind, x.id) in db
    ensures var row := db[(x.kind, x.id)];
            && (q.org.None? ==> row.user == q.user && row.org.None? && x.kind != Policy && x.kind != Member)
            && (q.org.Some? ==> row.org == q.org)
            && (x.kind == Artifact ==> !row.deleted)
            && (if x.kind == Task then q.taskSince else q.since) <= row.timestamp == x.timestamp
            && x.org == row.org && x.status == row.status
            && x.title == if x.kind == Member then MemberUpdated else OfRow(row.title)
  {
    assert x in ToSet(feed);
    assert x in AllItems(db, q);
  }

  /** A feed that is not full shows every row in scope and in range. */
  lemma ShortFeedShowsAll(db: Database, q: Query, feed: seq<Item>, kind: Kind, id: nat)
    requires IsNewest(feed, AllItems(db, q), FEED_SIZE) && |feed| < 20
    requires (kind, id) in db && (if kind == Task then q.taskSince else q.since) <= db[(kind, id)].timestamp
    requires kind == Artifact ==> !db[(kind, id)].deleted
    requires if q.org.Some? then db[(kind, id)].org == q.org
             else db[(kind, id)].user == q.user && db[(kind, id)].org.None? && kind != Policy && kind != Member
    ensures exists x :: x in feed && x.kind == kind && x.id == id
  {
    SetSize(feed);
    FullSubset(ToSet(feed), AllItems(db, q));
    var x := ToItem(kind, id, db[(kind, id)]);
    assert x in AllItems(db, q);
    assert x in ToSet(feed);
  }
}
