/** The read queries of src/store/reader.rs as filters of the ordered scan, and walks over pages. */
module Queries {
  import opened Basics
  import opened Records
  import opened Table

  const I64_MAX: int := 0x7FFF_FFFF_FFFF_FFFF

  function Reverse<T>(s: seq<T>): seq<T> {
    if s == [] then [] else [s[|s| - 1]] + Reverse(s[..|s| - 1])
  }

  lemma {:induction false} ReverseAt<T>(s: seq<T>)
    ensures |Reverse(s)| == |s|
    ensures forall i | 0 <= i < |s| :: Reverse(s)[i] == s[|s| - 1 - i]
  {
    if s != [] {
      ReverseAt(s[..|s| - 1]);
    }
  }

  /** ORDER BY id DESC LIMIT `limit` over the rows that satisfy `p`. */
  ghost function Newest(logs: Rows, p: LogRecord -> bool, limit: int): seq<LogRecord> {
    Limit(Reverse(Filter(Scan(logs), p)), limit)
  }

  /** A newest-first page of an ascending list: what is on it, and what is left off. */
  lemma PageOfList(all: seq<LogRecord>, limit: int)
    requires Ascending(all)
    ensures var page := Limit(Reverse(all), limit);
      && Descending(page) && (limit >= 0 ==> |page| <= limit) && (forall r | r in page :: r in all)
      && (forall r | r in all :: r in page || (limit >= 0 && |page| == limit && forall p | p in page :: p.id > r.id))
  {
    ReverseAt(all);
    var page := Limit(Reverse(all), limit);
    forall r | r in page ensures r in all {
      var i :| 0 <= i < |page| && page[i] == r;
      assert r == all[|all| - 1 - i];
    }
    forall r | r in all ensures r in page || (limit >= 0 && |page| == limit && forall p | p in page :: p.id > r.id) {
      OnOrBelow(all, limit, r);
    }
  }

  lemma OnOrBelow(all: seq<LogRecord>, limit: int, r: LogRecord)
    requires Ascending(all) && r in all
    ensures var page := Limit(Reverse(all), limit);
      r in page || (limit >= 0 && |page| == limit && forall p | p in page :: p.id > r.id)
  {
    ReverseAt(all);
    var page := Limit(Reverse(all), limit);
    var k :| 0 <= k < |all| && all[k] == r;
    if |all| - 1 - k < |page| {
      assert page[|all| - 1 - k] == r;
    } else {
      forall p | p in page ensures p.id > r.id {
        var i :| 0 <= i < |page| && page[i] == p;
        assert p == all[|all| - 1 - i];
      }
    }
  }

  /** A newest-first page is in descending order, holds only wanted rows, and misses a wanted row
      only by being full of newer ones. */
  lemma NewestPage(logs: Rows, p: LogRecord -> bool, limit: int)
    requires Keyed(logs)
    ensures var page := Newest(logs, p, limit);
      && Descending(page) && (limit >= 0 ==> |page| <= limit)
      && (forall r | r in page :: p(r) && r.id in logs && logs[r.id] == r)
      && (forall id | id in logs && p(logs[id]) ::
            logs[id] in page || (limit >= 0 && |page| == limit && forall r | r in page :: r.id > id))
  {
    ScanLists(logs);
    FilterMembers(Scan(logs), p);
    FilterAscending(Scan(logs), p);
    PageOfList(Filter(Scan(logs), p), limit);
  }

  // ---------- recent, one page of the dashboard ----------

  ghost function Wanted(cursor: int, minLevel: int, deviceId: Option<int>): LogRecord -> bool {
    (r: LogRecord) => r.id < cursor && r.level >= minLevel && (deviceId.None? || r.deviceId == deviceId)
  }

  ghost function Recent(logs: Rows, limit: int, beforeId: Option<int>, minLevel: Option<int>, deviceId: Option<int>): seq<LogRecord> {
    var cursor := if beforeId.Some? then beforeId.value else I64_MAX;
    var level := if minLevel.Some? then minLevel.value else 0;
    Newest(logs, Wanted(cursor, level, deviceId), limit)
  }

  /** One page of the dashboard: the newest rows below the cursor of the wanted level and device. */
  lemma RecentPage(logs: Rows, limit: int, beforeId: Option<int>, minLevel: Option<int>, deviceId: Option<int>,
                   wanted: LogRecord -> bool)
    requires forall r :: wanted(r) <==>
               && (if beforeId.Some? then r.id < beforeId.value else r.id < 0x7FFF_FFFF_FFFF_FFFF)
               && (minLevel.Some? ==> r.level >= minLevel.value)
               && (deviceId.Some? ==> r.deviceId == Some(deviceId.value))
    ensures Recent(logs, limit, beforeId, minLevel, deviceId) == Newest(logs, wanted, limit)
  {
    var cursor := if beforeId.Some? then beforeId.value else I64_MAX;
    FilterSame(Scan(logs), Wanted(cursor, if minLevel.Some? then minLevel.value else 0, deviceId), wanted);
  }

  /** The filters of a walk, fixed while the cursor moves. */
  datatype View = View(limit: int, minLevel: Option<int>, deviceId: Option<int>)

  ghost function PageOf(logs: Rows, v: View, beforeId: Option<int>): seq<LogRecord> {
    Recent(logs, v.limit, beforeId, v.minLevel, v.deviceId)
  }

  predicate Shows(v: View, r: LogRecord) {
    (v.minLevel.None? || r.level >= v.minLevel.value) && (v.deviceId.None? || r.deviceId == v.deviceId)
  }

  /**
   * A walk: page after page, each asked for below the last row of the one before, against whatever
   * the table holds at that moment; it stops at an empty page or when the snapshots run out.
   */
  ghost function Walk(tables: seq<Rows>, v: View, beforeId: Option<int>): seq<LogRecord> {
    if tables == [] then []
    else
      var page := PageOf(tables[0], v, beforeId);
      if page == [] then [] else page + Walk(tables[1..], v, Some(page[|page| - 1].id))
  }

  /** The walk has reached its end: some page came back empty. */
  ghost predicate Finishes(tables: seq<Rows>, v: View, beforeId: Option<int>) {
    && tables != []
    && var page := PageOf(tables[0], v, beforeId);
       page == [] || Finishes(tables[1..], v, Some(page[|page| - 1].id))
  }

  ghost predicate KeyedAll(tables: seq<Rows>) {
    forall t | t in tables :: Keyed(t)
  }

  function CursorOf(beforeId: Option<int>): int {
    if beforeId.Some? then beforeId.value else I64_MAX
  }

  lemma PageFacts(logs: Rows, v: View, beforeId: Option<int>)
    requires Keyed(logs)
    ensures var page := PageOf(logs, v, beforeId);
      && Descending(page)
      && (forall r | r in page :: r.id < CursorOf(beforeId) && Shows(v, r) && r.id in logs && logs[r.id] == r)
      && (v.limit >= 1 ==> forall id | id in logs && id < CursorOf(beforeId) && Shows(v, logs[id]) ::
            logs[id] in page || (page != [] && page[|page| - 1].id > id))
  {
    var level := if v.minLevel.Some? then v.minLevel.value else 0;
    var page := PageOf(logs, v, beforeId);
    NewestPage(logs, Wanted(CursorOf(beforeId), level, v.deviceId), v.limit);
    assert page != [] ==> page[|page| - 1] in page;
  }

  lemma KeyedRest(tables: seq<Rows>)
    requires KeyedAll(tables) && tables != []
    ensures Keyed(tables[0]) && KeyedAll(tables[1..])
  {
    assert tables[0] in tables && forall t | t in tables[1..] :: t in tables;
  }

  /** Everything on a page is shown and below its cursor, its last row too. */
  lemma PageBelow(logs: Rows, v: View, beforeId: Option<int>)
    requires Keyed(logs)
    ensures var page := PageOf(logs, v, beforeId);
      && Descending(page) && (forall r | r in page :: r.id < CursorOf(beforeId) && Shows(v, r))
      && (page != [] ==> page[|page| - 1].id < CursorOf(beforeId))
  {
    PageFacts(logs, v, beforeId);
    var page := PageOf(logs, v, beforeId);
    if page != [] { assert page[|page| - 1] in page; }
  }

  /** Commits and prunes between pages included, a walk never shows a row twice: ids only descend. */
  lemma {:induction false} WalkDescends(tables: seq<Rows>, v: View, beforeId: Option<int>)
    requires KeyedAll(tables)
    ensures Descending(Walk(tables, v, beforeId))
    ensures forall r | r in Walk(tables, v, beforeId) :: r.id < CursorOf(beforeId) && Shows(v, r)
    decreases |tables|
  {
    if tables != [] {
      KeyedRest(tables);
      PageBelow(tables[0], v, beforeId);
      var page := PageOf(tables[0], v, beforeId);
      if page != [] {
        var last := page[|page| - 1];
        WalkDescends(tables[1..], v, Some(last.id));
        JoinDescending(page, Walk(tables[1..], v, Some(last.id)));
      }
    }
  }

  lemma JoinDescending(a: seq<LogRecord>, b: seq<LogRecord>)
    requires a != [] && Descending(a) && Descending(b) && forall r | r in b :: r.id < a[|a| - 1].id
    ensures Descending(a + b)
    ensures forall r | r in b :: r.id < a[0].id
  {
    forall i, j | 0 <= i < j < |a + b| ensures (a + b)[i].id > (a + b)[j].id {
      if i < |a| <= j {
        assert (a + b)[j] in b;
        assert a[i].id >= a[|a| - 1].id;
      }
    }
  }

  /** The row is there, unchanged, in every table the walk meets. */
  ghost predicate Throughout(tables: seq<Rows>, r: LogRecord) {
    forall t | t in tables :: r.id in t && t[r.id] == r
  }

  lemma ThroughoutRest(tables: seq<Rows>, r: LogRecord)
    requires Throughout(tables, r) && tables != []
    ensures r.id in tables[0] && tables[0][r.id] == r && Throughout(tables[1..], r)
  {
    assert tables[0] in tables && forall t | t in tables[1..] :: t in tables;
  }

  lemma OnPageOrBelow(logs: Rows, v: View, beforeId: Option<int>, r: LogRecord)
    requires Keyed(logs) && v.limit >= 1 && r.id in logs && logs[r.id] == r
    requires Shows(v, r) && r.id < CursorOf(beforeId)
    ensures var page := PageOf(logs, v, beforeId);
      r in page || (page != [] && r.id < page[|page| - 1].id)
  {
    PageFacts(logs, v, beforeId);
  }

  /** A finished walk has shown every row that was there throughout and passes the filters. */
  lemma {:induction false} WalkShowsAll(tables: seq<Rows>, v: View, beforeId: Option<int>, r: LogRecord)
    requires KeyedAll(tables) && v.limit >= 1 && Finishes(tables, v, beforeId)
    requires Throughout(tables, r) && Shows(v, r) && r.id < CursorOf(beforeId)
    ensures r in Walk(tables, v, beforeId)
    decreases |tables|
  {
    KeyedRest(tables);
    ThroughoutRest(tables, r);
    OnPageOrBelow(tables[0], v, beforeId, r);
    var page := PageOf(tables[0], v, beforeId);
    if r !in page {
      WalkShowsAll(tables[1..], v, Some(page[|page| - 1].id), r);
    }
  }

  /** Below the cursor lie only ids of the set, in every table the walk meets. */
  ghost predicate Within(tables: seq<Rows>, cursor: int, ids: set<int>) {
    forall t | t in tables :: forall id | id in t && id < cursor :: id in ids
  }

  lemma WithinRest(tables: seq<Rows>, cursor: int, lower: int, ids: set<int>)
    requires Within(tables, cursor, ids) && tables != [] && lower <= cursor
    ensures Within(tables[1..], lower, ids)
    ensures forall id | id in tables[0] && id < cursor :: id in ids
  {
    assert tables[0] in tables && forall t | t in tables[1..] :: t in tables;
  }

  /** If only ids of a fixed set ever lie below the cursor, a walk ends after at most one page more than
      there are such ids, whatever is committed above or pruned between the pages. */
  lemma {:induction false} WalkTerminates(tables: seq<Rows>, v: View, beforeId: Option<int>, ids: set<int>)
    requires KeyedAll(tables) && v.limit >= 1 && Within(tables, CursorOf(beforeId), ids)
    requires |set id | id in ids && id < CursorOf(beforeId)| < |tables|
    ensures Finishes(tables, v, beforeId)
    decreases |tables|
  {
    KeyedRest(tables);
    var page := PageOf(tables[0], v, beforeId);
    if page != [] {
      var last := LastStored(tables[0], v, beforeId);
      WithinRest(tables, CursorOf(beforeId), last, ids);
      FewerBelow(ids, CursorOf(beforeId), last);
      WalkTerminates(tables[1..], v, Some(last), ids);
    }
  }

  lemma FewerBelow(ids: set<int>, cursor: int, lower: int)
    requires lower in ids && lower < cursor
    ensures |set id | id in ids && id < lower| < |set id | id in ids && id < cursor|
  {
    var below := set id | id in ids && id < cursor;
    var rest := set id | id in ids && id < lower;
    assert lower in below && rest <= below - {lower};
    SubsetSize(rest, below - {lower});
  }

  /** From the newest row down: a walk ends when every later row below the first table's newest id was
      already in the first table. */
  lemma LiveWalkTerminates(tables: seq<Rows>, v: View)
    requires KeyedAll(tables) && v.limit >= 1 && tables != [] && |tables| > |tables[0].Keys| + 1
    requires Within(tables, MaxId(tables[0]), tables[0].Keys)
    ensures Finishes(tables, v, None)
  {
    KeyedRest(tables);
    var page := PageOf(tables[0], v, None);
    if page != [] {
      var last := LastStored(tables[0], v, None);
      WithinRest(tables, MaxId(tables[0]), last, tables[0].Keys);
      SubsetSize((set id | id in tables[0].Keys && id < last), tables[0].Keys);
      WalkTerminates(tables[1..], v, Some(last), tables[0].Keys);
    }
  }

  lemma LastStored(logs: Rows, v: View, beforeId: Option<int>) returns (last: int)
    requires Keyed(logs) && PageOf(logs, v, beforeId) != []
    ensures var page := PageOf(logs, v, beforeId);
      last == page[|page| - 1].id && last in logs && last <= MaxId(logs) && last < CursorOf(beforeId)
  {
    PageFacts(logs, v, beforeId);
    var page := PageOf(logs, v, beforeId);
    assert page[|page| - 1] in page;
    last := page[|page| - 1].id;
  }

  lemma SubsetSize(a: set<int>, b: set<int>)
    requires a <= b
    ensures |a| <= |b|
  {
    assert a + (b - a) == b && a * (b - a) == {};
    assert |a + (b - a)| == |a| + |b - a|;
  }

  /** On a fixed table one page more than there are rows is always enough. */
  lemma EnoughPages(logs: Rows, v: View, pages: nat)
    requires Keyed(logs) && v.limit >= 1 && pages > |logs.Keys|
    ensures Finishes(seq(pages, i => logs), v, None)
  {
    var tables := seq(pages, i => logs);
    assert forall t | t in tables :: t == logs;
    SubsetSize((set id | id in logs.Keys && id < I64_MAX), logs.Keys);
    WalkTerminates(tables, v, None, logs.Keys);
  }

  /** On a fixed table the finished walk is exactly the filtered table, newest first. */
  lemma FixedTableWalk(logs: Rows, v: View, pages: nat)
    requires Keyed(logs) && v.limit >= 1 && Finishes(seq(pages, i => logs), v, None)
    requires forall id | id in logs :: id < I64_MAX
    ensures Walk(seq(pages, i => logs), v, None) == Newest(logs, (r: LogRecord) => Shows(v, r), -1)
  {
    var tables := seq(pages, i => logs);
    var all := (r: LogRecord) => Shows(v, r);
    var walk := Walk(tables, v, None);
    WalkDescends(tables, v, None);
    NewestPage(logs, all, -1);
    forall r ensures r in walk <==> r in Newest(logs, all, -1) {
      if r in walk {
        WalkFromTables(tables, v, None, r);
      }
      if r in Newest(logs, all, -1) {
        WalkShowsAll(tables, v, None, r);
      }
    }
    SameDescending(walk, Newest(logs, all, -1));
  }

  lemma {:induction false} WalkFromTables(tables: seq<Rows>, v: View, beforeId: Option<int>, r: LogRecord)
    requires KeyedAll(tables) && r in Walk(tables, v, beforeId)
    ensures exists t :: t in tables && r.id in t && t[r.id] == r
    decreases |tables|
  {
    KeyedRest(tables);
    assert tables[0] in tables && forall t | t in tables[1..] :: t in tables;
    var page := PageOf(tables[0], v, beforeId);
    PageFacts(tables[0], v, beforeId);
    if r !in page {
      WalkFromTables(tables[1..], v, Some(page[|page| - 1].id), r);
    }
  }

  /** Two descending lists with the same members are the same list. */
  lemma {:induction false} SameDescending(a: seq<LogRecord>, b: seq<LogRecord>)
    requires Descending(a) && Descending(b) && forall r :: r in a <==> r in b
    ensures a == b
    decreases |a|
  {
    if a == [] {
      assert forall i | 0 <= i < |b| :: b[i] in a;
    } else {
      assert a[0] in b;
      assert b != [] && b[0] in a;
      assert a[0] == b[0];
      forall r ensures r in a[1..] <==> r in b[1..] {
        TailMembers(a, r);
        TailMembers(b, r);
      }
      SameDescending(a[1..], b[1..]);
    }
  }

  lemma TailMembers(a: seq<LogRecord>, r: LogRecord)
    requires a != [] && Descending(a)
    ensures r in a[1..] <==> r in a && r != a[0]
  {
    if r in a && r != a[0] {
      var i :| 0 <= i < |a| && a[i] == r;
      assert a[1..][i - 1] == r;
    }
    if r in a[1..] {
      var i :| 0 <= i < |a[1..]| && a[1..][i] == r;
      assert a[i + 1] == r;
    }
  }

  // ---------- the lines around one line ----------

  datatype LogContext = LogContext(before: seq<LogRecord>, matched: LogRecord, after: seq<LogRecord>)

  ghost function Below(id: int): LogRecord -> bool { (r: LogRecord) => r.id < id }

  /** `context`: newest-first below and flipped, the row itself, oldest-first above. */
  ghost function Context(logs: Rows, id: int, before: int, after: int): Option<LogContext> {
    if id !in logs then None
    else Some(LogContext(Reverse(Newest(logs, Below(id), before)), logs[id], SinceId(logs, id, after)))
  }

  /** The scan splits at a stored id into the older rows, the row, and the newer rows. */
  lemma {:induction false} ScanSplits(logs: Rows, id: int)
    requires Keyed(logs) && id in logs
    ensures Scan(logs) == Filter(Scan(logs), Below(id)) + [logs[id]] + Filter(Scan(logs), Above(id))
  {
    ScanLists(logs);
    var all := Scan(logs);
    assert logs[id] in all;
    var k :| 0 <= k < |all| && all[k] == logs[id];
    SplitAt(all, k);
  }

  lemma SplitAt(all: seq<LogRecord>, k: nat)
    requires Ascending(all) && k < |all|
    ensures all == Filter(all, Below(all[k].id)) + [all[k]] + Filter(all, Above(all[k].id))
  {
    var older, newer := all[..k], all[k + 1..];
    AroundIndex(all, k);
    FilterSplit(older, all[k], newer, Below(all[k].id), Above(all[k].id));
  }

  lemma AroundIndex(all: seq<LogRecord>, k: nat)
    requires Ascending(all) && k < |all|
    ensures all == all[..k] + [all[k]] + all[k + 1..]
    ensures forall x | x in all[..k] :: x.id < all[k].id
    ensures forall x | x in all[k + 1..] :: x.id > all[k].id
  {
  }

  lemma FilterSplit(older: seq<LogRecord>, r: LogRecord, newer: seq<LogRecord>, p: LogRecord -> bool, q: LogRecord -> bool)
    requires (forall x | x in older :: p(x) && !q(x)) && (forall x | x in newer :: q(x) && !p(x)) && !p(r) && !q(r)
    ensures Filter(older + [r] + newer, p) == older && Filter(older + [r] + newer, q) == newer
  {
    FilterConcat(older + [r], newer, p);
    FilterConcat(older, [r], p);
    FilterConcat(older + [r], newer, q);
    FilterConcat(older, [r], q);
    FilterAll(older, p);
    FilterAll(newer, q);
    FilterNone(newer, p);
    FilterNone(older, q);
    assert Filter([r], p) == [] && Filter([r], q) == [];
  }

  lemma {:induction false} FilterNone(s: seq<LogRecord>, p: LogRecord -> bool)
    requires forall x | x in s :: !p(x)
    ensures Filter(s, p) == []
  {
    if s != [] {
      assert s == s[..|s| - 1] + [s[|s| - 1]];
      FilterNone(s[..|s| - 1], p);
    }
  }

  lemma {:induction false} ReverseTwice<T>(s: seq<T>)
    ensures Reverse(Reverse(s)) == s
  {
    ReverseAt(s);
    ReverseAt(Reverse(s));
  }

  /** Flipping the newest `n` of a list gives its last `n` in order. */
  lemma FlippedTail(s: seq<LogRecord>, n: nat)
    ensures Reverse(Limit(Reverse(s), n)) == s[if n < |s| then |s| - n else 0..]
  {
    var r := Reverse(s);
    ReverseAt(s);
    if n < |s| {
      FlippedHead(s, r, n);
    } else {
      ReverseTwice(s);
    }
  }

  lemma FlippedHead(s: seq<LogRecord>, r: seq<LogRecord>, n: nat)
    requires n < |s| == |r| && forall i | 0 <= i < |s| :: r[i] == s[|s| - 1 - i]
    ensures Reverse(r[..n]) == s[|s| - n..]
  {
    ReverseAt(r[..n]);
    forall i | 0 <= i < n ensures Reverse(r[..n])[i] == s[|s| - n..][i] {
      assert r[..n][n - 1 - i] == r[n - 1 - i];
    }
  }

  /** The context of a line is a contiguous slice of the table in order, with the line inside it,
      and each side is short only where the table ends. */
  lemma ContextIsSlice(logs: Rows, id: int, before: nat, after: nat)
    requires Keyed(logs)
    ensures Context(logs, id, before, after).Some? <==> id in logs
    ensures id in logs ==>
      var c := Context(logs, id, before, after).value;
      exists i, j :: 0 <= i <= j <= |Scan(logs)| && c.before + [c.matched] + c.after == Scan(logs)[i..j]
        && c.matched == logs[id]
        && (|c.before| == before || (|c.before| < before && i == 0))
        && (|c.after| == after || (|c.after| < after && j == |Scan(logs)|))
  {
    if id !in logs { return; }
    ScanSplits(logs, id);
    var older, newer := Filter(Scan(logs), Below(id)), Filter(Scan(logs), Above(id));
    FlippedTail(older, before);
    Slice(older, logs[id], newer, before, after);
  }

  lemma Slice(older: seq<LogRecord>, r: LogRecord, newer: seq<LogRecord>, before: nat, after: nat)
    ensures var i, j := if before < |older| then |older| - before else 0, |older| + 1 + |Limit(newer, after)|;
      0 <= i <= j <= |older + [r] + newer| && older[i..] + [r] + Limit(newer, after) == (older + [r] + newer)[i..j]
  {
  }
}
