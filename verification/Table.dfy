/** The `logs` table with its search index, as values, and the ordered scan every query reads. */
module Table {
  import opened Basics
  import opened Records

  type Rows = map<int, LogRecord>

  /** What the full-text index holds for one row. */
  datatype Posting = Posting(rowid: int, message: string, name: string)

  datatype Db = Db(logs: Rows, fts: set<Posting>)

  function Post(r: LogRecord): Posting {
    Posting(r.id, r.message, r.name)
  }

  /** Every row is stored under its own id. */
  ghost predicate Keyed(logs: Rows) {
    forall id | id in logs :: logs[id].id == id
  }

  ghost function RowSet(logs: Rows): set<LogRecord> {
    set id | id in logs :: logs[id]
  }

  /** The index is exactly the image of the table. */
  ghost predicate Agrees(db: Db) {
    db.fts == set id | id in db.logs :: Post(db.logs[id])
  }

  /** INSERT OR REPLACE: the insert trigger adds a posting; a replaced row fires no delete trigger. */
  function Insert(db: Db, r: LogRecord): Db {
    Db(db.logs[r.id := r], db.fts + {Post(r)})
  }

  function InsertAll(db: Db, rs: seq<LogRecord>): Db {
    if rs == [] then db else Insert(InsertAll(db, rs[..|rs| - 1]), rs[|rs| - 1])
  }

  /** DELETE: each deleted row's own posting is withdrawn by the delete trigger. */
  function Delete(db: Db, doomed: set<int>): Db {
    Db(db.logs - doomed, db.fts - set id | id in db.logs && id in doomed :: Post(db.logs[id]))
  }

  /** Inserting keeps the index exact precisely when no differently worded row is replaced. */
  lemma InsertAgreesIff(db: Db, r: LogRecord)
    requires Keyed(db.logs) && Agrees(db)
    ensures Keyed(Insert(db, r).logs)
    ensures Agrees(Insert(db, r)) <==>
              (r.id in db.logs ==> db.logs[r.id].message == r.message && db.logs[r.id].name == r.name)
  {
    var after := Insert(db, r);
    var image := set id | id in after.logs :: Post(after.logs[id]);
    forall p | p in image ensures p in after.fts {
      var id :| id in after.logs && p == Post(after.logs[id]);
      if id != r.id { assert id in db.logs; }
    }
    if r.id in db.logs && Post(db.logs[r.id]) != Post(r) {
      var stale := Post(db.logs[r.id]);
      assert stale in after.fts && stale !in image;
    } else {
      forall p | p in after.fts ensures p in image {
        if p == Post(r) {
          assert r.id in after.logs && Post(after.logs[r.id]) == p;
        } else {
          var id :| id in db.logs && p == Post(db.logs[id]);
          assert id in after.logs && after.logs[id] == db.logs[id];
        }
      }
    }
  }

  lemma DeleteAgrees(db: Db, doomed: set<int>)
    requires Keyed(db.logs) && Agrees(db)
    ensures Keyed(Delete(db, doomed).logs) && Agrees(Delete(db, doomed))
  {
    var after := Delete(db, doomed);
    var image := set id | id in after.logs :: Post(after.logs[id]);
    forall p ensures p in image <==> p in after.fts {
      if p in image {
        var id :| id in after.logs && p == Post(after.logs[id]);
        assert id in db.logs && p.rowid == id;
      }
      if p in after.fts {
        var id :| id in db.logs && p == Post(db.logs[id]);
        assert id !in doomed;
        assert id in after.logs;
      }
    }
  }

  /** Fresh, distinct ids never replace a row, so a whole batch keeps the index exact. */
  lemma {:induction false} InsertAllFresh(db: Db, rs: seq<LogRecord>)
    requires Keyed(db.logs) && Agrees(db)
    requires DistinctIds(rs) && forall r | r in rs :: r.id !in db.logs
    ensures Keyed(InsertAll(db, rs).logs) && Agrees(InsertAll(db, rs))
    ensures InsertAll(db, rs).logs.Keys == db.logs.Keys + Ids(rs)
    ensures forall id | id in db.logs :: InsertAll(db, rs).logs[id] == db.logs[id]
    ensures forall r | r in rs :: InsertAll(db, rs).logs[r.id] == r
  {
    if rs != [] {
      var front, last := rs[..|rs| - 1], rs[|rs| - 1];
      assert rs == front + [last];
      InsertAllFresh(db, front);
      assert last.id !in Ids(front);
      InsertAgreesIff(InsertAll(db, front), last);
    }
  }

  /** Any batch, replaced rows included: the last record under an id is the one stored. */
  lemma {:induction false} InsertAllHolds(db: Db, rs: seq<LogRecord>, i: nat)
    requires i < |rs| && forall j | i < j < |rs| :: rs[j].id != rs[i].id
    ensures rs[i].id in InsertAll(db, rs).logs && InsertAll(db, rs).logs[rs[i].id] == rs[i]
  {
    if i < |rs| - 1 {
      InsertAllHolds(db, rs[..|rs| - 1], i);
    }
  }

  /** Under any other id nothing changes. */
  lemma {:induction false} InsertAllElse(db: Db, rs: seq<LogRecord>, id: int)
    requires forall i | 0 <= i < |rs| :: rs[i].id != id
    ensures id in InsertAll(db, rs).logs <==> id in db.logs
    ensures id in db.logs ==> InsertAll(db, rs).logs[id] == db.logs[id]
  {
    if rs != [] {
      InsertAllElse(db, rs[..|rs| - 1], id);
    }
  }

  /** Every record inserted leaves its posting, and none is withdrawn. */
  lemma {:induction false} InsertAllPosts(db: Db, rs: seq<LogRecord>)
    ensures InsertAll(db, rs).fts == db.fts + set r | r in rs :: Posting(r.id, r.message, r.name)
  {
    if rs != [] {
      var front, last := rs[..|rs| - 1], rs[|rs| - 1];
      assert rs == front + [last];
      InsertAllPosts(db, front);
    }
  }

  lemma {:induction false} InsertAllConcat(db: Db, a: seq<LogRecord>, b: seq<LogRecord>)
    ensures InsertAll(db, a + b) == InsertAll(InsertAll(db, a), b)
  {
    if b == [] {
      assert a + b == a;
    } else {
      assert (a + b)[..|a + b| - 1] == a + b[..|b| - 1];
      InsertAllConcat(db, a, b[..|b| - 1]);
    }
  }

  /** Rebuild: 'rebuild' recreates the index from whatever the table holds. */
  function Rebuild(db: Db): Db {
    Db(db.logs, set id | id in db.logs :: Post(db.logs[id]))
  }

  // ---------- MAX(id) ----------

  lemma {:induction false} GreatestExists(s: set<int>, x: int)
    requires x in s
    ensures exists g :: g in s && IsUpperBound(s, g)
  {
    if y :| y in s && y > x {
      GreatestExists(s - {x}, y);
      var g :| g in s - {x} && IsUpperBound(s - {x}, g);
      assert IsUpperBound(s, g) by {
        forall z | z in s ensures z <= g {
          if z != x { assert z in s - {x}; }
        }
      }
    } else {
      assert IsUpperBound(s, x);
    }
  }

  ghost predicate IsUpperBound(s: set<int>, x: int) {
    forall y | y in s :: y <= x
  }

  /** COALESCE(MAX(id), 0). */
  ghost function MaxId(logs: Rows): (m: int)
    ensures if exists id :: id in logs then m in logs else m == 0
    ensures forall id | id in logs :: id <= m
  {
    if !exists x :: x in logs then 0
    else
      var x :| x in logs;
      GreatestExists(logs.Keys, x);
      var m :| m in logs.Keys && IsUpperBound(logs.Keys, m);
      m
  }

  // ---------- the ordered scan ----------

  ghost function Scan(logs: Rows): seq<LogRecord>
    decreases |logs|
  {
    if !exists x :: x in logs then []
    else
      var top := MaxId(logs);
      WithoutTop(logs);
      Scan(logs - {top}) + [logs[top]]
  }

  lemma WithoutTop(logs: Rows)
    requires exists x :: x in logs
    ensures MaxId(logs) in logs
    ensures |logs - {MaxId(logs)}| == |logs| - 1
  {
    var top := MaxId(logs);
    assert (logs - {top}).Keys == logs.Keys - {top};
    assert |(logs - {top}).Keys| == |logs.Keys| - 1;
  }

  /** A scan lists every row once, ascending by id. */
  lemma {:induction false} ScanLists(logs: Rows)
    requires Keyed(logs)
    ensures Ascending(Scan(logs))
    ensures forall r :: r in Scan(logs) <==> r.id in logs && logs[r.id] == r
    decreases |logs|
  {
    if exists x :: x in logs {
      var top := MaxId(logs);
      var rest := logs - {top};
      WithoutTop(logs);
      ScanLists(rest);
      forall r ensures r in Scan(logs) <==> r.id in logs && logs[r.id] == r {
        assert r in Scan(logs) <==> r in Scan(rest) || r == logs[top];
      }
      forall k | 0 <= k < |Scan(rest)| ensures Scan(rest)[k].id < top {
        var r := Scan(rest)[k];
        assert r in Scan(rest);
        assert r.id in rest && r.id in logs && r.id != top;
      }
    }
  }

  /** LIMIT n; SQLite reads a negative limit as "no limit". */
  function Limit<T>(s: seq<T>, n: int): seq<T> {
    if n < 0 || n >= |s| then s else s[..n]
  }

  ghost function Above(after: int): LogRecord -> bool { (r: LogRecord) => r.id > after }

  lemma {:induction false} FilterAscending(rs: seq<LogRecord>, p: LogRecord -> bool)
    requires Ascending(rs)
    ensures Ascending(Filter(rs, p))
  {
    if rs != [] {
      var front := rs[..|rs| - 1];
      FilterAscending(front, p);
      FilterMembers(front, p);
      forall i | 0 <= i < |Filter(front, p)| ensures Filter(front, p)[i].id < rs[|rs| - 1].id {
        assert Filter(front, p)[i] in front;
      }
    }
  }

  /** A stretch one longer: the frame at its end is kept if its id is above `high`. */
  lemma OneMoreAbove(ring: seq<LogRecord>, sub: nat, pos: nat, high: int)
    requires sub <= pos < |ring|
    ensures Filter(ring[sub..pos + 1], Above(high))
         == Filter(ring[sub..pos], Above(high)) + if ring[pos].id > high then [ring[pos]] else []
  {
    var longer := ring[sub..pos + 1];
    assert longer[..|longer| - 1] == ring[sub..pos] && longer[|longer| - 1] == ring[pos];
  }

  /** WHERE id > after ORDER BY id ASC LIMIT limit (reader.rs, since_id). */
  ghost function SinceId(logs: Rows, after: int, limit: int): seq<LogRecord> {
    Limit(Filter(Scan(logs), Above(after)), limit)
  }

  /** The rows with an id above `after`, once each, in id order. */
  ghost predicate ListsAbove(logs: Rows, after: int, wanted: seq<LogRecord>) {
    && Ascending(wanted)
    && (forall r | r in wanted :: r.id > after && r.id in logs && logs[r.id] == r)
    && (forall id | id in logs && id > after :: logs[id] in wanted && logs[id].id == id)
  }

  lemma ScanAbove(logs: Rows, after: int, limit: int) returns (wanted: seq<LogRecord>)
    requires Keyed(logs)
    ensures ListsAbove(logs, after, wanted) && SinceId(logs, after, limit) == Limit(wanted, limit)
  {
    wanted := Filter(Scan(logs), Above(after));
    ScanLists(logs);
    FilterMembers(Scan(logs), Above(after));
    FilterAscending(Scan(logs), Above(after));
    forall id | id in logs && id > after ensures logs[id] in wanted {
      assert logs[id] in Scan(logs);
    }
  }

  /** A walk that has shown `n` of the wanted rows continues above this id. */
  function CursorAt(wanted: seq<LogRecord>, after: int, n: nat): int
    requires n <= |wanted|
  {
    if n == 0 then after else wanted[n - 1].id
  }

  /** The least id above the cursor, if there is one, is the next wanted row's. */
  predicate IsNextId(logs: Rows, cursor: int, id: int) {
    id in logs && id > cursor && forall j | j in logs && j > cursor :: id <= j
  }

  lemma NextRow(logs: Rows, after: int, wanted: seq<LogRecord>, n: nat, id: int)
    requires ListsAbove(logs, after, wanted) && n <= |wanted|
    requires IsNextId(logs, CursorAt(wanted, after, n), id)
    ensures n < |wanted| && wanted[n] == logs[id]
  {
    var cursor := CursorAt(wanted, after, n);
    assert n > 0 ==> wanted[n - 1] in wanted;
    assert id > after && logs[id] in wanted;
    var k :| 0 <= k < |wanted| && wanted[k] == logs[id];
    assert k >= n;
    assert wanted[n] in wanted;
    assert wanted[n].id > cursor;
    assert id <= wanted[n].id;
  }

  lemma NoNextRow(logs: Rows, after: int, wanted: seq<LogRecord>, n: nat)
    requires ListsAbove(logs, after, wanted) && n <= |wanted|
    requires forall id :: !IsNextId(logs, CursorAt(wanted, after, n), id)
    ensures n == |wanted|
  {
    if n < |wanted| {
      var cursor, next := CursorAt(wanted, after, n), wanted[n].id;
      assert wanted[n] in wanted && (n > 0 ==> wanted[n - 1] in wanted);
      forall id | id in logs && id > cursor ensures next <= id {
        var k :| 0 <= k < |wanted| && wanted[k] == logs[id];
        assert k >= n;
      }
      assert IsNextId(logs, cursor, next);
    }
  }

  /** A replay page: ascending, only newer rows, and complete up to its last row when it is cut. */
  lemma SinceIdPage(logs: Rows, after: int, limit: nat)
    requires Keyed(logs) && limit > 0
    ensures var page := SinceId(logs, after, limit);
      && Ascending(page) && |page| <= limit
      && (forall r | r in page :: r.id > after && r.id in logs && logs[r.id] == r)
      && (forall id | id in logs && id > after ::
            logs[id] in page || (|page| == limit && page[limit - 1].id < id))
  {
    ScanLists(logs);
    var all := Filter(Scan(logs), Above(after));
    FilterMembers(Scan(logs), Above(after));
    FilterAscending(Scan(logs), Above(after));
    var page := SinceId(logs, after, limit);
    forall id | id in logs && id > after
      ensures logs[id] in page || (|page| == limit && page[limit - 1].id < id)
    {
      assert logs[id] in all;
      var k :| 0 <= k < |all| && all[k] == logs[id];
      if k < |page| {
        assert page[k] == logs[id];
      } else {
        assert page[limit - 1] == all[limit - 1];
      }
    }
  }
}
