/** What the write path guarantees in every reachable state, and where it stops. */
module Pipeline {
  import opened Basics
  import opened Records
  import opened Table
  import opened Protocol
  import opened Invariants

  /** Every accepted record is queued, in the writer's hand, stored, pruned, or lost; never two of these. */
  lemma Conservation(cfg: Config, s: Sys)
    requires Reachable(cfg, s)
    ensures s.totals.accepted == multiset(s.queue) + multiset(s.batch) + multiset(RowSet(s.db.logs))
                              + s.totals.pruned + s.totals.lost
      && |s.totals.accepted| == |s.queue| + |s.batch| + |RowSet(s.db.logs)| + |s.totals.pruned| + |s.totals.lost|
  {
    ReachableOk(cfg, s);
  }

  /** Restarts, sweeps and rolled-back batches included, the index is exactly the image of the table. */
  lemma IndexAgreement(cfg: Config, s: Sys)
    requires Reachable(cfg, s)
    ensures forall p :: p in s.db.fts <==>
              && p.rowid in s.db.logs
              && p.message == s.db.logs[p.rowid].message && p.name == s.db.logs[p.rowid].name
  {
    ReachableOk(cfg, s);
    var db := s.db;
    forall p
      ensures p in db.fts <==>
                p.rowid in db.logs && p.message == db.logs[p.rowid].message && p.name == db.logs[p.rowid].name
    {
      if p in db.fts {
        var id :| id in db.logs && p == Post(db.logs[id]);
        assert p.rowid == id;
      }
      if p.rowid in db.logs && p.message == db.logs[p.rowid].message && p.name == db.logs[p.rowid].name {
        assert p == Post(db.logs[p.rowid]);
      }
    }
  }

  /** In flight, queued, in hand and stored ids are pairwise distinct, so no INSERT OR REPLACE replaces. */
  lemma FreshIds(cfg: Config, s: Sys)
    requires Reachable(cfg, s)
    ensures DistinctIds(s.batch + s.queue)
      && (forall r | r in s.batch + s.queue :: r.id !in s.db.logs && r.id <= s.counter)
      && (forall pid | pid in s.handlers ::
            && s.handlers[pid].rec.id !in s.db.logs && s.handlers[pid].rec.id !in Ids(s.batch + s.queue)
            && s.handlers[pid].rec.id <= s.counter)
      && (forall p, q | p in s.handlers && q in s.handlers && p != q ::
            s.handlers[p].rec.id != s.handlers[q].rec.id)
      && (forall id | id in s.db.logs :: id <= s.counter)
  {
    ReachableOk(cfg, s);
    PendingAccepted(s.past, s.batch, s.queue);
    PendingFresh(s);
    forall pid | pid in s.handlers
      ensures s.handlers[pid].rec.id !in s.db.logs && s.handlers[pid].rec.id !in Ids(s.batch + s.queue)
    {
      InFlightUnaccepted(s, pid);
    }
  }

  /** What is queued or in hand is the rest of the acceptance order after what was attempted. */
  lemma PendingAccepted(h: History, batch: seq<LogRecord>, queue: seq<LogRecord>)
    requires FifoOk(h, batch, queue) && DistinctIds(h.accepted)
    ensures DistinctIds(batch + queue)
    ensures forall r | r in batch + queue :: r in h.accepted && forall p | p in h.processed :: p.id != r.id
  {
    var a, n, pending := h.accepted, |h.processed|, batch + queue;
    assert a == h.processed + pending;
    forall r, p | r in pending && p in h.processed ensures p.id != r.id {
      var i, j :| 0 <= i < n && 0 <= j < |pending| && h.processed[i] == p && pending[j] == r;
      assert a[i] == p && a[n + j] == r;
    }
    forall i, j | 0 <= i < j < |pending| ensures pending[i].id != pending[j].id {
      assert a[n + i] == pending[i] && a[n + j] == pending[j];
    }
  }

  lemma PendingFresh(s: Sys)
    requires Inv(s)
    requires forall r | r in s.batch + s.queue ::
               r in s.past.accepted && forall p | p in s.past.processed :: p.id != r.id
    ensures forall r | r in s.batch + s.queue :: r.id !in s.db.logs && r.id <= s.counter
    ensures forall id | id in s.db.logs :: id <= s.counter
  {
    forall id | id in s.db.logs ensures id <= s.counter {
      if s.db.logs[id] in s.past.processed { assert s.db.logs[id] in s.past.accepted; }
    }
    forall r | r in s.batch + s.queue ensures r.id !in s.db.logs && r.id <= s.counter {
      assert r in s.past.ring;
    }
  }

  /** A record still in a handler's hands is not yet accepted under any content. */
  lemma InFlightUnaccepted(s: Sys, pid: nat)
    requires Inv(s) && pid in s.handlers
    ensures s.handlers[pid].rec.id !in Ids(s.past.accepted)
    ensures s.handlers[pid].rec.id !in s.db.logs
  {
    var rec := s.handlers[pid].rec;
    forall r | r in s.past.accepted ensures r.id != rec.id {
      assert r in s.past.ring;
    }
    forall r | r in s.past.processed ensures r.id != rec.id {
      assert r in s.past.accepted;
    }
  }

  /** Within one lifetime the next id is new to everything; across a restart it is reissued
      exactly when the newest id is no longer stored. */
  lemma ReissueIff(cfg: Config, s: Sys)
    requires Reachable(cfg, s)
    ensures var t := AfterRestart(s);
      && t.counter <= s.counter
      && (t.counter + 1 <= s.counter <==> s.counter > 0 && s.counter !in s.db.logs)
  {
    FreshIds(cfg, s);
    ReachableOk(cfg, s);
    if s.counter in s.db.logs {
      assert MaxId(s.db.logs) == s.counter;
    }
  }

  /** A line is published and its handler still holds it. */
  ghost function Shown(db: Db, totals: Totals, rec: LogRecord): Sys {
    AfterPublish(AfterAllocate(Boot(db, totals, map[]), 0, rec), 0)
  }

  lemma ShownLeads(cfg: Config, db: Db, totals: Totals, rec: LogRecord)
    requires rec.id == MaxId(db.logs) + 1
    ensures Leads(cfg, Boot(db, totals, map[]), [Allocate(0, rec)] + [Publish(0)], Shown(db, totals, rec))
  {
    var s0 := Boot(db, totals, map[]);
    LeadsOn(cfg, s0, [], s0, Allocate(0, rec));
    assert [] + [Allocate(0, rec)] == [Allocate(0, rec)];
    LeadsOn(cfg, s0, [Allocate(0, rec)], AfterAllocate(s0, 0, rec), Publish(0));
  }

  /** A published line that was shed has its id reissued to another line after a restart. */
  lemma ReissueHappens() returns (cfg: Config, s: Sys, steps: seq<Step>, t: Sys)
    ensures Reachable(cfg, s) && Leads(cfg, s, steps, t)
    ensures |s.past.ring| == |t.past.ring| == 1
    ensures s.past.ring[0].id == t.past.ring[0].id && s.past.ring[0].message != t.past.ring[0].message
  {
    cfg := Config(0, 1);
    var a := LogRecord(1, 0, "a", 2, "first", None, None);
    var b := LogRecord(1, 0, "b", 2, "second", None, None);
    var db, totals := Db(map[], {}), Totals(multiset(RowSet(map[])), multiset{}, multiset{});
    ShownLeads(cfg, db, totals, a);
    s := Shown(db, totals, a);
    assert GoodDb(db) && InitialState(db) == Boot(db, totals, map[]);
    t := Shown(db, totals, b);
    ShownLeads(cfg, db, totals, b);
    ShedAndRestart(cfg, s);
    steps := [Enqueue(0, false), Restart] + ([Allocate(0, b)] + [Publish(0)]);
    LeadsConcat(cfg, s, [Enqueue(0, false), Restart], Boot(db, totals, map[]), [Allocate(0, b)] + [Publish(0)], t);
  }

  /** With a full queue the line is shed, and nothing of it is left after a restart. */
  lemma ShedAndRestart(cfg: Config, s: Sys)
    requires cfg.queueCap == 0 && 0 in s.handlers && s.handlers[0].Published?
    requires s.queue == [] && s.batch == [] && s.streams == map[]
    ensures Leads(cfg, s, [Enqueue(0, false), Restart], Boot(s.db, s.totals, map[]))
  {
    var s1 := AfterEnqueue(s, 0, false);
    LeadsOn(cfg, s, [], s, Enqueue(0, false));
    LeadsOn(cfg, s, [] + [Enqueue(0, false)], s1, Restart);
    assert [] + [Enqueue(0, false)] + [Restart] == [Enqueue(0, false), Restart];
    assert AfterRestart(s1) == Boot(s.db, s.totals, map[]);
  }
}
