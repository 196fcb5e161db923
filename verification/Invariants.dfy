/** What every step of the protocol keeps, whatever the interleaving. */
module Invariants {
  import opened Basics
  import opened Records
  import opened Table
  import opened Retention
  import opened Protocol

  /** Ids: everything in flight or published since boot has its own id in (seed, counter]. */
  ghost predicate IdsOk(h: History, counter: int, handlers: map<nat, Handler>) {
    && 0 <= h.seed <= counter
    && (forall r | r in h.ring :: h.seed < r.id <= counter)
    && DistinctIds(h.ring)
    && (forall r | r in h.accepted :: r in h.ring)
    && DistinctIds(h.accepted)
    && (forall pid | pid in handlers :: HandlerOk(h, counter, handlers[pid]))
    && (forall p, q | p in handlers && q in handlers && p != q :: handlers[p].rec.id != handlers[q].rec.id)
  }

  ghost predicate HandlerOk(h: History, counter: int, c: Handler) {
    && h.seed < c.rec.id <= counter
    && (c.Allocated? ==> c.rec.id !in Ids(h.ring))
    && (c.Published? ==> c.rec in h.ring && c.rec !in h.accepted)
  }

  /** The queue is first in, first out, and the writer attempts each item once. */
  ghost predicate FifoOk(h: History, batch: seq<LogRecord>, queue: seq<LogRecord>) {
    h.accepted == h.processed + batch + queue
  }

  /** Every row came from boot or from the writer, and only rollback or retention loses one. */
  ghost predicate RowsFrom(h: History, logs: Rows) {
    && Keyed(h.boot) && (forall id | id in h.boot :: id <= h.seed)
    && (forall id | id in logs :: (id in h.boot && h.boot[id] == logs[id]) || logs[id] in h.processed)
    && (forall id | id in h.boot :: id in logs || id in h.pruned)
    && (forall r | r in h.processed :: r.id in logs || r.id in h.failed || r.id in h.pruned)
  }

  ghost predicate DbOk(h: History, db: Db) {
    GoodDb(db) && RowsFrom(h, db.logs)
  }

  /** What was rolled back or pruned is not stored, and was there before. */
  ghost predicate LossOk(h: History, logs: Rows) {
    forall id | id in h.failed || id in h.pruned :: id !in logs && (id in h.boot || id in Ids(h.processed))
  }

  /** Conservation: an accepted record is queued, in hand, stored, pruned or lost, exactly once. */
  ghost predicate Conserved(n: Totals, queue: seq<LogRecord>, batch: seq<LogRecord>, logs: Rows) {
    n.accepted == multiset(queue) + multiset(batch) + multiset(RowSet(logs)) + n.pruned + n.lost
  }

  /** One stream: its replay is a page of one snapshot, its live part a filter of a contiguous stretch. */
  ghost predicate StreamOk(h: History, st: Stream) {
    ShapeOk(h, st) && (SnapshotTaken(st) ==> SnapshotOk(h, st))
  }

  ghost predicate ShapeOk(h: History, st: Stream) {
    && st.sub <= st.pos <= |h.ring|
    && st.high == HighWater(Start(st), st.replay)
    && st.live == Filter(h.ring[st.sub..st.pos], Above(st.high))
    && st.taken <= |Emission(st)|
    && (st.after.None? || st.phase == Subscribed ==> st.replay == [])
    && (st.phase == Subscribed ==> st.pos == st.sub && st.prior == Got(st))
  }

  ghost predicate SnapshotTaken(st: Stream) {
    st.phase == Live || st.replay != [] || st.pos > st.sub
  }

  ghost predicate SnapshotOk(h: History, st: Stream) {
    && Keyed(st.base)
    && st.replay == (if st.after.Some? then SinceId(st.base, st.after.value, MAX_REPLAY) else [])
    && st.mark <= |h.processed|
    && (forall id | id in st.base :: (id in h.boot && h.boot[id] == st.base[id]) || st.base[id] in h.processed[..st.mark])
    && (forall id | id in h.boot :: id in st.base || id in h.pruned)
    && (forall r | r in h.processed[..st.mark] :: r.id in st.base || r.id in h.failed || r.id in h.pruned)
  }

  ghost predicate StreamsOk(h: History, streams: map<nat, Stream>) {
    forall k | k in streams :: StreamOk(h, streams[k])
  }

  ghost predicate Inv(s: Sys) {
    && IdsOk(s.past, s.counter, s.handlers)
    && FifoOk(s.past, s.batch, s.queue)
    && DbOk(s.past, s.db)
    && LossOk(s.past, s.db.logs)
    && Conserved(s.totals, s.queue, s.batch, s.db.logs)
    && StreamsOk(s.past, s.streams)
  }

  /** What the history alone says, with no regard to the state of the moment. */
  ghost predicate PastOk(h: History) {
    && 0 <= h.seed && (forall r | r in h.ring :: h.seed < r.id) && DistinctIds(h.ring)
    && (forall r | r in h.accepted :: r in h.ring) && DistinctIds(h.accepted)
    && h.processed <= h.accepted
    && Keyed(h.boot) && (forall id | id in h.boot :: id <= h.seed)
  }

  lemma PastIsOk(s: Sys)
    requires Inv(s)
    ensures PastOk(s.past)
  {
    assert s.past.accepted[..|s.past.processed|] == s.past.processed;
  }

  // ---------- history only grows ----------

  ghost predicate Grows(h: History, g: History) {
    && g.boot == h.boot && g.seed == h.seed
    && h.ring <= g.ring && h.accepted <= g.accepted && h.processed <= g.processed
    && h.failed <= g.failed && h.pruned <= g.pruned
  }

  lemma StreamSurvives(h: History, g: History, st: Stream)
    requires StreamOk(h, st) && Grows(h, g)
    ensures StreamOk(g, st)
  {
    assert g.ring[st.sub..st.pos] == h.ring[st.sub..st.pos];
    if SnapshotTaken(st) {
      assert g.processed[..st.mark] == h.processed[..st.mark];
    }
  }

  lemma StreamsSurvive(h: History, g: History, streams: map<nat, Stream>)
    requires StreamsOk(h, streams) && Grows(h, g)
    ensures StreamsOk(g, streams)
  {
    forall k | k in streams ensures StreamOk(g, streams[k]) {
      StreamSurvives(h, g, streams[k]);
    }
  }

  // ---------- multisets of rows ----------

  lemma InsertCounts(db: Db, r: LogRecord)
    requires Keyed(db.logs) && r.id !in db.logs
    ensures multiset(RowSet(Insert(db, r).logs)) == multiset(RowSet(db.logs)) + multiset{r}
  {
    var after := Insert(db, r).logs;
    assert RowSet(after) == RowSet(db.logs) + {r} by {
      forall v | v in RowSet(db.logs) ensures v in RowSet(after) {
        var id :| id in db.logs && db.logs[id] == v;
        assert id in after && after[id] == v;
      }
      assert r.id in after && after[r.id] == r;
    }
    assert r !in RowSet(db.logs);
  }

  lemma {:induction false} InsertAllCounts(db: Db, rs: seq<LogRecord>)
    requires Keyed(db.logs) && Agrees(db)
    requires DistinctIds(rs) && forall r | r in rs :: r.id !in db.logs
    ensures multiset(RowSet(InsertAll(db, rs).logs)) == multiset(RowSet(db.logs)) + multiset(rs)
  {
    if rs != [] {
      var front, last := rs[..|rs| - 1], rs[|rs| - 1];
      assert rs == front + [last];
      InsertAllCounts(db, front);
      InsertAllFresh(db, front);
      assert last.id !in Ids(front);
      InsertCounts(InsertAll(db, front), last);
    }
  }

  lemma SweepCounts(before: Rows, after: Rows)
    requires forall id | id in after :: id in before && after[id] == before[id]
    ensures multiset(RowSet(before)) == (multiset(RowSet(before)) - multiset(RowSet(after))) + multiset(RowSet(after))
  {
    assert RowSet(after) <= RowSet(before) by {
      forall v | v in RowSet(after) ensures v in RowSet(before) {
        var id :| id in after && after[id] == v;
        assert id in before && before[id] == v;
      }
    }
  }

  // ---------- the writer's batch is always new to the table ----------

  lemma BatchFresh(s: Sys)
    requires Inv(s)
    ensures DistinctIds(s.batch)
    ensures forall r | r in s.batch ::
              r.id > 0 && r.id !in s.db.logs && r.id !in s.past.boot && r.id !in Ids(s.past.processed)
  {
    var a, n := s.past.accepted, |s.past.processed|;
    forall i | 0 <= i < |s.batch| ensures a[n + i] == s.batch[i] {}
    forall r | r in s.batch
      ensures r.id > 0 && r.id !in s.db.logs && r.id !in s.past.boot && r.id !in Ids(s.past.processed)
    {
      var i :| 0 <= i < |s.batch| && s.batch[i] == r;
      assert a[n + i] == r && r in a && r in s.past.ring;
      forall j | 0 <= j < n ensures s.past.processed[j].id != r.id {
        assert a[j] == s.past.processed[j];
      }
    }
  }

  // ---------- each kind of step keeps the invariant ----------

  lemma AllocateKeeps(s: Sys, pid: nat, rec: LogRecord)
    requires Inv(s) && pid !in s.handlers && rec.id == s.counter + 1
    ensures Inv(AfterAllocate(s, pid, rec))
  {
  }

  lemma PublishKeeps(s: Sys, pid: nat)
    requires Inv(s) && pid in s.handlers && s.handlers[pid].Allocated?
    ensures Inv(AfterPublish(s, pid))
    ensures var t, rec := AfterPublish(s, pid), s.handlers[pid].rec;
      && rec !in s.past.ring && t.past.ring == s.past.ring + [rec] && t.handlers == s.handlers[pid := Published(rec)]
      && t.streams == s.streams && t.db == s.db && t.queue == s.queue && t.batch == s.batch
  {
    StreamsSurvive(s.past, AfterPublish(s, pid).past, s.streams);
  }

  lemma EnqueueKeeps(s: Sys, pid: nat, sent: bool)
    requires Inv(s) && pid in s.handlers && s.handlers[pid].Published?
    ensures Inv(AfterEnqueue(s, pid, sent))
    ensures var t, more := AfterEnqueue(s, pid, sent), if sent then [s.handlers[pid].rec] else [];
      && t.queue == s.queue + more && t.past.accepted == s.past.accepted + more && t.handlers == s.handlers - {pid}
      && t.streams == s.streams && t.db == s.db && t.batch == s.batch && t.past.ring == s.past.ring
  {
    var t := AfterEnqueue(s, pid, sent);
    var rec := s.handlers[pid].rec;
    StreamsSurvive(s.past, t.past, s.streams);
    NotYetAccepted(s.past, s.counter, s.handlers, rec);
    if sent {
      SentIds(s.past, s.counter, s.handlers, pid);
      assert t.past.accepted == t.past.processed + t.batch + t.queue;
    }
  }

  lemma NotYetAccepted(h: History, counter: int, handlers: map<nat, Handler>, rec: LogRecord)
    requires IdsOk(h, counter, handlers) && rec in h.ring && rec !in h.accepted
    ensures forall r | r in h.accepted :: r.id != rec.id
  {
    forall r | r in h.accepted ensures r.id != rec.id {
      if r.id == rec.id { SameId(h.ring, r, rec); }
    }
  }

  lemma SentIds(h: History, counter: int, handlers: map<nat, Handler>, pid: nat)
    requires IdsOk(h, counter, handlers) && pid in handlers && handlers[pid].Published?
    requires forall r | r in h.accepted :: r.id != handlers[pid].rec.id
    ensures IdsOk(h.(accepted := h.accepted + [handlers[pid].rec]), counter, handlers - {pid})
  {
  }

  lemma TakeKeeps(s: Sys)
    requires Inv(s) && s.queue != []
    ensures Inv(AfterTake(s))
  {
    var t := AfterTake(s);
    assert s.queue == [s.queue[0]] + s.queue[1..];
    assert s.past.processed + s.batch + s.queue == s.past.processed + t.batch + t.queue;
    assert multiset(s.queue) == multiset{s.queue[0]} + multiset(s.queue[1..]);
  }

  lemma CommitKeeps(s: Sys)
    requires Inv(s)
    ensures Inv(AfterCommit(s, true))
    ensures var t := AfterCommit(s, true);
      && t.batch == [] && t.queue == s.queue && t.past.processed == s.past.processed + s.batch
      && t.db.logs.Keys == s.db.logs.Keys + Ids(s.batch)
      && (forall id | id in s.db.logs :: t.db.logs[id] == s.db.logs[id])
      && (forall x | x in s.batch :: x.id !in s.db.logs && t.db.logs[x.id] == x)
  {
    var t := AfterCommit(s, true);
    StreamsSurvive(s.past, t.past, s.streams);
    BatchFresh(s);
    SameIds(s.past, t.past, s.counter, s.handlers);
    CommitOrder(s.past, s.batch, s.queue);
    CommitRows(s.past, s.batch, s.db);
    CommitLoss(s.past, s.batch, s.db);
    CommitCounts(s.totals, s.queue, s.batch, s.db);
    InsertAllFresh(s.db, s.batch);
  }

  lemma SameIds(h: History, g: History, counter: int, handlers: map<nat, Handler>)
    requires IdsOk(h, counter, handlers) && g.seed == h.seed && g.ring == h.ring && g.accepted == h.accepted
    ensures IdsOk(g, counter, handlers)
  {
    forall pid | pid in handlers ensures HandlerOk(g, counter, handlers[pid]) {
      assert HandlerOk(h, counter, handlers[pid]);
    }
  }

  lemma CommitOrder(h: History, batch: seq<LogRecord>, queue: seq<LogRecord>)
    requires FifoOk(h, batch, queue)
    ensures FifoOk(h.(processed := h.processed + batch), [], queue)
  {
    assert h.processed + batch + [] + queue == h.processed + batch + queue;
  }

  lemma CommitLoss(h: History, batch: seq<LogRecord>, db: Db)
    requires LossOk(h, db.logs) && Keyed(db.logs) && Agrees(db) && DistinctIds(batch)
    requires forall r | r in batch :: r.id !in db.logs && r.id !in h.boot && r.id !in Ids(h.processed)
    ensures LossOk(h.(processed := h.processed + batch), InsertAll(db, batch).logs)
  {
    InsertAllFresh(db, batch);
  }

  lemma CommitCounts(n: Totals, queue: seq<LogRecord>, batch: seq<LogRecord>, db: Db)
    requires Conserved(n, queue, batch, db.logs) && Keyed(db.logs) && Agrees(db) && DistinctIds(batch)
    requires forall r | r in batch :: r.id !in db.logs
    ensures Conserved(n, queue, [], InsertAll(db, batch).logs)
  {
    InsertAllCounts(db, batch);
  }

  lemma CommitRows(h: History, batch: seq<LogRecord>, db: Db)
    requires DbOk(h, db) && DistinctIds(batch) && forall r | r in batch :: r.id > 0 && r.id !in db.logs
    ensures DbOk(h.(processed := h.processed + batch), InsertAll(db, batch))
  {
    InsertAllFresh(db, batch);
    var logs := InsertAll(db, batch).logs;
    forall id | id in logs
      ensures id > 0 && ((id in h.boot && h.boot[id] == logs[id]) || logs[id] in h.processed + batch)
    {
      if id !in db.logs {
        var r :| r in batch && r.id == id;
        assert logs[id] == r;
      }
    }
  }

  lemma RollbackKeeps(s: Sys)
    requires Inv(s)
    ensures Inv(AfterCommit(s, false))
    ensures var t := AfterCommit(s, false);
      && t.db == s.db && t.batch == [] && t.queue == s.queue && t.past.processed == s.past.processed + s.batch
      && t.totals.lost == s.totals.lost + multiset(s.batch)
  {
    var t := AfterCommit(s, false);
    StreamsSurvive(s.past, t.past, s.streams);
    SameIds(s.past, t.past, s.counter, s.handlers);
    CommitOrder(s.past, s.batch, s.queue);
    RollbackRows(s.past, s.batch, s.db);
    RollbackLoss(s);
    RollbackCounts(s.totals, s.queue, s.batch, s.db.logs);
  }

  lemma RollbackCounts(n: Totals, queue: seq<LogRecord>, batch: seq<LogRecord>, logs: Rows)
    requires Conserved(n, queue, batch, logs)
    ensures Conserved(n.(lost := n.lost + multiset(batch)), queue, [], logs)
  {
  }

  lemma RollbackLoss(s: Sys)
    requires Inv(s)
    ensures LossOk(AfterCommit(s, false).past, s.db.logs)
  {
    BatchFresh(s);
    BatchLost(s.past, s.batch, s.db.logs);
  }

  lemma BatchLost(h: History, batch: seq<LogRecord>, logs: Rows)
    requires LossOk(h, logs) && forall r | r in batch :: r.id !in logs
    ensures LossOk(h.(processed := h.processed + batch, failed := h.failed + set r | r in batch :: r.id), logs)
  {
  }

  lemma RollbackRows(h: History, batch: seq<LogRecord>, db: Db)
    requires DbOk(h, db)
    ensures DbOk(h.(processed := h.processed + batch, failed := h.failed + set r | r in batch :: r.id), db)
  {
  }

  lemma SweepKeeps(s: Sys, cutoff: Option<int>, maxRows: int)
    requires Inv(s)
    ensures Inv(AfterSweep(s, cutoff, maxRows))
    ensures var t := AfterSweep(s, cutoff, maxRows);
      && (forall id | id in t.db.logs :: id in s.db.logs && t.db.logs[id] == s.db.logs[id])
      && (forall id | id in s.db.logs && id !in t.db.logs :: id in t.past.pruned)
      && t.queue == s.queue && t.batch == s.batch && t.past.ring == s.past.ring && t.streams == s.streams
  {
    var after := Prune(s.db, cutoff, maxRows);
    PruneAgrees(s.db, cutoff, maxRows);
    PruneOnlyRemoves(s.db, cutoff, maxRows);
    SweepRows(s.past, s.db, after);
    SweepLoss(s.past, s.db, after);
    SweepConserved(s.totals, s.queue, s.batch, s.db.logs, after.logs);
    StreamsSurvive(s.past, s.past.(pruned := s.past.pruned + (s.db.logs.Keys - after.logs.Keys)), s.streams);
  }

  lemma SweepConserved(n: Totals, queue: seq<LogRecord>, batch: seq<LogRecord>, before: Rows, after: Rows)
    requires Conserved(n, queue, batch, before)
    requires forall id | id in after :: id in before && after[id] == before[id]
    ensures Conserved(n.(pruned := n.pruned + (multiset(RowSet(before)) - multiset(RowSet(after)))), queue, batch, after)
  {
    SweepCounts(before, after);
  }

  lemma SweepRows(h: History, before: Db, after: Db)
    requires DbOk(h, before) && Keyed(after.logs) && Agrees(after)
    requires forall id | id in after.logs :: id in before.logs && after.logs[id] == before.logs[id]
    ensures DbOk(h.(pruned := h.pruned + (before.logs.Keys - after.logs.Keys)), after)
  {
  }

  lemma SweepLoss(h: History, before: Db, after: Db)
    requires DbOk(h, before) && LossOk(h, before.logs)
    requires forall id | id in after.logs :: id in before.logs && after.logs[id] == before.logs[id]
    ensures LossOk(h.(pruned := h.pruned + (before.logs.Keys - after.logs.Keys)), after.logs)
  {
    forall id | id in before.logs ensures id in h.boot || id in Ids(h.processed) {
      assert before.logs[id].id == id;
    }
  }

  lemma SnapshotKeeps(s: Sys, st: Stream)
    requires DbOk(s.past, s.db) && StreamOk(s.past, st) && st.phase == Subscribed
    ensures StreamOk(s.past, Snapped(s, st))
  {
    assert s.past.processed[..|s.past.processed|] == s.past.processed;
  }

  lemma PollKeeps(h: History, st: Stream)
    requires StreamOk(h, st) && st.phase == Live && st.pos < |h.ring|
    ensures StreamOk(h, Polled(h, st))
  {
    PollShape(h, st);
    SameSnapshot(h, st, Polled(h, st));
  }

  lemma PollShape(h: History, st: Stream)
    requires ShapeOk(h, st) && st.phase == Live && st.pos < |h.ring|
    ensures ShapeOk(h, Polled(h, st))
  {
    OneMoreAbove(h.ring, st.sub, st.pos, st.high);
    assert st.live + [] == st.live;
  }

  lemma SameSnapshot(h: History, st: Stream, u: Stream)
    requires SnapshotOk(h, st)
    requires u.base == st.base && u.mark == st.mark && u.replay == st.replay && u.after == st.after
    ensures SnapshotOk(h, u)
  {
  }

  lemma WithStreamKeeps(s: Sys, k: nat, st: Stream)
    requires Inv(s) && StreamOk(s.past, st)
    ensures Inv(WithStream(s, k, st))
  {
  }

  lemma OpenedOk(h: History, after: Option<int>, origin: Option<int>, prior: seq<LogRecord>, ordered: bool, clean: bool)
    ensures StreamOk(h, Opened(|h.ring|, after, origin, prior, ordered, clean))
  {
    assert h.ring[|h.ring|..|h.ring|] == [];
  }

  lemma ClosedOk(h: History, st: Stream)
    requires StreamOk(h, st)
    ensures StreamOk(h, st.(phase := Closed))
  {
  }

  lemma OrphanedOk(h: History, s: Sys, st: Stream)
    requires h.ring == []
    ensures StreamOk(h, Orphaned(s, st))
  {
  }

  lemma RestartKeeps(s: Sys)
    requires Inv(s)
    ensures Inv(AfterRestart(s))
  {
    var t := AfterRestart(s);
    forall k | k in t.streams ensures StreamOk(t.past, t.streams[k]) {
      OrphanedOk(t.past, s, s.streams[k]);
    }
    RestartCounts(s);
  }

  lemma RestartCounts(s: Sys)
    requires Conserved(s.totals, s.queue, s.batch, s.db.logs)
    ensures Conserved(AfterRestart(s).totals, [], [], s.db.logs)
  {
  }

  /** The moves of a stream leave it well formed. */
  lemma MovedOk(s: Sys, cfg: Config, st: Stream, move: Move)
    requires DbOk(s.past, s.db) && StreamOk(s.past, st) && Movable(cfg, s.past, st, move)
    ensures StreamOk(s.past, Moved(s, st, move))
  {
    match move
    case Connect(_) =>
    case Snapshot => SnapshotKeeps(s, st);
    case Poll => PollKeeps(s.past, st);
    case Lag => ClosedOk(s.past, st);
    case Close => ClosedOk(s.past, st);
    case Receive => NextOk(s.past, st);
    case Reconnect => OpenedOk(s.past, Cursor(st), st.origin, Got(st), st.ordered, st.clean);
  }

  lemma NextOk(h: History, st: Stream)
    requires StreamOk(h, st) && st.taken < |Emission(st)|
    ensures StreamOk(h, Next(st))
  {
  }

  lemma NextStreamOk(cfg: Config, s: Sys, k: nat, move: Move)
    requires Inv(s) && Enabled(cfg, s, Client(k, move))
    ensures StreamOk(s.past, NextStream(s, k, move))
  {
    if move.Connect? {
      OpenedOk(s.past, move.last, move.last, [], true, true);
    } else {
      MovedOk(s, cfg, s.streams[k], move);
    }
  }

  lemma StepKeeps(cfg: Config, s: Sys, step: Step)
    requires Inv(s) && Enabled(cfg, s, step)
    ensures Inv(Apply(cfg, s, step))
  {
    match step
    case Allocate(pid, rec) => AllocateKeeps(s, pid, rec);
    case Reject => assert Inv(s.(counter := s.counter + 1));
    case Publish(pid) => PublishKeeps(s, pid);
    case Enqueue(pid, sent) => EnqueueKeeps(s, pid, sent);
    case Drain => assert Inv(s.(draining := true));
    case Take => TakeKeeps(s);
    case Commit(ok) => if ok { CommitKeeps(s); } else { RollbackKeeps(s); }
    case Sweep(cutoff, maxRows) => SweepKeeps(s, cutoff, maxRows);
    case Restart => RestartKeeps(s);
    case Client(k, move) =>
      NextStreamOk(cfg, s, k, move);
      WithStreamKeeps(s, k, NextStream(s, k, move));
  }

  /** A run from a good state stays good. */
  lemma {:induction false} RunKeeps(cfg: Config, s: Sys, steps: seq<Step>, t: Sys)
    requires Inv(s) && Leads(cfg, s, steps, t)
    ensures Inv(t)
    decreases |steps|
  {
    if steps != [] {
      StepKeeps(cfg, s, steps[0]);
      RunKeeps(cfg, Apply(cfg, s, steps[0]), steps[1..], t);
    }
  }

  lemma BootOk(db: Db)
    requires GoodDb(db)
    ensures Inv(InitialState(db))
  {
  }

  /** Every reachable state satisfies the invariant. */
  lemma ReachableOk(cfg: Config, s: Sys)
    requires Reachable(cfg, s)
    ensures Inv(s)
  {
    var db, steps :| GoodDb(db) && Leads(cfg, InitialState(db), steps, s);
    BootOk(db);
    RunKeeps(cfg, InitialState(db), steps, s);
  }
}
