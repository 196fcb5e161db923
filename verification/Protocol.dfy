/**
 * The whole server as a step machine: handlers taking ids, publishing and queueing, the writer
 * thread committing, the retention sweep, SSE streams replaying and tailing, clients reconnecting,
 * and restarts. Every atomic action is a `Step`; a run is any sequence of enabled steps, so a
 * statement about all runs covers every interleaving.
 */
module Protocol {
  import opened Basics
  import opened Records
  import opened Table
  import opened Retention

  const MAX_BATCH: nat := 256
  const MAX_REPLAY: nat := 5000

  /** Queue and broadcast capacities; the channel may round the latter up, so any value >= 1 is allowed. */
  datatype Config = Config(queueCap: nat, ringCap: nat)

  /** An ingest call in progress: its id is taken, and perhaps its frame is already broadcast. */
  datatype Handler = Allocated(rec: LogRecord) | Published(rec: LogRecord)

  /** A stream has subscribed, is sending (`Live`), or has ended. */
  datatype Phase = Subscribed | Live | Closed

  datatype Stream = Stream(
    after: Option<int>,          // Last-Event-ID
    sub: nat,                    // publications before the subscription
    phase: Phase,
    replay: seq<LogRecord>,      // frames read from the table
    high: int,                   // high_water
    pos: nat,                    // publications received so far, counted from boot
    live: seq<LogRecord>,        // frames forwarded from the broadcast
    taken: nat,                  // frames of replay + live the client has received
    // history of the client and of the snapshot
    origin: Option<int>,         // Last-Event-ID of the client's first connection
    prior: seq<LogRecord>,       // what the client received over its earlier connections
    base: Rows,                  // the table the replay was read from
    mark: nat,                   // records attempted by the writer before the snapshot
    ordered: bool,               // in every earlier lifetime of the process ids were published in order
    clean: bool)                 // no replay of this client left a gap, and no restart broke its order

  /** What has happened since boot. */
  datatype History = History(
    boot: Rows,                  // the table found at boot
    seed: int,                   // MAX(id) at boot
    ring: seq<LogRecord>,        // every publication; the channel itself keeps the last ringCap
    accepted: seq<LogRecord>,    // every successful enqueue, in queue order
    processed: seq<LogRecord>,   // everything the writer has attempted, in order
    failed: set<int>,            // ids in batches that were rolled back
    pruned: set<int>)            // ids removed by retention

  /** Accounting over all lifetimes of the process. */
  datatype Totals = Totals(
    accepted: multiset<LogRecord>,
    pruned: multiset<LogRecord>,
    lost: multiset<LogRecord>)   // rolled back, or queued when the process died

  datatype Sys = Sys(
    counter: int,
    handlers: map<nat, Handler>,
    queue: seq<LogRecord>,
    batch: seq<LogRecord>,
    db: Db,
    draining: bool,
    streams: map<nat, Stream>,
    past: History,
    totals: Totals)

  /** What can happen to one client and its stream. */
  datatype Move =
    | Connect(last: Option<int>)                    // a new client subscribes
    | Snapshot                                      // the replay query, then high_water is fixed
    | Poll                                          // the stream receives one frame
    | Lag                                           // the receiver was overrun; the stream closes
    | Close                                         // shutdown, query failure, or the connection drops
    | Receive                                       // the client reads its next frame
    | Reconnect                                     // the client returns with the id of its last frame

  datatype Step =
    | Allocate(pid: nat, rec: LogRecord)            // Store::next_id, then to_record accepts
    | Reject                                        // Store::next_id, then to_record refuses
    | Publish(pid: nat)                             // Hub::publish
    | Enqueue(pid: nat, sent: bool)                 // Store::send
    | Drain                                         // WriterHandle::shutdown sets the flag
    | Take                                          // the writer receives one item
    | Commit(ok: bool)                              // commit_batch
    | Sweep(cutoff: Option<int>, maxRows: int)      // retention::prune
    | Client(k: nat, move: Move)                    // one client's stream moves
    | Restart                                       // the process ends and a new one opens the database

  function Start(st: Stream): int {
    if st.after.Some? then st.after.value else 0
  }

  ghost function HighWater(start: int, replay: seq<LogRecord>): int {
    if replay == [] then start else Max(HighWater(start, replay[..|replay| - 1]), replay[|replay| - 1].id)
  }

  function Emission(st: Stream): seq<LogRecord> {
    st.replay + st.live
  }

  /** Everything the client behind this stream has received, over all its connections. */
  function Got(st: Stream): seq<LogRecord> {
    if st.taken <= |Emission(st)| then st.prior + Emission(st)[..st.taken] else st.prior
  }

  /** The Last-Event-ID the client would send now. */
  function Cursor(st: Stream): Option<int> {
    if Got(st) == [] then st.origin else Some(Got(st)[|Got(st)| - 1].id)
  }

  /** Every record published before the subscription has reached the writer, or never will. */
  ghost predicate CaughtUp(s: Sys, st: Stream) {
    && (forall i | 0 <= i < st.sub <= |s.past.ring| ::
          s.past.ring[i] !in s.queue && s.past.ring[i] !in s.batch)
    && (forall i, pid | 0 <= i < st.sub <= |s.past.ring| && pid in s.handlers ::
          s.handlers[pid].Published? ==> s.handlers[pid].rec != s.past.ring[i])
  }

  ghost predicate FitsReplay(logs: Rows, after: int) {
    |Filter(Scan(logs), Above(after))| <= MAX_REPLAY
  }

  /** A replay, where one is asked for, covers everything the client missed. */
  ghost predicate GapCovered(s: Sys, st: Stream) {
    st.after.Some? ==> CaughtUp(s, st) && FitsReplay(s.db.logs, st.after.value)
  }

  function Opened(sub: nat, after: Option<int>, origin: Option<int>, prior: seq<LogRecord>,
                  ordered: bool, clean: bool): Stream {
    Stream(after, sub, Subscribed, [], if after.Some? then after.value else 0, sub, [], 0,
           origin, prior, map[], 0, ordered, clean)
  }

  ghost predicate Enabled(cfg: Config, s: Sys, step: Step) {
    match step
    case Allocate(pid, rec) => pid !in s.handlers && rec.id == s.counter + 1
    case Reject => true
    case Publish(pid) => pid in s.handlers && s.handlers[pid].Allocated?
    case Enqueue(pid, sent) =>
      && pid in s.handlers && s.handlers[pid].Published?
      // The draining flag is read before the send, so a send may still succeed after it is set.
      && (if sent then |s.queue| < cfg.queueCap else s.draining || |s.queue| >= cfg.queueCap)
    case Drain => true
    case Take => s.queue != [] && |s.batch| < MAX_BATCH
    case Commit(_) => s.batch != []
    case Sweep(_, _) => s.batch == []
    case Client(k, move) => if move.Connect? then k !in s.streams else k in s.streams && Movable(cfg, s.past, s.streams[k], move)
    case Restart => true
  }

  /** Whether an existing stream can make a move. */
  ghost predicate Movable(cfg: Config, h: History, st: Stream, move: Move) {
    match move
    case Connect(_) => false
    case Snapshot => st.phase == Subscribed
    case Poll => st.phase == Live && st.pos < |h.ring| <= st.pos + cfg.ringCap
    case Lag => st.phase == Live && |h.ring| > st.pos + cfg.ringCap
    case Close => true
    case Receive => st.taken < |Emission(st)|
    case Reconnect => st.phase == Closed
  }

  ghost function Snapped(s: Sys, st: Stream): Stream {
    var replay := if st.after.Some? then SinceId(s.db.logs, st.after.value, MAX_REPLAY) else [];
    st.(phase := Live, replay := replay, high := HighWater(Start(st), replay),
        base := s.db.logs, mark := |s.past.processed|, clean := st.clean && GapCovered(s, st))
  }

  function Polled(h: History, st: Stream): Stream {
    if st.pos >= |h.ring| then st
    else
      var frame := h.ring[st.pos];
      st.(pos := st.pos + 1, live := if frame.id <= st.high then st.live else st.live + [frame])
  }

  function Next(st: Stream): Stream {
    st.(taken := st.taken + 1)
  }

  /** The client's next connection: it presents the id of the last frame it received. */
  function Reopened(h: History, st: Stream): Stream {
    Opened(|h.ring|, Cursor(st), st.origin, Got(st), st.ordered, st.clean)
  }

  /** The client's last frame is not newer than the newest stored row. */
  ghost predicate StillBehind(logs: Rows, st: Stream) {
    Got(st) != [] ==> Got(st)[|Got(st)| - 1].id <= MaxId(logs)
  }

  /** The client outlives the process: cut off, it will come back to the next one. */
  ghost function Orphaned(s: Sys, st: Stream): Stream {
    Opened(0, Cursor(st), st.origin, Got(st), st.ordered && Ascending(s.past.ring),
           st.clean && Ascending(s.past.accepted) && StillBehind(s.db.logs, st)).(phase := Closed)
  }

  ghost function Boot(db: Db, totals: Totals, streams: map<nat, Stream>): Sys {
    Sys(MaxId(db.logs), map[], [], [], db, false, streams,
        History(db.logs, MaxId(db.logs), [], [], [], {}, {}), totals)
  }

  // ---------- the effect of each step ----------

  function AfterAllocate(s: Sys, pid: nat, rec: LogRecord): Sys {
    s.(counter := s.counter + 1, handlers := s.handlers[pid := Allocated(rec)])
  }

  function AfterPublish(s: Sys, pid: nat): Sys
    requires pid in s.handlers
  {
    var rec := s.handlers[pid].rec;
    s.(handlers := s.handlers[pid := Published(rec)], past := s.past.(ring := s.past.ring + [rec]))
  }

  function AfterEnqueue(s: Sys, pid: nat, sent: bool): Sys
    requires pid in s.handlers
  {
    var rec := s.handlers[pid].rec;
    if sent then
      s.(handlers := s.handlers - {pid}, queue := s.queue + [rec],
         past := s.past.(accepted := s.past.accepted + [rec]),
         totals := s.totals.(accepted := s.totals.accepted + multiset{rec}))
    else
      s.(handlers := s.handlers - {pid})
  }

  function AfterTake(s: Sys): Sys
    requires s.queue != []
  {
    s.(queue := s.queue[1..], batch := s.batch + [s.queue[0]])
  }

  function AfterCommit(s: Sys, ok: bool): Sys {
    var past := s.past.(processed := s.past.processed + s.batch);
    if ok then
      s.(batch := [], db := InsertAll(s.db, s.batch), past := past)
    else
      s.(batch := [], past := past.(failed := past.failed + set r | r in s.batch :: r.id),
         totals := s.totals.(lost := s.totals.lost + multiset(s.batch)))
  }

  ghost function AfterSweep(s: Sys, cutoff: Option<int>, maxRows: int): Sys {
    var db := Prune(s.db, cutoff, maxRows);
    s.(db := db, past := s.past.(pruned := s.past.pruned + (s.db.logs.Keys - db.logs.Keys)),
       totals := s.totals.(pruned :=
         s.totals.pruned + (multiset(RowSet(s.db.logs)) - multiset(RowSet(db.logs)))))
  }

  function WithStream(s: Sys, k: nat, st: Stream): Sys {
    s.(streams := s.streams[k := st])
  }

  ghost function Moved(s: Sys, st: Stream, move: Move): Stream {
    match move
    case Connect(_) => st
    case Snapshot => Snapped(s, st)
    case Poll => Polled(s.past, st)
    case Lag => st.(phase := Closed)
    case Close => st.(phase := Closed)
    case Receive => Next(st)
    case Reconnect => Reopened(s.past, st)
  }

  /** A move changes one stream only. */
  ghost function NextStream(s: Sys, k: nat, move: Move): Stream
    requires !move.Connect? ==> k in s.streams
  {
    if move.Connect? then Opened(|s.past.ring|, move.last, move.last, [], true, true)
    else Moved(s, s.streams[k], move)
  }

  ghost function AfterRestart(s: Sys): Sys {
    Boot(s.db, s.totals.(lost := s.totals.lost + multiset(s.queue) + multiset(s.batch)),
         map k | k in s.streams :: Orphaned(s, s.streams[k]))
  }

  ghost function Apply(cfg: Config, s: Sys, step: Step): Sys
    requires Enabled(cfg, s, step)
  {
    match step
    case Allocate(pid, rec) => AfterAllocate(s, pid, rec)
    case Reject => s.(counter := s.counter + 1)
    case Publish(pid) => AfterPublish(s, pid)
    case Enqueue(pid, sent) => AfterEnqueue(s, pid, sent)
    case Drain => s.(draining := true)
    case Take => AfterTake(s)
    case Commit(ok) => AfterCommit(s, ok)
    case Sweep(cutoff, maxRows) => AfterSweep(s, cutoff, maxRows)
    case Restart => AfterRestart(s)
    case Client(k, move) => WithStream(s, k, NextStream(s, k, move))
  }

  /** A database that an earlier lifetime could have left behind. */
  ghost predicate GoodDb(db: Db) {
    Keyed(db.logs) && Agrees(db) && forall id | id in db.logs :: id > 0
  }

  ghost function InitialState(db: Db): Sys {
    Boot(db, Totals(multiset(RowSet(db.logs)), multiset{}, multiset{}), map[])
  }

  /** A run: taking `steps` in order from `s`, each one enabled, ends in `t`. */
  ghost predicate Leads(cfg: Config, s: Sys, steps: seq<Step>, t: Sys)
    decreases |steps|
  {
    if steps == [] then s == t
    else
      && Enabled(cfg, s, steps[0])
      && Leads(cfg, Apply(cfg, s, steps[0]), steps[1..], t)
  }

  ghost predicate Reachable(cfg: Config, s: Sys) {
    exists db: Db, steps: seq<Step> :: GoodDb(db) && Leads(cfg, InitialState(db), steps, s)
  }

  lemma {:induction false} LeadsOn(cfg: Config, s: Sys, steps: seq<Step>, t: Sys, step: Step)
    requires Leads(cfg, s, steps, t) && Enabled(cfg, t, step)
    ensures Leads(cfg, s, steps + [step], Apply(cfg, t, step))
    decreases |steps|
  {
    if steps == [] {
      assert ([step])[1..] == [];
    } else {
      assert (steps + [step])[1..] == steps[1..] + [step];
      LeadsOn(cfg, Apply(cfg, s, steps[0]), steps[1..], t, step);
    }
  }

  lemma {:induction false} LeadsConcat(cfg: Config, s: Sys, a: seq<Step>, t: Sys, b: seq<Step>, u: Sys)
    requires Leads(cfg, s, a, t) && Leads(cfg, t, b, u)
    ensures Leads(cfg, s, a + b, u)
    decreases |a|
  {
    if a == [] {
      assert a + b == b;
    } else {
      assert (a + b)[1..] == a[1..] + b;
      LeadsConcat(cfg, Apply(cfg, s, a[0]), a[1..], t, b, u);
    }
  }
}
