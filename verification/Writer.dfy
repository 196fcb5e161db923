/**
 * The writer thread (src/store/writer.rs): it collects queued items into batches, commits each batch in
 * one transaction, acknowledges the callers that wait, sweeps between batches, and drains on shutdown.
 */
module Writer {
  import opened Basics
  import opened Records
  import opened Table
  import opened Retention
  import opened Storage
  import opened Protocol

  /** A queued record; `ack` names the caller waiting for the commit, if one is. */
  datatype WriteItem = WriteItem(rec: LogRecord, ack: Option<nat>)

  datatype Ack = Ack(caller: nat, committed: bool)

  datatype Caps = Caps(cutoff: Option<int>, maxRows: int, agedOk: bool, cappedOk: bool)

  /**
   * What the world did before one poll of the channel: the items that arrived, the state of the draining
   * flag and of the senders, whether a sweep falls due, and which statement of the next transaction fails.
   */
  datatype Tick = Tick(arrivals: seq<WriteItem>, draining: bool, gone: bool, sweep: Option<Caps>, fault: Option<nat>)

  const QUIET: Tick := Tick([], true, true, None, None)

  /** What the writer did, in order. */
  datatype Entry = Batch(items: seq<WriteItem>, committed: bool) | Swept(cutoff: Option<int>, maxRows: int)

  // ---------- what a journal amounts to ----------

  function Recs(items: seq<WriteItem>): seq<LogRecord> {
    if items == [] then [] else Recs(items[..|items| - 1]) + [items[|items| - 1].rec]
  }

  lemma {:induction false} RecsAt(items: seq<WriteItem>)
    ensures |Recs(items)| == |items| && forall i | 0 <= i < |items| :: Recs(items)[i] == items[i].rec
  {
    if items != [] { RecsAt(items[..|items| - 1]); }
  }

  ghost function Effect(db: Db, e: Entry): Db {
    match e
    case Batch(items, committed) => if committed then InsertAll(db, Recs(items)) else db
    case Swept(cutoff, maxRows) => Prune(db, cutoff, maxRows)
  }

  ghost function Replayed(db: Db, journal: seq<Entry>): Db {
    if journal == [] then db else Effect(Replayed(db, journal[..|journal| - 1]), journal[|journal| - 1])
  }

  function Items(e: Entry): seq<WriteItem> {
    if e.Batch? then e.items else []
  }

  /** Every item some transaction tried to insert, in order. */
  function Attempted(journal: seq<Entry>): seq<WriteItem> {
    if journal == [] then [] else Attempted(journal[..|journal| - 1]) + Items(journal[|journal| - 1])
  }

  function AcksFor(items: seq<WriteItem>, committed: bool): seq<Ack> {
    if items == [] then []
    else
      var last := items[|items| - 1];
      AcksFor(items[..|items| - 1], committed) + if last.ack.Some? then [Ack(last.ack.value, committed)] else []
  }

  function AcksOf(journal: seq<Entry>): seq<Ack> {
    if journal == [] then []
    else
      var e := journal[|journal| - 1];
      AcksOf(journal[..|journal| - 1]) + if e.Batch? then AcksFor(e.items, e.committed) else []
  }

  ghost predicate Sized(journal: seq<Entry>) {
    forall e | e in journal :: e.Batch? ==> 1 <= |e.items| <= MAX_BATCH
  }

  lemma JournalSnoc(db: Db, journal: seq<Entry>, e: Entry)
    ensures Replayed(db, journal + [e]) == Effect(Replayed(db, journal), e)
    ensures Attempted(journal + [e]) == Attempted(journal) + Items(e)
    ensures AcksOf(journal + [e]) == AcksOf(journal) + if e.Batch? then AcksFor(e.items, e.committed) else []
  {
    assert (journal + [e])[..|journal + [e]| - 1] == journal;
  }

  // ---------- the receiving end ----------

  function Arriving(ticks: seq<Tick>): seq<WriteItem> {
    if ticks == [] then [] else ticks[0].arrivals + Arriving(ticks[1..])
  }

  /** The arrivals of all the ticks, one tick after the other. */
  lemma {:induction false} ArrivingConcat(a: seq<Tick>, b: seq<Tick>)
    ensures Arriving(a + b) == Arriving(a) + Arriving(b)
    ensures forall t: Tick :: Arriving([t]) == t.arrivals
  {
    forall t: Tick ensures Arriving([t]) == t.arrivals { assert t.arrivals + Arriving([]) == t.arrivals; }
    if a == [] {
      assert a + b == b;
    } else {
      assert (a + b)[1..] == a[1..] + b;
      ArrivingConcat(a[1..], b);
    }
  }

  function Now(ticks: seq<Tick>): Tick {
    if ticks == [] then QUIET else ticks[0]
  }

  lemma SupplyMoves(queue: seq<WriteItem>, ticks: seq<Tick>)
    ensures queue + Now(ticks).arrivals + Arriving(if ticks == [] then [] else ticks[1..]) == queue + Arriving(ticks)
  {
  }

  lemma Popped<T>(queue: seq<T>, rest: seq<T>)
    requires queue != []
    ensures [queue[0]] + (queue[1..] + rest) == queue + rest
  {
  }

  /** One poll of the channel: the world at that moment, and the item received, if any. */
  datatype Seen = Seen(tick: Tick, item: Option<WriteItem>)

  class Inbox {
    var queue: seq<WriteItem>
    var ticks: seq<Tick>
    var now: Tick
    var log: seq<Seen>           // every poll so far

    constructor (queue: seq<WriteItem>, ticks: seq<Tick>)
      ensures this.queue == queue && this.ticks == ticks && log == []
    {
      this.queue, this.ticks, this.now, this.log := queue, ticks, QUIET, [];
    }

    /** Everything queued or still to come, in order. */
    function Supply(): seq<WriteItem>
      reads this
    {
      queue + Arriving(ticks)
    }

    function Pending(): nat
      reads this
    {
      |ticks| + |Supply()|
    }

    /** One receive that does not block past the next tick. */
    method Poll() returns (item: Option<WriteItem>)
      modifies this
      ensures now == Now(old(ticks)) && log == old(log) + [Seen(now, item)]
      ensures if old(ticks) == [] then now == QUIET && ticks == [] else [now] + ticks == old(ticks)
      ensures old(queue) + now.arrivals == (if item.Some? then [item.value] else []) + queue
      ensures item.None? ==> queue == [] && Supply() == old(Supply())
      ensures item.Some? ==> [item.value] + Supply() == old(Supply())
      ensures old(ticks) != [] || item.Some? ==> Pending() < old(Pending())
    {
      now := Now(ticks);
      SupplyMoves(queue, ticks);
      queue := queue + now.arrivals;
      if ticks != [] { ticks := ticks[1..]; }
      if queue == [] {
        item := None;
      } else {
        item := Some(queue[0]);
        Popped(queue, Arriving(ticks));
        queue := queue[1..];
      }
      log := log + [Seen(now, item)];
    }
  }

  // ---------- one transaction ----------

  predicate FailsAt(fault: Option<nat>, statement: nat) {
    fault.Some? && fault.value == statement
  }

  /** Inserts a batch in one transaction; `fault` is the statement that fails, counting from BEGIN. */
  method InsertBatch(db: Database, batch: seq<WriteItem>, fault: Option<nat>) returns (ok: bool)
    requires db.saved.None?
    modifies db
    ensures db.saved.None?
    ensures ok <==> fault.None? || fault.value > |batch| + 1
    ensures db.Value() == if ok then InsertAll(old(db.Value()), Recs(batch)) else old(db.Value())
  {
    db.Begin(!FailsAt(fault, 0));
    if FailsAt(fault, 0) { return false; }
    ok := InsertRows(db, batch, fault);
    if ok { ok := !FailsAt(fault, |batch| + 1); }
    db.End(ok);
  }

  method InsertRows(db: Database, batch: seq<WriteItem>, fault: Option<nat>) returns (ok: bool)
    requires fault.None? || fault.value > 0
    modifies db
    ensures db.saved == old(db.saved)
    ensures ok <==> fault.None? || fault.value > |batch|
    ensures ok ==> db.Value() == InsertAll(old(db.Value()), Recs(batch))
  {
    var i := 0;
    while i < |batch|
      invariant 0 <= i <= |batch| && (fault.None? || fault.value > i)
      invariant db.saved == old(db.saved)
      invariant db.Value() == InsertAll(old(db.Value()), Recs(batch[..i]))
    {
      if FailsAt(fault, i + 1) { return false; }
      OneInserted(old(db.Value()), batch, i);
      db.InsertOrReplace(batch[i].rec);
      i := i + 1;
    }
    assert batch[..i] == batch;
    ok := true;
  }

  lemma OneInserted(db: Db, batch: seq<WriteItem>, i: nat)
    requires i < |batch|
    ensures InsertAll(db, Recs(batch[..i + 1])) == Insert(InsertAll(db, Recs(batch[..i])), batch[i].rec)
  {
    assert batch[..i + 1][..i] == batch[..i];
    InsertSnoc(db, Recs(batch[..i]), batch[i].rec);
  }

  lemma InsertSnoc(db: Db, rs: seq<LogRecord>, r: LogRecord)
    ensures InsertAll(db, rs + [r]) == Insert(InsertAll(db, rs), r)
  {
    assert (rs + [r])[..|rs + [r]| - 1] == rs;
  }

  // ---------- what the polls call for ----------

  datatype Mode = Waiting | Filling(first: Tick) | Draining | Stopped

  datatype Course = Course(mode: Mode, batch: seq<WriteItem>, journal: seq<Entry>)

  predicate Commits(fault: Option<nat>, rows: nat) {
    fault.None? || fault.value > rows + 1
  }

  /** The sweep that falls due after a round, if one does; a failed delete is as good as disabled. */
  function SweepOf(t: Tick): seq<Entry> {
    if t.sweep.None? then []
    else
      var caps := t.sweep.value;
      [Swept(if caps.agedOk then caps.cutoff else None, if caps.cappedOk then caps.maxRows else 0)]
  }

  /** A batch is closed: committed or rolled back; a round then sweeps if due, a drain ends when it is empty. */
  function EndBatch(mode: Mode, batch: seq<WriteItem>, journal: seq<Entry>, fault: Option<nat>): Course {
    if batch == [] then Course(Stopped, [], journal)
    else
      var entries := journal + [Batch(batch, Commits(fault, |batch|))];
      if mode.Filling? then Course(Waiting, [], entries + SweepOf(mode.first)) else Course(Draining, [], entries)
  }

  /** What one more poll calls for. */
  function Turn(c: Course, seen: Seen): Course {
    var t := seen.tick;
    if c.mode.Waiting? then
      if seen.item.Some? then c.(mode := Filling(t), batch := [seen.item.value])
      else if t.gone || t.draining then c.(mode := Draining)
      else c.(journal := c.journal + SweepOf(t))
    else if c.mode.Stopped? then c
    else if seen.item.None? then EndBatch(c.mode, c.batch, c.journal, t.fault)
    else if |c.batch| + 1 < MAX_BATCH then c.(batch := c.batch + [seen.item.value])
    else EndBatch(c.mode, c.batch + [seen.item.value], c.journal, t.fault)
  }

  function CourseOf(log: seq<Seen>): Course {
    if log == [] then Course(Waiting, [], []) else Turn(CourseOf(log[..|log| - 1]), log[|log| - 1])
  }

  /** The thread has not stopped before the last of these polls. */
  ghost predicate Running(log: seq<Seen>) {
    forall n | 0 <= n < |log| :: CourseOf(log[..n]).mode != Stopped
  }

  lemma CourseSnoc(log: seq<Seen>, seen: Seen)
    ensures CourseOf(log + [seen]) == Turn(CourseOf(log), seen)
    ensures Running(log) && CourseOf(log).mode != Stopped ==> Running(log + [seen])
  {
    var longer := log + [seen];
    assert longer[..|log|] == log;
    forall n | 0 <= n < |longer| && Running(log) && CourseOf(log).mode != Stopped
      ensures CourseOf(longer[..n]).mode != Stopped
    {
      assert longer[..n] == log[..n];
      assert n == |log| ==> log[..n] == log;
    }
  }

  lemma WaitingTurn(log: seq<Seen>, t: Tick, item: Option<WriteItem>, journal: seq<Entry>)
    requires CourseOf(log) == Course(Waiting, [], journal)
    ensures CourseOf(log + [Seen(t, item)]) ==
              if item.Some? then Course(Filling(t), [item.value], journal)
              else if t.gone || t.draining then Course(Draining, [], journal)
              else Course(Waiting, [], journal + SweepOf(t))
    ensures Running(log) ==> Running(log + [Seen(t, item)])
  {
    CourseSnoc(log, Seen(t, item));
  }

  lemma FillingTurn(log: seq<Seen>, mode: Mode, batch: seq<WriteItem>, journal: seq<Entry>, t: Tick, item: Option<WriteItem>)
    requires CourseOf(log) == Course(mode, batch, journal) && (mode.Filling? || mode.Draining?)
    ensures CourseOf(log + [Seen(t, item)]) ==
              if item.None? then EndBatch(mode, batch, journal, t.fault)
              else if |batch| + 1 < MAX_BATCH then Course(mode, batch + [item.value], journal)
              else EndBatch(mode, batch + [item.value], journal, t.fault)
    ensures Running(log) ==> Running(log + [Seen(t, item)])
  {
    CourseSnoc(log, Seen(t, item));
  }

  // ---------- the books ----------

  /** The table is what the journal says, every waiting caller has been told, and no item is lost: what
      was attempted, is in hand, is queued or is still to come is the whole supply, in order. */
  ghost predicate Books(start: Db, supply: seq<WriteItem>, db: Db, journal: seq<Entry>, acks: seq<Ack>,
                        batch: seq<WriteItem>, rest: seq<WriteItem>)
  {
    && |batch| <= MAX_BATCH && Sized(journal)
    && db == Replayed(start, journal) && acks == AcksOf(journal)
    && Attempted(journal) + batch + rest == supply
  }

  lemma TookOne(start: Db, supply: seq<WriteItem>, db: Db, journal: seq<Entry>, acks: seq<Ack>,
                batch: seq<WriteItem>, item: WriteItem, rest: seq<WriteItem>)
    requires Books(start, supply, db, journal, acks, batch, [item] + rest) && |batch| < MAX_BATCH
    ensures Books(start, supply, db, journal, acks, batch + [item], rest)
  {
    assert Attempted(journal) + batch + ([item] + rest) == Attempted(journal) + (batch + [item]) + rest;
  }

  lemma Settled(start: Db, supply: seq<WriteItem>, db: Db, journal: seq<Entry>, acks: seq<Ack>,
                batch: seq<WriteItem>, rest: seq<WriteItem>, ok: bool)
    requires Books(start, supply, db, journal, acks, batch, rest) && batch != []
    ensures Books(start, supply, if ok then InsertAll(db, Recs(batch)) else db, journal + [Batch(batch, ok)],
                  acks + AcksFor(batch, ok), [], rest)
  {
    JournalSnoc(start, journal, Batch(batch, ok));
    assert Attempted(journal) + batch + rest == (Attempted(journal) + batch) + [] + rest;
  }

  lemma SweptOnce(start: Db, supply: seq<WriteItem>, db: Db, journal: seq<Entry>, acks: seq<Ack>,
                  batch: seq<WriteItem>, rest: seq<WriteItem>, cutoff: Option<int>, maxRows: int)
    requires Books(start, supply, db, journal, acks, batch, rest)
    ensures Books(start, supply, Prune(db, cutoff, maxRows), journal + [Swept(cutoff, maxRows)], acks, batch, rest)
  {
    JournalSnoc(start, journal, Swept(cutoff, maxRows));
    assert Attempted(journal) + [] == Attempted(journal) && acks + [] == acks;
  }

  // ---------- the thread ----------

  class WriterThread {
    const db: Database
    const inbox: Inbox
    var batch: seq<WriteItem>
    var acks: seq<Ack>
    var journal: seq<Entry>

    constructor (db: Database, inbox: Inbox)
      ensures this.db == db && this.inbox == inbox && batch == [] && acks == [] && journal == []
    {
      this.db, this.inbox, this.batch, this.acks, this.journal := db, inbox, [], [], [];
    }

    ghost predicate Faithful(start: Db, supply: seq<WriteItem>)
      reads this, db, inbox
    {
      db.saved.None? && Books(start, supply, db.Value(), journal, acks, batch, inbox.Supply())
    }

    /** Takes whatever has already queued, up to a full batch. */
    method Fill(ghost mode: Mode, ghost start: Db, ghost supply: seq<WriteItem>)
      requires Faithful(start, supply) && |batch| < MAX_BATCH && (mode.Filling? || mode.Draining?)
      requires Running(inbox.log) && CourseOf(inbox.log) == Course(mode, batch, journal)
      modifies this, inbox
      ensures Faithful(start, supply) && journal == old(journal)
      ensures Running(inbox.log) && CourseOf(inbox.log) == EndBatch(mode, batch, journal, inbox.now.fault)
      ensures |batch| >= |old(batch)| && (|batch| < MAX_BATCH ==> inbox.queue == [])
      ensures |batch| > |old(batch)| ==> inbox.Pending() < old(inbox.Pending())
      ensures inbox.Pending() <= old(inbox.Pending())
    {
      while |batch| < MAX_BATCH
        invariant Faithful(start, supply) && |batch| >= |old(batch)| && journal == old(journal)
        invariant Filled(mode)
        invariant inbox.Pending() <= old(inbox.Pending())
        invariant |batch| > |old(batch)| ==> inbox.Pending() < old(inbox.Pending())
        decreases inbox.Pending()
      {
        var got := TakeOne(mode, start, supply);
        if !got { break; }
      }
    }

    /** Still filling, or just full, which closes the batch. */
    ghost predicate Filled(mode: Mode)
      reads this, inbox
    {
      && Running(inbox.log)
      && CourseOf(inbox.log) == if |batch| < MAX_BATCH then Course(mode, batch, journal)
                                else EndBatch(mode, batch, journal, inbox.now.fault)
    }

    /** try_recv into the batch. */
    method TakeOne(ghost mode: Mode, ghost start: Db, ghost supply: seq<WriteItem>) returns (got: bool)
      requires Faithful(start, supply) && |batch| < MAX_BATCH && (mode.Filling? || mode.Draining?) && Filled(mode)
      modifies this, inbox
      ensures Faithful(start, supply) && journal == old(journal) && inbox.Pending() <= old(inbox.Pending())
      ensures got ==> |batch| == |old(batch)| + 1 && Filled(mode) && inbox.Pending() < old(inbox.Pending())
      ensures !got ==> batch == old(batch) && inbox.queue == [] && Running(inbox.log)
                       && CourseOf(inbox.log) == EndBatch(mode, batch, journal, inbox.now.fault)
    {
      ghost var before := inbox.log;
      var item := inbox.Poll();
      FillingTurn(before, mode, batch, journal, inbox.now, item);
      if item.None? { return false; }
      TookOne(start, supply, db.Value(), journal, acks, batch, item.value, inbox.Supply());
      batch := batch + [item.value];
      return true;
    }

    /** Commits the batch or rolls it back, then tells the callers that wait; the batch is emptied. */
    method CommitBatch(fault: Option<nat>, ghost start: Db, ghost supply: seq<WriteItem>)
      requires Faithful(start, supply)
      modifies this, db
      ensures Faithful(start, supply) && batch == []
      ensures var ok := fault.None? || fault.value > |old(batch)| + 1;
        && journal == (if old(batch) == [] then old(journal) else old(journal) + [Batch(old(batch), ok)])
        && db.Value() == (if ok then InsertAll(old(db.Value()), Recs(old(batch))) else old(db.Value()))
        && acks == old(acks) + AcksFor(old(batch), ok)
    {
      if batch == [] {
        assert acks + [] == acks;
        return;
      }
      ghost var before := db.Value();
      var ok := InsertBatch(db, batch, fault);
      Notify(ok);
      Settled(start, supply, before, journal, old(acks), batch, inbox.Supply(), ok);
      journal := journal + [Batch(batch, ok)];
      batch := [];
    }

    /** Answers each caller that asked for a durable acknowledgement. */
    method Notify(ok: bool)
      modifies `acks
      ensures acks == old(acks) + AcksFor(batch, ok)
    {
      var i := 0;
      while i < |batch|
        invariant 0 <= i <= |batch|
        invariant acks == old(acks) + AcksFor(batch[..i], ok)
      {
        assert batch[..i + 1][..i] == batch[..i];
        if batch[i].ack.Some? { acks := acks + [Ack(batch[i].ack.value, ok)]; }
        i := i + 1;
      }
      assert batch[..i] == batch;
    }

    /** retention::prune if it is due, noted in the journal. */
    method Retain(now: Tick, ghost start: Db, ghost supply: seq<WriteItem>)
      requires Faithful(start, supply)
      modifies this, db
      ensures Faithful(start, supply) && batch == old(batch) && journal == old(journal) + SweepOf(now)
      ensures now.sweep.None? ==> db.Value() == old(db.Value()) && journal == old(journal)
      ensures now.sweep.Some? ==>
                var caps := now.sweep.value;
                var was := old(db.logs);
                && journal == old(journal) + [Swept(if caps.agedOk then caps.cutoff else None, if caps.cappedOk then caps.maxRows else 0)]
                && (forall id :: id in db.logs <==>
                      && id in was && (caps.agedOk && caps.cutoff.Some? ==> was[id].ts >= caps.cutoff.value)
                      && (caps.cappedOk && caps.maxRows > 0 ==>
                            forall j | j in was && (caps.agedOk && caps.cutoff.Some? ==> was[j].ts >= caps.cutoff.value) ::
                              id > j - caps.maxRows))
                && (forall id | id in db.logs :: db.logs[id] == was[id])
    {
      if now.sweep.Some? {
        var caps := now.sweep.value;
        var cutoff, maxRows := if caps.agedOk then caps.cutoff else None, if caps.cappedOk then caps.maxRows else 0;
        SweptOnce(start, supply, db.Value(), journal, acks, batch, inbox.Supply(), cutoff, maxRows);
        db.Sweep(caps.cutoff, caps.maxRows, caps.agedOk, caps.cappedOk);
        journal := journal + [Swept(cutoff, maxRows)];
      } else {
        assert journal + [] == journal;
      }
    }

    /** One item has arrived: fill the batch behind it and commit. */
    method Serve(item: WriteItem, ghost first: Tick, ghost start: Db, ghost supply: seq<WriteItem>)
      requires batch == [] && db.saved.None?
      requires Books(start, supply, db.Value(), journal, acks, batch, [item] + inbox.Supply())
      requires Running(inbox.log) && CourseOf(inbox.log) == Course(Filling(first), [item], journal)
      modifies this, db, inbox
      ensures Faithful(start, supply) && batch == []
      ensures Running(inbox.log) && CourseOf(inbox.log) == Course(Waiting, [], journal + SweepOf(first))
      ensures inbox.Pending() <= old(inbox.Pending())
    {
      TookOne(start, supply, db.Value(), journal, acks, batch, item, inbox.Supply());
      batch := batch + [item];
      assert batch == [item];
      Fill(Filling(first), start, supply);
      CommitBatch(inbox.now.fault, start, supply);
    }

    /**
     * Runs until an empty poll with the draining flag set, or until every sender is gone; then drains.
     * What it does is exactly what its polls call for: when a batch is closed, how its transaction ends,
     * which sweeps are made and when it stops. On return nothing is left in the queue, and everything
     * that arrived before the last poll has been attempted, once and in order.
     */
    method Run()
      requires batch == [] && acks == [] && journal == [] && db.saved.None? && inbox.log == []
      modifies this, db, inbox
      ensures inbox.queue == [] && batch == []
      ensures Running(inbox.log) && CourseOf(inbox.log) == Course(Stopped, [], journal)
      ensures db.Value() == Replayed(old(db.Value()), journal)
      ensures acks == AcksOf(journal) && (forall e | e in journal && e.Batch? :: 1 <= |e.items| <= 256)
      ensures Attempted(journal) + Arriving(inbox.ticks) == old(inbox.Supply())
    {
      ghost var start, supply := db.Value(), inbox.Supply();
      assert [] + [] + supply == supply;
      Serving(start, supply);
      FinalDrain(start, supply);
      NothingInHand(Attempted(journal), Arriving(inbox.ticks));
    }

    method Serving(ghost start: Db, ghost supply: seq<WriteItem>)
      requires Faithful(start, supply) && batch == []
      requires Running(inbox.log) && CourseOf(inbox.log) == Course(Waiting, [], journal)
      modifies this, db, inbox
      ensures Faithful(start, supply) && batch == []
      ensures Running(inbox.log) && CourseOf(inbox.log) == Course(Draining, [], journal)
    {
      while true
        invariant Faithful(start, supply) && batch == []
        invariant Running(inbox.log) && CourseOf(inbox.log) == Course(Waiting, [], journal)
        decreases inbox.Pending()
      {
        ghost var before := inbox.log;
        var item := inbox.Poll();
        var now := inbox.now;
        WaitingTurn(before, now, item, journal);
        if item.Some? {
          Serve(item.value, now, start, supply);
        } else if now.gone {
          break;
        } else if now.draining {
          break;
        }
        Retain(now, start, supply);
      }
    }

    /** Drains anything that raced the shutdown. */
    method FinalDrain(ghost start: Db, ghost supply: seq<WriteItem>)
      requires Faithful(start, supply) && batch == []
      requires Running(inbox.log) && CourseOf(inbox.log) == Course(Draining, [], journal)
      modifies this, db, inbox
      ensures Faithful(start, supply) && batch == [] && inbox.queue == []
      ensures Running(inbox.log) && CourseOf(inbox.log) == Course(Stopped, [], journal)
    {
      while true
        invariant Faithful(start, supply) && batch == []
        invariant Running(inbox.log) && CourseOf(inbox.log) == Course(Draining, [], journal)
        decreases inbox.Pending()
      {
        Fill(Draining, start, supply);
        if batch == [] { break; }
        CommitBatch(inbox.now.fault, start, supply);
      }
    }
  }

  lemma NothingInHand<T>(a: seq<T>, b: seq<T>)
    ensures a + [] + ([] + b) == a + b
  {
  }
}
