/** What a writer's journal means: batching changes nothing, every waiting caller is answered once. */
module WriterRuns {
  import opened Basics
  import opened Table
  import opened Protocol
  import opened Writer

  // ---------- batching refines one-at-a-time insertion ----------

  function Singles(items: seq<WriteItem>): seq<Entry> {
    if items == [] then [] else Singles(items[..|items| - 1]) + [Batch([items[|items| - 1]], true)]
  }

  /** The same history with every committed batch cut into single inserts and rolled-back ones left out. */
  function OneByOne(journal: seq<Entry>): seq<Entry> {
    if journal == [] then []
    else
      var e := journal[|journal| - 1];
      OneByOne(journal[..|journal| - 1])
      + match e
        case Batch(items, committed) => if committed then Singles(items) else []
        case Swept(_, _) => [e]
  }

  lemma {:induction false} ReplayedConcat(db: Db, a: seq<Entry>, b: seq<Entry>)
    ensures Replayed(db, a + b) == Replayed(Replayed(db, a), b)
  {
    if b == [] {
      assert a + b == a;
    } else {
      assert (a + b)[..|a + b| - 1] == a + b[..|b| - 1];
      ReplayedConcat(db, a, b[..|b| - 1]);
    }
  }

  lemma {:induction false} SinglesInsert(db: Db, items: seq<WriteItem>)
    ensures Replayed(db, Singles(items)) == InsertAll(db, Recs(items))
  {
    if items != [] {
      var front, last := items[..|items| - 1], items[|items| - 1];
      SinglesInsert(db, front);
      JournalSnoc(db, Singles(front), Batch([last], true));
      assert Recs([last]) == Recs([]) + [last.rec];
      InsertSnoc(InsertAll(db, Recs(front)), [], last.rec);
      InsertSnoc(db, Recs(front), last.rec);
    }
  }

  /** However the arrivals fell into batches, the table is the one single inserts would have made. */
  lemma {:induction false} BatchingRefines(db: Db, journal: seq<Entry>)
    ensures Replayed(db, journal) == Replayed(db, OneByOne(journal))
  {
    if journal != [] {
      var front, e := journal[..|journal| - 1], journal[|journal| - 1];
      BatchingRefines(db, front);
      if e.Batch? {
        if e.committed {
          SinglesInsert(Replayed(db, front), e.items);
          ReplayedConcat(db, OneByOne(front), Singles(e.items));
        } else {
          assert OneByOne(front) + [] == OneByOne(front);
        }
      } else {
        JournalSnoc(db, OneByOne(front), e);
      }
    }
  }

  lemma {:induction false} RecsConcat(a: seq<WriteItem>, b: seq<WriteItem>)
    ensures Recs(a + b) == Recs(a) + Recs(b)
  {
    if b == [] {
      assert a + b == a;
    } else {
      assert (a + b)[..|a + b| - 1] == a + b[..|b| - 1];
      RecsConcat(a, b[..|b| - 1]);
    }
  }

  /** With no failure and no sweep the table is everything attempted, inserted in queue order. */
  lemma {:induction false} QueueOrder(db: Db, journal: seq<Entry>)
    requires forall e | e in journal :: e.Batch? && e.committed
    ensures Replayed(db, journal) == InsertAll(db, Recs(Attempted(journal)))
  {
    if journal != [] {
      var front, e := journal[..|journal| - 1], journal[|journal| - 1];
      assert e in journal && forall x | x in front :: x in journal;
      QueueOrder(db, front);
      RecsConcat(Attempted(front), e.items);
      InsertAllConcat(db, Recs(Attempted(front)), Recs(e.items));
    }
  }

  // ---------- what the polls call for ----------

  /** The items received, in order. */
  function Received(log: seq<Seen>): seq<WriteItem> {
    if log == [] then []
    else
      var item := log[|log| - 1].item;
      Received(log[..|log| - 1]) + if item.Some? then [item.value] else []
  }

  lemma EndKeeps(mode: Mode, batch: seq<WriteItem>, journal: seq<Entry>, fault: Option<nat>)
    ensures var c := EndBatch(mode, batch, journal, fault);
      Attempted(c.journal) + c.batch == Attempted(journal) + batch
  {
    if batch != [] {
      var e := Batch(batch, Commits(fault, |batch|));
      JournalSnoc(Db(map[], {}), journal, e);
      if mode.Filling? { SweepKeepsItems(journal + [e], mode.first); }
    }
  }

  lemma SweepKeepsItems(journal: seq<Entry>, t: Tick)
    ensures Attempted(journal + SweepOf(t)) == Attempted(journal)
  {
    if t.sweep.Some? {
      JournalSnoc(Db(map[], {}), journal, SweepOf(t)[0]);
      assert SweepOf(t) == [SweepOf(t)[0]];
    } else {
      assert journal + [] == journal;
    }
  }

  lemma TurnKeeps(c: Course, seen: Seen)
    requires c.mode != Stopped && (c.mode.Waiting? ==> c.batch == [])
    ensures var d := Turn(c, seen);
      && Attempted(d.journal) + d.batch == Attempted(c.journal) + c.batch + (if seen.item.Some? then [seen.item.value] else [])
      && (d.mode.Waiting? || d.mode.Stopped? ==> d.batch == [])
  {
    var more := if seen.item.Some? then [seen.item.value] else [];
    assert Attempted(c.journal) + (c.batch + more) == Attempted(c.journal) + c.batch + more;
    if c.mode.Waiting? {
      SweepKeepsItems(c.journal, seen.tick);
    } else {
      EndKeeps(c.mode, c.batch + more, c.journal, seen.tick.fault);
      assert seen.item.None? ==> c.batch + more == c.batch;
    }
  }

  /** Every received item is in exactly one batch, or in hand, in the order received. */
  lemma {:induction false} ReceivedOnce(log: seq<Seen>)
    requires Running(log)
    ensures var c := CourseOf(log);
      && Attempted(c.journal) + c.batch == Received(log)
      && (c.mode.Waiting? || c.mode.Stopped? ==> c.batch == [])
  {
    if log != [] {
      var front := log[..|log| - 1];
      forall n | 0 <= n < |front| ensures CourseOf(front[..n]).mode != Stopped {
        assert front[..n] == log[..n];
      }
      ReceivedOnce(front);
      TurnKeeps(CourseOf(front), log[|log| - 1]);
    }
  }

  ghost predicate AllCommitted(journal: seq<Entry>) {
    forall e | e in journal :: e.Batch? && e.committed
  }

  /** Polls that met neither a failing statement nor a due sweep call for nothing but commits. */
  lemma {:induction false} QuietCourse(log: seq<Seen>)
    requires forall seen | seen in log :: seen.tick.fault.None? && seen.tick.sweep.None?
    ensures AllCommitted(CourseOf(log).journal)
    ensures CourseOf(log).mode.Filling? ==> CourseOf(log).mode.first.sweep.None?
  {
    if log != [] {
      var front, seen := log[..|log| - 1], log[|log| - 1];
      assert log == front + [seen] && seen in log;
      assert forall x | x in front :: x in log;
      QuietCourse(front);
    }
  }

  /** With no failure and no sweep, a thread that has stopped has stored everything it received, in order. */
  lemma StoredInOrder(db: Db, log: seq<Seen>)
    requires Running(log) && CourseOf(log).mode == Stopped
    requires forall seen | seen in log :: seen.tick.fault.None? && seen.tick.sweep.None?
    ensures Replayed(db, CourseOf(log).journal) == InsertAll(db, Recs(Received(log)))
  {
    ReceivedOnce(log);
    QuietCourse(log);
    QueueOrder(db, CourseOf(log).journal);
    assert Attempted(CourseOf(log).journal) + [] == Attempted(CourseOf(log).journal);
  }

  /** It stops only after having been told to: draining, or every sender gone. */
  lemma {:induction false} StopsWhenTold(log: seq<Seen>)
    ensures CourseOf(log).mode.Draining? || CourseOf(log).mode.Stopped? ==>
              exists seen | seen in log :: seen.item.None? && (seen.tick.draining || seen.tick.gone)
  {
    if log != [] {
      var front, seen := log[..|log| - 1], log[|log| - 1];
      assert log == front + [seen] && seen in log;
      StopsWhenTold(front);
      if x :| x in front && x.item.None? && (x.tick.draining || x.tick.gone) {
        assert x in log;
      }
    }
  }

  // ---------- a run is made of rounds ----------

  /** A stretch of polls and the journal entries it leads to. */
  datatype Round = Round(polls: seq<Seen>, entries: seq<Entry>)

  function Polls(rounds: seq<Round>): seq<Seen> {
    if rounds == [] then [] else Polls(rounds[..|rounds| - 1]) + rounds[|rounds| - 1].polls
  }

  function Entries(rounds: seq<Round>): seq<Entry> {
    if rounds == [] then [] else Entries(rounds[..|rounds| - 1]) + rounds[|rounds| - 1].entries
  }

  lemma RoundsSnoc(rounds: seq<Round>, r: Round)
    ensures Polls(rounds + [r]) == Polls(rounds) + r.polls && Entries(rounds + [r]) == Entries(rounds) + r.entries
  {
    assert (rounds + [r])[..|rounds + [r]| - 1] == rounds;
  }

  /** These polls received exactly these items. */
  ghost predicate Held(polls: seq<Seen>, items: seq<WriteItem>) {
    |polls| == |items| && forall i | 0 <= i < |polls| :: polls[i].item == Some(items[i])
  }

  /**
   * Polls that make one batch: they receive at least one item each until one finds the queue empty or the
   * batch has 256 items; all of them are inserted in one transaction, which fails if the statement of
   * the last poll's fault is one of its.
   */
  ghost predicate BatchRound(polls: seq<Seen>, e: Entry) {
    && e.Batch? && 1 <= |e.items| <= 256 && |e.items| <= |polls|
    && Held(polls[..|e.items|], e.items)
    && (if |e.items| == 256 then |polls| == 256 else |polls| == |e.items| + 1 && polls[|e.items|].item.None?)
    && (e.committed <==> var f := polls[|polls| - 1].tick.fault; f.None? || f.value > |e.items| + 1)
  }

  /** The sweep of a round: made exactly when it is due, with the limits whose delete succeeds. */
  ghost predicate SweptFor(t: Tick, entries: seq<Entry>) {
    if t.sweep.None? then entries == []
    else
      var caps := t.sweep.value;
      entries == [Swept(if caps.agedOk then caps.cutoff else None, if caps.cappedOk then caps.maxRows else 0)]
  }

  /** A round of the serving loop: an idle poll with nothing to stop for, or a batch; then the sweep. */
  ghost predicate ServingRound(r: Round) {
    && r.polls != []
    && if r.polls[0].item.None? then
         |r.polls| == 1 && !r.polls[0].tick.draining && !r.polls[0].tick.gone && SweptFor(r.polls[0].tick, r.entries)
       else
         r.entries != [] && BatchRound(r.polls, r.entries[0]) && SweptFor(r.polls[0].tick, r.entries[1..])
  }

  ghost predicate DrainRound(r: Round) {
    |r.entries| == 1 && BatchRound(r.polls, r.entries[0])
  }

  /** A run so far, taken apart: the rounds served, the poll that ended serving, the batches drained, and
      the polls since. */
  datatype Parts = Parts(served: seq<Round>, leave: Option<Seen>, drained: seq<Round>, current: seq<Seen>)

  ghost predicate Whole(log: seq<Seen>, journal: seq<Entry>, p: Parts) {
    && log == Polls(p.served) + Listed(p.leave) + Polls(p.drained) + p.current
    && journal == Entries(p.served) + Entries(p.drained)
    && (forall r | r in p.served :: ServingRound(r)) && (forall r | r in p.drained :: DrainRound(r))
    && (p.leave.Some? ==> p.leave.value.item.None? && (p.leave.value.tick.draining || p.leave.value.tick.gone))
    && (p.leave.None? ==> p.drained == [])
  }

  ghost predicate Stage(c: Course, p: Parts) {
    match c.mode
    case Waiting => p.leave.None? && p.current == [] && c.batch == []
    case Filling(first) =>
      p.leave.None? && p.current != [] && p.current[0].tick == first && Held(p.current, c.batch) && |c.batch| < 256
    case Draining => p.leave.Some? && Held(p.current, c.batch) && |c.batch| < 256
    case Stopped => p.leave.Some? && |p.current| == 1 && p.current[0].item.None? && c.batch == []
  }

  /** One more poll of the round in progress. */
  lemma {:induction false} PollMore(log: seq<Seen>, journal: seq<Entry>, p: Parts, seen: Seen)
    requires Whole(log, journal, p)
    ensures Whole(log + [seen], journal, p.(current := p.current + [seen]))
  {
    var before := Polls(p.served) + Listed(p.leave) + Polls(p.drained);
    assert log + [seen] == before + (p.current + [seen]);
  }

  /** The round in progress is a serving round and ends. */
  lemma {:induction false} ServedOne(log: seq<Seen>, journal: seq<Entry>, p: Parts, entries: seq<Entry>)
    requires Whole(log, journal, p) && p.leave.None? && ServingRound(Round(p.current, entries))
    ensures Whole(log, journal + entries, Parts(p.served + [Round(p.current, entries)], None, [], []))
  {
    RoundsSnoc(p.served, Round(p.current, entries));
    assert log == Polls(p.served) + p.current + [] + [] + [];
    assert journal + entries == Entries(p.served) + entries + [];
  }

  /** The round in progress is a batch of the drain and ends. */
  lemma {:induction false} DrainedOne(log: seq<Seen>, journal: seq<Entry>, p: Parts, e: Entry)
    requires Whole(log, journal, p) && p.leave.Some? && BatchRound(p.current, e)
    ensures Whole(log, journal + [e], p.(drained := p.drained + [Round(p.current, [e])], current := []))
  {
    RoundsSnoc(p.drained, Round(p.current, [e]));
    var before := Polls(p.served) + Listed(p.leave);
    assert log == before + (Polls(p.drained) + p.current) + [];
    assert journal + [e] == Entries(p.served) + (Entries(p.drained) + [e]);
  }

  lemma {:induction false} HeldMore(polls: seq<Seen>, items: seq<WriteItem>, seen: Seen)
    requires Held(polls, items) && seen.item.Some?
    ensures Held(polls + [seen], items + [seen.item.value])
  {
  }

  /** The batch that a closing poll makes of the items in hand. */
  lemma {:induction false} Closed(polls: seq<Seen>, items: seq<WriteItem>, seen: Seen)
    requires Held(polls, items) && |items| < 256
    requires if seen.item.None? then items != [] else |items| == 255
    ensures var all := items + (if seen.item.Some? then [seen.item.value] else []);
      var f := seen.tick.fault;
      BatchRound(polls + [seen], Batch(all, f.None? || f.value > |all| + 1))
  {
    var longer := polls + [seen];
    if seen.item.Some? {
      HeldMore(polls, items, seen);
      assert longer[..256] == longer;
    } else {
      assert longer[..|items|] == polls && items + [] == items;
    }
  }

  lemma {:induction false} BatchServes(polls: seq<Seen>, e: Entry)
    requires BatchRound(polls, e)
    ensures ServingRound(Round(polls, [e] + SweepOf(polls[0].tick)))
  {
    assert polls[..|e.items|][0] == polls[0];
    assert ([e] + SweepOf(polls[0].tick))[1..] == SweepOf(polls[0].tick);
  }

  lemma {:induction false} WaitingParts(log: seq<Seen>, c: Course, p: Parts, seen: Seen) returns (q: Parts)
    requires Whole(log, c.journal, p) && Stage(c, p) && c.mode.Waiting?
    ensures Whole(log + [seen], Turn(c, seen).journal, q) && Stage(Turn(c, seen), q)
  {
    PollMore(log, c.journal, p, seen);
    assert p.current + [seen] == [seen];
    if seen.item.Some? {
      q := p.(current := [seen]);
    } else if seen.tick.gone || seen.tick.draining {
      q := Parts(p.served, Some(seen), [], []);
      assert log + [seen] == Polls(p.served) + [seen] + [] + [];
    } else {
      ServedOne(log + [seen], c.journal, p.(current := [seen]), SweepOf(seen.tick));
      q := Parts(p.served + [Round([seen], SweepOf(seen.tick))], None, [], []);
    }
  }

  lemma {:induction false} FillingParts(log: seq<Seen>, c: Course, p: Parts, seen: Seen) returns (q: Parts)
    requires Whole(log, c.journal, p) && Stage(c, p) && c.mode.Filling?
    ensures Whole(log + [seen], Turn(c, seen).journal, q) && Stage(Turn(c, seen), q)
  {
    PollMore(log, c.journal, p, seen);
    var polls := p.current + [seen];
    if seen.item.Some? && |c.batch| + 1 < 256 {
      HeldMore(p.current, c.batch, seen);
      q := p.(current := polls);
    } else {
      var all := c.batch + (if seen.item.Some? then [seen.item.value] else []);
      var e := Batch(all, Commits(seen.tick.fault, |all|));
      Closed(p.current, c.batch, seen);
      BatchServes(polls, e);
      assert polls[0] == p.current[0];
      q := RoundEnds(log + [seen], c, p.(current := polls), e);
      assert seen.item.None? ==> all == c.batch;
    }
  }

  lemma {:induction false} RoundEnds(log: seq<Seen>, c: Course, p: Parts, e: Entry) returns (q: Parts)
    requires Whole(log, c.journal, p) && p.leave.None? && c.mode.Filling?
    requires ServingRound(Round(p.current, [e] + SweepOf(c.mode.first)))
    ensures Whole(log, c.journal + [e] + SweepOf(c.mode.first), q)
    ensures q.leave.None? && q.current == []
  {
    var entries := [e] + SweepOf(c.mode.first);
    ServedOne(log, c.journal, p, entries);
    Regroup(c.journal, [e], SweepOf(c.mode.first));
    q := Parts(p.served + [Round(p.current, entries)], None, [], []);
  }

  lemma {:induction false} DrainingParts(log: seq<Seen>, c: Course, p: Parts, seen: Seen) returns (q: Parts)
    requires Whole(log, c.journal, p) && Stage(c, p) && c.mode.Draining?
    ensures Whole(log + [seen], Turn(c, seen).journal, q) && Stage(Turn(c, seen), q)
  {
    PollMore(log, c.journal, p, seen);
    var polls := p.current + [seen];
    if seen.item.Some? && |c.batch| + 1 < 256 {
      HeldMore(p.current, c.batch, seen);
      q := p.(current := polls);
    } else if seen.item.None? && c.batch == [] {
      assert polls == [seen];
      q := p.(current := polls);
    } else {
      Closed(p.current, c.batch, seen);
      var all := c.batch + (if seen.item.Some? then [seen.item.value] else []);
      assert seen.item.None? ==> all == c.batch;
      var e := Batch(all, Commits(seen.tick.fault, |all|));
      DrainedOne(log + [seen], c.journal, p.(current := polls), e);
      q := p.(drained := p.drained + [Round(polls, [e])], current := []);
    }
  }

  lemma RunningPrefix(log: seq<Seen>)
    requires Running(log) && log != []
    ensures Running(log[..|log| - 1]) && CourseOf(log[..|log| - 1]).mode != Stopped
  {
    var front := log[..|log| - 1];
    forall n | 0 <= n < |front| ensures CourseOf(front[..n]).mode != Stopped {
      assert front[..n] == log[..n];
    }
  }

  lemma {:induction false} TakeApart(log: seq<Seen>) returns (p: Parts)
    requires Running(log)
    ensures Whole(log, CourseOf(log).journal, p) && Stage(CourseOf(log), p)
  {
    if log == [] {
      p := Parts([], None, [], []);
    } else {
      var front, seen := log[..|log| - 1], log[|log| - 1];
      RunningPrefix(log);
      var q := TakeApart(front);
      assert log == front + [seen];
      var c := CourseOf(front);
      match c.mode
      case Waiting => p := WaitingParts(front, c, q, seen);
      case Filling(_) => p := FillingParts(front, c, q, seen);
      case Draining => p := DrainingParts(front, c, q, seen);
      case Stopped => assert false;
    }
  }

  /**
   * A finished run is serving rounds, an empty poll that found the thread told to stop, batches drained
   * after it, and an empty poll; and the journal is what those rounds lead to, in order. So it is left
   * as soon as it is told to and idle, a batch is closed as soon as it is full or the queue empty, and
   * a sweep is made exactly when one is due.
   */
  lemma RunIsRounds(log: seq<Seen>) returns (served: seq<Round>, leave: Seen, drained: seq<Round>, last: Seen)
    requires Running(log) && CourseOf(log).mode == Stopped
    ensures log == Polls(served) + [leave] + Polls(drained) + [last]
    ensures CourseOf(log).journal == Entries(served) + Entries(drained)
    ensures forall r | r in served :: ServingRound(r)
    ensures forall r | r in drained :: DrainRound(r)
    ensures leave.item.None? && (leave.tick.draining || leave.tick.gone) && last.item.None?
  {
    var p := TakeApart(log);
    served, leave, drained, last := p.served, p.leave.value, p.drained, p.current[0];
    assert p.current == [last];
  }

  // ---------- the sweeps of a run ----------

  function Sweeps(journal: seq<Entry>): seq<Entry> {
    if journal == [] then []
    else
      var e := journal[|journal| - 1];
      Sweeps(journal[..|journal| - 1]) + if e.Swept? then [e] else []
  }

  lemma {:induction false} SweepsConcat(a: seq<Entry>, b: seq<Entry>)
    ensures Sweeps(a + b) == Sweeps(a) + Sweeps(b)
  {
    if b == [] {
      assert a + b == a;
    } else {
      assert (a + b)[..|a + b| - 1] == a + b[..|b| - 1];
      SweepsConcat(a, b[..|b| - 1]);
    }
  }

  lemma {:induction false} NoSweeps(drained: seq<Round>)
    requires forall r | r in drained :: DrainRound(r)
    ensures Sweeps(Entries(drained)) == []
  {
    if drained != [] {
      var front, last := drained[..|drained| - 1], drained[|drained| - 1];
      assert last in drained && forall r | r in front :: r in drained;
      NoSweeps(front);
      SweepsConcat(Entries(front), last.entries);
      assert last.entries == [last.entries[0]] && Sweeps([last.entries[0]]) == [];
    }
  }

  /** A round's entries hold its sweep and no other. */
  lemma SweepOfRound(r: Round)
    requires ServingRound(r)
    ensures SweptFor(r.polls[0].tick, Sweeps(r.entries))
  {
    if r.polls[0].item.None? {
      assert r.entries != [] ==> r.entries[..0] == [];
    } else {
      var sweep := r.entries[1..];
      assert r.entries == [r.entries[0]] + sweep;
      SweepsConcat([r.entries[0]], sweep);
      assert Sweeps([r.entries[0]]) == [] && (sweep != [] ==> sweep[..0] == []);
    }
  }

  ghost function Due(): Round -> bool { (r: Round) => r.polls != [] && r.polls[0].tick.sweep.Some? }

  ghost predicate MadeFor(r: Round, e: Entry) {
    && r.polls != [] && r.polls[0].tick.sweep.Some?
    && var caps := r.polls[0].tick.sweep.value;
       e == Swept(if caps.agedOk then caps.cutoff else None, if caps.cappedOk then caps.maxRows else 0)
  }

  ghost predicate Paired(due: seq<Round>, made: seq<Entry>) {
    |made| == |due| && forall k | 0 <= k < |made| :: MadeFor(due[k], made[k])
  }

  lemma PairedSnoc(due: seq<Round>, made: seq<Entry>, r: Round, e: Entry)
    requires Paired(due, made) && MadeFor(r, e)
    ensures Paired(due + [r], made + [e])
  {
  }

  lemma {:induction false} SweepsServed(served: seq<Round>)
    requires forall r | r in served :: ServingRound(r)
    ensures Paired(Filter(served, Due()), Sweeps(Entries(served)))
  {
    if served != [] {
      var front, last := served[..|served| - 1], served[|served| - 1];
      assert last in served && forall r | r in front :: r in served;
      SweepsServed(front);
      SweepsConcat(Entries(front), last.entries);
      SweepOfRound(last);
      var due, made := Filter(front, Due()), Sweeps(Entries(front));
      if last.polls[0].tick.sweep.Some? {
        var e := Sweeps(last.entries)[0];
        assert Sweeps(last.entries) == [e];
        PairedSnoc(due, made, last, e);
      } else {
        assert made + [] == made;
      }
    }
  }

  /**
   * The sweeps in a run's journal are, in order, one for each round served whose first poll had a sweep
   * due, with that poll's limits, a failed delete as good as disabled; the drain makes none.
   */
  lemma {:induction false} SweepsMade(served: seq<Round>, drained: seq<Round>)
    requires (forall r | r in served :: ServingRound(r)) && forall r | r in drained :: DrainRound(r)
    ensures var due := Filter(served, (r: Round) => r.polls != [] && r.polls[0].tick.sweep.Some?);
      var made := Sweeps(Entries(served) + Entries(drained));
      |made| == |due| && forall k | 0 <= k < |made| ::
        && due[k].polls != [] && due[k].polls[0].tick.sweep.Some?
        && var caps := due[k].polls[0].tick.sweep.value;
           made[k] == Swept(if caps.agedOk then caps.cutoff else None, if caps.cappedOk then caps.maxRows else 0)
  {
    NoSweeps(drained);
    SweepsConcat(Entries(served), Entries(drained));
    SweepsServed(served);
    assert Sweeps(Entries(served)) + [] == Sweeps(Entries(served));
    FilterSame(served, Due(), (r: Round) => r.polls != [] && r.polls[0].tick.sweep.Some?);
    var due, made := Filter(served, Due()), Sweeps(Entries(served));
    assert forall k | 0 <= k < |made| :: MadeFor(due[k], made[k]);
  }

  // ---------- acknowledgements ----------

  ghost function Asking(caller: nat): WriteItem -> bool { (item: WriteItem) => item.ack == Some(caller) }

  ghost function Answering(caller: nat): Ack -> bool { (a: Ack) => a.caller == caller }

  lemma {:induction false} BatchAnswers(items: seq<WriteItem>, committed: bool, caller: nat)
    ensures |Filter(AcksFor(items, committed), Answering(caller))| == |Filter(items, Asking(caller))|
    ensures forall a | a in AcksFor(items, committed) :: a.committed == committed
  {
    if items != [] {
      var front, last := items[..|items| - 1], items[|items| - 1];
      BatchAnswers(front, committed, caller);
      if last.ack.Some? {
        var sent := AcksFor(front, committed);
        var a := Ack(last.ack.value, committed);
        assert (sent + [a])[..|sent + [a]| - 1] == sent;
      } else {
        assert AcksFor(front, committed) + [] == AcksFor(front, committed);
      }
    }
  }

  /** Each caller gets exactly as many answers as it has attempted items: one each. */
  lemma {:induction false} AnsweredOnce(journal: seq<Entry>, caller: nat)
    ensures |Filter(AcksOf(journal), Answering(caller))| == |Filter(Attempted(journal), Asking(caller))|
  {
    if journal != [] {
      var front, e := journal[..|journal| - 1], journal[|journal| - 1];
      AnsweredOnce(front, caller);
      if e.Batch? {
        BatchAnswers(e.items, e.committed, caller);
        FilterConcat(AcksOf(front), AcksFor(e.items, e.committed), Answering(caller));
        FilterConcat(Attempted(front), e.items, Asking(caller));
      } else {
        assert AcksOf(front) + [] == AcksOf(front) && Attempted(front) + [] == Attempted(front);
      }
    }
  }

  lemma {:induction false} BatchAnswer(items: seq<WriteItem>, committed: bool, a: Ack)
    ensures a in AcksFor(items, committed) <==>
              a.committed == committed && exists item | item in items :: item.ack == Some(a.caller)
  {
    if items != [] {
      var front, last := items[..|items| - 1], items[|items| - 1];
      assert items == front + [last];
      BatchAnswer(front, committed, a);
    }
  }

  /** An answer is Ok exactly when a batch that held an item of that caller was committed, and an error
      exactly when one was rolled back. */
  lemma {:induction false} AnswersTruly(journal: seq<Entry>, a: Ack)
    ensures a in AcksOf(journal) <==>
              exists e | e in journal :: e.Batch? && e.committed == a.committed && AsksIn(e.items, a.caller)
  {
    if journal != [] {
      var front, e := journal[..|journal| - 1], journal[|journal| - 1];
      assert journal == front + [e];
      AnswersTruly(front, a);
      if e.Batch? { BatchAnswer(e.items, e.committed, a); }
    }
  }

  ghost predicate AsksIn(items: seq<WriteItem>, caller: nat) {
    exists item | item in items :: item.ack == Some(caller)
  }

  // ---------- one batch as steps of the protocol ----------

  /** The state after the writer takes the first `n` queued records and ends their transaction. */
  ghost function BatchDone(s: Sys, n: nat, ok: bool): Sys
    requires n <= |s.queue|
  {
    AfterCommit(s.(queue := s.queue[n..], batch := s.batch + s.queue[..n]), ok)
  }

  lemma {:induction false} TakesLead(cfg: Config, s: Sys, n: nat)
    requires n <= |s.queue| && |s.batch| + n <= MAX_BATCH
    ensures Leads(cfg, s, seq(n, _ => Take), s.(queue := s.queue[n..], batch := s.batch + s.queue[..n]))
    decreases n
  {
    if n == 0 {
      assert s.batch + s.queue[..0] == s.batch;
    } else {
      var t := Apply(cfg, s, Take);
      TakesLead(cfg, t, n - 1);
      assert t.queue[n - 1..] == s.queue[n..];
      assert t.batch + t.queue[..n - 1] == s.batch + s.queue[..n];
      assert seq(n, _ => Take)[1..] == seq(n - 1, _ => Take);
    }
  }

  /** A batch of the thread is a run of the step machine: `n` receives and a commit, and its effect on the
      table is the journal entry's. */
  lemma BatchIsSteps(cfg: Config, s: Sys, items: seq<WriteItem>, ok: bool)
    requires s.batch == [] && 1 <= |items| <= MAX_BATCH && |items| <= |s.queue| && Recs(items) == s.queue[..|items|]
    ensures Leads(cfg, s, seq(|items|, _ => Take) + [Commit(ok)], BatchDone(s, |items|, ok))
    ensures BatchDone(s, |items|, ok).db == Effect(s.db, Batch(items, ok))
  {
    var n := |items|;
    TakesLead(cfg, s, n);
    assert s.batch + s.queue[..n] == s.queue[..n];
    LeadsOn(cfg, s, seq(n, _ => Take), s.(queue := s.queue[n..], batch := s.batch + s.queue[..n]), Commit(ok));
  }

  /** A sweep of the thread is a Sweep step, with the same effect on the table. */
  lemma SweepIsStep(cfg: Config, s: Sys, cutoff: Option<int>, maxRows: int)
    requires s.batch == []
    ensures Enabled(cfg, s, Sweep(cutoff, maxRows))
    ensures Apply(cfg, s, Sweep(cutoff, maxRows)).db == Effect(s.db, Swept(cutoff, maxRows))
  {
  }
}
