/** What one SSE stream delivers, over every interleaving of the server. */
module Delivery {
  import opened Basics
  import opened Records
  import opened Table
  import opened Protocol
  import opened Invariants

  /** `high_water` is the start position or the id of some replayed row, and bounds them all. */
  lemma {:induction false} HighWaterIs(start: int, replay: seq<LogRecord>)
    ensures HighWater(start, replay) >= start
    ensures forall r | r in replay :: r.id <= HighWater(start, replay)
    ensures HighWater(start, replay) == start || exists r :: r in replay && r.id == HighWater(start, replay)
  {
    if replay != [] {
      var front, last := replay[..|replay| - 1], replay[|replay| - 1];
      assert replay == front + [last];
      HighWaterIs(start, front);
      assert last in replay;
    }
  }

  /** What the writer had attempted when the stream's replay was read. */
  ghost function AttemptedBefore(h: History, st: Stream): seq<LogRecord> {
    if st.mark <= |h.processed| then h.processed[..st.mark] else h.processed
  }

  /** On an ascending replay of newer rows, `high_water` is the last row's id. */
  lemma {:induction false} HighIsLast(start: int, replay: seq<LogRecord>)
    requires Ascending(replay) && replay != [] && forall r | r in replay :: r.id > start
    ensures HighWater(start, replay) == replay[|replay| - 1].id
  {
    var front, last := replay[..|replay| - 1], replay[|replay| - 1];
    assert replay == front + [last] && last in replay;
    if front != [] {
      HighIsLast(start, front);
    }
  }

  lemma ProcessedAccepted(h: History, r: LogRecord)
    requires PastOk(h) && r in h.processed
    ensures r in h.accepted && r in h.ring && r.id > h.seed
  {
    var i :| 0 <= i < |h.processed| && h.processed[i] == r;
    assert h.accepted[i] == r;
  }

  /** A record found in the snapshot under a published id is that published record. */
  lemma BaseHolds(h: History, st: Stream, r: LogRecord)
    requires PastOk(h) && SnapshotOk(h, st) && r in h.ring && r.id in st.base
    ensures st.base[r.id] == r
    ensures r in h.processed[..st.mark] && r in h.accepted
  {
    var row := st.base[r.id];
    assert row in h.processed[..st.mark];
    ProcessedAccepted(h, row);
    SameId(h.ring, r, row);
  }

  /** A replayed row is either an old row found at boot or a committed, published record. */
  lemma ReplaySource(h: History, st: Stream, r: LogRecord)
    requires PastOk(h) && StreamOk(h, st) && r in st.replay
    ensures SnapshotOk(h, st) && st.after.Some?
    ensures r.id > st.after.value && r.id <= st.high && r.id in st.base && st.base[r.id] == r
    ensures (r.id in h.boot && h.boot[r.id] == r) || (r in h.processed[..st.mark] && r in h.ring && r in h.accepted)
  {
    SinceIdPage(st.base, st.after.value, MAX_REPLAY);
    HighWaterIs(Start(st), st.replay);
    if r in h.processed[..st.mark] {
      ProcessedAccepted(h, r);
    }
  }

  /** Every snapshot row above the start and not above `high_water` was replayed. */
  lemma ReplayHolds(h: History, st: Stream, id: int)
    requires StreamOk(h, st) && SnapshotOk(h, st)
    requires st.after.Some? && id in st.base && Start(st) < id <= st.high
    ensures st.base[id] in st.replay
  {
    SinceIdPage(st.base, st.after.value, MAX_REPLAY);
    if st.replay != [] {
      HighIsLast(Start(st), st.replay);
    }
  }

  /**
   * For all interleavings, racing handlers included: a stream sends the page of one table snapshot
   * above Last-Event-ID, ascending, then exactly those frames above `high_water` out of a contiguous
   * stretch of the publications since it subscribed; no id twice, none at or below Last-Event-ID.
   */
  lemma AtMostOnce(cfg: Config, s: Sys, k: nat)
    requires Reachable(cfg, s) && k in s.streams
    ensures var st := s.streams[k];
      && st.sub <= st.pos <= |s.past.ring|
      && (if SnapshotTaken(st) && st.after.Some? then st.replay == SinceId(st.base, st.after.value, 5000)
          else st.replay == [])
      && Emission(st) == st.replay + Filter(s.past.ring[st.sub..st.pos], Above(st.high))
      && Ascending(st.replay)
      && DistinctIds(Emission(st))
      && (st.after.Some? ==> forall r | r in Emission(st) :: r.id > st.after.value)
  {
    ReachableOk(cfg, s);
    PastIsOk(s);
    EmissionShape(s.past, s.streams[k]);
    EmissionIs(s.past, s.streams[k]);
  }

  /** A client without Last-Event-ID gets every publication since it subscribed, up to where it has come. */
  lemma FreshClientSeesAll(cfg: Config, s: Sys, k: nat)
    requires Reachable(cfg, s) && k in s.streams && s.streams[k].after.None?
    ensures var st := s.streams[k];
      st.sub <= st.pos <= |s.past.ring| && Emission(st) == s.past.ring[st.sub..st.pos]
  {
    ReachableOk(cfg, s);
    PastIsOk(s);
    AllAbove(s.past, s.streams[k]);
  }

  lemma AllAbove(h: History, st: Stream)
    requires PastOk(h) && StreamOk(h, st) && st.after.None?
    ensures Emission(st) == h.ring[st.sub..st.pos]
  {
    var stretch := h.ring[st.sub..st.pos];
    assert st.high == 0;
    forall r | r in stretch ensures r.id > 0 { assert r in h.ring; }
    FilterAll(stretch, Above(st.high));
    assert [] + st.live == st.live;
  }

  lemma EmissionIs(h: History, st: Stream)
    requires StreamOk(h, st)
    ensures st.sub <= st.pos <= |h.ring|
    ensures if SnapshotTaken(st) && st.after.Some? then st.replay == SinceId(st.base, st.after.value, MAX_REPLAY)
            else st.replay == []
    ensures Emission(st) == st.replay + Filter(h.ring[st.sub..st.pos], Above(st.high))
  {
  }

  lemma EmissionShape(h: History, st: Stream)
    requires PastOk(h) && StreamOk(h, st)
    ensures Ascending(st.replay) && DistinctIds(Emission(st))
    ensures st.after.Some? ==> forall r | r in Emission(st) :: r.id > st.after.value
    ensures forall r | r in st.replay :: st.after.Some? && st.after.value < r.id <= st.high
    ensures forall r | r in st.live :: r in h.ring && r.id > st.high >= Start(st) && r.id > 0
  {
    HighWaterIs(Start(st), st.replay);
    LiveShape(h, st);
    if st.replay != [] {
      SinceIdPage(st.base, st.after.value, MAX_REPLAY);
    }
    JoinDistinct(st.replay, st.live, st.high);
  }

  lemma LiveShape(h: History, st: Stream)
    requires StreamOk(h, st) && DistinctIds(h.ring)
    ensures DistinctIds(st.live) && forall r | r in st.live :: r in h.ring && r.id > st.high
  {
    var stretch := h.ring[st.sub..st.pos];
    FilterMembers(stretch, Above(st.high));
    FilterDistinct(stretch, Above(st.high));
    forall r | r in st.live ensures r in h.ring {
      assert r in stretch;
    }
  }

  lemma JoinDistinct(a: seq<LogRecord>, b: seq<LogRecord>, high: int)
    requires DistinctIds(a) && DistinctIds(b)
    requires (forall r | r in a :: r.id <= high) && (forall r | r in b :: r.id > high)
    ensures DistinctIds(a + b)
  {
    forall i, j | 0 <= i < j < |a + b| ensures (a + b)[i].id != (a + b)[j].id {
      if i < |a| <= j {
        assert (a + b)[i] in a && (a + b)[j] in b;
      }
    }
  }

  lemma {:induction false} FilterDistinct(rs: seq<LogRecord>, p: LogRecord -> bool)
    requires DistinctIds(rs)
    ensures DistinctIds(Filter(rs, p))
  {
    if rs != [] {
      var front, last := rs[..|rs| - 1], rs[|rs| - 1];
      FilterDistinct(front, p);
      FilterMembers(front, p);
      forall i | 0 <= i < |Filter(front, p)| ensures Filter(front, p)[i].id != last.id {
        assert Filter(front, p)[i] in front;
      }
    }
  }

  /** The stream has been overrun, or has ended. */
  ghost predicate Finished(cfg: Config, h: History, st: Stream) {
    st.phase == Closed || (st.phase == Live && |h.ring| > st.pos + cfg.ringCap)
  }

  /** The connection goes on: the client does not come back on a new one, and the server lives. */
  ghost predicate SameConnection(steps: seq<Step>, k: nat) {
    forall step | step in steps :: step != Client(k, Reconnect) && !step.Restart?
  }

  lemma FinishedHere(cfg: Config, s: Sys, st: Stream, move: Move)
    requires Finished(cfg, s.past, st) && Movable(cfg, s.past, st, move) && !move.Reconnect?
    ensures Finished(cfg, s.past, Moved(s, st, move)) && Emission(Moved(s, st, move)) == Emission(st)
  {
  }

  lemma FinishedElsewhere(cfg: Config, s: Sys, step: Step, k: nat)
    requires k in s.streams && Finished(cfg, s.past, s.streams[k])
    requires Enabled(cfg, s, step) && !step.Restart? && (step.Client? ==> step.k != k)
    ensures var t := Apply(cfg, s, step);
      k in t.streams && t.streams[k] == s.streams[k] && |t.past.ring| >= |s.past.ring|
  {
  }

  /** An overrun is final: whatever happens next, that connection never sends another frame. */
  lemma {:induction false} OverrunIsFinal(cfg: Config, s: Sys, steps: seq<Step>, t: Sys, k: nat)
    requires k in s.streams && Finished(cfg, s.past, s.streams[k])
    requires Leads(cfg, s, steps, t) && SameConnection(steps, k)
    ensures k in t.streams && Finished(cfg, t.past, t.streams[k])
    ensures Emission(t.streams[k]) == Emission(s.streams[k])
    decreases |steps|
  {
    if steps != [] {
      var step := steps[0];
      assert step in steps && forall x | x in steps[1..] :: x in steps;
      if step.Client? && step.k == k {
        FinishedHere(cfg, s, s.streams[k], step.move);
      } else {
        FinishedElsewhere(cfg, s, step, k);
      }
      OverrunIsFinal(cfg, Apply(cfg, s, step), steps[1..], t, k);
    }
  }

  /** A publication since the subscription and above `high_water` has been sent exactly when it was received. */
  lemma SentWhenReceived(h: History, st: Stream, i: nat)
    requires PastOk(h) && StreamOk(h, st) && st.sub <= i < |h.ring| && h.ring[i].id > st.high
    ensures h.ring[i] in Emission(st) <==> i < st.pos
  {
    EmissionShape(h, st);
    if i < st.pos {
      ReceivedLive(h, st, i);
    } else {
      NotYetSent(h, st, i);
    }
  }

  lemma NotYetSent(h: History, st: Stream, i: nat)
    requires PastOk(h) && StreamOk(h, st) && st.pos <= i < |h.ring|
    ensures h.ring[i] !in st.live
  {
    var stretch := h.ring[st.sub..st.pos];
    FilterMembers(stretch, Above(st.high));
    forall j | 0 <= j < |stretch| ensures stretch[j].id != h.ring[i].id {
      assert stretch[j] == h.ring[st.sub + j];
    }
  }

  /**
   * No frame is skipped silently. In a state where the stream has been overrun or has ended, the
   * publications since its subscription above `high_water` split at the position it reached: those before
   * were all sent, and those after are never sent on that connection, whatever happens next.
   */
  lemma NothingSkipped(cfg: Config, s: Sys, steps: seq<Step>, t: Sys, k: nat, i: nat)
    requires Reachable(cfg, s) && k in s.streams && Finished(cfg, s.past, s.streams[k])
    requires Leads(cfg, s, steps, t) && SameConnection(steps, k)
    requires s.streams[k].sub <= i < |s.past.ring| && s.past.ring[i].id > s.streams[k].high
    ensures k in t.streams && (s.past.ring[i] in Emission(t.streams[k]) <==> i < s.streams[k].pos)
  {
    ReachableOk(cfg, s);
    PastIsOk(s);
    SentWhenReceived(s.past, s.streams[k], i);
    OverrunIsFinal(cfg, s, steps, t, k);
  }

  /** Exactly which received publications reach the client, with no assumption on ordering:
      those above `high_water`, and those the snapshot already held. */
  lemma DeliveredIff(cfg: Config, s: Sys, k: nat, i: nat)
    requires Reachable(cfg, s) && k in s.streams
    requires s.streams[k].sub <= i < s.streams[k].pos && i < |s.past.ring|
    ensures var st, r := s.streams[k], s.past.ring[i];
      r in Emission(st) <==> r.id > st.high || (r.id > Start(st) && st.after.Some? && r.id in st.base)
  {
    ReachableOk(cfg, s);
    PastIsOk(s);
    ReceivedEmitted(s.past, s.streams[k], i);
  }

  lemma ReceivedEmitted(h: History, st: Stream, i: nat)
    requires PastOk(h) && StreamOk(h, st) && st.sub <= i < st.pos
    ensures var r := h.ring[i];
      r in Emission(st) <==> r.id > st.high || (r.id > Start(st) && st.after.Some? && r.id in st.base)
  {
    ReceivedLive(h, st, i);
    if h.ring[i].id <= st.high {
      ReceivedReplay(h, st, h.ring[i]);
    }
  }

  lemma ReceivedLive(h: History, st: Stream, i: nat)
    requires StreamOk(h, st) && st.sub <= i < st.pos
    ensures h.ring[i] in st.live <==> h.ring[i].id > st.high
  {
    var stretch := h.ring[st.sub..st.pos];
    assert stretch[i - st.sub] == h.ring[i];
    FilterHas(stretch, Above(st.high), i - st.sub);
  }

  lemma ReceivedReplay(h: History, st: Stream, r: LogRecord)
    requires PastOk(h) && StreamOk(h, st) && SnapshotOk(h, st) && r in h.ring && r.id <= st.high
    ensures r in st.replay <==> r.id > Start(st) && st.after.Some? && r.id in st.base
  {
    if r in st.replay {
      ReplaySource(h, st, r);
    } else if r.id > Start(st) && st.after.Some? && r.id in st.base {
      ReplayHolds(h, st, r.id);
      BaseHolds(h, st, r);
    }
  }

  /** If a replayed row is not older than a published record, then that record, once accepted
      in id order, was itself in the snapshot, rolled back, or pruned. */
  lemma AcceptedBefore(h: History, st: Stream, r: LogRecord, e: LogRecord)
    requires PastOk(h) && StreamOk(h, st) && e in st.replay
    requires r in h.ring && r.id <= e.id && r in h.accepted && Ascending(h.accepted)
    ensures SnapshotOk(h, st) && r in h.processed[..st.mark]
    ensures r.id in st.base || r.id in h.failed || r.id in h.pruned
  {
    ReplaySource(h, st, e);
    assert e in h.processed[..st.mark];
    var j :| 0 <= j < st.mark && h.processed[j] == e;
    var i :| 0 <= i < |h.accepted| && h.accepted[i] == r;
    assert h.accepted[j] == e;
    assert i <= j;
    assert h.processed[..st.mark][i] == r;
  }

  /**
   * Replay completeness. When acceptance follows id order, a record published after the stream
   * subscribed and already received by it was delivered, unless its batch was rolled back or
   * retention removed it.
   */
  lemma ReplayComplete(cfg: Config, s: Sys, k: nat, i: nat)
    requires Reachable(cfg, s) && k in s.streams
    requires s.streams[k].sub <= i < s.streams[k].pos && i < |s.past.ring|
    requires Ascending(s.past.accepted) && s.past.ring[i] in s.past.accepted
    requires s.past.ring[i].id > Start(s.streams[k])
    ensures var r := s.past.ring[i];
      r in Emission(s.streams[k]) || r.id in s.past.failed || r.id in s.past.pruned
  {
    ReachableOk(cfg, s);
    PastIsOk(s);
    ReceivedComplete(s.past, s.streams[k], i);
  }

  lemma ReceivedComplete(h: History, st: Stream, i: nat)
    requires PastOk(h) && StreamOk(h, st) && st.sub <= i < st.pos
    requires Ascending(h.accepted) && h.ring[i] in h.accepted && h.ring[i].id > Start(st)
    ensures h.ring[i] in Emission(st) || h.ring[i].id in h.failed || h.ring[i].id in h.pruned
  {
    ReceivedEmitted(h, st, i);
    if h.ring[i].id <= st.high {
      var e := HighRow(h, st);
      AcceptedBefore(h, st, h.ring[i], e);
    }
  }

  /** A `high_water` above the start is the id of some replayed row. */
  lemma HighRow(h: History, st: Stream) returns (e: LogRecord)
    requires StreamOk(h, st) && st.high > Start(st)
    ensures e in st.replay && e.id == st.high
  {
    HighWaterIs(Start(st), st.replay);
    e :| e in st.replay && e.id == st.high;
  }

  /** Past the MAX_REPLAY cut. */
  ghost predicate CutOff(st: Stream, id: int) {
    |st.replay| == MAX_REPLAY && st.replay[MAX_REPLAY - 1].id < id
  }

  /**
   * The other half: once the replay has been read, a published record or a row found at boot above
   * Last-Event-ID is missed only if the writer had not attempted it by then, or it had been rolled back
   * or pruned, or it lies past the MAX_REPLAY cut.
   */
  lemma MissedOnlyIf(cfg: Config, s: Sys, k: nat, r: LogRecord)
    requires Reachable(cfg, s) && k in s.streams && SnapshotTaken(s.streams[k])
    requires s.streams[k].after.Some? && r.id > Start(s.streams[k])
    requires r in s.past.ring || (r.id in s.past.boot && s.past.boot[r.id] == r)
    ensures var st := s.streams[k];
      || r in Emission(st)
      || (r in s.past.ring && r !in AttemptedBefore(s.past, st))
      || r.id in s.past.failed || r.id in s.past.pruned || CutOff(st, r.id)
  {
    ReachableOk(cfg, s);
    PastIsOk(s);
    SnapshotHas(s.past, s.streams[k], r);
  }

  lemma SnapshotHas(h: History, st: Stream, r: LogRecord)
    requires PastOk(h) && StreamOk(h, st) && SnapshotTaken(st) && st.after.Some? && r.id > Start(st)
    requires r in h.ring || (r.id in h.boot && h.boot[r.id] == r)
    ensures r in st.replay || (r in h.ring && r !in AttemptedBefore(h, st))
         || r.id in h.failed || r.id in h.pruned || CutOff(st, r.id)
  {
    SinceIdPage(st.base, st.after.value, MAX_REPLAY);
    if r.id in st.base {
      if r in h.ring {
        BaseHolds(h, st, r);
      } else {
        BootBase(h, st, r);
      }
    }
  }

  /** A row found at boot and still there at the snapshot is unchanged. */
  lemma BootBase(h: History, st: Stream, r: LogRecord)
    requires PastOk(h) && SnapshotOk(h, st) && r.id in h.boot && h.boot[r.id] == r && r.id in st.base
    ensures st.base[r.id] == r
  {
    if st.base[r.id] in h.processed[..st.mark] {
      ProcessedAccepted(h, st.base[r.id]);
    }
  }

  /** Every reason a line above the start can be missing. */
  ghost predicate Excused(h: History, st: Stream, r: LogRecord)
    requires st.sub <= st.pos <= |h.ring|
  {
    || r in h.ring[st.pos..]                                             // not received yet
    || r.id in h.failed || r.id in h.pruned
    || (r !in h.ring[st.sub..]                                           // older than the subscription, and
        && (|| st.after.None?                                            //   no replay was asked for,
            || (r in h.ring[..st.sub] && r !in AttemptedBefore(h, st))   //   not attempted when it was read,
            || CutOff(st, r.id)))                                        //   or past its cut
  }

  /**
   * When acceptance follows id order, an accepted record or a row found at boot above the start is sent,
   * or is missing for one of those reasons.
   */
  lemma MissedRecord(cfg: Config, s: Sys, k: nat, r: LogRecord)
    requires Reachable(cfg, s) && k in s.streams && SnapshotTaken(s.streams[k])
    requires Ascending(s.past.accepted) && r.id > Start(s.streams[k])
    requires r in s.past.accepted || (r.id in s.past.boot && s.past.boot[r.id] == r)
    ensures var h, st := s.past, s.streams[k];
      st.sub <= st.pos <= |h.ring| && (r in Emission(st) || Excused(h, st, r))
  {
    ReachableOk(cfg, s);
    PastIsOk(s);
    SentOrExcused(s.past, s.streams[k], r);
  }

  lemma SentOrExcused(h: History, st: Stream, r: LogRecord)
    requires PastOk(h) && StreamOk(h, st) && SnapshotTaken(st) && Ascending(h.accepted) && r.id > Start(st)
    requires r in h.accepted || (r.id in h.boot && h.boot[r.id] == r)
    ensures r in Emission(st) || Excused(h, st, r)
  {
    if r in h.ring[st.sub..] {
      var i := IndexFrom(h.ring, st.sub, r);
      WaitingOrLost(h, st, i);
    } else if st.after.Some? {
      SnapshotHas(h, st, r);
      InFront(h.ring, st.sub, r);
    }
  }

  lemma IndexFrom(ring: seq<LogRecord>, sub: nat, r: LogRecord) returns (i: nat)
    requires sub <= |ring| && r in ring[sub..]
    ensures sub <= i < |ring| && ring[i] == r
  {
    var j :| 0 <= j < |ring[sub..]| && ring[sub..][j] == r;
    i := sub + j;
  }

  lemma InFront(ring: seq<LogRecord>, sub: nat, r: LogRecord)
    requires sub <= |ring| && r !in ring[sub..]
    ensures r in ring ==> r in ring[..sub]
  {
    assert ring == ring[..sub] + ring[sub..];
  }

  lemma WaitingOrLost(h: History, st: Stream, i: nat)
    requires PastOk(h) && StreamOk(h, st) && st.sub <= i < |h.ring|
    requires Ascending(h.accepted) && h.ring[i].id > Start(st)
    requires h.ring[i] in h.accepted || (h.ring[i].id in h.boot && h.boot[h.ring[i].id] == h.ring[i])
    ensures h.ring[i] in Emission(st) || h.ring[i] in h.ring[st.pos..]
         || h.ring[i].id in h.failed || h.ring[i].id in h.pruned
  {
    if i < st.pos {
      ReceivedComplete(h, st, i);
    } else {
      assert h.ring[st.pos..][i - st.pos] == h.ring[i];
    }
  }

  /** A table of one row above `after` replays exactly that row. */
  lemma OneRowReplay(r: LogRecord, after: int)
    requires r.id > after
    ensures SinceId(map[r.id := r], after, MAX_REPLAY) == [r]
  {
    var logs := map[r.id := r];
    var page := SinceId(logs, after, MAX_REPLAY);
    SinceIdPage(logs, after, MAX_REPLAY);
    assert r.id in logs && logs[r.id] == r;
    forall i | 0 <= i < |page| ensures page[i] == r {
      assert page[i] in page;
    }
    assert |page| <= 1 || page[0].id < page[1].id;
  }

  lemma ReachableOn(cfg: Config, s: Sys, step: Step)
    requires Reachable(cfg, s) && Enabled(cfg, s, step)
    ensures Reachable(cfg, Apply(cfg, s, step))
  {
    var db, steps :| GoodDb(db) && Leads(cfg, InitialState(db), steps, s);
    LeadsOn(cfg, InitialState(db), steps, s, step);
  }

  /** Two handlers have their ids, and a client with Last-Event-ID 0 has subscribed. */
  ghost function RaceStart(a: LogRecord, b: LogRecord): Sys {
    var s1 := AfterAllocate(AfterAllocate(InitialState(Db(map[], {})), 0, a), 1, b);
    WithStream(s1, 0, Opened(0, Some(0), Some(0), [], true, true))
  }

  /** The state a racing pair of handlers leaves behind: the later id is committed and replayed
      before the earlier one is even published. */
  ghost function RaceState(a: LogRecord, b: LogRecord): Sys {
    AfterCommit(AfterTake(AfterEnqueue(AfterPublish(RaceStart(a, b), 1), 1, true)), true)
  }

  lemma RaceStarts(cfg: Config, a: LogRecord, b: LogRecord)
    requires a.id == 1 && b.id == 2
    ensures Reachable(cfg, RaceStart(a, b))
  {
    var s0 := InitialState(Db(map[], {}));
    assert GoodDb(Db(map[], {})) && Leads(cfg, s0, [], s0);
    ReachableOn(cfg, s0, Allocate(0, a));
    ReachableOn(cfg, AfterAllocate(s0, 0, a), Allocate(1, b));
    ReachableOn(cfg, AfterAllocate(AfterAllocate(s0, 0, a), 1, b), Client(0, Connect(Some(0))));
  }

  lemma RaceReached(cfg: Config, a: LogRecord, b: LogRecord)
    requires cfg == Config(8, 16) && a.id == 1 && b.id == 2
    ensures Reachable(cfg, RaceState(a, b))
  {
    RaceStarts(cfg, a, b);
    var s3 := RaceStart(a, b);
    ReachableOn(cfg, s3, Publish(1));
    var s4 := AfterPublish(s3, 1);
    ReachableOn(cfg, s4, Enqueue(1, true));
    var s5 := AfterEnqueue(s4, 1, true);
    ReachableOn(cfg, s5, Take);
    ReachableOn(cfg, AfterTake(s5), Commit(true));
  }

  /**
   * Without id-ordered acceptance completeness fails: two racing handlers can make a line that was
   * accepted, published after the subscription and received by the stream fall under `high_water`.
   */
  lemma RaceLosesLine() returns (cfg: Config, s: Sys, i: nat)
    ensures Reachable(cfg, s) && 0 in s.streams
    ensures s.streams[0].sub <= i < s.streams[0].pos && i < |s.past.ring|
    ensures s.past.ring[i] in s.past.accepted && s.past.ring[i].id > Start(s.streams[0])
    ensures s.past.ring[i] !in Emission(s.streams[0]) && s.past.failed == {} && s.past.pruned == {}
  {
    cfg := Config(8, 16);
    var a := LogRecord(1, 0, "a", 2, "first", None, None);
    var b := LogRecord(2, 0, "b", 2, "second", None, None);
    RaceReached(cfg, a, b);
    var s0 := RaceState(a, b);
    RaceTable(a, b);
    ReachableOn(cfg, s0, Client(0, Snapshot));
    var s1 := RaceSnapshot(s0, b);
    s := RaceFinish(cfg, s1, a, b);
    i := 1;
  }

  lemma RaceSnapshot(s0: Sys, b: LogRecord) returns (s1: Sys)
    requires s0.streams == map[0 := Opened(0, Some(0), Some(0), [], true, true)]
    requires s0.db.logs == map[b.id := b] && b.id == 2
    ensures s1 == WithStream(s0, 0, Snapped(s0, s0.streams[0]))
    ensures var st := s1.streams[0]; st == s0.streams[0].(phase := Live, replay := [b], high := 2,
              base := st.base, mark := st.mark, clean := st.clean)
  {
    s1 := WithStream(s0, 0, Snapped(s0, s0.streams[0]));
    OneRowReplay(b, 0);
    HighWaterIs(0, [b]);
    assert b in [b];
  }

  lemma RaceFinish(cfg: Config, s1: Sys, a: LogRecord, b: LogRecord) returns (s: Sys)
    requires Reachable(cfg, s1) && cfg == Config(8, 16) && a.id == 1 && b.id == 2
    requires s1.past.ring == s1.past.accepted == [b] && s1.queue == [] && s1.handlers == map[0 := Allocated(a)]
    requires 0 in s1.streams && s1.streams[0].phase == Live && s1.streams[0].replay == [b]
    requires var st := s1.streams[0]; st.high == 2 && st.live == [] && st.pos == st.sub == 0
    ensures Reachable(cfg, s) && s.past.ring == [b, a] && s.past.accepted == [b, a]
    ensures s.past.failed == s1.past.failed && s.past.pruned == s1.past.pruned
    ensures 0 in s.streams && s.streams[0] == s1.streams[0].(pos := 2)
    ensures Emission(s.streams[0]) == [b]
  {
    ReachableOn(cfg, s1, Publish(0));
    var s2 := AfterPublish(s1, 0);
    ReachableOn(cfg, s2, Enqueue(0, true));
    var s3 := AfterEnqueue(s2, 0, true);
    s := RacePolls(cfg, s3, a, b);
  }

  lemma RacePolls(cfg: Config, s3: Sys, a: LogRecord, b: LogRecord) returns (s: Sys)
    requires Reachable(cfg, s3) && cfg.ringCap == 16 && a.id == 1 && b.id == 2
    requires s3.past.ring == [b, a] && 0 in s3.streams && s3.streams[0].phase == Live
    requires var st := s3.streams[0]; st.high == 2 && st.live == [] && st.pos == 0
    ensures Reachable(cfg, s) && s.past == s3.past
    ensures 0 in s.streams && s.streams[0] == s3.streams[0].(pos := 2)
  {
    ReachableOn(cfg, s3, Client(0, Poll));
    var s4 := WithStream(s3, 0, Polled(s3.past, s3.streams[0]));
    ReachableOn(cfg, s4, Client(0, Poll));
    s := WithStream(s4, 0, Polled(s4.past, s4.streams[0]));
  }

  lemma RaceTable(a: LogRecord, b: LogRecord)
    requires a.id == 1 && b.id == 2
    ensures var s := RaceState(a, b);
      && s.db.logs == map[b.id := b] && s.past.ring == [b] && s.past.accepted == [b]
      && s.past.failed == s.past.pruned == {} && s.queue == [] && !s.draining
      && s.handlers == map[0 := Allocated(a)]
      && s.streams == map[0 := Opened(0, Some(0), Some(0), [], true, true)]
  {
    assert ([b])[..0] == [];
    assert InsertAll(Db(map[], {}), [b]) == Insert(InsertAll(Db(map[], {}), []), b);
  }
}
