/**
 * A client that keeps reconnecting, within one lifetime of the process and across restarts. Each
 * connection is resumed with the id of the last frame received. Over all of them no line arrives twice;
 * and nothing is missed below the last frame, provided ids are published and accepted in order, each
 * replay covers its gap, and no restart finds the client ahead of the newest stored row.
 */
module Reconnect {
  import opened Basics
  import opened Records
  import opened Table
  import opened Protocol
  import opened Invariants
  import opened Delivery
  import opened Pipeline

  type Handlers = map<nat, Handler>

  /** Publication and acceptance follow id order in this lifetime. */
  ghost predicate Orderly(h: History) {
    Ascending(h.ring) && Ascending(h.accepted)
  }

  ghost predicate Lost(h: History, id: int) {
    id in h.failed || id in h.pruned
  }

  /** Rolled back or pruned, or published and never to be accepted as long as acceptance follows id order. */
  ghost predicate Forgone(h: History, handlers: Handlers, r: LogRecord) {
    || Lost(h, r.id)
    || (&& r !in h.accepted
        && ((forall pid | pid in handlers :: handlers[pid] != Published(r))
            || exists a :: a in h.accepted && a.id > r.id))
  }

  function LastId(rs: seq<LogRecord>): int
    requires rs != []
  {
    rs[|rs| - 1].id
  }

  /** Above where the client started, or not older than the first frame it got. */
  ghost predicate Owed(st: Stream, id: int) {
    || (st.origin.Some? && id > st.origin.value)
    || (Got(st) != [] && id >= Got(st)[0].id)
  }

  /** Nothing owed up to the last frame is missing. */
  ghost predicate Complete(h: History, handlers: Handlers, st: Stream) {
    Got(st) != [] ==>
      && (forall r | r in h.ring && Owed(st, r.id) && r.id <= LastId(Got(st)) ::
            r in Got(st) || Forgone(h, handlers, r))
      && (forall id | id in h.boot && Owed(st, id) && id <= LastId(Got(st)) ::
            h.boot[id] in Got(st) || Lost(h, id))
  }

  /** No row of the snapshot above the start was cut off by MAX_REPLAY. */
  ghost predicate WholeReplay(st: Stream) {
    forall id | id in st.base && id > Start(st) :: st.base[id] in st.replay
  }

  /** Whatever was published before the subscription had been attempted by the snapshot, or is forgone. */
  ghost predicate EarlierSettled(h: History, handlers: Handlers, st: Stream) {
    forall i | 0 <= i < st.sub && i < |h.ring| ::
      h.ring[i] in AttemptedBefore(h, st) || Forgone(h, handlers, h.ring[i])
  }

  ghost predicate CleanSnapshot(h: History, handlers: Handlers, st: Stream) {
    st.after.Some? && SnapshotTaken(st) ==> WholeReplay(st) && EarlierSettled(h, handlers, st)
  }

  ghost predicate Resumed(st: Stream) {
    st.after == (if st.prior == [] then st.origin else Some(LastId(st.prior)))
  }

  /** What the client has so far: in order, and above its start. */
  ghost predicate InOrder(st: Stream) {
    Ascending(Got(st)) && (st.origin.Some? ==> forall r | r in Got(st) :: r.id > st.origin.value)
  }

  /** The client knows of no id that this lifetime has yet to give out. */
  ghost predicate Known(h: History, st: Stream) {
    forall r | r in Got(st) :: r in h.ring || r.id <= h.seed
  }

  ghost predicate SessionOk(h: History, handlers: Handlers, st: Stream) {
    && Resumed(st)
    && (st.ordered && Ascending(h.ring) ==> InOrder(st))
    && (st.ordered && st.clean ==> Known(h, st))
    && (st.ordered && st.clean && Orderly(h) ==> Complete(h, handlers, st) && CleanSnapshot(h, handlers, st))
  }

  ghost predicate SessionsOk(s: Sys) {
    forall k | k in s.streams :: SessionOk(s.past, s.handlers, s.streams[k])
  }

  // ---------- a stream left alone by a step ----------

  ghost predicate ForgoneStays(h: History, hs: Handlers, g: History, gs: Handlers) {
    forall r | r in h.ring && Forgone(h, hs, r) && Orderly(g) :: Forgone(g, gs, r)
  }

  ghost predicate Publishes(h: History, g: History) {
    g.ring == h.ring || exists x :: g.ring == h.ring + [x]
  }

  lemma AscendingBefore(a: seq<LogRecord>, b: seq<LogRecord>)
    requires a <= b && Ascending(b)
    ensures Ascending(a)
  {
    forall i, j | 0 <= i < j < |a| ensures a[i].id < a[j].id {
      assert a[i] == b[i] && a[j] == b[j];
    }
  }

  lemma CompleteSurvives(h: History, hs: Handlers, g: History, gs: Handlers, st: Stream)
    requires PastOk(g) && Grows(h, g) && ForgoneStays(h, hs, g, gs) && Publishes(h, g)
    requires Complete(h, hs, st) && Known(h, st) && Orderly(g)
    ensures Complete(g, gs, st)
  {
    if Got(st) != [] {
      forall r | r in g.ring && Owed(st, r.id) && r.id <= LastId(Got(st))
        ensures r in Got(st) || Forgone(g, gs, r)
      {
        NewIsNewer(h, g, st, r);
        assert r in h.ring;
      }
    }
  }

  /** A record published by this step is newer than anything the client has. */
  lemma NewIsNewer(h: History, g: History, st: Stream, r: LogRecord)
    requires PastOk(g) && Grows(h, g) && Publishes(h, g) && Ascending(g.ring)
    requires Known(h, st) && Got(st) != [] && r in g.ring
    ensures r !in h.ring ==> r.id > LastId(Got(st))
  {
    var last := Got(st)[|Got(st)| - 1];
    assert last in Got(st);
    var n := |g.ring| - 1;
    if last in h.ring {
      var i :| 0 <= i < |h.ring| && h.ring[i] == last;
      assert g.ring[i] == last;
      assert i < n ==> g.ring[i].id < g.ring[n].id;
    }
  }

  lemma CleanSurvives(h: History, hs: Handlers, g: History, gs: Handlers, st: Stream)
    requires Grows(h, g) && ForgoneStays(h, hs, g, gs) && Orderly(g) && StreamOk(h, st)
    requires CleanSnapshot(h, hs, st)
    ensures CleanSnapshot(g, gs, st)
  {
    if st.after.Some? && SnapshotTaken(st) {
      assert AttemptedBefore(g, st) == AttemptedBefore(h, st);
      forall i | 0 <= i < st.sub ensures g.ring[i] in AttemptedBefore(g, st) || Forgone(g, gs, g.ring[i]) {
        assert g.ring[i] == h.ring[i] && h.ring[i] in h.ring;
      }
    }
  }

  lemma SessionSurvives(h: History, hs: Handlers, g: History, gs: Handlers, st: Stream)
    requires PastOk(g) && Grows(h, g) && ForgoneStays(h, hs, g, gs) && Publishes(h, g)
    requires SessionOk(h, hs, st) && StreamOk(h, st)
    ensures SessionOk(g, gs, st)
  {
    if Ascending(g.ring) { AscendingBefore(h.ring, g.ring); }
    if st.ordered && st.clean && Orderly(g) {
      AscendingBefore(h.accepted, g.accepted);
      CompleteSurvives(h, hs, g, gs, st);
      CleanSurvives(h, hs, g, gs, st);
    }
  }

  lemma SessionsSurvive(s: Sys, t: Sys)
    requires Inv(s) && Inv(t) && SessionsOk(s) && t.streams == s.streams && Grows(s.past, t.past)
    requires ForgoneStays(s.past, s.handlers, t.past, t.handlers) && Publishes(s.past, t.past)
    ensures SessionsOk(t)
  {
    PastIsOk(t);
    forall k | k in t.streams ensures SessionOk(t.past, t.handlers, t.streams[k]) {
      SessionSurvives(s.past, s.handlers, t.past, t.handlers, s.streams[k]);
    }
  }

  lemma PublishForgone(s: Sys, pid: nat)
    requires IdsOk(s.past, s.counter, s.handlers) && pid in s.handlers && s.handlers[pid].Allocated?
    ensures var t := AfterPublish(s, pid); ForgoneStays(s.past, s.handlers, t.past, t.handlers)
  {
  }

  lemma EnqueueForgone(s: Sys, pid: nat, sent: bool)
    requires IdsOk(s.past, s.counter, s.handlers) && pid in s.handlers && s.handlers[pid].Published?
    ensures var t := AfterEnqueue(s, pid, sent); ForgoneStays(s.past, s.handlers, t.past, t.handlers)
  {
    var t := AfterEnqueue(s, pid, sent);
    forall r | r in s.past.ring && Forgone(s.past, s.handlers, r) && Orderly(t.past)
      ensures Forgone(t.past, t.handlers, r)
    {
      if sent && !Lost(s.past, r.id) {
        SentForgone(s.past, s.handlers, r, pid);
      }
    }
  }

  lemma SentForgone(h: History, handlers: Handlers, r: LogRecord, pid: nat)
    requires pid in handlers && handlers[pid].Published? && Forgone(h, handlers, r) && !Lost(h, r.id)
    requires Ascending(h.accepted + [handlers[pid].rec])
    ensures Forgone(h.(accepted := h.accepted + [handlers[pid].rec]), handlers - {pid}, r)
  {
    var rec, n := handlers[pid].rec, |h.accepted|;
    forall a | a in h.accepted ensures a in h.accepted + [rec] && a.id < rec.id {
      var i :| 0 <= i < n && h.accepted[i] == a;
      assert (h.accepted + [rec])[i].id < (h.accepted + [rec])[n].id;
    }
  }

  // ---------- what an emission holds ----------

  lemma EmissionSources(h: History, st: Stream, r: LogRecord)
    requires PastOk(h) && StreamOk(h, st) && r in Emission(st)
    ensures r in h.ring || (r.id in h.boot && h.boot[r.id] == r)
  {
    EmissionShape(h, st);
    if r in st.replay {
      ReplaySource(h, st, r);
    }
  }

  lemma EmissionAscending(h: History, st: Stream)
    requires PastOk(h) && StreamOk(h, st) && Ascending(h.ring)
    ensures Ascending(Emission(st))
  {
    EmissionShape(h, st);
    FilterAscending(h.ring[st.sub..st.pos], Above(st.high));
    JoinAscending(st.replay, st.live, st.high);
  }

  lemma JoinAscending(a: seq<LogRecord>, b: seq<LogRecord>, high: int)
    requires Ascending(a) && Ascending(b)
    requires (forall r | r in a :: r.id <= high) && (forall r | r in b :: r.id > high)
    ensures Ascending(a + b)
  {
    forall i, j | 0 <= i < j < |a + b| ensures (a + b)[i].id < (a + b)[j].id {
      if i < |a| <= j {
        assert (a + b)[i] in a && (a + b)[j] in b;
      }
    }
  }

  lemma IndexOrder(rs: seq<LogRecord>, i: nat, j: nat)
    requires Ascending(rs) && i < |rs| && j < |rs| && rs[i].id <= rs[j].id
    ensures i <= j
  {
  }

  /** An attempted record above the start was replayed, unless it was rolled back or pruned. */
  lemma AttemptedReplayed(h: History, st: Stream, r: LogRecord)
    requires PastOk(h) && SnapshotOk(h, st) && WholeReplay(st)
    requires r in h.ring && r in AttemptedBefore(h, st) && r.id > Start(st)
    ensures r in st.replay || Lost(h, r.id)
  {
    if r.id in st.base { BaseHolds(h, st, r); }
  }

  /** A published record not newer than a replayed row was replayed, or is forgone. */
  lemma ReplayedComplete(h: History, hs: Handlers, st: Stream, r: LogRecord, e: LogRecord)
    requires PastOk(h) && StreamOk(h, st) && Ascending(h.accepted) && WholeReplay(st)
    requires r in h.ring && e in st.replay && r.id <= e.id && r.id > Start(st)
    ensures r in st.replay || Forgone(h, hs, r)
  {
    ReplaySource(h, st, e);
    if r in h.accepted {
      AcceptedBefore(h, st, r, e);
      AttemptedReplayed(h, st, r);
    } else {
      assert e in h.accepted && e in h.ring;
      if e.id == r.id { SameId(h.ring, e, r); }
    }
  }

  /** A received publication above the start was sent, live or replayed, or is forgone. */
  lemma PolledComplete(h: History, hs: Handlers, st: Stream, i: nat)
    requires PastOk(h) && StreamOk(h, st) && Ascending(h.accepted)
    requires st.after.Some? ==> WholeReplay(st)
    requires st.sub <= i < st.pos && h.ring[i].id > Start(st)
    ensures h.ring[i] in Emission(st) || Forgone(h, hs, h.ring[i])
  {
    if h.ring[i].id > st.high {
      ReceivedLive(h, st, i);
    } else {
      var e := HighRow(h, st);
      ReplayedComplete(h, hs, st, h.ring[i], e);
    }
  }

  /** The position of a forwarded frame in the publication order. */
  lemma LiveIndex(h: History, st: Stream, e: LogRecord) returns (j: nat)
    requires StreamOk(h, st) && e in st.live
    ensures st.sub <= j < st.pos && h.ring[j] == e
  {
    var stretch := h.ring[st.sub..st.pos];
    FilterMembers(stretch, Above(st.high));
    var k :| 0 <= k < |stretch| && stretch[k] == e;
    j := st.sub + k;
  }

  /** Without Last-Event-ID the first frame is the first publication after subscribing. */
  lemma LiveFirst(h: History, st: Stream)
    requires PastOk(h) && StreamOk(h, st) && st.after.None? && Emission(st) != []
    ensures st.sub < st.pos && Emission(st)[0] == h.ring[st.sub] && Emission(st)[0] in h.ring
  {
    var stretch := h.ring[st.sub..st.pos];
    FilterAll(stretch, Above(st.high));
  }

  /** Up to any frame of a clean emission, nothing above the start is missing. */
  lemma EmissionComplete(h: History, hs: Handlers, st: Stream, i: nat, e: LogRecord)
    requires PastOk(h) && StreamOk(h, st) && Orderly(h) && CleanSnapshot(h, hs, st)
    requires i < |h.ring| && e in Emission(st) && h.ring[i].id <= e.id
    requires if st.after.Some? then h.ring[i].id > st.after.value else h.ring[i].id >= Emission(st)[0].id
    ensures h.ring[i] in Emission(st) || Forgone(h, hs, h.ring[i])
  {
    assert h.ring[i] in h.ring;
    if e in st.replay {
      ReplayedComplete(h, hs, st, h.ring[i], e);
    } else {
      LiveComplete(h, hs, st, i, e);
    }
  }

  lemma LiveComplete(h: History, hs: Handlers, st: Stream, i: nat, e: LogRecord)
    requires PastOk(h) && StreamOk(h, st) && Orderly(h) && CleanSnapshot(h, hs, st)
    requires i < |h.ring| && e in st.live && h.ring[i].id <= e.id
    requires if st.after.Some? then h.ring[i].id > st.after.value else h.ring[i].id >= Emission(st)[0].id
    ensures h.ring[i] in Emission(st) || Forgone(h, hs, h.ring[i])
  {
    var j := LiveIndex(h, st, e);
    IndexOrder(h.ring, i, j);
    SinceSubscribed(h, hs, st, i);
  }

  /** Publications the stream has been past, since its subscription or before. */
  lemma SinceSubscribed(h: History, hs: Handlers, st: Stream, i: nat)
    requires PastOk(h) && StreamOk(h, st) && Orderly(h) && CleanSnapshot(h, hs, st) && SnapshotTaken(st)
    requires i < st.pos
    requires if st.after.Some? then h.ring[i].id > st.after.value
             else Emission(st) != [] && h.ring[i].id >= Emission(st)[0].id
    ensures h.ring[i] in Emission(st) || Forgone(h, hs, h.ring[i])
  {
    if st.after.None? {
      LiveFirst(h, st);
      IndexOrder(h.ring, st.sub, i);
    }
    if i >= st.sub {
      PolledComplete(h, hs, st, i);
    } else if h.ring[i] in AttemptedBefore(h, st) {
      AttemptedReplayed(h, st, h.ring[i]);
    }
  }

  // ---------- the client reads its next frame ----------

  lemma GotNext(st: Stream)
    requires st.taken < |Emission(st)|
    ensures Got(Next(st)) == Got(st) + [Emission(st)[st.taken]]
    ensures st.prior == [] ==> Got(Next(st))[0] == Emission(st)[0]
    ensures st.prior != [] ==> Got(st) != [] && Got(Next(st))[0] == Got(st)[0]
  {
    assert Emission(st)[..st.taken + 1] == Emission(st)[..st.taken] + [Emission(st)[st.taken]];
  }

  lemma ResumedBelow(st: Stream)
    requires Resumed(st) && InOrder(st) && st.taken <= |Emission(st)|
    ensures Got(st) != [] && st.after.Some? ==> st.after.value <= LastId(Got(st))
  {
    if st.prior != [] {
      assert Got(st)[|st.prior| - 1] == st.prior[|st.prior| - 1];
      IndexOrderBack(Got(st), |st.prior| - 1, |Got(st)| - 1);
    } else if Got(st) != [] {
      assert Got(st)[|Got(st)| - 1] in Got(st);
    }
  }

  lemma IndexOrderBack(rs: seq<LogRecord>, i: nat, j: nat)
    requires Ascending(rs) && i <= j < |rs|
    ensures rs[i].id <= rs[j].id
  {
  }

  /** The frame about to be received is newer than everything received before. */
  lemma NextIsNewer(h: History, st: Stream)
    requires PastOk(h) && StreamOk(h, st) && Ascending(h.ring)
    requires Resumed(st) && InOrder(st) && st.taken < |Emission(st)|
    ensures InOrder(Next(st))
  {
    NextAbove(h, st);
    GotNext(st);
    SnocAscending(Got(st), Emission(st)[st.taken]);
    if st.origin.Some? && Got(st) != [] {
      assert Got(st)[|Got(st)| - 1] in Got(st);
    }
  }

  lemma NextAbove(h: History, st: Stream)
    requires PastOk(h) && StreamOk(h, st) && Ascending(h.ring)
    requires Resumed(st) && st.taken < |Emission(st)|
    ensures var e := Emission(st)[st.taken];
      if Got(st) != [] then e.id > LastId(Got(st)) else st.origin.Some? ==> e.id > st.origin.value
  {
    EmissionAscending(h, st);
    EmissionAbove(h, st, Emission(st)[st.taken]);
    AboveLast(st);
  }

  lemma AboveLast(st: Stream)
    requires Ascending(Emission(st)) && Resumed(st) && st.taken < |Emission(st)|
    requires st.after.Some? ==> Emission(st)[st.taken].id > st.after.value
    ensures var e := Emission(st)[st.taken];
      if Got(st) != [] then e.id > LastId(Got(st)) else st.origin.Some? ==> e.id > st.origin.value
  {
    if st.taken > 0 {
      GotLast(st);
    } else {
      assert Got(st) == st.prior + [] == st.prior;
    }
  }

  lemma EmissionAbove(h: History, st: Stream, e: LogRecord)
    requires PastOk(h) && StreamOk(h, st) && e in Emission(st)
    ensures st.after.Some? ==> e.id > st.after.value
  {
    EmissionShape(h, st);
    assert e in st.replay || e in st.live;
  }

  lemma GotLast(st: Stream)
    requires 0 < st.taken <= |Emission(st)|
    ensures Got(st) != [] && LastId(Got(st)) == Emission(st)[st.taken - 1].id
  {
    assert Emission(st)[..st.taken][st.taken - 1] == Emission(st)[st.taken - 1];
  }

  lemma SnocAscending(rs: seq<LogRecord>, e: LogRecord)
    requires Ascending(rs) && (rs != [] ==> e.id > LastId(rs))
    ensures Ascending(rs + [e])
  {
  }

  /** An owed id between what was received and the next frame lies above this connection's start. */
  lemma NextStart(st: Stream, id: int)
    requires Resumed(st) && InOrder(st) && st.taken < |Emission(st)|
    requires Owed(Next(st), id) && id < Emission(st)[st.taken].id
    requires Got(st) != [] ==> id > LastId(Got(st))
    ensures if st.after.Some? then id > st.after.value else id >= Emission(st)[0].id
  {
    GotNext(st);
    ResumedBelow(st);
  }

  /** Whatever is owed up to the next frame is among what will then have been received, or is forgone. */
  lemma NextComplete(h: History, hs: Handlers, st: Stream, i: nat)
    requires PastOk(h) && StreamOk(h, st) && Orderly(h) && Resumed(st) && InOrder(st)
    requires CleanSnapshot(h, hs, st) && st.taken < |Emission(st)| && i < |h.ring|
    requires Owed(Next(st), h.ring[i].id) && h.ring[i].id < Emission(st)[st.taken].id
    requires Got(st) != [] ==> h.ring[i].id > LastId(Got(st))
    ensures h.ring[i] in Got(Next(st)) || Forgone(h, hs, h.ring[i])
  {
    NextStart(st, h.ring[i].id);
    EmissionComplete(h, hs, st, i, Emission(st)[st.taken]);
    if h.ring[i] in Emission(st) {
      EmissionAscending(h, st);
      EmittedBefore(st, h.ring[i]);
    }
  }

  lemma EmittedBefore(st: Stream, r: LogRecord)
    requires Ascending(Emission(st)) && r in Emission(st) && st.taken < |Emission(st)|
    requires r.id <= Emission(st)[st.taken].id
    ensures r in Got(Next(st))
  {
    var j :| 0 <= j < |Emission(st)| && Emission(st)[j] == r;
    IndexOrder(Emission(st), j, st.taken);
    assert Emission(st)[..st.taken + 1][j] == r;
  }

  /** Without Last-Event-ID nothing from before boot is owed. */
  lemma BootNotOwed(h: History, st: Stream, id: int)
    requires PastOk(h) && StreamOk(h, st) && st.after.None? && Emission(st) != [] && id in h.boot
    ensures id < Emission(st)[0].id
  {
    LiveFirst(h, st);
  }

  /** Rows stored before boot are replayed like the rest. */
  lemma BootComplete(h: History, hs: Handlers, st: Stream, id: int)
    requires PastOk(h) && StreamOk(h, st) && Ascending(h.ring) && Resumed(st) && InOrder(st)
    requires CleanSnapshot(h, hs, st) && st.taken < |Emission(st)|
    requires id in h.boot && Owed(Next(st), id) && id < Emission(st)[st.taken].id
    requires Got(st) != [] ==> id > LastId(Got(st))
    ensures h.boot[id] in Got(Next(st)) || Lost(h, id)
  {
    NextStart(st, id);
    if st.after.None? {
      BootNotOwed(h, st, id);
    }
    BootEmitted(h, hs, st, id);
  }

  lemma BootEmitted(h: History, hs: Handlers, st: Stream, id: int)
    requires PastOk(h) && StreamOk(h, st) && Ascending(h.ring) && CleanSnapshot(h, hs, st)
    requires st.after.Some? && st.taken < |Emission(st)|
    requires id in h.boot && st.after.value < id < Emission(st)[st.taken].id
    ensures h.boot[id] in Got(Next(st)) || Lost(h, id)
  {
    EmissionSnapshot(h, st);
    BootReplayed(h, st, id);
    EmissionAscending(h, st);
    if h.boot[id] in Emission(st) { EmittedBefore(st, h.boot[id]); }
  }

  /** A stream that has something to send has read its snapshot. */
  lemma EmissionSnapshot(h: History, st: Stream)
    requires StreamOk(h, st) && Emission(st) != []
    ensures SnapshotTaken(st) && SnapshotOk(h, st)
  {
    if st.live != [] { FilterMembers(h.ring[st.sub..st.pos], Above(st.high)); }
  }

  lemma BootReplayed(h: History, st: Stream, id: int)
    requires PastOk(h) && SnapshotOk(h, st) && WholeReplay(st) && id in h.boot && id > Start(st)
    ensures h.boot[id] in Emission(st) || Lost(h, id)
  {
    if id in st.base {
      assert h.boot[id].id == id;
      BootBase(h, st, h.boot[id]);
    }
  }

  lemma ReceiveRing(h: History, hs: Handlers, st: Stream, r: LogRecord)
    requires PastOk(h) && StreamOk(h, st) && Orderly(h) && Resumed(st) && InOrder(st)
    requires Complete(h, hs, st) && CleanSnapshot(h, hs, st) && st.taken < |Emission(st)|
    requires r in h.ring && Owed(Next(st), r.id) && r.id <= Emission(st)[st.taken].id
    ensures r in Got(Next(st)) || Forgone(h, hs, r)
  {
    var e := Emission(st)[st.taken];
    GotNext(st);
    if r.id == e.id {
      EmissionSources(h, st, e);
      if e in h.ring { SameId(h.ring, r, e); }
    } else if Got(st) == [] || r.id > LastId(Got(st)) {
      var i :| 0 <= i < |h.ring| && h.ring[i] == r;
      NextComplete(h, hs, st, i);
    } else {
      assert Owed(st, r.id);
    }
  }

  lemma ReceiveBoot(h: History, hs: Handlers, st: Stream, id: int)
    requires PastOk(h) && StreamOk(h, st) && Ascending(h.ring) && Resumed(st) && InOrder(st)
    requires Complete(h, hs, st) && CleanSnapshot(h, hs, st) && st.taken < |Emission(st)|
    requires id in h.boot && Owed(Next(st), id) && id <= Emission(st)[st.taken].id
    ensures h.boot[id] in Got(Next(st)) || Lost(h, id)
  {
    var e := Emission(st)[st.taken];
    GotNext(st);
    if id == e.id {
      EmissionSources(h, st, e);
    } else if Got(st) == [] || id > LastId(Got(st)) {
      BootComplete(h, hs, st, id);
    } else {
      assert Owed(st, id);
    }
  }

  lemma ReceiveAllRing(h: History, hs: Handlers, st: Stream)
    requires PastOk(h) && StreamOk(h, st) && Orderly(h) && Resumed(st) && InOrder(st)
    requires Complete(h, hs, st) && CleanSnapshot(h, hs, st) && st.taken < |Emission(st)|
    ensures forall r | r in h.ring && Owed(Next(st), r.id) && r.id <= Emission(st)[st.taken].id ::
              r in Got(Next(st)) || Forgone(h, hs, r)
  {
    forall r | r in h.ring && Owed(Next(st), r.id) && r.id <= Emission(st)[st.taken].id
      ensures r in Got(Next(st)) || Forgone(h, hs, r)
    {
      ReceiveRing(h, hs, st, r);
    }
  }

  lemma ReceiveAllBoot(h: History, hs: Handlers, st: Stream)
    requires PastOk(h) && StreamOk(h, st) && Ascending(h.ring) && Resumed(st) && InOrder(st)
    requires Complete(h, hs, st) && CleanSnapshot(h, hs, st) && st.taken < |Emission(st)|
    ensures forall id | id in h.boot && Owed(Next(st), id) && id <= Emission(st)[st.taken].id ::
              h.boot[id] in Got(Next(st)) || Lost(h, id)
  {
    forall id | id in h.boot && Owed(Next(st), id) && id <= Emission(st)[st.taken].id
      ensures h.boot[id] in Got(Next(st)) || Lost(h, id)
    {
      ReceiveBoot(h, hs, st, id);
    }
  }

  lemma ReceiveComplete(h: History, hs: Handlers, st: Stream)
    requires PastOk(h) && StreamOk(h, st) && Orderly(h) && Resumed(st) && InOrder(st)
    requires Complete(h, hs, st) && CleanSnapshot(h, hs, st) && st.taken < |Emission(st)|
    ensures Complete(h, hs, Next(st))
  {
    GotNext(st);
    ReceiveAllRing(h, hs, st);
    ReceiveAllBoot(h, hs, st);
  }

  lemma ReceiveKnown(h: History, st: Stream)
    requires PastOk(h) && StreamOk(h, st) && Known(h, st) && st.taken < |Emission(st)|
    ensures Known(h, Next(st))
  {
    GotNext(st);
    EmissionSources(h, st, Emission(st)[st.taken]);
  }

  /** Reading a frame does not touch the snapshot. */
  lemma ReceiveClean(h: History, hs: Handlers, st: Stream)
    requires CleanSnapshot(h, hs, st)
    ensures CleanSnapshot(h, hs, Next(st))
  {
  }

  lemma ReceiveOrdered(h: History, st: Stream)
    requires PastOk(h) && StreamOk(h, st) && Resumed(st) && st.taken < |Emission(st)|
    requires st.ordered && Ascending(h.ring) ==> InOrder(st)
    ensures st.ordered && Ascending(h.ring) ==> InOrder(Next(st))
  {
    if st.ordered && Ascending(h.ring) { NextIsNewer(h, st); }
  }

  lemma ReceiveWhole(h: History, hs: Handlers, st: Stream)
    requires PastOk(h) && StreamOk(h, st) && SessionOk(h, hs, st) && st.taken < |Emission(st)|
    requires st.ordered && st.clean && Orderly(h)
    ensures Complete(h, hs, Next(st)) && CleanSnapshot(h, hs, Next(st))
  {
    ReceiveComplete(h, hs, st);
    ReceiveClean(h, hs, st);
  }

  lemma ReceiveSession(h: History, hs: Handlers, st: Stream)
    requires PastOk(h) && StreamOk(h, st) && SessionOk(h, hs, st) && st.taken < |Emission(st)|
    ensures SessionOk(h, hs, Next(st))
  {
    ReceiveOrdered(h, st);
    if st.ordered && st.clean {
      ReceiveKnown(h, st);
      if Orderly(h) { ReceiveWhole(h, hs, st); }
    }
  }

  // ---------- the other moves of a stream ----------

  lemma SnapshotSession(s: Sys, st: Stream)
    requires PastOk(s.past) && FifoOk(s.past, s.batch, s.queue) && Keyed(s.db.logs)
    requires StreamOk(s.past, st) && SessionOk(s.past, s.handlers, st) && st.phase == Subscribed
    ensures SessionOk(s.past, s.handlers, Snapped(s, st))
  {
    var u := Snapped(s, st);
    assert Got(u) == st.prior + Emission(u)[..0] == Got(st);
    if u.clean {
      SnapshotSettles(s, st);
      SameComplete(s.past, s.handlers, st, u);
    }
  }

  /** Completeness and order depend only on what was received. */
  lemma SameComplete(h: History, hs: Handlers, st: Stream, u: Stream)
    requires Got(u) == Got(st) && u.origin == st.origin
    ensures Complete(h, hs, u) == Complete(h, hs, st) && InOrder(u) == InOrder(st) && Known(h, u) == Known(h, st)
  {
  }

  lemma SnapshotSettles(s: Sys, st: Stream)
    requires FifoOk(s.past, s.batch, s.queue) && Keyed(s.db.logs)
    requires StreamOk(s.past, st) && st.phase == Subscribed && Snapped(s, st).clean
    ensures CleanSnapshot(s.past, s.handlers, Snapped(s, st))
  {
    var u := Snapped(s, st);
    assert AttemptedBefore(s.past, u) == s.past.processed;
    if u.after.Some? {
      SnapshotCaught(s, st);
      WholePage(s.db.logs, u.after.value);
    }
  }

  /** When the writer has caught up, whatever was published before the subscription is attempted or forgone. */
  lemma SnapshotCaught(s: Sys, st: Stream)
    requires FifoOk(s.past, s.batch, s.queue) && StreamOk(s.past, st) && CaughtUp(s, st)
    ensures forall i | 0 <= i < st.sub :: s.past.ring[i] in s.past.processed || Forgone(s.past, s.handlers, s.past.ring[i])
  {
    forall i | 0 <= i < st.sub
      ensures s.past.ring[i] in s.past.processed || Forgone(s.past, s.handlers, s.past.ring[i])
    {
      var r := s.past.ring[i];
      assert r !in s.batch && r !in s.queue;
      assert r in s.past.accepted ==> r in s.past.processed;
    }
  }

  lemma WholePage(logs: Rows, after: int)
    requires Keyed(logs) && FitsReplay(logs, after)
    ensures forall id | id in logs && id > after :: logs[id] in SinceId(logs, after, MAX_REPLAY)
  {
    ScanLists(logs);
    FilterMembers(Scan(logs), Above(after));
  }

  lemma PollSession(h: History, hs: Handlers, st: Stream)
    requires StreamOk(h, st) && SessionOk(h, hs, st) && st.phase == Live && st.pos < |h.ring|
    ensures SessionOk(h, hs, Polled(h, st))
  {
    SameGot(h, hs, st, Polled(h, st));
  }

  lemma ClosedSession(h: History, hs: Handlers, st: Stream)
    requires StreamOk(h, st) && SessionOk(h, hs, st)
    ensures SessionOk(h, hs, st.(phase := Closed))
  {
    SameGot(h, hs, st, st.(phase := Closed));
  }

  /** A move that leaves what the client received and the snapshot alone keeps its session good. */
  lemma SameGot(h: History, hs: Handlers, st: Stream, u: Stream)
    requires SessionOk(h, hs, st) && st.taken <= |Emission(st)|
    requires Emission(st) <= Emission(u)
    requires u.(phase := st.phase, pos := st.pos, live := st.live) == st
    requires SnapshotTaken(u) ==> SnapshotTaken(st)
    ensures SessionOk(h, hs, u)
  {
    assert Emission(u)[..u.taken] == Emission(st)[..st.taken];
    assert Got(u) == Got(st);
    SameComplete(h, hs, st, u);
  }

  lemma ReopenedSession(h: History, hs: Handlers, st: Stream)
    requires SessionOk(h, hs, st)
    ensures SessionOk(h, hs, Reopened(h, st))
  {
    var u := Reopened(h, st);
    assert Got(u) == Got(st) + [] == Got(st);
    SameComplete(h, hs, st, u);
  }

  lemma FreshSession(h: History, hs: Handlers, last: Option<int>)
    ensures SessionOk(h, hs, Opened(|h.ring|, last, last, [], true, true))
  {
    assert Got(Opened(|h.ring|, last, last, [], true, true)) == [];
  }

  lemma MovedSession(cfg: Config, s: Sys, st: Stream, move: Move)
    requires PastOk(s.past) && FifoOk(s.past, s.batch, s.queue) && Keyed(s.db.logs)
    requires StreamOk(s.past, st) && SessionOk(s.past, s.handlers, st) && Movable(cfg, s.past, st, move)
    ensures SessionOk(s.past, s.handlers, Moved(s, st, move))
  {
    match move
    case Connect(_) =>
    case Snapshot => SnapshotSession(s, st);
    case Poll => PollSession(s.past, s.handlers, st);
    case Lag => ClosedSession(s.past, s.handlers, st);
    case Close => ClosedSession(s.past, s.handlers, st);
    case Receive => ReceiveSession(s.past, s.handlers, st);
    case Reconnect => ReopenedSession(s.past, s.handlers, st);
  }

  lemma ClientSessions(cfg: Config, s: Sys, k: nat, move: Move)
    requires Inv(s) && SessionsOk(s) && Enabled(cfg, s, Client(k, move))
    ensures SessionsOk(WithStream(s, k, NextStream(s, k, move)))
  {
    PastIsOk(s);
    if move.Connect? {
      FreshSession(s.past, s.handlers, move.last);
    } else {
      MovedSession(cfg, s, s.streams[k], move);
    }
  }

  // ---------- restarts ----------

  /** A row still stored that the client was owed is one it has: it was neither rolled back nor pruned. */
  lemma StoredIsHeld(s: Sys, st: Stream, id: int)
    requires Inv(s) && Complete(s.past, s.handlers, st) && Got(st) != []
    requires id in s.db.logs && Owed(st, id) && id <= LastId(Got(st))
    ensures s.db.logs[id] in Got(st)
  {
    var row := s.db.logs[id];
    assert row.id == id && !Lost(s.past, id);
    if row in s.past.processed {
      PastIsOk(s);
      ProcessedAccepted(s.past, row);
    }
  }

  lemma OrphanComplete(s: Sys, st: Stream)
    requires Inv(s) && Complete(s.past, s.handlers, st)
    ensures Complete(AfterRestart(s).past, map[], Orphaned(s, st))
  {
    var u := Orphaned(s, st);
    assert Got(u) == Got(st) + [] == Got(st);
    if Got(st) != [] {
      forall id | id in s.db.logs && Owed(u, id) && id <= LastId(Got(u)) ensures s.db.logs[id] in Got(u) {
        StoredIsHeld(s, st, id);
      }
    }
  }

  lemma OrphanKnown(s: Sys, st: Stream)
    requires InOrder(st) && StillBehind(s.db.logs, st)
    ensures Known(AfterRestart(s).past, Orphaned(s, st))
  {
    assert Got(Orphaned(s, st)) == Got(st) + [] == Got(st);
    forall r | r in Got(st) ensures r.id <= MaxId(s.db.logs) {
      var i :| 0 <= i < |Got(st)| && Got(st)[i] == r;
      IndexOrderBack(Got(st), i, |Got(st)| - 1);
    }
  }

  lemma OrphanSession(s: Sys, st: Stream)
    requires Inv(s) && SessionOk(s.past, s.handlers, st)
    ensures SessionOk(AfterRestart(s).past, map[], Orphaned(s, st))
  {
    var u := Orphaned(s, st);
    assert Got(u) == Got(st) + [] == Got(st);
    if u.ordered {
      SameComplete(s.past, s.handlers, st, u);
      if u.clean {
        OrphanKnown(s, st);
        OrphanComplete(s, st);
      }
    }
  }

  lemma RestartSessions(s: Sys)
    requires Inv(s) && SessionsOk(s)
    ensures SessionsOk(AfterRestart(s))
  {
    var t := AfterRestart(s);
    forall k | k in t.streams ensures SessionOk(t.past, t.handlers, t.streams[k]) {
      OrphanSession(s, s.streams[k]);
    }
  }

  // ---------- every step ----------

  /** Steps that neither publish nor accept. */
  lemma QuietSessions(s: Sys, t: Sys)
    requires Inv(s) && Inv(t) && SessionsOk(s) && t.streams == s.streams && Grows(s.past, t.past)
    requires t.past.ring == s.past.ring && t.past.accepted == s.past.accepted
    requires forall pid, r | pid in t.handlers && t.handlers[pid] == Published(r) ::
               pid in s.handlers && s.handlers[pid] == Published(r)
    ensures SessionsOk(t)
  {
    QuietForgone(s.past, s.handlers, t.past, t.handlers);
    SessionsSurvive(s, t);
  }

  lemma QuietForgone(h: History, hs: Handlers, g: History, gs: Handlers)
    requires Grows(h, g) && g.ring == h.ring && g.accepted == h.accepted
    requires forall pid, r | pid in gs && gs[pid] == Published(r) :: pid in hs && hs[pid] == Published(r)
    ensures ForgoneStays(h, hs, g, gs)
  {
  }

  lemma TakeSessions(s: Sys)
    requires Inv(s) && SessionsOk(s) && s.queue != []
    ensures SessionsOk(AfterTake(s))
  {
    TakeKeeps(s);
    QuietSessions(s, AfterTake(s));
  }

  lemma CommitSessions(s: Sys, ok: bool)
    requires Inv(s) && SessionsOk(s)
    ensures SessionsOk(AfterCommit(s, ok))
  {
    if ok { CommitKeeps(s); } else { RollbackKeeps(s); }
    QuietSessions(s, AfterCommit(s, ok));
  }

  lemma SweepSessions(s: Sys, cutoff: Option<int>, maxRows: int)
    requires Inv(s) && SessionsOk(s)
    ensures SessionsOk(AfterSweep(s, cutoff, maxRows))
  {
    SweepKeeps(s, cutoff, maxRows);
    QuietSessions(s, AfterSweep(s, cutoff, maxRows));
  }

  lemma AllocateSessions(s: Sys, pid: nat, rec: LogRecord)
    requires Inv(s) && SessionsOk(s) && pid !in s.handlers && rec.id == s.counter + 1
    ensures SessionsOk(AfterAllocate(s, pid, rec))
  {
    AllocateKeeps(s, pid, rec);
    QuietSessions(s, AfterAllocate(s, pid, rec));
  }

  lemma PublishSessions(s: Sys, pid: nat)
    requires Inv(s) && SessionsOk(s) && pid in s.handlers && s.handlers[pid].Allocated?
    ensures SessionsOk(AfterPublish(s, pid))
  {
    PublishKeeps(s, pid);
    PublishForgone(s, pid);
    SessionsSurvive(s, AfterPublish(s, pid));
  }

  lemma EnqueueSessions(s: Sys, pid: nat, sent: bool)
    requires Inv(s) && SessionsOk(s) && pid in s.handlers && s.handlers[pid].Published?
    ensures SessionsOk(AfterEnqueue(s, pid, sent))
  {
    EnqueueKeeps(s, pid, sent);
    EnqueueForgone(s, pid, sent);
    SessionsSurvive(s, AfterEnqueue(s, pid, sent));
  }

  lemma StepSessions(cfg: Config, s: Sys, step: Step)
    requires Inv(s) && SessionsOk(s) && Enabled(cfg, s, step)
    ensures SessionsOk(Apply(cfg, s, step))
  {
    match step
    case Allocate(pid, rec) => AllocateSessions(s, pid, rec);
    case Reject => assert SessionsOk(s.(counter := s.counter + 1));
    case Publish(pid) => PublishSessions(s, pid);
    case Enqueue(pid, sent) => EnqueueSessions(s, pid, sent);
    case Drain => assert SessionsOk(s.(draining := true));
    case Take => TakeSessions(s);
    case Commit(ok) => CommitSessions(s, ok);
    case Sweep(cutoff, maxRows) => SweepSessions(s, cutoff, maxRows);
    case Restart => RestartSessions(s);
    case Client(k, move) => ClientSessions(cfg, s, k, move);
  }

  lemma {:induction false} RunSessions(cfg: Config, s: Sys, steps: seq<Step>, t: Sys)
    requires Inv(s) && SessionsOk(s) && Leads(cfg, s, steps, t)
    ensures SessionsOk(t)
    decreases |steps|
  {
    if steps != [] {
      StepKeeps(cfg, s, steps[0]);
      StepSessions(cfg, s, steps[0]);
      RunSessions(cfg, Apply(cfg, s, steps[0]), steps[1..], t);
    }
  }

  lemma SessionReachable(cfg: Config, s: Sys)
    requires Reachable(cfg, s)
    ensures Inv(s) && SessionsOk(s)
  {
    ReachableOk(cfg, s);
    var db, steps :| GoodDb(db) && Leads(cfg, InitialState(db), steps, s);
    BootOk(db);
    assert SessionsOk(InitialState(db));
    RunSessions(cfg, InitialState(db), steps, s);
  }

  // ---------- main results ----------

  /**
   * Over all the connections of a client, across restarts, no line arrives twice and ids only grow.
   * This needs publication in id order and nothing else: not acceptance in order, no luck with gaps,
   * rolled-back batches, sweeps or restarts.
   */
  lemma ReconnectAtMostOnce(cfg: Config, s: Sys, k: nat)
    requires Reachable(cfg, s) && k in s.streams && s.streams[k].ordered && Ascending(s.past.ring)
    ensures Ascending(Got(s.streams[k]))
    ensures s.streams[k].origin.Some? ==> forall r | r in Got(s.streams[k]) :: r.id > s.streams[k].origin.value
  {
    SessionReachable(cfg, s);
    assert SessionOk(s.past, s.handlers, s.streams[k]);
  }

  /** Where an accepted record of any lifetime is that was neither pruned nor lost. */
  lemma StillHere(s: Sys, r: LogRecord)
    requires Inv(s) && r in s.totals.accepted && r !in s.totals.pruned && r !in s.totals.lost
    ensures !Lost(s.past, r.id)
    ensures (r in s.past.ring && r in s.past.accepted) || (r.id in s.past.boot && s.past.boot[r.id] == r)
  {
    var h := s.past;
    PastIsOk(s);
    if r in s.batch + s.queue {
      PendingAccepted(h, s.batch, s.queue);
      assert r in h.accepted && r in h.ring;
    } else {
      assert r in RowSet(s.db.logs);
      var id :| id in s.db.logs && s.db.logs[id] == r;
      assert r.id == id;
      if r in h.processed { ProcessedAccepted(h, r); }
    }
  }

  /**
   * Reconnect composition. Across all its connections, and across restarts, the client has received in
   * strictly ascending order, and so once each, every record ever accepted above its start up to the last
   * frame it got, but for those that were pruned or lost: rolled back, or queued when a process died.
   */
  lemma ReconnectExactlyOnce(cfg: Config, s: Sys, k: nat)
    requires Reachable(cfg, s) && k in s.streams && Orderly(s.past)
    requires s.streams[k].ordered && s.streams[k].clean
    ensures var got := Got(s.streams[k]);
      && Ascending(got)
      && (got != [] ==>
            forall r | r in s.totals.accepted && Owed(s.streams[k], r.id) && r.id <= LastId(got) ::
              r in got || r in s.totals.pruned || r in s.totals.lost)
  {
    SessionReachable(cfg, s);
    var st := s.streams[k];
    assert SessionOk(s.past, s.handlers, st);
    if Got(st) != [] {
      forall r | r in s.totals.accepted && Owed(st, r.id) && r.id <= LastId(Got(st))
        ensures r in Got(st) || r in s.totals.pruned || r in s.totals.lost
      {
        if r !in s.totals.pruned && r !in s.totals.lost { StillHere(s, r); }
      }
    }
  }

  /** A live stream that has drained the broadcast: the client has everything it is owed. */
  lemma DrainedHasAll(cfg: Config, s: Sys, k: nat)
    requires Reachable(cfg, s) && k in s.streams && Orderly(s.past)
    requires s.streams[k].ordered && s.streams[k].clean
    requires var st := s.streams[k]; st.phase == Live && st.pos == |s.past.ring| && st.taken == |Emission(st)|
    ensures forall r | r in s.totals.accepted && Owed(s.streams[k], r.id) ::
              r in Got(s.streams[k]) || r in s.totals.pruned || r in s.totals.lost
  {
    SessionReachable(cfg, s);
    PastIsOk(s);
    var st := s.streams[k];
    assert SessionOk(s.past, s.handlers, st);
    forall r | r in s.totals.accepted && Owed(st, r.id)
      ensures r in Got(st) || r in s.totals.pruned || r in s.totals.lost
    {
      if r !in s.totals.pruned && r !in s.totals.lost {
        StillHere(s, r);
        DrainedHas(s.past, s.handlers, st, r);
      }
    }
  }

  lemma DrainedHas(h: History, hs: Handlers, st: Stream, r: LogRecord)
    requires PastOk(h) && StreamOk(h, st) && Orderly(h) && Resumed(st) && InOrder(st)
    requires Complete(h, hs, st) && CleanSnapshot(h, hs, st)
    requires st.phase == Live && st.pos == |h.ring| && st.taken == |Emission(st)|
    requires Owed(st, r.id) && !Lost(h, r.id)
    requires (r in h.ring && r in h.accepted) || (r.id in h.boot && h.boot[r.id] == r)
    ensures r in Got(st)
  {
    if st.after.Some? && r.id <= st.after.value {
      ResumedBelow(st);
      DrainedOwes(st, r.id);
    } else {
      DrainedEmits(h, hs, st, r);
      assert Emission(st)[..st.taken] == Emission(st);
    }
  }

  lemma DrainedEmits(h: History, hs: Handlers, st: Stream, r: LogRecord)
    requires PastOk(h) && StreamOk(h, st) && Orderly(h) && Resumed(st) && CleanSnapshot(h, hs, st)
    requires st.phase == Live && st.pos == |h.ring| && st.taken == |Emission(st)|
    requires Owed(st, r.id) && !Lost(h, r.id) && (st.after.Some? ==> r.id > st.after.value)
    requires (r in h.ring && r in h.accepted) || (r.id in h.boot && h.boot[r.id] == r)
    ensures r in Emission(st)
  {
    if st.after.None? {
      assert Got(st) == Emission(st) by { assert Emission(st)[..st.taken] == Emission(st); }
    }
    if r in h.ring {
      var i :| 0 <= i < |h.ring| && h.ring[i] == r;
      SinceSubscribed(h, hs, st, i);
    } else if st.after.Some? {
      BootReplayed(h, st, r.id);
    } else {
      BootNotOwed(h, st, r.id);
    }
  }

  lemma DrainedOwes(st: Stream, id: int)
    requires Resumed(st) && InOrder(st) && st.after.Some? && id <= st.after.value && Owed(st, id)
    requires st.taken <= |Emission(st)|
    requires Got(st) != [] ==> st.after.value <= LastId(Got(st))
    ensures Got(st) != [] && id <= LastId(Got(st))
  {
  }

  /** A restart that still has the newest id stored finds no client ahead of it. */
  lemma NewestStored(cfg: Config, s: Sys, k: nat)
    requires Reachable(cfg, s) && k in s.streams && s.streams[k].ordered && s.streams[k].clean
    requires s.counter == 0 || s.counter in s.db.logs
    ensures StillBehind(s.db.logs, s.streams[k])
  {
    SessionReachable(cfg, s);
    var st := s.streams[k];
    assert SessionOk(s.past, s.handlers, st);
    if Got(st) != [] {
      assert Got(st)[|Got(st)| - 1] in Got(st);
      assert s.past.seed <= s.counter;
    }
  }

  // ---------- a restart that finds the client ahead ----------

  /** A client read a line, and the process ended before the line was stored. */
  ghost predicate Ahead(s: Sys, a: LogRecord) {
    && s.db == Db(map[], {}) && s.counter == 0 && s.handlers == map[] && s.queue == [] && s.batch == [] && !s.draining
    && s.past == History(map[], 0, [], [], [], {}, {})
    && s.totals == Totals(multiset{}, multiset{}, multiset{})
    && 0 in s.streams && s.streams[0].phase == Closed && s.streams[0].ordered && s.streams[0].origin == None
    && Got(s.streams[0]) == [a]
  }

  /** The client has connected afresh and read the line `a`, which no one has queued. */
  lemma ReadEarly(cfg: Config, a: LogRecord) returns (s: Sys)
    requires a.id == 1 && cfg == Config(8, 16)
    ensures Reachable(cfg, s) && s.db == Db(map[], {}) && s.queue == [] && s.batch == [] && s.past.ring == [a]
    ensures s.totals == Totals(multiset{}, multiset{}, multiset{})
    ensures 0 in s.streams && s.streams[0].origin == None && s.streams[0].ordered && Got(s.streams[0]) == [a]
  {
    var s0 := InitialState(Db(map[], {}));
    assert GoodDb(Db(map[], {})) && Leads(cfg, s0, [], s0);
    ReachableOn(cfg, s0, Client(0, Connect(None)));
    var st := Opened(0, None, None, [], true, true);
    var s1 := WithStream(s0, 0, st);
    var s2 := ShowIt(cfg, s1, a);
    s := ReadFirst(cfg, s2, a);
  }

  lemma ReadFirst(cfg: Config, s0: Sys, a: LogRecord) returns (s: Sys)
    requires Reachable(cfg, s0) && a.id == 1 && cfg == Config(8, 16) && s0.past.ring == [a]
    requires 0 in s0.streams && s0.streams[0] == Opened(0, None, None, [], true, true)
    ensures Reachable(cfg, s) && s.db == s0.db && s.queue == s0.queue && s.batch == s0.batch && s.past == s0.past
    ensures s.totals == s0.totals
    ensures 0 in s.streams && s.streams[0].origin == None && s.streams[0].ordered && Got(s.streams[0]) == [a]
  {
    ReachableOn(cfg, s0, Client(0, Snapshot));
    var s1 := WithStream(s0, 0, Snapped(s0, s0.streams[0]));
    ReachableOn(cfg, s1, Client(0, Poll));
    var s2 := WithStream(s1, 0, Polled(s1.past, s1.streams[0]));
    assert Emission(s2.streams[0]) == [a];
    ReachableOn(cfg, s2, Client(0, Receive));
    s := WithStream(s2, 0, Next(s2.streams[0]));
    assert Emission(s.streams[0])[..1] == [a];
  }

  lemma ComesBackAhead(cfg: Config, a: LogRecord) returns (s: Sys)
    requires a.id == 1 && cfg == Config(8, 16)
    ensures Reachable(cfg, s) && Ahead(s, a)
  {
    var s0 := ReadEarly(cfg, a);
    ReachableOn(cfg, s0, Restart);
    s := AfterRestart(s0);
    assert Got(s.streams[0]) == Got(s0.streams[0]) + [] == [a];
  }

  /** The next process gives the id out again, to a line that is stored in every way. */
  lemma ReissuedAndStored(cfg: Config, s0: Sys, a: LogRecord, b: LogRecord) returns (s: Sys)
    requires Reachable(cfg, s0) && Ahead(s0, a) && a.id == b.id == 1 && cfg == Config(8, 16)
    ensures Reachable(cfg, s) && s.db.logs == map[1 := b] && s.past.ring == s.past.accepted == [b]
    ensures s.totals == Totals(multiset{b}, multiset{}, multiset{})
    ensures 0 in s.streams && s.streams[0] == Reopened(s0.past, s0.streams[0])
  {
    ReachableOn(cfg, s0, Client(0, Reconnect));
    var s1 := WithStream(s0, 0, Reopened(s0.past, s0.streams[0]));
    s := AcceptIt(cfg, s1, b);
  }

  lemma AcceptIt(cfg: Config, s0: Sys, b: LogRecord) returns (s: Sys)
    requires Reachable(cfg, s0) && b.id == 1 && cfg == Config(8, 16)
    requires s0.db == Db(map[], {}) && s0.counter == 0 && s0.handlers == map[] && s0.queue == [] && s0.batch == []
    requires s0.past == History(map[], 0, [], [], [], {}, {}) && s0.totals == Totals(multiset{}, multiset{}, multiset{})
    ensures Reachable(cfg, s) && s.db.logs == map[1 := b] && s.past.ring == s.past.accepted == [b]
    ensures s.totals == Totals(multiset{b}, multiset{}, multiset{}) && s.streams == s0.streams
  {
    var s1 := ShowIt(cfg, s0, b);
    ReachableOn(cfg, s1, Enqueue(0, true));
    s := StoreIt(cfg, AfterEnqueue(s1, 0, true), b);
  }

  lemma ShowIt(cfg: Config, s0: Sys, b: LogRecord) returns (s: Sys)
    requires Reachable(cfg, s0) && b.id == s0.counter + 1 && s0.handlers == map[]
    ensures Reachable(cfg, s) && s == AfterPublish(AfterAllocate(s0, 0, b), 0)
  {
    ReachableOn(cfg, s0, Allocate(0, b));
    ReachableOn(cfg, AfterAllocate(s0, 0, b), Publish(0));
    s := AfterPublish(AfterAllocate(s0, 0, b), 0);
  }

  lemma StoreIt(cfg: Config, s0: Sys, b: LogRecord) returns (s: Sys)
    requires Reachable(cfg, s0) && s0.queue == [b] && s0.batch == [] && s0.db.logs == map[] && b.id == 1
    ensures Reachable(cfg, s) && s.db.logs == map[1 := b] && s.past == s0.past.(processed := s0.past.processed + [b])
    ensures s.totals == s0.totals && s.streams == s0.streams
  {
    ReachableOn(cfg, s0, Take);
    var s1 := AfterTake(s0);
    ReachableOn(cfg, s1, Commit(true));
    s := AfterCommit(s1, true);
    assert s1.batch == [b] && InsertAll(s0.db, [b]) == Insert(InsertAll(s0.db, []), b) by { assert [b][..0] == []; }
  }

  /**
   * That condition on restarts is needed. A client reads a line that is published but not stored; the next
   * process gives its id to another line; and the client's Last-Event-ID hides that line for good, although
   * it was accepted in order, published after the subscription and received by the stream.
   */
  lemma RestartHidesLine() returns (cfg: Config, s: Sys, b: LogRecord)
    ensures Reachable(cfg, s) && 0 in s.streams && Orderly(s.past) && s.streams[0].ordered
    ensures var st := s.streams[0]; st.phase == Live && st.pos == |s.past.ring| && st.taken == |Emission(st)|
    ensures b in s.totals.accepted && b !in s.totals.pruned && b !in s.totals.lost
    ensures Owed(s.streams[0], b.id) && b !in Got(s.streams[0])
  {
    cfg := Config(8, 16);
    var a := LogRecord(1, 0, "a", 2, "first", None, None);
    b := LogRecord(1, 0, "b", 2, "second", None, None);
    var s0 := ComesBackAhead(cfg, a);
    var s1 := ReissuedAndStored(cfg, s0, a, b);
    s := HiddenAtOnce(cfg, s1, s0.streams[0], a, b);
  }

  lemma HiddenAtOnce(cfg: Config, s0: Sys, st: Stream, a: LogRecord, b: LogRecord) returns (s: Sys)
    requires Reachable(cfg, s0) && s0.db.logs == map[1 := b] && s0.past.ring == [b] && cfg == Config(8, 16)
    requires a.id == b.id == 1 && a != b && Got(st) == [a] && st.ordered
    requires 0 in s0.streams && s0.streams[0] == Opened(0, Some(1), None, [a], true, st.clean)
    ensures Reachable(cfg, s) && s.past == s0.past && s.totals == s0.totals
    ensures 0 in s.streams && s.streams[0].ordered
    ensures var u := s.streams[0]; u.phase == Live && u.pos == 1 && u.taken == |Emission(u)| && Got(u) == [a]
  {
    NothingAbove(b, 1);
    ReachableOn(cfg, s0, Client(0, Snapshot));
    var s1 := WithStream(s0, 0, Snapped(s0, s0.streams[0]));
    ReachableOn(cfg, s1, Client(0, Poll));
    s := WithStream(s1, 0, Polled(s1.past, s1.streams[0]));
    assert Emission(s.streams[0]) == [];
  }

  lemma NothingAbove(r: LogRecord, after: int)
    requires r.id <= after
    ensures SinceId(map[r.id := r], after, MAX_REPLAY) == []
  {
    var page := SinceId(map[r.id := r], after, MAX_REPLAY);
    SinceIdPage(map[r.id := r], after, MAX_REPLAY);
    if page != [] {
      FirstIn(page);
      assert false;
    }
  }

  lemma FirstIn(rs: seq<LogRecord>)
    requires rs != []
    ensures rs[0] in rs
  {
  }
}
