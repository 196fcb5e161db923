/** The stream handler's loop as steps of the server: a connection is one client's moves among everybody else's. */
module StreamRuns {
  import opened Basics
  import opened Records
  import opened Table
  import opened Protocol
  import opened Delivery
  import opened SseWire
  import opened Decimal
  import opened Streaming

  // ---------- everybody else ----------

  /** Steps that leave client `k` alone, in one lifetime of the process. */
  ghost predicate Others(steps: seq<Step>, k: nat) {
    forall step | step in steps :: !step.Restart? && (step.Client? ==> step.k != k)
  }

  lemma SameGap(s: Sys, k: nat, st: Protocol.Stream, other: Protocol.Stream)
    ensures GapCovered(WithStream(s, k, st), other) <==> GapCovered(s, other)
  {
    assert CaughtUp(WithStream(s, k, st), other) <==> CaughtUp(s, other);
  }

  /** Another's step neither sees nor changes what client `k` does. */
  lemma OtherCommutes(cfg: Config, s: Sys, step: Step, k: nat, st: Protocol.Stream)
    requires Enabled(cfg, s, step) && !step.Restart? && (step.Client? ==> step.k != k)
    ensures Enabled(cfg, WithStream(s, k, st), step)
    ensures Apply(cfg, WithStream(s, k, st), step) == WithStream(Apply(cfg, s, step), k, st)
    ensures s.past.ring <= Apply(cfg, s, step).past.ring
  {
    if step.Client? {
      ClientCommutes(s, step.k, step.move, k, st);
    }
  }

  lemma ClientCommutes(s: Sys, j: nat, move: Move, k: nat, st: Protocol.Stream)
    requires j != k && (!move.Connect? ==> j in s.streams)
    ensures NextStream(WithStream(s, k, st), j, move) == NextStream(s, j, move)
    ensures WithStream(WithStream(s, k, st), j, NextStream(s, j, move))
         == WithStream(WithStream(s, j, NextStream(s, j, move)), k, st)
  {
    if move.Snapshot? {
      SameGap(s, k, st, s.streams[j]);
    }
    var next := NextStream(s, j, move);
    assert s.streams[k := st][j := next] == s.streams[j := next][k := st];
  }

  lemma {:induction false} OthersCommute(cfg: Config, s: Sys, steps: seq<Step>, u: Sys, k: nat, st: Protocol.Stream)
    requires Leads(cfg, s, steps, u) && Others(steps, k)
    ensures Leads(cfg, WithStream(s, k, st), steps, WithStream(u, k, st))
    decreases |steps|
  {
    if steps != [] {
      var step := steps[0];
      assert step in steps && forall x | x in steps[1..] :: x in steps;
      OtherCommutes(cfg, s, step, k, st);
      OthersCommute(cfg, Apply(cfg, s, step), steps[1..], u, k, st);
    }
  }

  // ---------- the loop ----------

  /** What the server as a whole does in one turn of the loop: others first, then the stream's own move. */
  datatype Round = Round(others: seq<Step>, wake: Wake, after: Sys)

  /** The stream's own move in a turn, given how far it had come. */
  function MovesOf(capacity: nat, v: Progress, w: Wake): seq<Move> {
    var ring := v.ring + w.published;
    if !v.open then []
    else if w.shutdown then [Close]
    else if v.upto >= |ring| then []
    else if |ring| > v.upto + capacity then [Lag]
    else [Poll]
  }

  function ClientSteps(k: nat, moves: seq<Move>): seq<Step> {
    seq(|moves|, i requires 0 <= i < |moves| => Client(k, moves[i]))
  }

  /** The rounds are a run of everybody else from `s`, publishing in each round what its wake-up says. */
  ghost predicate Rounds(cfg: Config, s: Sys, rounds: seq<Round>, k: nat) {
    rounds == []
    || (var front, last := rounds[..|rounds| - 1], rounds[|rounds| - 1];
        && Rounds(cfg, s, front, k)
        && Leads(cfg, Reached(s, front), last.others, last.after) && Others(last.others, k)
        && last.after.past.ring == Reached(s, front).past.ring + last.wake.published)
  }

  function Reached(s: Sys, rounds: seq<Round>): Sys {
    if rounds == [] then s else rounds[|rounds| - 1].after
  }

  function WakesOf(rounds: seq<Round>): seq<Wake> {
    if rounds == [] then [] else WakesOf(rounds[..|rounds| - 1]) + [rounds[|rounds| - 1].wake]
  }

  /** All the steps of the rounds, the stream's moves among them. */
  function StepsOf(capacity: nat, v: Progress, rounds: seq<Round>, k: nat): seq<Step> {
    if rounds == [] then []
    else
      var front, last := rounds[..|rounds| - 1], rounds[|rounds| - 1];
      StepsOf(capacity, v, front, k) + last.others
      + ClientSteps(k, MovesOf(capacity, AfterWakes(capacity, v, WakesOf(front)), last.wake))
  }

  /** The machine's stream that has come as far as the handler's. */
  ghost function At(st: Protocol.Stream, v: Progress): Protocol.Stream
    requires st.sub <= v.upto <= |v.ring|
  {
    st.(phase := if v.open then Live else Closed, pos := v.upto,
        live := Filter(v.ring[st.sub..v.upto], Above(st.high)))
  }

  /** One turn: the machine's stream makes the loop's move. */
  lemma TurnIsMove(cfg: Config, u: Sys, k: nat, st: Protocol.Stream, v: Progress, w: Wake)
    requires st.sub <= v.upto <= |v.ring| && u.past.ring == v.ring + w.published
    ensures var after := AfterWake(cfg.ringCap, v, w);
      && st.sub <= after.upto <= |after.ring| && after.ring == u.past.ring
      && Leads(cfg, WithStream(u, k, At(st, v)), ClientSteps(k, MovesOf(cfg.ringCap, v, w)), WithStream(u, k, At(st, after)))
  {
    assert u.past.ring[st.sub..v.upto] == v.ring[st.sub..v.upto];
    var moves := MovesOf(cfg.ringCap, v, w);
    if moves != [] {
      OneMove(cfg, u, k, At(st, v), moves[0]);
      if moves[0].Poll? {
        PollIsOn(u.past, st, v);
      }
    }
  }

  lemma PollIsOn(h: History, st: Protocol.Stream, v: Progress)
    requires st.sub <= v.upto < |h.ring| && v.open && v.ring <= h.ring && v.upto <= |v.ring|
    ensures Polled(h, At(st, v)) == At(st, Progress(h.ring, v.upto + 1, true))
  {
    var here := At(st, v);
    assert h.ring[st.sub..v.upto] == v.ring[st.sub..v.upto];
    OneMoreAbove(h.ring, st.sub, v.upto, st.high);
    assert here.live + [] == here.live;
  }

  lemma OneMove(cfg: Config, u: Sys, k: nat, st: Protocol.Stream, move: Move)
    requires Movable(cfg, u.past, st, move) && (move.Poll? || move.Lag? || move.Close?)
    ensures Leads(cfg, WithStream(u, k, st), ClientSteps(k, [move]), WithStream(u, k, Moved(u, st, move)))
  {
    var s, steps := WithStream(u, k, st), ClientSteps(k, [move]);
    assert steps[1..] == [] && steps[0] == Client(k, move);
    assert u.streams[k := st][k := Moved(u, st, move)] == u.streams[k := Moved(u, st, move)];
  }

  /**
   * The loop is a run of the server. Whatever the others do around it, their steps and the stream's own
   * moves together are a run in which the stream comes exactly as far as the loop does.
   */
  lemma {:induction false} LoopIsSteps(cfg: Config, s: Sys, rounds: seq<Round>, k: nat, st: Protocol.Stream, v: Progress)
    requires Rounds(cfg, s, rounds, k) && v.ring == s.past.ring && st.sub <= v.upto <= |v.ring|
    ensures var end := AfterWakes(cfg.ringCap, v, WakesOf(rounds));
      && st.sub <= end.upto <= |end.ring| && end.ring == Reached(s, rounds).past.ring
      && Leads(cfg, WithStream(s, k, At(st, v)), StepsOf(cfg.ringCap, v, rounds, k),
               WithStream(Reached(s, rounds), k, At(st, end)))
  {
    if rounds != [] {
      var front, last := rounds[..|rounds| - 1], rounds[|rounds| - 1];
      LoopIsSteps(cfg, s, front, k, st, v);
      var middle, u := AfterWakes(cfg.ringCap, v, WakesOf(front)), Reached(s, front);
      assert (WakesOf(front) + [last.wake])[..|WakesOf(front)|] == WakesOf(front);
      OthersCommute(cfg, u, last.others, last.after, k, At(st, middle));
      TurnIsMove(cfg, last.after, k, st, middle, last.wake);
      var start := WithStream(s, k, At(st, v));
      LeadsConcat(cfg, start, StepsOf(cfg.ringCap, v, front, k), WithStream(u, k, At(st, middle)),
                  last.others, WithStream(last.after, k, At(st, middle)));
      LeadsConcat(cfg, start, StepsOf(cfg.ringCap, v, front, k) + last.others, WithStream(last.after, k, At(st, middle)),
                  ClientSteps(k, MovesOf(cfg.ringCap, middle, last.wake)),
                  WithStream(last.after, k, At(st, AfterWake(cfg.ringCap, middle, last.wake))));
    }
  }

  // ---------- the whole connection ----------

  /** Subscribing, the others' steps until the query, and the query. */
  function OpenSteps(k: nat, last: Option<int>, others: seq<Step>): seq<Step> {
    [Client(k, Connect(last))] + others + [Client(k, Snapshot)]
  }

  lemma OpenIsSteps(cfg: Config, s: Sys, k: nat, last: Option<int>, others: seq<Step>, m: Sys)
    requires k !in s.streams && Leads(cfg, s, others, m) && Others(others, k)
    ensures var joined := Opened(|s.past.ring|, last, last, [], true, true);
      Leads(cfg, s, OpenSteps(k, last, others), WithStream(m, k, Snapped(m, joined)))
  {
    var joined := Opened(|s.past.ring|, last, last, [], true, true);
    var t := WithStream(m, k, joined);
    OthersCommute(cfg, s, others, m, k, joined);
    ConnectIsStep(cfg, s, k, last);
    LeadsConcat(cfg, s, [Client(k, Connect(last))], WithStream(s, k, joined), others, t);
    SnapshotIsStep(cfg, m, k, joined);
    LeadsOn(cfg, s, [Client(k, Connect(last))] + others, t, Client(k, Snapshot));
  }

  lemma ConnectIsStep(cfg: Config, s: Sys, k: nat, last: Option<int>)
    requires k !in s.streams
    ensures Leads(cfg, s, [Client(k, Connect(last))],
                  WithStream(s, k, Opened(|s.past.ring|, last, last, [], true, true)))
  {
    assert [Client(k, Connect(last))][1..] == [];
  }

  lemma SnapshotIsStep(cfg: Config, m: Sys, k: nat, st: Protocol.Stream)
    requires st.phase == Subscribed
    ensures Enabled(cfg, WithStream(m, k, st), Client(k, Snapshot))
    ensures Apply(cfg, WithStream(m, k, st), Client(k, Snapshot)) == WithStream(m, k, Snapped(m, st))
  {
    SameGap(m, k, st, st);
    assert m.streams[k := st][k := Snapped(m, st)] == m.streams[k := Snapped(m, st)];
  }

  /**
   * A connection is a run of the server. Let the others run from the subscription to the query, and then
   * through the rounds of the loop. With the handler's moves among theirs that is a run of the machine, and
   * it leaves client `k` with a stream that has sent the very lines the handler sends.
   */
  lemma ConnectionIsSteps(cfg: Config, s: Sys, k: nat, last: Option<int>, others: seq<Step>, m: Sys, rounds: seq<Round>)
    returns (t: Sys)
    requires k !in s.streams && Leads(cfg, s, others, m) && Others(others, k) && Rounds(cfg, m, rounds, k)
    ensures var sub, v := |s.past.ring|, Progress(m.past.ring, |s.past.ring|, true);
      var end := AfterWakes(cfg.ringCap, v, WakesOf(rounds));
      && s.past.ring <= m.past.ring && sub <= end.upto <= |end.ring|
      && Leads(cfg, s, OpenSteps(k, last, others) + StepsOf(cfg.ringCap, v, rounds, k), t)
      && k in t.streams && t == WithStream(Reached(m, rounds), k, t.streams[k])
      && t.streams[k].phase == (if end.open then Live else Closed)
      && Emission(t.streams[k]) == Lines(m.db.logs, last, end.ring[sub..end.upto])
  {
    var joined := Opened(|s.past.ring|, last, last, [], true, true);
    var st, v := Snapped(m, joined), Progress(m.past.ring, |s.past.ring|, true);
    OthersPublish(cfg, s, others, m, k);
    OpenIsSteps(cfg, s, k, last, others, m);
    assert v.ring[st.sub..v.upto] == [];
    assert At(st, v) == st;
    LoopIsSteps(cfg, m, rounds, k, st, v);
    var end := AfterWakes(cfg.ringCap, v, WakesOf(rounds));
    t := WithStream(Reached(m, rounds), k, At(st, end));
    LeadsConcat(cfg, s, OpenSteps(k, last, others), WithStream(m, k, st), StepsOf(cfg.ringCap, v, rounds, k), t);
  }

  lemma {:induction false} OthersPublish(cfg: Config, s: Sys, steps: seq<Step>, u: Sys, k: nat)
    requires Leads(cfg, s, steps, u) && Others(steps, k)
    ensures s.past.ring <= u.past.ring
    decreases |steps|
  {
    if steps != [] {
      assert steps[0] in steps && forall x | x in steps[1..] :: x in steps;
      OtherCommutes(cfg, s, steps[0], k, Opened(0, None, None, [], true, true));
      OthersPublish(cfg, Apply(cfg, s, steps[0]), steps[1..], u, k);
    }
  }

  // ---------- the next connection ----------

  /** The replay that follows: the rows above an id, in order, cut at 5000, and where the live part begins. */
  lemma ReplayAbove(logs: Rows, after: int, received: seq<LogRecord>) returns (page: seq<LogRecord>, high: int)
    requires Keyed(logs)
    ensures Ascending(page) && |page| <= 5000
    ensures forall r | r in page :: r.id > after && r.id in logs && logs[r.id] == r
    ensures forall id | id in logs && id > after :: logs[id] in page || (|page| == 5000 && page[4999].id < id)
    ensures high == if page == [] then after else page[|page| - 1].id
    ensures Lines(logs, Some(after), received) == page + Filter(received, (r: LogRecord) => r.id > high)
  {
    page := SinceId(logs, after, MAX_REPLAY);
    SinceIdPage(logs, after, MAX_REPLAY);
    high := HighWater(after, page);
    if page != [] { HighIsLast(after, page); }
    FilterSame(received, Above(high), (r: LogRecord) => r.id > high);
  }

  /** The frame completed last before the cut, whose id comes back. */
  lemma {:induction false} LastCompleted(chunks: seq<Chunk>, cut: nat) returns (last: Chunk)
    requires Clean(chunks) && cut <= |Wire(chunks)| && FeedAll(CONNECTED, Wire(chunks)[..cut]).events != []
    requires forall c | c in chunks && c.Frame? :: -0x8000_0000_0000_0000 <= c.id <= 0x7FFF_FFFF_FFFF_FFFF
    ensures var reader := FeedAll(CONNECTED, Wire(chunks)[..cut]);
      && last in chunks && last.Frame? && LastEventId(Some(reader.lastId)) == Some(last.id)
      && reader.events[|reader.events| - 1] == Event(IntText(last.id), last.json)
  {
    last := LastFrame(chunks, cut);
  }

  /** What a client reads that resumes after an id. */
  lemma ReadAfter(encode: LogRecord -> string, sent: seq<Chunk>, logs: Rows, after: int, received: seq<LogRecord>)
    returns (page: seq<LogRecord>, high: int)
    requires Keyed(logs) && forall rec :: OneLine(encode(rec))
    requires Logged(sent) == ChunksOf(encode, Lines(logs, Some(after), received))
    ensures Ascending(page) && |page| <= 5000
    ensures forall r | r in page :: r.id > after && r.id in logs && logs[r.id] == r
    ensures forall id | id in logs && id > after :: logs[id] in page || (|page| == 5000 && page[4999].id < id)
    ensures high == if page == [] then after else page[|page| - 1].id
    ensures FeedAll(CONNECTED, Wire(sent)).events
         == EventsOf(encode, page + Filter(received, (r: LogRecord) => r.id > high))
  {
    page, high := ReplayAbove(logs, after, received);
    ClientSees(encode, sent, Lines(logs, Some(after), received));
  }

  /**
   * A client cut off at any character and coming back. Once it has completed a frame, the id it sends makes
   * the next connection send the rows above that very frame, in order, and then what it receives above the
   * last of them; and those lines are what the client then reads.
   */
  lemma ClientResumes(chunks: seq<Chunk>, cut: nat, logs: Rows, encode: LogRecord -> string, sent: seq<Chunk>,
                      received: seq<LogRecord>)
    returns (last: Chunk, page: seq<LogRecord>, high: int)
    requires Clean(chunks) && cut <= |Wire(chunks)| && FeedAll(CONNECTED, Wire(chunks)[..cut]).events != []
    requires forall c | c in chunks && c.Frame? :: -0x8000_0000_0000_0000 <= c.id <= 0x7FFF_FFFF_FFFF_FFFF
    requires Keyed(logs) && forall rec :: OneLine(encode(rec))
    requires var header := Some(FeedAll(CONNECTED, Wire(chunks)[..cut]).lastId);
      Logged(sent) == ChunksOf(encode, Lines(logs, LastEventId(header), received))
    ensures last in chunks && last.Frame?
    ensures var before := FeedAll(CONNECTED, Wire(chunks)[..cut]).events;
      before[|before| - 1] == Event(IntText(last.id), last.json)
    ensures Ascending(page) && |page| <= 5000
    ensures forall r | r in page :: r.id > last.id && r.id in logs && logs[r.id] == r
    ensures forall id | id in logs && id > last.id :: logs[id] in page || (|page| == 5000 && page[4999].id < id)
    ensures high == if page == [] then last.id else page[|page| - 1].id
    ensures FeedAll(CONNECTED, Wire(sent)).events
         == EventsOf(encode, page + Filter(received, (r: LogRecord) => r.id > high))
  {
    last := LastCompleted(chunks, cut);
    page, high := ReadAfter(encode, sent, logs, last.id, received);
  }
}
