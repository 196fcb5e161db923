/**
 * The stream handler as it runs (src/handlers/stream.rs) over the broadcast channel (src/hub.rs):
 * subscribing, replaying, fixing `high_water`, and the loop that forwards frames.
 */
module Streaming {
  import opened Basics
  import opened Records
  import opened Table
  import opened Storage
  import opened Protocol
  import opened SseWire
  import opened Decimal
  import opened Text

  // ---------- the broadcast channel ----------

  datatype Received = Got(frame: LogRecord) | Lagged(skipped: nat) | Pending

  class Hub {
    const capacity: nat
    var ring: seq<LogRecord>  // every publication; the channel keeps the last `capacity`

    constructor (capacity: nat)
      ensures this.capacity == capacity && ring == []
    {
      this.capacity, ring := capacity, [];
    }

    method Publish(frame: LogRecord)
      modifies this
      ensures ring == old(ring) + [frame]
    {
      ring := ring + [frame];
    }

    method Subscribe() returns (rx: Receiver)
      ensures fresh(rx) && rx.hub == this && rx.pos == |ring|
    {
      rx := new Receiver(this);
    }
  }

  class Receiver {
    const hub: Hub
    var pos: nat

    constructor (hub: Hub)
      ensures this.hub == hub && pos == |hub.ring|
    {
      this.hub, pos := hub, |hub.ring|;
    }

    /** An overrun receiver jumps to the oldest frame still held and is told how many it missed. */
    method Recv() returns (m: Received)
      requires pos <= |hub.ring|
      modifies this
      ensures m == if old(pos) == |hub.ring| then Pending
                   else if |hub.ring| > old(pos) + hub.capacity then Lagged(|hub.ring| - hub.capacity - old(pos))
                   else Got(hub.ring[old(pos)])
      ensures pos == match m case Got(_) => old(pos) + 1 case Lagged(skipped) => old(pos) + skipped case Pending => old(pos)
    {
      if pos == |hub.ring| { return Pending; }
      if |hub.ring| > pos + hub.capacity {
        m := Lagged(|hub.ring| - hub.capacity - pos);
        pos := |hub.ring| - hub.capacity;
        return;
      }
      m := Got(hub.ring[pos]);
      pos := pos + 1;
    }
  }

  // ---------- the handler ----------

  /** What has happened when the stream is woken: new publications, a shutdown, a keepalive tick. */
  datatype Wake = Wake(published: seq<LogRecord>, shutdown: bool, tick: bool)

  function ChunkOf(encode: LogRecord -> string, rec: LogRecord): Chunk {
    Frame(rec.id, encode(rec))
  }

  function ChunksOf(encode: LogRecord -> string, recs: seq<LogRecord>): seq<Chunk> {
    if recs == [] then []
    else ChunksOf(encode, recs[..|recs| - 1]) + [ChunkOf(encode, recs[|recs| - 1])]
  }

  /** The log frames among the chunks. */
  function Logged(chunks: seq<Chunk>): seq<Chunk> {
    if chunks == [] then []
    else Logged(chunks[..|chunks| - 1]) + if chunks[|chunks| - 1].Frame? then [chunks[|chunks| - 1]] else []
  }

  /** How far a stream has come: what is published, how much of it was received, whether it goes on. */
  datatype Progress = Progress(ring: seq<LogRecord>, upto: nat, open: bool)

  /** One turn of the loop: a shutdown or an overrun ends the stream, otherwise one frame is received if there is one. */
  function AfterWake(capacity: nat, v: Progress, w: Wake): Progress {
    var ring := v.ring + w.published;
    if !v.open then v.(ring := ring)
    else if w.shutdown then Progress(ring, v.upto, false)
    else if v.upto >= |ring| then Progress(ring, v.upto, true)
    else if |ring| > v.upto + capacity then Progress(ring, v.upto, false)
    else Progress(ring, v.upto + 1, true)
  }

  function AfterWakes(capacity: nat, v: Progress, wakes: seq<Wake>): Progress {
    if wakes == [] then v else AfterWake(capacity, AfterWakes(capacity, v, wakes[..|wakes| - 1]), wakes[|wakes| - 1])
  }

  /** What a turn of the loop comes to: go round again, send a frame or a keepalive, or end. */
  datatype Turn = Again | Yield(chunk: Option<LogRecord>) | Stop

  function Yielded(turn: Turn): seq<LogRecord> {
    if turn.Yield? then Listed(turn.chunk) else []
  }

  class StreamCtx {
    const hub: Hub
    const rx: Receiver
    const highWater: int
    ghost const sub: nat         // where the subscription began
    ghost var upto: nat          // everything before this was received
    ghost var open: bool

    constructor (hub: Hub, rx: Receiver, highWater: int)
      ensures this.hub == hub && this.rx == rx && this.highWater == highWater
      ensures sub == upto == rx.pos && open
    {
      this.hub, this.rx, this.highWater, sub, upto, open := hub, rx, highWater, rx.pos, rx.pos, true;
    }

    ghost predicate Valid()
      reads this, rx, hub
    {
      rx.hub == hub && sub <= upto <= rx.pos <= |hub.ring| && (open ==> upto == rx.pos)
    }

    ghost function Now(): Progress
      reads this, hub
    {
      Progress(hub.ring, upto, open)
    }

    /** What has been received above `high_water`. */
    ghost function Passed(): seq<LogRecord>
      requires Valid()
      reads this, rx, hub
    {
      Filter(hub.ring[sub..upto], Above(highWater))
    }

    method Announce(published: seq<LogRecord>)
      requires Valid()
      modifies hub
      ensures Valid() && hub.ring == old(hub.ring) + published && Passed() == old(Passed())
    {
      hub.ring := hub.ring + published;
      assert hub.ring[sub..upto] == old(hub.ring)[sub..upto];
    }

    /** One turn of the loop: shutdown first, then the receiver, then the keepalive. */
    method TakeTurn(w: Wake) returns (turn: Turn)
      requires Valid() && open
      modifies this, hub, rx
      ensures Valid() && Now() == AfterWake(hub.capacity, old(Now()), w)
      ensures hub.ring == old(hub.ring) + w.published
      ensures turn == if w.shutdown then Stop
                      else if old(upto) == |hub.ring| then (if w.tick then Yield(None) else Again)
                      else if |hub.ring| > old(upto) + hub.capacity then Stop
                      else if hub.ring[old(upto)].id <= highWater then Again
                      else Yield(Some(hub.ring[old(upto)]))
      ensures upto == old(upto) + if !w.shutdown && old(upto) < |hub.ring| <= old(upto) + hub.capacity then 1 else 0
      ensures open <==> !turn.Stop?
      ensures Passed() == old(Passed()) + Yielded(turn)
    {
      Announce(w.published);
      assert Passed() + [] == Passed();
      if w.shutdown {
        open := false;
        return Stop;
      }
      var m := rx.Recv();
      match m {
        case Got(frame) =>
          OneMoreAbove(hub.ring, sub, upto, highWater);
          upto := rx.pos;
          return if frame.id <= highWater then Again else Yield(Some(frame));
        case Lagged(_) =>
          open := false;
          return Stop;
        case Pending =>
          return if w.tick then Yield(None) else Again;
      }
    }

    /**
     * The next chunk of the live part: waits through `wakes` until a frame above `high_water`, a keepalive,
     * or the end. None ends the stream: shutdown, an overrun, or no more wake-ups.
     */
    method Next(wakes0: seq<Wake>) returns (item: Option<Option<LogRecord>>, wakes: seq<Wake>)
      requires Valid() && open
      modifies this, hub, rx
      ensures Valid() && Later(wakes0, wakes)
      ensures Now() == AfterWakes(hub.capacity, old(Now()), Consumed(wakes0, wakes))
      ensures Passed() == old(Passed()) + if item.Some? then Listed(item.value) else []
      ensures item.Some? ==> open && |wakes| < |wakes0|
      ensures item == Some(None) ==> upto == |hub.ring| && LastWake(wakes0, wakes).tick
      ensures item.None? ==> wakes == [] || !open
    {
      wakes := wakes0;
      assert Passed() + [] == Passed();
      while wakes != []
        invariant Valid() && open && Later(wakes0, wakes)
        invariant Now() == AfterWakes(hub.capacity, old(Now()), Consumed(wakes0, wakes))
        invariant Passed() == old(Passed())
        decreases |wakes|
      {
        var w := wakes[0];
        OneConsumed(wakes0, wakes);
        wakes := wakes[1..];
        var turn := TakeTurn(w);
        match turn {
          case Again => assert Passed() + [] == Passed();
          case Yield(chunk) => return Some(chunk), wakes;
          case Stop => return None, wakes;
        }
      }
      return None, wakes;
    }

    /** Drives the live part to its end, appending to what has been sent; `live` are the lines forwarded. */
    method Drive(encode: LogRecord -> string, wakes0: seq<Wake>, sent0: seq<Chunk>)
      returns (sent: seq<Chunk>, live: seq<LogRecord>, wakes: seq<Wake>)
      requires Valid() && open
      modifies this, hub, rx
      ensures Valid() && Later(wakes0, wakes) && (wakes == [] || !open)
      ensures Now() == AfterWakes(hub.capacity, old(Now()), Consumed(wakes0, wakes))
      ensures Passed() == old(Passed()) + live
      ensures Logged(sent) == Logged(sent0) + ChunksOf(encode, live)
      ensures sent0 <= sent && forall i | |sent0| <= i < |sent| :: sent[i] == Keepalive || sent[i].Frame?
    {
      wakes, sent, live := wakes0, sent0, [];
      assert old(Passed()) + [] == old(Passed()) && Logged(sent0) + [] == Logged(sent0);
      while true
        invariant Valid() && open && Later(wakes0, wakes)
        invariant Now() == AfterWakes(hub.capacity, old(Now()), Consumed(wakes0, wakes))
        invariant Passed() == old(Passed()) + live
        invariant Logged(sent) == Logged(sent0) + ChunksOf(encode, live)
        invariant sent0 <= sent && forall i | |sent0| <= i < |sent| :: sent[i] == Keepalive || sent[i].Frame?
        decreases |wakes|
      {
        ghost var before := wakes;
        var item;
        item, wakes := Next(wakes);
        MoreConsumed(hub.capacity, old(Now()), wakes0, before, wakes);
        if item.None? { break; }
        OneSent(encode, sent0, sent, live, item.value);
        Regroup(old(Passed()), live, Listed(item.value));
        sent := sent + [ChunkFor(encode, item.value)];
        live := live + Listed(item.value);
      }
    }
  }

  /** The wake-ups still to come are the last ones. */
  ghost predicate Later(wakes: seq<Wake>, rest: seq<Wake>) {
    |rest| <= |wakes| && rest == wakes[|wakes| - |rest|..]
  }

  /** The wake-ups used up when `rest` are left. */
  function Consumed(wakes: seq<Wake>, rest: seq<Wake>): seq<Wake>
    requires |rest| <= |wakes|
  {
    wakes[..|wakes| - |rest|]
  }

  /** The wake-up used last. */
  ghost function LastWake(wakes: seq<Wake>, rest: seq<Wake>): Wake
    requires |rest| < |wakes|
  {
    wakes[|wakes| - |rest| - 1]
  }

  lemma OneConsumed(wakes: seq<Wake>, rest: seq<Wake>)
    requires Later(wakes, rest) && rest != []
    ensures Later(wakes, rest[1..]) && Consumed(wakes, rest[1..]) == Consumed(wakes, rest) + [rest[0]]
    ensures LastWake(wakes, rest[1..]) == rest[0]
  {
  }

  lemma MoreConsumed(capacity: nat, v: Progress, wakes: seq<Wake>, middle: seq<Wake>, rest: seq<Wake>)
    requires Later(wakes, middle) && Later(middle, rest)
    ensures Later(wakes, rest)
    ensures AfterWakes(capacity, v, Consumed(wakes, rest))
         == AfterWakes(capacity, AfterWakes(capacity, v, Consumed(wakes, middle)), Consumed(middle, rest))
  {
    assert Consumed(wakes, rest) == Consumed(wakes, middle) + Consumed(middle, rest);
    WakesConcat(capacity, v, Consumed(wakes, middle), Consumed(middle, rest));
  }

  lemma {:induction false} WakesConcat(capacity: nat, v: Progress, a: seq<Wake>, b: seq<Wake>)
    ensures AfterWakes(capacity, v, a + b) == AfterWakes(capacity, AfterWakes(capacity, v, a), b)
  {
    if b == [] {
      assert a + b == a;
    } else {
      assert (a + b)[..|a + b| - 1] == a + b[..|b| - 1];
      WakesConcat(capacity, v, a, b[..|b| - 1]);
    }
  }

  function ChunkFor(encode: LogRecord -> string, item: Option<LogRecord>): Chunk {
    if item.Some? then ChunkOf(encode, item.value) else Keepalive
  }

  lemma OneSent(encode: LogRecord -> string, sent0: seq<Chunk>, sent: seq<Chunk>, live: seq<LogRecord>, item: Option<LogRecord>)
    requires Logged(sent) == Logged(sent0) + ChunksOf(encode, live)
    ensures Logged(sent + [ChunkFor(encode, item)]) == Logged(sent0) + ChunksOf(encode, live + Listed(item))
  {
    LoggedSnoc(sent, ChunkFor(encode, item));
    match item
    case Some(rec) =>
      ChunksSnoc(encode, live, rec);
      Regroup(Logged(sent0), ChunksOf(encode, live), [ChunkOf(encode, rec)]);
    case None =>
      assert live + [] == live && Logged(sent) + [] == Logged(sent);
  }

  lemma LoggedSnoc(chunks: seq<Chunk>, c: Chunk)
    ensures Logged(chunks + [c]) == Logged(chunks) + if c.Frame? then [c] else []
  {
    assert (chunks + [c])[..|chunks + [c]| - 1] == chunks;
  }

  lemma ChunksSnoc(encode: LogRecord -> string, recs: seq<LogRecord>, rec: LogRecord)
    ensures ChunksOf(encode, recs + [rec]) == ChunksOf(encode, recs) + [ChunkOf(encode, rec)]
  {
    assert (recs + [rec])[..|recs + [rec]| - 1] == recs;
  }

  // ---------- opening ----------

  datatype Refusal = Overloaded | QueryFailed

  function LastEventId(header: Option<string>): Option<int> {
    if header.Some? then HeaderId(header.value) else None
  }

  /**
   * What counts as a Last-Event-ID: with the whitespace around it gone, an optional sign and at least one
   * digit, for a number of 64 bits. Anything else, or no header, is none.
   */
  lemma HeaderMeans(header: Option<string>)
    ensures header.None? ==> LastEventId(header) == None
    ensures header.Some? ==>
              var text := Trim(header.value);
              var digits := if text != "" && (text[0] == '+' || text[0] == '-') then text[1..] else text;
              if digits != "" && forall c | c in digits :: '0' <= c <= '9' then
                var n := if text[0] == '-' then 0 - Value(digits) else Value(digits);
                LastEventId(header) == if -0x8000_0000_0000_0000 <= n <= 0x7FFF_FFFF_FFFF_FFFF then Some(n) else None
              else LastEventId(header) == None
  {
    if header.Some? {
      var text := Trim(header.value);
      var digits := if text != "" && (text[0] == '+' || text[0] == '-') then text[1..] else text;
      assert (forall c | c in digits :: '0' <= c <= '9') <==> AllDigits(digits);
    }
  }

  function StartOf(last: Option<int>): int {
    if last.Some? then last.value else 0
  }

  /** The rows a reconnecting client missed; none without a Last-Event-ID. */
  ghost function Missed(logs: Rows, last: Option<int>): seq<LogRecord> {
    if last.Some? then SinceId(logs, last.value, MAX_REPLAY) else []
  }

  /** The lines of a connection: the missed rows, then what was received above `high_water`. */
  ghost function Lines(logs: Rows, last: Option<int>, received: seq<LogRecord>): seq<LogRecord> {
    Missed(logs, last) + Filter(received, Above(HighWater(StartOf(last), Missed(logs, last))))
  }

  /**
   * Subscribes, then reads the replay from `db` as it stands at the query, while other handlers publish
   * `meanwhile`, and fixes `high_water` from the rows found.
   */
  method Open(hub: Hub, shuttingDown: bool, header: Option<string>, db: Database, queryOk: bool,
              meanwhile: seq<LogRecord>, encode: LogRecord -> string)
    returns (r: Result<StreamCtx, Refusal>, replay: seq<Chunk>)
    requires Keyed(db.logs)
    modifies hub
    ensures r.Ok? <==> !shuttingDown && (LastEventId(header).Some? ==> queryOk)
    ensures r.Err? ==> r.error == if shuttingDown then Overloaded else QueryFailed
    ensures r.Ok? ==>
              var ctx, last := r.value, LastEventId(header);
              && fresh(ctx) && fresh(ctx.rx) && ctx.hub == hub && ctx.Valid() && ctx.sub == old(|hub.ring|)
              && ctx.Now() == Progress(old(hub.ring) + meanwhile, old(|hub.ring|), true)
              && ctx.highWater == HighWater(StartOf(last), Missed(db.logs, last))
              && replay == [RetryHint] + ChunksOf(encode, Missed(db.logs, last))
  {
    replay := [];
    if shuttingDown { return Err(Overloaded), replay; }
    var rx := hub.Subscribe();
    hub.ring := hub.ring + meanwhile;
    var lastEventId := LastEventId(header);
    replay := [RetryHint];
    var highWater := if lastEventId.Some? then lastEventId.value else 0;
    if lastEventId.Some? {
      if !queryOk { return Err(QueryFailed), replay; }
      var missed := db.ReadSince(lastEventId.value, MAX_REPLAY);
      highWater, replay := Replayed(missed, highWater, encode);
    } else {
      assert replay == [RetryHint] + ChunksOf(encode, []);
    }
    var ctx := new StreamCtx(hub, rx, highWater);
    return Ok(ctx), replay;
  }

  /** The loop over the missed rows: each raises `high_water` and adds its frame. */
  method Replayed(missed: seq<LogRecord>, start: int, encode: LogRecord -> string)
    returns (highWater: int, replay: seq<Chunk>)
    ensures highWater == HighWater(start, missed)
    ensures replay == [RetryHint] + ChunksOf(encode, missed)
  {
    replay, highWater := [RetryHint], start;
    var i := 0;
    while i < |missed|
      invariant 0 <= i <= |missed|
      invariant highWater == HighWater(start, missed[..i])
      invariant replay == [RetryHint] + ChunksOf(encode, missed[..i])
    {
      var rec := missed[i];
      assert missed[..i + 1][..i] == missed[..i];
      highWater := Max(highWater, rec.id);
      replay := replay + [ChunkOf(encode, rec)];
      i := i + 1;
    }
    assert missed[..i] == missed;
  }

  /**
   * One connection from start to end: how far it comes follows from the wake-ups it uses up, and the log
   * frames sent are the missed rows and then what it received above `high_water`.
   */
  method Stream(hub: Hub, shuttingDown: bool, header: Option<string>, db: Database, queryOk: bool,
                meanwhile: seq<LogRecord>, encode: LogRecord -> string, wakes: seq<Wake>)
    returns (sent: seq<Chunk>, rest: seq<Wake>)
    requires Keyed(db.logs)
    modifies hub
    ensures Later(wakes, rest)
    ensures !shuttingDown && (LastEventId(header).Some? ==> queryOk) ==>
              var sub := old(|hub.ring|);
              var v := AfterWakes(hub.capacity, Progress(old(hub.ring) + meanwhile, sub, true), Consumed(wakes, rest));
              && hub.ring == v.ring && sub <= v.upto <= |v.ring| && (rest == [] || !v.open)
              && Logged(sent) == ChunksOf(encode, Lines(db.logs, LastEventId(header), v.ring[sub..v.upto]))
              && sent != [] && sent[0] == RetryHint && (forall i | 0 < i < |sent| :: sent[i] == Keepalive || sent[i].Frame?)
    ensures shuttingDown || (LastEventId(header).Some? && !queryOk) ==> Logged(sent) == [] && rest == wakes
  {
    var r;
    r, sent := Open(hub, shuttingDown, header, db, queryOk, meanwhile, encode);
    rest := wakes;
    if r.Err? { return [], rest; }
    var ctx, replay := r.value, sent;
    ghost var missed := Missed(db.logs, LastEventId(header));
    ReplayLogged(encode, missed);
    assert ctx.Passed() == [];
    FramesOnly(encode, missed);
    var live;
    sent, live, rest := ctx.Drive(encode, wakes, replay);
    assert [] + live == live;
    ChunksConcat(encode, missed, live);
  }

  lemma {:induction false} FramesOnly(encode: LogRecord -> string, recs: seq<LogRecord>)
    ensures forall i | 0 <= i < |ChunksOf(encode, recs)| :: ChunksOf(encode, recs)[i].Frame?
  {
    if recs != [] { FramesOnly(encode, recs[..|recs| - 1]); }
  }

  lemma {:induction false} ChunksConcat(encode: LogRecord -> string, a: seq<LogRecord>, b: seq<LogRecord>)
    ensures ChunksOf(encode, a + b) == ChunksOf(encode, a) + ChunksOf(encode, b)
  {
    if b == [] {
      assert a + b == a;
    } else {
      assert (a + b)[..|a + b| - 1] == a + b[..|b| - 1];
      ChunksConcat(encode, a, b[..|b| - 1]);
    }
  }

  lemma {:induction false} ReplayLogged(encode: LogRecord -> string, missed: seq<LogRecord>)
    ensures Logged([RetryHint] + ChunksOf(encode, missed)) == ChunksOf(encode, missed)
  {
    if missed == [] {
      assert [RetryHint] + ChunksOf(encode, missed) == [] + [RetryHint];
      LoggedSnoc([], RetryHint);
    } else {
      var front, last := missed[..|missed| - 1], missed[|missed| - 1];
      ReplayLogged(encode, front);
      assert [RetryHint] + ChunksOf(encode, missed) == [RetryHint] + ChunksOf(encode, front) + [ChunkOf(encode, last)];
      LoggedSnoc([RetryHint] + ChunksOf(encode, front), ChunkOf(encode, last));
    }
  }

  // ---------- what the client sees ----------

  /** The events an EventSource should report for these lines. */
  function EventsOf(encode: LogRecord -> string, recs: seq<LogRecord>): seq<Event> {
    if recs == [] then []
    else
      var rec := recs[|recs| - 1];
      EventsOf(encode, recs[..|recs| - 1]) + [Event(IntText(rec.id), encode(rec))]
  }

  lemma {:induction false} LoggedFrames(chunks: seq<Chunk>)
    ensures FramesOf(Logged(chunks)) == FramesOf(chunks)
    ensures forall c | c in Logged(chunks) :: c in chunks && c.Frame?
    ensures forall c | c in chunks && c.Frame? :: c in Logged(chunks)
  {
    if chunks != [] {
      var front, last := chunks[..|chunks| - 1], chunks[|chunks| - 1];
      assert chunks == front + [last];
      LoggedFrames(front);
      if last.Frame? {
        assert (Logged(front) + [last])[..|Logged(front) + [last]| - 1] == Logged(front);
      } else {
        assert Logged(chunks) == Logged(front);
      }
    }
  }

  lemma {:induction false} FramesOfChunks(encode: LogRecord -> string, recs: seq<LogRecord>)
    ensures FramesOf(ChunksOf(encode, recs)) == EventsOf(encode, recs)
    ensures forall c | c in ChunksOf(encode, recs) :: exists rec | rec in recs :: c == ChunkOf(encode, rec)
  {
    if recs != [] {
      var front, last := recs[..|recs| - 1], recs[|recs| - 1];
      assert recs == front + [last];
      FramesOfChunks(encode, front);
      var chunks := ChunksOf(encode, front);
      assert (chunks + [ChunkOf(encode, last)])[..|chunks + [ChunkOf(encode, last)]| - 1] == chunks;
    }
  }

  /**
   * From the handler to the browser: whatever hints and keepalives lie between the frames, an EventSource
   * fed the bytes of a stream reports exactly the lines sent, in order, each under its own id.
   */
  lemma ClientSees(encode: LogRecord -> string, sent: seq<Chunk>, recs: seq<LogRecord>)
    requires Logged(sent) == ChunksOf(encode, recs)
    requires forall rec | rec in recs :: CleanChunk(ChunkOf(encode, rec))
    ensures FeedAll(CONNECTED, Wire(sent)).events == EventsOf(encode, recs)
  {
    LoggedFrames(sent);
    FramesOfChunks(encode, recs);
    forall c | c in sent ensures CleanChunk(c) {
      if c.Frame? {
        assert c in Logged(sent);
        var rec :| rec in recs && c == ChunkOf(encode, rec);
      }
    }
    WireRoundTrip(sent);
  }
}
