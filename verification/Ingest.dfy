/**
 * The write path (src/handlers/ingest.rs) over the shared state it touches (src/store/mod.rs, src/hub.rs):
 * normalising an input, publishing, queueing, and the accounting of single and batch requests.
 */
module Ingest {
  import opened Basics
  import opened Records
  import opened Writer

  const MAX_CONTEXT_BYTES: nat := 8192
  const MAX_NAME: nat := 255

  datatype AppError = BadRequest | Overloaded | Internal

  /** A parsed JSON value; an object carries its compact encoding. */
  datatype Json = Null | Object(encoded: string) | Other

  datatype NewLog = NewLog(name: string, message: string, level: Option<nat>, ts: Option<int>, context: Option<Json>)

  function Utf8Width(c: char): nat {
    if c < '\U{0080}' then 1 else if c < '\U{0800}' then 2 else if c < '\U{010000}' then 3 else 4
  }

  function Utf8Len(s: string): nat {
    if s == "" then 0 else Utf8Len(s[..|s| - 1]) + Utf8Width(s[|s| - 1])
  }

  /** As many bytes as the code point needs: 7 bits fit in one, 11 in two, 16 in three, 21 in four. */
  lemma WidthIs(c: char)
    ensures 1 <= Utf8Width(c) <= 4
    ensures Utf8Width(c) == 1 <==> c as int < 0x80
    ensures Utf8Width(c) <= 2 <==> c as int < 0x800
    ensures Utf8Width(c) <= 3 <==> c as int < 0x1_0000
  {
  }

  /** The length of a text in bytes is that of its parts. */
  lemma {:induction false} LengthAdds(a: string, b: string)
    ensures Utf8Len(a + b) == Utf8Len(a) + Utf8Len(b)
    ensures Utf8Len("") == 0 && forall c: char :: Utf8Len([c]) == Utf8Width(c)
  {
    forall c: char ensures Utf8Len([c]) == Utf8Width(c) { assert [c][..0] == []; }
    if b == "" {
      assert a + b == a;
    } else {
      assert (a + b)[..|a + b| - 1] == a + b[..|b| - 1];
      LengthAdds(a, b[..|b| - 1]);
    }
  }

  // ---------- normalising ----------

  function ContextOf(context: Option<Json>): Result<Option<string>, AppError> {
    if context.None? || context.value.Null? then Ok(None)
    else if context.value.Other? then Err(BadRequest)
    else if Utf8Len(context.value.encoded) > MAX_CONTEXT_BYTES then Err(BadRequest)
    else Ok(Some(context.value.encoded))
  }

  /** What may be stored: bounded texts, a level the dashboard knows, a context that is a small object. */
  predicate Storable(limit: nat, r: LogRecord) {
    && |r.message| <= limit && |r.name| <= MAX_NAME && r.level <= 4
    && (r.context.Some? ==> Utf8Len(r.context.value) <= MAX_CONTEXT_BYTES)
  }

  predicate Refused(input: NewLog) {
    || (input.name == "" && input.message == "")
    || (input.context.Some? && (input.context.value.Other?
        || (input.context.value.Object? && Utf8Len(input.context.value.encoded) > MAX_CONTEXT_BYTES)))
  }

  function ToRecord(limit: nat, deviceId: int, now: int, id: int, input: NewLog): (r: Result<LogRecord, AppError>)
    ensures r.Ok? <==>
              && (input.name != "" || input.message != "")
              && (input.context.None? || input.context.value.Null?
                  || (input.context.value.Object? && Utf8Len(input.context.value.encoded) <= 8192))
    ensures r.Err? <==> Refused(input)
    ensures r.Err? ==> r.error == BadRequest
    ensures r.Ok? ==> Storable(limit, r.value) && r.value.id == id && r.value.deviceId == Some(deviceId)
    ensures r.Ok? ==> r.value.name == if |input.name| <= 255 then input.name else input.name[..255]
    ensures r.Ok? ==> r.value.message == if |input.message| <= limit then input.message else input.message[..limit]
    ensures r.Ok? ==> r.value.ts == if input.ts.Some? then input.ts.value else now
    ensures r.Ok? ==> (r.value.context.Some? <==> input.context.Some? && input.context.value.Object?)
    ensures r.Ok? && r.value.context.Some? ==> r.value.context.value == input.context.value.encoded
    ensures r.Ok? ==> match input.level
              case None => r.value.level == 2
              case Some(level) => r.value.level == 4 < level || r.value.level == level
  {
    if input.name == "" && input.message == "" then Err(BadRequest)
    else
      var message := Truncated(input.message, limit);
      var name := Truncated(input.name, MAX_NAME);
      var context := ContextOf(input.context);
      if context.Err? then Err(context.error)
      else
        var level := if input.level.Some? then input.level.value else 2;
        Ok(LogRecord(id, if input.ts.Some? then input.ts.value else now, name, Min(level, 4), message,
                     Some(deviceId), context.value))
  }

  /** A record put through again comes out unchanged, except one whose only text a limit of 0 cut away. */
  lemma NormalIsFixed(limit: nat, deviceId: int, now: int, again: int, id: int, input: NewLog)
    requires !Refused(input)
    ensures var r := ToRecord(limit, deviceId, now, id, input).value;
      var resent := NewLog(r.name, r.message, Some(r.level), Some(r.ts),
                           if r.context.Some? then Some(Object(r.context.value)) else None);
      ToRecord(limit, deviceId, again, id, resent) == Ok(r) <==> limit > 0 || input.name != ""
  {
    assert |input.name| > 0 ==> |Truncated(input.name, MAX_NAME)| > 0;
    assert limit > 0 && |input.message| > 0 ==> |Truncated(input.message, limit)| > 0;
  }

  // ---------- the shared state ----------

  /** What other threads did to the shared state just before one of this handler's operations. */
  datatype Meanwhile = Meanwhile(
    ids: nat,
    queue: seq<WriteItem>,
    draining: bool,
    gone: bool,
    published: seq<LogRecord>,
    ingested: nat,
    shed: nat)

  /** What this handler itself does to the shared state. */
  datatype Act =
    | Took(id: int)
    | Published(rec: LogRecord)
    | Observed(rec: LogRecord)
    | Sent(item: WriteItem, accepted: bool)

  /** What became of one input of a batch. */
  datatype Admission = Queued(rec: LogRecord) | Overrun(rec: LogRecord) | Malformed(taken: int) {
    function Id(): int { if Malformed? then taken else rec.id }
  }

  datatype IngestAck = IngestAck(id: int, ts: int, durable: bool)

  datatype BatchAck = BatchAck(accepted: nat, dropped: nat, firstId: int, lastId: int)

  /** The shared state as far as a request answers for it: the counter, its own acts, its share of the metrics. */
  datatype View = View(counter: int, acts: seq<Act>, ingested: int, shed: int)

  class Server {
    const limit: nat             // max_message_len
    const queueCap: nat
    var counter: int
    var queue: seq<WriteItem>
    var draining: bool
    var gone: bool               // the writer thread has ended
    var ring: seq<LogRecord>
    var ingested: nat
    var shed: nat
    // interference still to come, and how much of the metrics is other handlers' work
    var others: seq<Meanwhile>
    var foreignIngested: nat
    var foreignShed: nat
    var acts: seq<Act>

    constructor (limit: nat, queueCap: nat, counter: int, others: seq<Meanwhile>)
      ensures this.limit == limit && this.queueCap == queueCap && this.counter == counter && this.others == others
      ensures queue == [] && ring == [] && acts == [] && !draining && !gone
      ensures OwnIngested() == 0 && OwnShed() == 0
    {
      this.limit, this.queueCap, this.counter, this.others := limit, queueCap, counter, others;
      queue, ring, acts, draining, gone := [], [], [], false, false;
      ingested, shed, foreignIngested, foreignShed := 0, 0, 0, 0;
    }

    /** What this handler has added to the counters. */
    function OwnIngested(): int reads this { ingested - foreignIngested }

    function OwnShed(): int reads this { shed - foreignShed }

    method Interfere()
      modifies this
      ensures acts == old(acts) && counter >= old(counter)
      ensures OwnIngested() == old(OwnIngested()) && OwnShed() == old(OwnShed())
    {
      if others != [] {
        var w := others[0];
        others := others[1..];
        counter, queue, draining, gone := counter + w.ids, w.queue, draining || w.draining, gone || w.gone;
        ring := ring + w.published;
        ingested, foreignIngested := ingested + w.ingested, foreignIngested + w.ingested;
        shed, foreignShed := shed + w.shed, foreignShed + w.shed;
      }
    }

    /** Store::next_id. */
    method NextId() returns (id: int)
      modifies this
      ensures id == counter > old(counter) && acts == old(acts) + [Took(id)]
      ensures OwnIngested() == old(OwnIngested()) && OwnShed() == old(OwnShed())
    {
      Interfere();
      counter := counter + 1;
      id := counter;
      acts := acts + [Took(id)];
    }

    /** Hub::publish, then AlertEngine::observe. */
    method Announce(rec: LogRecord)
      modifies this
      ensures ring != [] && ring[|ring| - 1] == rec
      ensures counter >= old(counter) && acts == old(acts) + [Published(rec), Observed(rec)]
      ensures OwnIngested() == old(OwnIngested()) && OwnShed() == old(OwnShed())
    {
      Interfere();
      ring := ring + [rec];
      acts := acts + [Published(rec), Observed(rec)];
    }

    /** Store::send: refused while draining, when the queue is full, or when the writer has gone. */
    method Send(item: WriteItem) returns (r: Result<(), AppError>)
      modifies this
      ensures counter >= old(counter) && acts == old(acts) + [Sent(item, r.Ok?)]
      ensures OwnIngested() == old(OwnIngested()) && OwnShed() == old(OwnShed())
      ensures r.Ok? ==> !draining && !gone && |queue| <= queueCap && queue != [] && queue[|queue| - 1] == item
      ensures r.Err? ==> draining || gone || |queue| >= queueCap
      ensures r.Err? ==> r.error == if !draining && gone then Internal else Overloaded
    {
      Interfere();
      if draining {
        r := Err(Overloaded);
      } else if gone {
        r := Err(Internal);
      } else if |queue| >= queueCap {
        r := Err(Overloaded);
      } else {
        queue := queue + [item];
        r := Ok(());
      }
      acts := acts + [Sent(item, r.Ok?)];
    }

    method Dispatch(rec: LogRecord) returns (r: Result<(), AppError>)
      modifies this
      ensures counter >= old(counter)
      ensures acts == old(acts) + [Published(rec), Observed(rec), Sent(WriteItem(rec, None), r.Ok?)]
      ensures OwnIngested() == old(OwnIngested()) + if r.Ok? then 1 else 0
      ensures OwnShed() == old(OwnShed()) + if r.Ok? then 0 else 1
      ensures r.Err? ==> r.error != BadRequest
    {
      Announce(rec);
      r := Send(WriteItem(rec, None));
      if r.Ok? {
        ingested := ingested + 1;
      } else {
        shed := shed + 1;
      }
    }

    function Seen(): View
      reads this
    {
      View(counter, acts, OwnIngested(), OwnShed())
    }

    /** One input of a batch: an id is taken, then it is refused, queued, or met by a full queue. */
    method Admit(deviceId: int, input: NewLog, now: int) returns (a: Admission)
      modifies this
      ensures Admits(limit, deviceId, now, input, old(Seen()), a, Seen())
    {
      var id := NextId();
      var rec := ToRecord(limit, deviceId, now, id, input);
      if rec.Err? { return Malformed(id); }
      var sent := Dispatch(rec.value);
      return if sent.Ok? then Queued(rec.value) else Overrun(rec.value);
    }

    /**
     * One input. `answer` is what the writer tells a synchronous caller: the commit's outcome, or
     * None if the acknowledgement is dropped.
     */
    method IngestOne(deviceId: int, input: NewLog, now: int, sync: bool, caller: nat, answer: Option<bool>)
      returns (r: Result<IngestAck, AppError>)
      modifies this
      ensures Refused(input) ==> r == Err(BadRequest) && OwnIngested() == old(OwnIngested())
                                 && OwnShed() == old(OwnShed()) && |acts| == |old(acts)| + 1
      ensures !Refused(input) ==> |acts| == |old(acts)| + 4 && acts[|old(acts)|].Took?
      ensures !Refused(input) ==>
                var rec := ToRecord(limit, deviceId, now, acts[|old(acts)|].id, input).value;
                var sent := acts[|acts| - 1] == Sent(WriteItem(rec, if sync then Some(caller) else None), true);
                && rec.id > old(counter)
                && acts == old(acts) + [Took(rec.id), Published(rec), Observed(rec),
                                        Sent(WriteItem(rec, if sync then Some(caller) else None), sent)]
                && OwnIngested() == old(OwnIngested()) + (if sent then 1 else 0)
                && OwnShed() == old(OwnShed()) + (if sent then 0 else 1)
                && (r.Ok? <==> sent && (sync ==> answer == Some(true)))
                && (r.Ok? ==> r.value == IngestAck(rec.id, rec.ts, sync))
                && (r.Err? ==> if sent then r.error == Internal else r.error != BadRequest)
    {
      var id := NextId();
      var rec := ToRecord(limit, deviceId, now, id, input);
      if rec.Err? { return Err(rec.error); }
      var ack := IngestAck(rec.value.id, rec.value.ts, sync);
      if sync {
        Announce(rec.value);
        var wait := Send(WriteItem(rec.value, Some(caller)));
        if wait.Err? {
          shed := shed + 1;
          return Err(wait.error);
        }
        ingested := ingested + 1;
        if answer == Some(true) { return Ok(ack); }
        return Err(Internal);
      }
      var queued := Dispatch(rec.value);
      if queued.Err? { return Err(queued.error); }
      return Ok(ack);
    }
  }

  function Dispatched(rec: LogRecord, caller: Option<nat>, ok: bool): seq<Act> {
    [Published(rec), Observed(rec), Sent(WriteItem(rec, caller), ok)]
  }

  function Admitted(a: Admission): seq<Act> {
    [Took(a.Id())] + if a.Malformed? then [] else Dispatched(a.rec, None, a.Queued?)
  }

  /** What a handler does for a run of accepted records. */
  function Accepted(recs: seq<LogRecord>): seq<Act> {
    if recs == [] then [] else Accepted(recs[..|recs| - 1]) + Admitted(Queued(recs[|recs| - 1]))
  }

  /** The records are the normal forms of the first inputs, in order, under growing ids. */
  ghost predicate Normalised(limit: nat, deviceId: int, clock: nat -> int, inputs: seq<NewLog>, recs: seq<LogRecord>) {
    && |recs| <= |inputs| && Ascending(recs)
    && forall i | 0 <= i < |recs| :: ToRecord(limit, deviceId, clock(i), recs[i].id, inputs[i]) == Ok(recs[i])
  }

  lemma AcceptedSnoc(recs: seq<LogRecord>, rec: LogRecord)
    ensures Accepted(recs + [rec]) == Accepted(recs) + Admitted(Queued(rec))
  {
    assert (recs + [rec])[..|recs + [rec]| - 1] == recs;
  }

  /** What one admission does. */
  ghost predicate Admits(limit: nat, deviceId: int, now: int, input: NewLog, v: View, a: Admission, w: View) {
    && w.counter >= a.Id() > v.counter && w.acts == v.acts + Admitted(a)
    && (a.Malformed? <==> Refused(input))
    && (!a.Malformed? ==> ToRecord(limit, deviceId, now, a.Id(), input) == Ok(a.rec))
    && w.ingested == v.ingested + (if a.Queued? then 1 else 0)
    && w.shed == v.shed + (if a.Overrun? then 1 else 0)
  }

  ghost predicate Fresh(recs: seq<LogRecord>, low: int, high: int) {
    forall rec | rec in recs :: low < rec.id <= high
  }

  /** After some accepted inputs: their records, above every id taken before, and all this request did. */
  ghost predicate Along(limit: nat, deviceId: int, inputs: seq<NewLog>, clock: nat -> int, recs: seq<LogRecord>,
                        v: View, w: View)
  {
    && Normalised(limit, deviceId, clock, inputs, recs)
    && Fresh(recs, v.counter, w.counter) && v.counter <= w.counter
    && w.acts == v.acts + Accepted(recs) && w.ingested == v.ingested + |recs| && w.shed == v.shed
  }

  /**
   * How a batch ends: `recs` are the accepted records, the normal forms of a prefix of the inputs under
   * fresh growing ids; `end` is what became of the first input not accepted, if there is one; the request
   * did nothing else; and the metrics grew by the records accepted and, on an overrun, by all the rest.
   */
  ghost predicate Ended(limit: nat, deviceId: int, inputs: seq<NewLog>, clock: nat -> int, recs: seq<LogRecord>,
                        end: Option<Admission>, v: View, w: View)
  {
    && Normalised(limit, deviceId, clock, inputs, recs)
    && (forall rec | rec in recs :: rec.id > v.counter)
    && w.acts == v.acts + Accepted(recs) + (if end.Some? then Admitted(end.value) else [])
    && w.ingested == v.ingested + |recs|
    && w.shed == v.shed + (if end.Some? && end.value.Overrun? then |inputs| - |recs| else 0)
    && (if end.None? then |recs| == |inputs| else |recs| < |inputs| && !end.value.Queued?)
    && (end.Some? ==> (end.value.Malformed? <==> Refused(inputs[|recs|])))
    && (end.Some? && end.value.Overrun? ==>
          ToRecord(limit, deviceId, clock(|recs|), end.value.rec.id, inputs[|recs|]) == Ok(end.value.rec))
  }

  lemma OneMoreNormal(limit: nat, deviceId: int, inputs: seq<NewLog>, clock: nat -> int, recs: seq<LogRecord>, rec: LogRecord)
    requires Normalised(limit, deviceId, clock, inputs, recs) && |recs| < |inputs|
    requires forall r | r in recs :: r.id < rec.id
    requires ToRecord(limit, deviceId, clock(|recs|), rec.id, inputs[|recs|]) == Ok(rec)
    ensures Normalised(limit, deviceId, clock, inputs, recs + [rec])
  {
    forall i, j | 0 <= i < j < |recs + [rec]| ensures (recs + [rec])[i].id < (recs + [rec])[j].id {
      assert recs[i] in recs;
    }
  }

  lemma {:induction false} OneAlong(limit: nat, deviceId: int, inputs: seq<NewLog>, clock: nat -> int,
                                    recs: seq<LogRecord>, v: View, w: View, a: Admission, x: View)
    requires Along(limit, deviceId, inputs, clock, recs, v, w) && |recs| < |inputs| && a.Queued?
    requires Admits(limit, deviceId, clock(|recs|), inputs[|recs|], w, a, x)
    ensures Along(limit, deviceId, inputs, clock, recs + [a.rec], v, x)
  {
    assert a == Queued(a.rec) && a.Id() == a.rec.id;
    OneMoreFresh(recs, a.rec, v.counter, w.counter, x.counter);
    OneMoreNormal(limit, deviceId, inputs, clock, recs, a.rec);
    AcceptedSnoc(recs, a.rec);
    Regroup(v.acts, Accepted(recs), Admitted(a));
  }

  lemma OneMoreFresh(recs: seq<LogRecord>, rec: LogRecord, low: int, high: int, higher: int)
    requires Fresh(recs, low, high) && low <= high < rec.id <= higher
    ensures Fresh(recs + [rec], low, higher) && forall r | r in recs :: r.id < rec.id
  {
  }

  lemma {:induction false} AllIn(limit: nat, deviceId: int, inputs: seq<NewLog>, clock: nat -> int,
                                 recs: seq<LogRecord>, v: View, w: View)
    requires Along(limit, deviceId, inputs, clock, recs, v, w) && |recs| == |inputs|
    ensures Ended(limit, deviceId, inputs, clock, recs, None, v, w)
  {
    assert w.acts + [] == w.acts;
  }

  lemma {:induction false} CutOff(limit: nat, deviceId: int, inputs: seq<NewLog>, clock: nat -> int,
                                  recs: seq<LogRecord>, v: View, w: View, a: Admission, x: View)
    requires Along(limit, deviceId, inputs, clock, recs, v, w) && |recs| < |inputs| && !a.Queued?
    requires Admits(limit, deviceId, clock(|recs|), inputs[|recs|], w, a, x)
    ensures var rest := if a.Overrun? then |inputs| - |recs| - 1 else 0;
      Ended(limit, deviceId, inputs, clock, recs, Some(a), v, x.(shed := x.shed + rest))
  {
  }

  // ---------- what the end of a batch means ----------

  lemma {:induction false} AcceptedAt(recs: seq<LogRecord>, i: nat)
    requires i < |recs|
    ensures |Accepted(recs)| == 4 * |recs|
    ensures Accepted(recs)[4 * i..4 * i + 4]
         == [Took(recs[i].id), Published(recs[i]), Observed(recs[i]), Sent(WriteItem(recs[i], None), true)]
  {
    var front, last := recs[..|recs| - 1], recs[|recs| - 1];
    AcceptedLength(front);
    var acts, own := Accepted(front), Admitted(Queued(last));
    if i < |front| {
      AcceptedAt(front, i);
      assert (acts + own)[4 * i..4 * i + 4] == acts[4 * i..4 * i + 4];
    } else {
      assert (acts + own)[4 * i..4 * i + 4] == own;
    }
  }

  lemma {:induction false} AcceptedLength(recs: seq<LogRecord>)
    ensures |Accepted(recs)| == 4 * |recs|
  {
    if recs != [] { AcceptedLength(recs[..|recs| - 1]); }
  }

  /** Four acts for each accepted record, in order, and then `last`. */
  lemma {:induction false} ActsMean(before: seq<Act>, recs: seq<LogRecord>, last: seq<Act>, acts: seq<Act>)
    requires acts == before + Accepted(recs) + last
    ensures |acts| >= |before| + 4 * |recs| && acts[..|before|] == before && acts[|before| + 4 * |recs|..] == last
    ensures forall i | 0 <= i < |recs| ::
              acts[|before|..][4 * i..4 * i + 4]
              == [Took(recs[i].id), Published(recs[i]), Observed(recs[i]), Sent(WriteItem(recs[i], None), true)]
  {
    AcceptedLength(recs);
    Regroup(before, Accepted(recs), last);
    var own := acts[|before|..];
    assert own == Accepted(recs) + last;
    forall i | 0 <= i < |recs|
      ensures own[4 * i..4 * i + 4]
           == [Took(recs[i].id), Published(recs[i]), Observed(recs[i]), Sent(WriteItem(recs[i], None), true)]
    {
      AcceptedAt(recs, i);
      assert own[4 * i..4 * i + 4] == Accepted(recs)[4 * i..4 * i + 4];
    }
  }

  /**
   * The end of a batch, spelled out. The accepted records are the normal forms of the first inputs under
   * growing fresh ids; for each of them in turn the request took the id, published, observed and sent;
   * and the counters tell the same. `EndMeans` says how the request went on from there.
   */
  lemma {:induction false} BatchMeans(limit: nat, deviceId: int, inputs: seq<NewLog>, clock: nat -> int,
                                      recs: seq<LogRecord>, end: Option<Admission>, v: View, w: View)
    requires Ended(limit, deviceId, inputs, clock, recs, end, v, w)
    ensures |recs| <= |inputs| && (forall i | 0 <= i < |recs| :: recs[i].id > v.counter)
    ensures forall i, j | 0 <= i < j < |recs| :: recs[i].id < recs[j].id
    ensures forall i | 0 <= i < |recs| :: ToRecord(limit, deviceId, clock(i), recs[i].id, inputs[i]) == Ok(recs[i])
    ensures w.ingested == v.ingested + |recs|
    ensures |w.acts| >= |v.acts| + 4 * |recs| && w.acts[..|v.acts|] == v.acts
    ensures forall i | 0 <= i < |recs| ::
              w.acts[|v.acts|..][4 * i..4 * i + 4]
              == [Took(recs[i].id), Published(recs[i]), Observed(recs[i]), Sent(WriteItem(recs[i], None), true)]
  {
    ActsMean(v.acts, recs, if end.Some? then Admitted(end.value) else [], w.acts);
  }

  /** The input that ended the batch, if one did: what the request had got to with it, and what was shed. */
  lemma {:induction false} EndMeans(limit: nat, deviceId: int, inputs: seq<NewLog>, clock: nat -> int,
                                    recs: seq<LogRecord>, end: Option<Admission>, v: View, w: View)
    requires Ended(limit, deviceId, inputs, clock, recs, end, v, w)
    ensures |w.acts| >= |v.acts| + 4 * |recs|
    ensures var rest := w.acts[|v.acts| + 4 * |recs|..];
      match end
      case None => |recs| == |inputs| && rest == [] && w.shed == v.shed
      case Some(Malformed(id)) =>
        |recs| < |inputs| && rest == [Took(id)] && w.shed == v.shed
        && ToRecord(limit, deviceId, clock(|recs|), id, inputs[|recs|]) == Err(BadRequest)
      case Some(Overrun(rec)) =>
        |recs| < |inputs| && w.shed == v.shed + |inputs| - |recs|
        && rest == [Took(rec.id), Published(rec), Observed(rec), Sent(WriteItem(rec, None), false)]
        && ToRecord(limit, deviceId, clock(|recs|), rec.id, inputs[|recs|]) == Ok(rec)
      case Some(Queued(_)) => false
  {
    ActsMean(v.acts, recs, if end.Some? then Admitted(end.value) else [], w.acts);
  }

  /** A batch request. The reply counts what `Ended` describes, whatever other handlers did meanwhile. */
  method IngestBatch(server: Server, deviceId: int, inputs: seq<NewLog>, clock: nat -> int)
    returns (r: Result<BatchAck, AppError>, recs: seq<LogRecord>, end: Option<Admission>)
    modifies server
    ensures Ended(server.limit, deviceId, inputs, clock, recs, end, old(server.Seen()), server.Seen())
    ensures r.Ok? <==> recs != [] && (end.None? || end.value.Overrun?)
    ensures r.Ok? ==> r.value == BatchAck(|recs|, |inputs| - |recs|, recs[0].id, recs[|recs| - 1].id)
    ensures r.Err? ==> r.error == if end.Some? && end.value.Overrun? then Overloaded else BadRequest
  {
    if inputs == [] {
      AllIn(server.limit, deviceId, inputs, clock, [], server.Seen(), server.Seen());
      return Err(BadRequest), [], None;
    }
    var firstId, lastId, accepted, dropped;
    recs, end, firstId, lastId, accepted, dropped := AdmitEach(server, deviceId, inputs, clock);
    if end.Some? && end.value.Malformed? { return Err(BadRequest), recs, end; }
    if accepted == 0 { return Err(Overloaded), recs, end; }
    return Ok(BatchAck(accepted, dropped, firstId, lastId)), recs, end;
  }

  /** The ids a reply reports. */
  ghost predicate Between(recs: seq<LogRecord>, firstId: int, lastId: int) {
    recs != [] ==> firstId == recs[0].id && lastId == recs[|recs| - 1].id
  }

  /** The loop over the inputs, up to the first that is not accepted. */
  method AdmitEach(server: Server, deviceId: int, inputs: seq<NewLog>, clock: nat -> int)
    returns (recs: seq<LogRecord>, end: Option<Admission>, firstId: int, lastId: int, accepted: nat, dropped: nat)
    modifies server
    ensures Ended(server.limit, deviceId, inputs, clock, recs, end, old(server.Seen()), server.Seen())
    ensures dropped == if end.Some? && end.value.Overrun? then |inputs| - |recs| else 0
    ensures accepted == |recs| && Between(recs, firstId, lastId)
  {
    ghost var v := server.Seen();
    recs, end, firstId, lastId, accepted, dropped := [], None, 0, 0, 0, 0;
    var total := |inputs|;
    var idx := 0;
    assert v.acts + Accepted([]) == v.acts;
    while idx < total
      invariant 0 <= idx == accepted == |recs| <= total && dropped == 0 && end.None?
      invariant Along(server.limit, deviceId, inputs, clock, recs, v, server.Seen())
      invariant Between(recs, firstId, lastId)
    {
      var a, lost := AdmitNext(server, deviceId, inputs, clock, recs, v);
      if !a.Queued? {
        end, dropped := Some(a), lost;
        return;
      }
      if accepted == 0 { firstId := a.rec.id; }
      lastId := a.rec.id;
      accepted := accepted + 1;
      recs := recs + [a.rec];
      idx := idx + 1;
    }
    AllIn(server.limit, deviceId, inputs, clock, recs, v, server.Seen());
  }

  /** The next input: it is accepted, or the batch ends here and, on an overrun, all the rest is shed. */
  method AdmitNext(server: Server, deviceId: int, inputs: seq<NewLog>, clock: nat -> int, recs: seq<LogRecord>, ghost v: View)
    returns (a: Admission, lost: nat)
    requires |recs| < |inputs| && Along(server.limit, deviceId, inputs, clock, recs, v, server.Seen())
    modifies server
    ensures a.Queued? ==> Along(server.limit, deviceId, inputs, clock, recs + [a.rec], v, server.Seen())
    ensures !a.Queued? ==> Ended(server.limit, deviceId, inputs, clock, recs, Some(a), v, server.Seen())
    ensures lost == if a.Overrun? then |inputs| - |recs| else 0
  {
    ghost var w := server.Seen();
    lost := 0;
    a := server.Admit(deviceId, inputs[|recs|], clock(|recs|));
    if a.Queued? {
      OneAlong(server.limit, deviceId, inputs, clock, recs, v, w, a, server.Seen());
    } else {
      CutOff(server.limit, deviceId, inputs, clock, recs, v, w, a, server.Seen());
      if a.Overrun? {
        lost := |inputs| - |recs|;
        server.shed := server.shed + (lost - 1);
      }
    }
  }
}
