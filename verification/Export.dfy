/** The streaming export of src/store/reader.rs (`stream_rows`): chunks that add up to the plain document. */
module Export {
  import opened Basics
  import opened Records

  const EXPORT_CHUNK_ROWS: nat := 256

  /** How an export ends; on anything but `Done` the unsent buffer is dropped. */
  datatype Outcome = Done | RowFailed | Disconnected

  // ---------- the plain documents ----------

  ghost function Encoded(rows: seq<LogRecord>, encode: LogRecord -> string): seq<string> {
    seq(|rows|, i requires 0 <= i < |rows| => encode(rows[i]))
  }

  ghost function CommaJoined(encs: seq<string>): string {
    if encs == [] then ""
    else if |encs| == 1 then encs[0]
    else CommaJoined(encs[..|encs| - 1]) + "," + encs[|encs| - 1]
  }

  ghost function Lines(encs: seq<string>): string {
    if encs == [] then "" else Lines(encs[..|encs| - 1]) + encs[|encs| - 1] + "\n"
  }

  /** The document an export stands for. */
  ghost function Document(encs: seq<string>, ndjson: bool): string {
    if ndjson then Lines(encs) else "[" + CommaJoined(encs) + "]"
  }

  // ---------- what goes into each chunk ----------

  ghost function Piece(encs: seq<string>, ndjson: bool, i: nat): string
    requires i < |encs|
  {
    if ndjson then encs[i] + "\n" else (if i == 0 then "" else ",") + encs[i]
  }

  /** The text of rows lo to hi, with the opening bracket before row 0. */
  ghost function Span(encs: seq<string>, ndjson: bool, lo: nat, hi: nat): string
    requires lo <= hi <= |encs|
  {
    if lo == hi then (if ndjson || lo > 0 then "" else "[")
    else Span(encs, ndjson, lo, hi - 1) + Piece(encs, ndjson, hi - 1)
  }

  /** The first `k` chunks, each of exactly EXPORT_CHUNK_ROWS rows. */
  ghost function FullChunks(encs: seq<string>, ndjson: bool, k: nat): seq<string>
    requires k * EXPORT_CHUNK_ROWS <= |encs|
  {
    if k == 0 then []
    else FullChunks(encs, ndjson, k - 1) + [Span(encs, ndjson, (k - 1) * EXPORT_CHUNK_ROWS, k * EXPORT_CHUNK_ROWS)]
  }

  /** What remains after the full chunks, fewer than EXPORT_CHUNK_ROWS rows, and the closing bracket. */
  ghost function LastChunk(encs: seq<string>, ndjson: bool): string {
    Span(encs, ndjson, |encs| / EXPORT_CHUNK_ROWS * EXPORT_CHUNK_ROWS, |encs|) + if ndjson then "" else "]"
  }

  ghost function Chunks(encs: seq<string>, ndjson: bool): seq<string> {
    var last := LastChunk(encs, ndjson);
    FullChunks(encs, ndjson, |encs| / EXPORT_CHUNK_ROWS) + if last == "" then [] else [last]
  }

  // ---------- the loop ----------

  /** The receiving end of the chunk channel: it accepts `room` chunks, or all of them. */
  class Channel {
    var sent: seq<string>
    const room: Option<nat>

    constructor (room: Option<nat>)
      ensures sent == [] && this.room == room
    {
      sent := [];
      this.room := room;
    }

    predicate Full()
      reads this
    {
      room.Some? && |sent| >= room.value
    }

    method Send(chunk: string) returns (ok: bool)
      modifies this
      ensures ok == !old(Full())
      ensures sent == if ok then old(sent) + [chunk] else old(sent)
    {
      ok := !Full();
      if ok { sent := sent + [chunk]; }
    }
  }

  /** How an export of a cursor that yields `n` rows and then ends or fails should come out. */
  ghost function Expected(encs: seq<string>, ndjson: bool, broken: bool, room: Option<nat>): (Outcome, seq<string>) {
    var ready := if broken then FullChunks(encs, ndjson, |encs| / EXPORT_CHUNK_ROWS) else Chunks(encs, ndjson);
    if room.Some? && room.value < |ready| then (Disconnected, ready[..room.value])
    else (if broken then RowFailed else Done, ready)
  }

  lemma {:induction false} FullCount(encs: seq<string>, ndjson: bool, k: nat)
    requires k * EXPORT_CHUNK_ROWS <= |encs|
    ensures |FullChunks(encs, ndjson, k)| == k
  {
    if k > 0 { FullCount(encs, ndjson, k - 1); }
  }

  lemma {:induction false} FullPrefix(encs: seq<string>, ndjson: bool, j: nat, k: nat)
    requires j <= k && k * EXPORT_CHUNK_ROWS <= |encs|
    ensures |FullChunks(encs, ndjson, k)| == k
    ensures FullChunks(encs, ndjson, k)[..j] == FullChunks(encs, ndjson, j)
    decreases k
  {
    FullCount(encs, ndjson, k);
    FullCount(encs, ndjson, j);
    if j < k {
      FullPrefix(encs, ndjson, j, k - 1);
    }
  }

  /** Between two rows: some full chunks are out and the buffer holds the rows since. */
  ghost predicate Midway(encs: seq<string>, ndjson: bool, sent: seq<string>, buf: string, i: nat, inChunk: nat) {
    && i <= |encs| && i == |sent| * EXPORT_CHUNK_ROWS + inChunk
    && buf == Span(encs, ndjson, |sent| * EXPORT_CHUNK_ROWS, i)
    && sent == FullChunks(encs, ndjson, |sent|)
  }

  lemma OneMore(encs: seq<string>, ndjson: bool, sent: seq<string>, buf: string, i: nat, inChunk: nat)
    requires i < |encs| && Midway(encs, ndjson, sent, buf, i, inChunk)
    ensures Midway(encs, ndjson, sent, buf + Piece(encs, ndjson, i), i + 1, inChunk + 1)
  {
  }

  lemma ChunkOut(encs: seq<string>, ndjson: bool, sent: seq<string>, buf: string, i: nat)
    requires Midway(encs, ndjson, sent, buf, i, EXPORT_CHUNK_ROWS)
    ensures Midway(encs, ndjson, sent + [buf], if ndjson || i > 0 then "" else "[", i, 0)
    ensures |sent| < |encs| / EXPORT_CHUNK_ROWS
  {
  }

  lemma AllOut(encs: seq<string>, ndjson: bool, sent: seq<string>, buf: string, inChunk: nat)
    requires inChunk < EXPORT_CHUNK_ROWS && Midway(encs, ndjson, sent, buf, |encs|, inChunk)
    ensures sent == FullChunks(encs, ndjson, |encs| / EXPORT_CHUNK_ROWS)
    ensures buf + (if ndjson then "" else "]") == LastChunk(encs, ndjson)
  {
  }

  /**
   * Walks the cursor, which yields `rows` and then ends, or fails if `broken`, and sends a chunk
   * whenever 256 rows are in the buffer and once more at the end if anything is left.
   */
  method StreamRows(rows: seq<LogRecord>, broken: bool, encode: LogRecord -> string, ndjson: bool, tx: Channel)
    returns (outcome: Outcome)
    requires tx.sent == []
    modifies tx
    ensures (outcome, tx.sent) == Expected(Encoded(rows, encode), ndjson, broken, tx.room)
  {
    ghost var encs := Encoded(rows, encode);
    var connected, buf := SendRows(rows, encode, ndjson, tx);
    if !connected {
      CutShort(encs, ndjson, broken, |tx.sent|);
      return Disconnected;
    }
    if broken {
      FullCount(encs, ndjson, |encs| / EXPORT_CHUNK_ROWS);
      return RowFailed;
    }
    outcome := Finish(encs, ndjson, buf, tx);
  }

  /** The loop over the rows: `buf` is what is left in the buffer, unless the client hung up. */
  method SendRows(rows: seq<LogRecord>, encode: LogRecord -> string, ndjson: bool, tx: Channel)
    returns (connected: bool, buf: string)
    requires tx.sent == []
    modifies tx
    ensures var encs := Encoded(rows, encode);
      if connected then
        && tx.sent == FullChunks(encs, ndjson, |encs| / EXPORT_CHUNK_ROWS)
        && buf + (if ndjson then "" else "]") == LastChunk(encs, ndjson)
        && (tx.room.Some? ==> |tx.sent| <= tx.room.value)
      else
        tx.room == Some(|tx.sent|) && |tx.sent| < |encs| / EXPORT_CHUNK_ROWS && tx.sent == FullChunks(encs, ndjson, |tx.sent|)
  {
    ghost var encs := Encoded(rows, encode);
    buf, connected := "", true;
    var inChunk, first := 0, true;
    if !ndjson { buf := buf + "["; }
    var i := 0;
    while i < |rows|
      invariant 0 <= i <= |rows| && first == (i == 0) && 0 <= inChunk < EXPORT_CHUNK_ROWS && connected
      invariant Midway(encs, ndjson, tx.sent, buf, i, inChunk)
      invariant tx.room.Some? ==> |tx.sent| <= tx.room.value
    {
      OneMore(encs, ndjson, tx.sent, buf, i, inChunk);
      buf := Append(buf, encode(rows[i]), ndjson, first);
      first := false;
      inChunk := inChunk + 1;
      i := i + 1;
      if inChunk >= EXPORT_CHUNK_ROWS {
        ChunkOut(encs, ndjson, tx.sent, buf, i);
        connected := tx.Send(buf);
        if !connected { return; }
        buf := "";
        inChunk := 0;
      }
    }
    AllOut(encs, ndjson, tx.sent, buf, inChunk);
  }

  method Finish(ghost encs: seq<string>, ndjson: bool, buf0: string, tx: Channel) returns (outcome: Outcome)
    requires tx.sent == FullChunks(encs, ndjson, |encs| / EXPORT_CHUNK_ROWS)
    requires buf0 + (if ndjson then "" else "]") == LastChunk(encs, ndjson)
    requires tx.room.Some? ==> |tx.sent| <= tx.room.value
    modifies tx
    ensures (outcome, tx.sent) == Expected(encs, ndjson, false, tx.room)
  {
    var buf := buf0;
    if !ndjson { buf := buf + "]"; }
    assert buf0 + "" == buf0 && tx.sent + [] == tx.sent;
    assert buf == LastChunk(encs, ndjson);
    assert Chunks(encs, ndjson) == if buf == "" then tx.sent else tx.sent + [buf];
    if buf != "" {
      var ok := tx.Send(buf);
      if !ok {
        return Disconnected;
      }
    }
    return Done;
  }

  method Append(buf: string, enc: string, ndjson: bool, first: bool) returns (buf': string)
    ensures buf' == buf + if ndjson then enc + "\n" else (if first then "" else ",") + enc
  {
    buf' := buf;
    if ndjson {
      buf' := buf' + enc;
      buf' := buf' + "\n";
    } else {
      if !first { buf' := buf' + ","; }
      buf' := buf' + enc;
    }
  }

  lemma CutShort(encs: seq<string>, ndjson: bool, broken: bool, k: nat)
    requires k < |encs| / EXPORT_CHUNK_ROWS
    ensures Expected(encs, ndjson, broken, Some(k)) == (Disconnected, FullChunks(encs, ndjson, k))
  {
    var total := |encs| / EXPORT_CHUNK_ROWS;
    FullPrefix(encs, ndjson, k, total);
    assert Chunks(encs, ndjson)[..k] == FullChunks(encs, ndjson, total)[..k];
  }

  // ---------- the chunks are the document ----------

  lemma {:induction false} SpanJoins(encs: seq<string>, ndjson: bool, lo: nat, hi: nat)
    requires 0 < lo <= hi <= |encs|
    ensures Span(encs, ndjson, 0, lo) + Span(encs, ndjson, lo, hi) == Span(encs, ndjson, 0, hi)
    decreases hi
  {
    if lo < hi {
      SpanJoins(encs, ndjson, lo, hi - 1);
    }
  }

  lemma {:induction false} FullChunksFlat(encs: seq<string>, ndjson: bool, k: nat)
    requires 0 < k && k * EXPORT_CHUNK_ROWS <= |encs|
    ensures Flatten(FullChunks(encs, ndjson, k)) == Span(encs, ndjson, 0, k * EXPORT_CHUNK_ROWS)
  {
    var chunk := Span(encs, ndjson, (k - 1) * EXPORT_CHUNK_ROWS, k * EXPORT_CHUNK_ROWS);
    FlattenSnoc(FullChunks(encs, ndjson, k - 1), chunk);
    if k > 1 {
      FullChunksFlat(encs, ndjson, k - 1);
      SpanJoins(encs, ndjson, (k - 1) * EXPORT_CHUNK_ROWS, k * EXPORT_CHUNK_ROWS);
    }
  }

  lemma {:induction false} SpanIsLines(encs: seq<string>, n: nat)
    requires n <= |encs|
    ensures Span(encs, true, 0, n) == Lines(encs[..n])
  {
    if n > 0 {
      SpanIsLines(encs, n - 1);
      assert encs[..n][..n - 1] == encs[..n - 1];
    }
  }

  lemma {:induction false} SpanIsArray(encs: seq<string>, n: nat)
    requires n <= |encs|
    ensures Span(encs, false, 0, n) == "[" + CommaJoined(encs[..n])
  {
    if n > 0 {
      SpanIsArray(encs, n - 1);
      assert encs[..n][..n - 1] == encs[..n - 1];
    }
  }

  /** What has been sent and what is left in the buffer at the end are all the rows. */
  lemma FullAndRest(encs: seq<string>, ndjson: bool)
    ensures var k := |encs| / EXPORT_CHUNK_ROWS;
      Flatten(FullChunks(encs, ndjson, k)) + Span(encs, ndjson, k * EXPORT_CHUNK_ROWS, |encs|) == Span(encs, ndjson, 0, |encs|)
  {
    var k := |encs| / EXPORT_CHUNK_ROWS;
    if k > 0 {
      FullChunksFlat(encs, ndjson, k);
      SpanJoins(encs, ndjson, k * EXPORT_CHUNK_ROWS, |encs|);
    } else {
      assert [] + Span(encs, ndjson, 0, |encs|) == Span(encs, ndjson, 0, |encs|);
    }
  }

  lemma AddedLast(full: seq<string>, last: string)
    ensures Flatten(full + if last == "" then [] else [last]) == Flatten(full) + last
  {
    FlattenSnoc(full, last);
    if last == "" {
      assert full + [] == full && Flatten(full) + last == Flatten(full);
    }
  }

  /** A finished export refines the plain printer: its chunks concatenate to exactly the document. */
  lemma ChunksAreDocument(encs: seq<string>, ndjson: bool)
    ensures Flatten(Chunks(encs, ndjson)) == Document(encs, ndjson)
  {
    AddedLast(FullChunks(encs, ndjson, |encs| / EXPORT_CHUNK_ROWS), LastChunk(encs, ndjson));
    FullAndRest(encs, ndjson);
    assert encs[..|encs|] == encs;
    if ndjson {
      SpanIsLines(encs, |encs|);
    } else {
      SpanIsArray(encs, |encs|);
    }
    Closed(encs, ndjson, Flatten(FullChunks(encs, ndjson, |encs| / EXPORT_CHUNK_ROWS)));
  }

  lemma Closed(encs: seq<string>, ndjson: bool, sent: string)
    requires sent + Span(encs, ndjson, |encs| / EXPORT_CHUNK_ROWS * EXPORT_CHUNK_ROWS, |encs|) == Span(encs, ndjson, 0, |encs|)
    ensures sent + LastChunk(encs, ndjson) == Span(encs, ndjson, 0, |encs|) + if ndjson then "" else "]"
  {
    var rest := Span(encs, ndjson, |encs| / EXPORT_CHUNK_ROWS * EXPORT_CHUNK_ROWS, |encs|);
    var close := if ndjson then "" else "]";
    assert sent + (rest + close) == (sent + rest) + close;
  }

  lemma {:induction false} FlattenPrefix(ss: seq<string>, k: nat)
    requires k <= |ss|
    ensures Flatten(ss[..k]) <= Flatten(ss)
    decreases |ss|
  {
    if k < |ss| {
      FlattenPrefix(ss[..|ss| - 1], k);
      assert ss[..|ss| - 1][..k] == ss[..k];
    } else {
      assert ss[..k] == ss;
    }
  }

  /** However an export ends, the client has a prefix of the document, and all of it when done. */
  lemma AlwaysAPrefix(encs: seq<string>, ndjson: bool, broken: bool, room: Option<nat>)
    ensures var (outcome, sent) := Expected(encs, ndjson, broken, room);
      Flatten(sent) <= Document(encs, ndjson) && (outcome.Done? ==> Flatten(sent) == Document(encs, ndjson))
  {
    ChunksAreDocument(encs, ndjson);
    var (outcome, sent) := Expected(encs, ndjson, broken, room);
    var all := Chunks(encs, ndjson);
    FullPrefix(encs, ndjson, 0, |encs| / EXPORT_CHUNK_ROWS);
    assert sent == all[..|sent|];
    FlattenPrefix(all, |sent|);
  }

  /** How many chunks a connected client is sent: every 256 rows one, and one for the rest and the closing
      bracket, if there is anything in it; a cursor that fails leaves only the full ones. */
  lemma ChunkCount(encs: seq<string>, ndjson: bool)
    ensures |Chunks(encs, ndjson)| == |encs| / 256 + if ndjson && |encs| % 256 == 0 then 0 else 1
    ensures |FullChunks(encs, ndjson, |encs| / 256)| == |encs| / 256
  {
    var lo := |encs| / EXPORT_CHUNK_ROWS * EXPORT_CHUNK_ROWS;
    FullCount(encs, ndjson, |encs| / EXPORT_CHUNK_ROWS);
    assert |encs| - lo == |encs| % 256;
    if ndjson && lo < |encs| {
      assert Piece(encs, ndjson, |encs| - 1) != "";
    }
  }

  /**
   * How an export ends. Left connected, it is done exactly if the cursor did not fail; a failure or a
   * client that hangs up ends it at once, and nothing is sent afterwards.
   */
  lemma HowItEnds(encs: seq<string>, ndjson: bool, broken: bool, room: Option<nat>)
    ensures var (outcome, sent) := Expected(encs, ndjson, broken, room);
      var ready := |encs| / 256 + if broken || (ndjson && |encs| % 256 == 0) then 0 else 1;
      if room.Some? && room.value < ready then outcome == Disconnected && |sent| == room.value
      else outcome == (if broken then RowFailed else Done) && |sent| == ready
  {
    ChunkCount(encs, ndjson);
  }

  /** The array form grows by a comma and the next record, inside the brackets. */
  lemma ArrayForm(encs: seq<string>, enc: string) returns (body: string)
    ensures Document([], false) == "[]" && Document([enc], false) == "[" + enc + "]"
    ensures Document(encs, false) == "[" + body + "]"
    ensures encs != [] ==> Document(encs + [enc], false) == "[" + (body + "," + enc) + "]"
  {
    body := CommaJoined(encs);
    var longer := encs + [enc];
    assert longer[..|longer| - 1] == encs && longer[|longer| - 1] == enc;
    assert "[" + "" + "]" == "[]";
    if encs != [] { assert CommaJoined(longer) == body + "," + enc; }
  }

  /** The line form grows by the next record and a newline. */
  lemma LineForm(encs: seq<string>, enc: string)
    ensures Document([], true) == "" && Document(encs + [enc], true) == Document(encs, true) + enc + "\n"
  {
    assert (encs + [enc])[..|encs + [enc]| - 1] == encs;
  }

  // ---------- sizes ----------

  lemma {:induction false} SpanNotEmpty(encs: seq<string>, ndjson: bool, lo: nat, hi: nat)
    requires lo + 1 < hi <= |encs|
    ensures Span(encs, ndjson, lo, hi) != ""
  {
    assert Piece(encs, ndjson, hi - 1) != "";
  }

  /** No chunk is empty, and chunk k holds rows 256k up to at most 256k + 255 and nothing else but punctuation. */
  lemma ChunkSizes(encs: seq<string>, ndjson: bool, k: nat)
    requires k < |Chunks(encs, ndjson)|
    ensures Chunks(encs, ndjson)[k] != ""
    ensures 256 * k <= |encs|
    ensures var lo, hi := 256 * k, if 256 * k + 256 <= |encs| then 256 * k + 256 else |encs|;
      && (Chunks(encs, ndjson)[k] == Span(encs, ndjson, lo, hi)
          || (k == |Chunks(encs, ndjson)| - 1 && Chunks(encs, ndjson)[k] == Span(encs, ndjson, lo, hi) + "]"))
  {
    var total := |encs| / EXPORT_CHUNK_ROWS;
    FullPrefix(encs, ndjson, 0, total);
    if k < total {
      FullPrefix(encs, ndjson, k + 1, total);
      FullCount(encs, ndjson, k);
      assert FullChunks(encs, ndjson, total)[..k + 1][k] == FullChunks(encs, ndjson, k + 1)[k];
      SpanNotEmpty(encs, ndjson, k * EXPORT_CHUNK_ROWS, (k + 1) * EXPORT_CHUNK_ROWS);
    }
  }

  // ---------- reading the lines back ----------

  /** Splits a text into its newline-terminated lines; an unterminated rest is dropped. */
  function SplitLines(text: string): seq<string> {
    SplitFrom(text, "")
  }

  function SplitFrom(text: string, line: string): seq<string> {
    if text == "" then []
    else if text[0] == '\n' then [line] + SplitFrom(text[1..], "")
    else SplitFrom(text[1..], line + [text[0]])
  }

  lemma {:induction false} SplitLine(enc: string, rest: string, line: string)
    requires '\n' !in enc
    ensures SplitFrom(enc + "\n" + rest, line) == [line + enc] + SplitFrom(rest, "")
    decreases |enc|
  {
    var text := enc + "\n" + rest;
    if enc == "" {
      assert text[1..] == rest && line + enc == line;
    } else {
      assert text[1..] == enc[1..] + "\n" + rest;
      SplitLine(enc[1..], rest, line + [enc[0]]);
      assert line + [enc[0]] + enc[1..] == line + enc;
    }
  }

  lemma {:induction false} LinesThen(encs: seq<string>, rest: string)
    requires forall e | e in encs :: '\n' !in e
    ensures SplitFrom(Lines(encs) + rest, "") == encs + SplitFrom(rest, "")
  {
    if encs == [] {
      assert Lines(encs) + rest == rest;
    } else {
      var front, last := encs[..|encs| - 1], encs[|encs| - 1];
      assert encs == front + [last];
      assert Lines(encs) + rest == Lines(front) + (last + "\n" + rest);
      LinesThen(front, last + "\n" + rest);
      SplitLine(last, rest, "");
      assert "" + last == last;
      assert front + ([last] + SplitFrom(rest, "")) == encs + SplitFrom(rest, "");
    }
  }

  /** Splitting a finished NDJSON export on newlines gives back the encodings, one per row, in order. */
  lemma NdjsonRoundTrip(encs: seq<string>)
    requires forall e | e in encs :: '\n' !in e
    ensures SplitLines(Flatten(Chunks(encs, true))) == encs
  {
    ChunksAreDocument(encs, true);
    LinesThen(encs, "");
    assert Lines(encs) + "" == Lines(encs);
  }
}
