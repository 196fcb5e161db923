/** The bytes of the live tail (src/hub.rs, src/handlers/stream.rs) and an EventSource reading them. */
module SseWire {
  import opened Basics
  import opened Records
  import opened Decimal
  import opened Text

  // ---------- what the server writes ----------

  datatype Chunk = RetryHint | Keepalive | Frame(id: int, json: string)

  function Bytes(c: Chunk): string {
    match c
    case RetryHint => "retry: 2000\n\n"
    case Keepalive => ": keepalive\n\n"
    case Frame(id, json) => "id: " + IntText(id) + "\ndata: " + json + "\n\n"
  }

  function Wire(chunks: seq<Chunk>): string {
    if chunks == [] then [] else Wire(chunks[..|chunks| - 1]) + Bytes(chunks[|chunks| - 1])
  }

  /** `LogFrame::new`: the payload is built once by successive appends. `encode` is the JSON encoder. */
  method NewFrame(encode: LogRecord -> Option<string>, rec: LogRecord) returns (id: int, bytes: string)
    ensures id == rec.id
    ensures bytes == "id: " + IntText(rec.id) + "\ndata: " + (if encode(rec).Some? then encode(rec).value else "{}") + "\n\n"
    ensures bytes == Bytes(Frame(rec.id, if encode(rec).Some? then encode(rec).value else "{}"))
  {
    var json := if encode(rec).Some? then encode(rec).value else "{}";
    var buf := "";
    buf := buf + "id: ";
    buf := buf + IntText(rec.id);
    buf := buf + "\ndata: ";
    buf := buf + json;
    buf := buf + "\n\n";
    return rec.id, buf;
  }

  // ---------- an event stream parser, sections 9.2.5 and 9.2.6 of the WHATWG HTML Standard ----------

  datatype Event = Event(lastEventId: string, data: string)

  datatype Reader = Reader(
    line: string,        // the line being received
    afterCr: bool,       // the previous character was a CR that ended a line
    data: string,        // data buffer
    idBuffer: string,    // last event ID buffer
    lastId: string,      // last event ID string, sent on reconnection
    events: seq<Event>)

  const CONNECTED := Reader("", false, "", "", "", [])

  function Dispatch(r: Reader): Reader {
    if r.data == "" then r.(lastId := r.idBuffer)
    else
      var data := if r.data[|r.data| - 1] == '\n' then r.data[..|r.data| - 1] else r.data;
      r.(lastId := r.idBuffer, data := "", events := r.events + [Event(r.idBuffer, data)])
  }

  function ColonAt(line: string): nat {
    if line == [] || line[0] == ':' then 0 else 1 + ColonAt(line[1..])
  }

  function TakeField(r: Reader, name: string, value: string): Reader {
    if name == "data" then r.(data := r.data + value + "\n")
    else if name == "id" then (if '\0' in value then r else r.(idBuffer := value))
    else r
  }

  /** What a complete line means. */
  function TakeLine(r: Reader, line: string): Reader {
    if line == "" then Dispatch(r)
    else if line[0] == ':' then r
    else
      var i := ColonAt(line);
      if i >= |line| then TakeField(r, line, "")
      else
        var value := line[i + 1..];
        TakeField(r, line[..i], if value != "" && value[0] == ' ' then value[1..] else value)
  }

  /** Lines end at LF, CR, or CR LF. */
  function Feed(r: Reader, c: char): Reader {
    if c == '\n' then
      if r.afterCr then r.(afterCr := false) else TakeLine(r.(line := ""), r.line)
    else if c == '\r' then TakeLine(r.(line := "", afterCr := true), r.line)
    else r.(line := r.line + [c], afterCr := false)
  }

  function FeedAll(r: Reader, s: string): Reader
    decreases |s|
  {
    if s == [] then r else FeedAll(Feed(r, s[0]), s[1..])
  }

  // ---------- feeding lines ----------

  predicate OneLine(s: string) {
    '\n' !in s && '\r' !in s
  }

  lemma {:induction false} FeedConcat(r: Reader, a: string, b: string)
    ensures FeedAll(r, a + b) == FeedAll(FeedAll(r, a), b)
    decreases |a|
  {
    if a == [] {
      assert a + b == b;
    } else {
      assert (a + b)[1..] == a[1..] + b;
      FeedConcat(Feed(r, a[0]), a[1..], b);
    }
  }

  lemma {:induction false} FeedText(r: Reader, s: string)
    requires OneLine(s) && !r.afterCr
    ensures FeedAll(r, s) == r.(line := r.line + s)
    decreases |s|
  {
    if s != [] {
      FeedText(Feed(r, s[0]), s[1..]);
      assert r.line + [s[0]] + s[1..] == r.line + s;
    }
  }

  lemma FeedLine(r: Reader, s: string)
    requires OneLine(s) && !r.afterCr && r.line == ""
    ensures FeedAll(r, s + "\n") == TakeLine(r, s)
  {
    FeedConcat(r, s, "\n");
    FeedText(r, s);
    assert "" + s == s;
    var t := r.(line := s);
    assert FeedAll(t, "\n") == FeedAll(Feed(t, '\n'), []);
    assert t.(line := "") == r;
  }

  /** A `name: value` line sets that field to exactly that value. */
  lemma NamedLine(r: Reader, name: string, value: string)
    requires name != [] && ':' !in name
    ensures TakeLine(r, name + ": " + value) == TakeField(r, name, value)
  {
    var line := name + ": " + value;
    ColonFound(name, ": " + value);
    assert line == name + (": " + value);
    assert line[..|name|] == name;
    assert line[|name| + 1..] == " " + value;
    assert (" " + value)[1..] == value;
  }

  lemma {:induction false} ColonFound(name: string, rest: string)
    requires ':' !in name && rest != [] && rest[0] == ':'
    ensures ColonAt(name + rest) == |name|
  {
    if name == [] {
      assert name + rest == rest;
    } else {
      assert (name + rest)[1..] == name[1..] + rest;
      ColonFound(name[1..], rest);
    }
  }

  // ---------- one chunk ----------

  /** Between chunks: nothing half-read, and the id buffer is already the last event ID. */
  ghost predicate Between(r: Reader) {
    r.line == "" && !r.afterCr && r.data == "" && r.idBuffer == r.lastId
  }

  predicate CleanChunk(c: Chunk) {
    c.Frame? ==> OneLine(c.json)
  }

  function AfterChunk(r: Reader, c: Chunk): Reader {
    if c.Frame? then
      r.(idBuffer := IntText(c.id), lastId := IntText(c.id), events := r.events + [Event(IntText(c.id), c.json)])
    else r
  }

  lemma {:induction false} NumberIsPlain(n: int)
    ensures OneLine(IntText(n)) && '\0' !in IntText(n) && IntText(n) != []
    ensures forall c | c in IntText(n) :: !IsWhitespace(c)
  {
    DigitsText(if n < 0 then -n else n);
    forall c | c in IntText(n) ensures IsDigit(c) || c == '-' {}
  }

  lemma FrameText(id: int, json: string)
    ensures Bytes(Frame(id, json)) == ("id: " + IntText(id) + "\n") + (("data: " + json + "\n") + ([] + "\n"))
  {
    var text := IntText(id);
    assert "id: " + text + "\ndata: " + json + "\n\n" == ("id: " + text + "\n") + (("data: " + json + "\n") + ([] + "\n"));
  }

  /** A line that is a field. */
  lemma FieldRead(r: Reader, name: string, value: string)
    requires !r.afterCr && r.line == "" && name != [] && ':' !in name && OneLine(name) && OneLine(value)
    ensures FeedAll(r, name + ": " + value + "\n") == TakeField(r, name, value)
  {
    FeedLine(r, name + ": " + value);
    NamedLine(r, name, value);
  }

  lemma IdRead(r: Reader, text: string)
    requires !r.afterCr && r.line == "" && OneLine(text) && '\0' !in text
    ensures FeedAll(r, "id: " + text + "\n") == r.(idBuffer := text)
  {
    FieldRead(r, "id", text);
    assert "id" + ": " == "id: ";
  }

  lemma DataRead(r: Reader, json: string)
    requires !r.afterCr && r.line == "" && r.data == "" && OneLine(json)
    ensures FeedAll(r, "data: " + json + "\n") == r.(data := json + "\n")
  {
    FieldRead(r, "data", json);
    assert "data" + ": " == "data: ";
    assert "" + json + "\n" == json + "\n";
  }

  lemma BlankRead(r: Reader, json: string)
    requires !r.afterCr && r.line == "" && r.data == json + "\n"
    ensures FeedAll(r, [] + "\n")
         == r.(lastId := r.idBuffer, data := "", events := r.events + [Event(r.idBuffer, json)])
  {
    FeedLine(r, []);
    assert (json + "\n")[..|json + "\n"| - 1] == json;
  }

  lemma FrameRead(r: Reader, id: int, json: string)
    requires Between(r) && OneLine(json)
    ensures FeedAll(r, Bytes(Frame(id, json))) == AfterChunk(r, Frame(id, json))
  {
    var first, second := "id: " + IntText(id) + "\n", "data: " + json + "\n";
    FrameText(id, json);
    FeedConcat(r, first, second + ([] + "\n"));
    NumberIsPlain(id);
    IdRead(r, IntText(id));
    var r1 := r.(idBuffer := IntText(id));
    FeedConcat(r1, second, [] + "\n");
    DataRead(r1, json);
    BlankRead(r1.(data := json + "\n"), json);
  }

  lemma HintRead(r: Reader, line: string)
    requires Between(r) && OneLine(line) && TakeLine(r, line) == r
    ensures FeedAll(r, line + "\n\n") == r
  {
    assert line + "\n\n" == (line + "\n") + ([] + "\n");
    FeedConcat(r, line + "\n", [] + "\n");
    FeedLine(r, line);
    FeedLine(r, []);
  }

  lemma OtherField(r: Reader, name: string, value: string)
    requires name != "data" && name != "id"
    ensures TakeField(r, name, value) == r
  {
  }

  lemma RetryText()
    ensures OneLine("retry: 2000") && Bytes(RetryHint) == "retry: 2000" + "\n\n" && Bytes(Keepalive) == ": keepalive" + "\n\n"
    ensures "retry" + ": " + "2000" == "retry: 2000"
  {
  }

  lemma RetryRead(r: Reader)
    requires Between(r)
    ensures FeedAll(r, Bytes(RetryHint)) == r
  {
    RetryText();
    NamedLine(r, "retry", "2000");
    OtherField(r, "retry", "2000");
    HintRead(r, "retry: 2000");
  }

  lemma KeepaliveRead(r: Reader)
    requires Between(r)
    ensures FeedAll(r, Bytes(Keepalive)) == r
  {
    HintRead(r, ": keepalive");
    assert ": keepalive" + "\n\n" == Bytes(Keepalive);
  }

  lemma ChunkRead(r: Reader, c: Chunk)
    requires Between(r) && CleanChunk(c)
    ensures FeedAll(r, Bytes(c)) == AfterChunk(r, c) && Between(AfterChunk(r, c))
  {
    match c
    case RetryHint => RetryRead(r);
    case Keepalive => KeepaliveRead(r);
    case Frame(id, json) => FrameRead(r, id, json);
  }

  // ---------- the whole stream ----------

  function FramesOf(chunks: seq<Chunk>): seq<Event> {
    if chunks == [] then []
    else
      var c := chunks[|chunks| - 1];
      FramesOf(chunks[..|chunks| - 1]) + if c.Frame? then [Event(IntText(c.id), c.json)] else []
  }

  ghost predicate Clean(chunks: seq<Chunk>) {
    forall c | c in chunks :: CleanChunk(c)
  }

  /** The id of the last complete event, as the reconnection will send it. */
  function LastOf(events: seq<Event>): string {
    if events == [] then "" else events[|events| - 1].lastEventId
  }

  /** Reading any concatenation of hints, keepalives and frames yields exactly the frames sent. */
  lemma {:induction false} WireRoundTrip(chunks: seq<Chunk>)
    requires Clean(chunks)
    ensures var r := FeedAll(CONNECTED, Wire(chunks));
      Between(r) && r.events == FramesOf(chunks) && r.lastId == LastOf(r.events)
  {
    if chunks != [] {
      var front, c := chunks[..|chunks| - 1], chunks[|chunks| - 1];
      assert chunks == front + [c];
      WireRoundTrip(front);
      FeedConcat(CONNECTED, Wire(front), Bytes(c));
      ChunkRead(FeedAll(CONNECTED, Wire(front)), c);
    }
  }

  /** A text that completes no blank line dispatches nothing. */
  predicate Quiet(line: string, s: string)
    decreases |s|
  {
    if s == [] then true
    else if s[0] == '\n' then line != "" && Quiet("", s[1..])
    else s[0] != '\r' && Quiet(line + [s[0]], s[1..])
  }

  lemma {:induction false} QuietFeeds(r: Reader, s: string)
    requires Quiet(r.line, s) && !r.afterCr
    ensures FeedAll(r, s).events == r.events && FeedAll(r, s).lastId == r.lastId
    decreases |s|
  {
    if s != [] {
      QuietFeeds(Feed(r, s[0]), s[1..]);
    }
  }

  lemma {:induction false} QuietPrefix(line: string, s: string, n: nat)
    requires Quiet(line, s) && n <= |s|
    ensures Quiet(line, s[..n])
    decreases |s|
  {
    if n > 0 {
      assert s[..n][1..] == s[1..][..n - 1];
      if s[0] == '\n' { QuietPrefix("", s[1..], n - 1); } else { QuietPrefix(line + [s[0]], s[1..], n - 1); }
    }
  }

  lemma {:induction false} QuietLine(line: string, s: string, rest: string)
    requires OneLine(s) && line + s != "" && Quiet("", rest)
    ensures Quiet(line, s + ("\n" + rest))
    decreases |s|
  {
    var t := s + ("\n" + rest);
    if s == [] {
      assert t == "\n" + rest && t[1..] == rest && line + [] == line;
    } else {
      assert t[1..] == s[1..] + ("\n" + rest);
      assert (line + [s[0]]) + s[1..] == line + s;
      QuietLine(line + [s[0]], s[1..], rest);
    }
  }

  /** All of a chunk but its last character is quiet. */
  lemma ChunkQuiet(c: Chunk)
    requires CleanChunk(c)
    ensures Quiet("", Bytes(c)[..|Bytes(c)| - 1])
  {
    match c
    case RetryHint =>
      QuietLine("", "retry: 2000", "");
      assert Bytes(c)[..|Bytes(c)| - 1] == "retry: 2000" + ("\n" + "");
    case Keepalive =>
      QuietLine("", ": keepalive", "");
      assert Bytes(c)[..|Bytes(c)| - 1] == ": keepalive" + ("\n" + "");
    case Frame(id, json) =>
      FrameQuiet(id, json);
  }

  lemma FrameQuiet(id: int, json: string)
    requires OneLine(json)
    ensures Quiet("", Bytes(Frame(id, json))[..|Bytes(Frame(id, json))| - 1])
  {
    var first, second := "id: " + IntText(id), "data: " + json;
    NumberIsPlain(id);
    QuietLine("", second, "");
    QuietLine("", first, second + ("\n" + ""));
    FrameText(id, json);
    Chop(first, second);
  }

  lemma Chop(first: string, second: string)
    ensures var s := (first + "\n") + ((second + "\n") + ([] + "\n"));
      s[..|s| - 1] == first + ("\n" + (second + ("\n" + "")))
  {
  }

  /**
   * Cut anywhere: however many bytes arrive before the connection drops, the events dispatched are
   * a prefix of the frames sent, and the last event ID is that of the last of them.
   */
  lemma {:induction false} AnyCut(chunks: seq<Chunk>, n: nat)
    requires Clean(chunks) && n <= |Wire(chunks)|
    ensures var r := FeedAll(CONNECTED, Wire(chunks)[..n]);
      r.events <= FramesOf(chunks) && r.lastId == LastOf(r.events)
  {
    if chunks != [] {
      var front, c := chunks[..|chunks| - 1], chunks[|chunks| - 1];
      assert chunks == front + [c];
      CutAt(Wire(front), Bytes(c), n);
      if n <= |Wire(front)| {
        AnyCut(front, n);
      } else {
        CutInside(front, c, n - |Wire(front)|);
      }
    }
  }

  lemma CutAt(a: string, b: string, n: nat)
    requires n <= |a + b|
    ensures (a + b)[..n] == if n <= |a| then a[..n] else a + b[..n - |a|]
  {
  }

  lemma CutInside(front: seq<Chunk>, c: Chunk, n: nat)
    requires Clean(front) && CleanChunk(c) && n <= |Bytes(c)|
    ensures var r := FeedAll(CONNECTED, Wire(front) + Bytes(c)[..n]);
      && r.events <= FramesOf(front) + (if c.Frame? then [Event(IntText(c.id), c.json)] else [])
      && r.lastId == LastOf(r.events)
  {
    WireRoundTrip(front);
    var r := FeedAll(CONNECTED, Wire(front));
    FeedConcat(CONNECTED, Wire(front), Bytes(c)[..n]);
    if n == |Bytes(c)| {
      assert Bytes(c)[..n] == Bytes(c);
      ChunkRead(r, c);
    } else {
      ChunkQuiet(c);
      QuietPrefix("", Bytes(c)[..|Bytes(c)| - 1], n);
      assert Bytes(c)[..|Bytes(c)| - 1][..n] == Bytes(c)[..n];
      QuietFeeds(r, Bytes(c)[..n]);
    }
  }

  // ---------- the id comes back ----------

  /** How the server reads the Last-Event-ID header. */
  function HeaderId(value: string): Option<int> {
    ParseI64(Trim(value))
  }

  /** The last event ID an EventSource sends parses to the id of the last frame it completed. */
  lemma IdComesBack(chunks: seq<Chunk>, n: nat)
    requires Clean(chunks) && n <= |Wire(chunks)|
    requires forall c | c in chunks && c.Frame? :: -0x8000_0000_0000_0000 <= c.id <= 0x7FFF_FFFF_FFFF_FFFF
    ensures var r := FeedAll(CONNECTED, Wire(chunks)[..n]);
      r.events != [] ==>
        exists c :: c in chunks && c.Frame? && HeaderId(r.lastId) == Some(c.id)
                    && r.events[|r.events| - 1] == Event(IntText(c.id), c.json)
  {
    if FeedAll(CONNECTED, Wire(chunks)[..n]).events != [] {
      var c := LastFrame(chunks, n);
    }
  }

  lemma {:induction false} LastFrame(chunks: seq<Chunk>, n: nat) returns (c: Chunk)
    requires Clean(chunks) && n <= |Wire(chunks)| && FeedAll(CONNECTED, Wire(chunks)[..n]).events != []
    requires forall c | c in chunks && c.Frame? :: -0x8000_0000_0000_0000 <= c.id <= 0x7FFF_FFFF_FFFF_FFFF
    ensures c in chunks && c.Frame?
    ensures var r := FeedAll(CONNECTED, Wire(chunks)[..n]);
      HeaderId(r.lastId) == Some(c.id) && r.events[|r.events| - 1] == Event(IntText(c.id), c.json)
  {
    AnyCut(chunks, n);
    c := LastBehind(chunks, FeedAll(CONNECTED, Wire(chunks)[..n]).events);
    HeaderReads(c.id);
  }

  lemma LastBehind(chunks: seq<Chunk>, events: seq<Event>) returns (c: Chunk)
    requires events != [] && events <= FramesOf(chunks)
    ensures c in chunks && c.Frame? && events[|events| - 1] == Event(IntText(c.id), c.json)
  {
    assert events[|events| - 1] == FramesOf(chunks)[|events| - 1];
    c := FrameBehind(chunks, events[|events| - 1]);
  }

  lemma HeaderReads(id: int)
    requires InI64(id)
    ensures HeaderId(IntText(id)) == Some(id)
  {
    NumberIsPlain(id);
    TrimPlain(IntText(id));
    IntRoundTrip(id);
  }

  lemma {:induction false} FrameBehind(chunks: seq<Chunk>, e: Event) returns (c: Chunk)
    requires e in FramesOf(chunks)
    ensures c in chunks && c.Frame? && e == Event(IntText(c.id), c.json)
  {
    var front, last := chunks[..|chunks| - 1], chunks[|chunks| - 1];
    if last.Frame? && e == Event(IntText(last.id), last.json) {
      c := last;
    } else {
      c := FrameBehind(front, e);
    }
  }

  lemma TrimPlain(s: string)
    requires forall c | c in s :: !IsWhitespace(c)
    ensures Trim(s) == s
  {
    if s != [] {
      assert s[0] in s && s[|s| - 1] in s;
    }
  }
}
