/** The dynamic query builder of src/store/reader.rs (`search`), run against a small SQL reader. */
module Search {
  import opened Basics
  import opened Records
  import opened Table
  import opened Queries
  import opened FtsQuery

  datatype SearchQuery = SearchQuery(
    text: Option<string>,
    minLevel: Option<int>,
    deviceId: Option<int>,
    name: Option<string>,
    since: Option<int>,
    until: Option<int>,
    beforeId: Option<int>,
    limit: int)

  // ---------- statements as tokens ----------

  /** SQL text cut into words, placeholders ?n, and the bare ? of a clause not yet numbered. */
  datatype Token = Word(text: string) | Hole | Param(n: nat)

  datatype Value = Int(i: int) | Text(t: string)

  const HEAD: seq<Token> := [Word("SELECT"), Word("WHERE"), Word("1=1")]

  function MatchClause(): seq<Token> {
    [Word("AND"), Word("l.id"), Word("IN"), Word("logs_fts MATCH"), Param(1)]
  }

  function Template(column: string, op: string): seq<Token> {
    [Word("AND"), Word(column), Word(op), Hole]
  }

  function Tail(n: nat): seq<Token> {
    [Word("ORDER BY l.id DESC"), Word("LIMIT"), Param(n)]
  }

  /** `clause.replace('?', "?n")`. */
  function Numbered(clause: seq<Token>, n: nat): seq<Token> {
    seq(|clause|, i requires 0 <= i < |clause| => if clause[i] == Hole then Param(n) else clause[i])
  }

  // ---------- what the builder is given ----------

  /** One present filter: its column, comparison and bound value; `None` for the text match. */
  datatype Clause = Clause(column: string, op: string, value: Value) | Match(expr: string)

  function ValueOf(c: Clause): Value {
    if c.Match? then Text(c.expr) else c.value
  }

  function Present(column: string, op: string, v: Option<Value>): seq<Clause> {
    if v.Some? then [Clause(column, op, v.value)] else []
  }

  function IntOf(o: Option<int>): Option<Value> {
    if o.Some? then Some(Int(o.value)) else None
  }

  function TextOf(o: Option<string>): Option<Value> {
    if o.Some? then Some(Text(o.value)) else None
  }

  function TextClause(q: SearchQuery): seq<Clause> {
    var fts := FtsExpression(q.text);
    if fts.Some? then [Match(fts.value)] else []
  }

  /** The filters present, in the order the builder appends them. */
  function Clauses(q: SearchQuery): seq<Clause> {
    TextClause(q)
    + Present("l.id", "<", IntOf(q.beforeId))
    + Present("l.level", ">=", IntOf(q.minLevel))
    + Present("l.device_id", "=", IntOf(q.deviceId))
    + Present("l.name", "=", TextOf(q.name))
    + Present("l.ts", ">=", IntOf(q.since))
    + Present("l.ts", "<=", IntOf(q.until))
  }

  function TextFor(c: Clause, n: nat): seq<Token> {
    if c.Match? then MatchClause() else Numbered(Template(c.column, c.op), n)
  }

  /** Clauses rendered with consecutive numbers. */
  function Rendered(cs: seq<Clause>): seq<Token> {
    if cs == [] then [] else Rendered(cs[..|cs| - 1]) + TextFor(cs[|cs| - 1], |cs|)
  }

  function Bound(cs: seq<Clause>): seq<Value> {
    seq(|cs|, i requires 0 <= i < |cs| => ValueOf(cs[i]))
  }

  /** The statement so far holds exactly the clauses `cs`. */
  ghost predicate Built(sql: seq<Token>, params: seq<Value>, n: nat, cs: seq<Clause>) {
    sql == HEAD + Rendered(cs) && params == Bound(cs) && n == |cs|
  }

  /** If the filter is present, appends its clause under the next number and binds its value. */
  method Bind(sql: seq<Token>, params: seq<Value>, n: nat, column: string, op: string, v: Option<Value>, ghost cs: seq<Clause>)
    returns (sql': seq<Token>, params': seq<Value>, n': nat)
    requires Built(sql, params, n, cs)
    ensures Built(sql', params', n', cs + Present(column, op, v))
  {
    sql', params', n' := sql, params, n;
    ghost var next := cs + Present(column, op, v);
    if v.Some? {
      n' := n + 1;
      sql' := sql + Numbered(Template(column, op), n');
      params' := params + [v.value];
      assert next[..|next| - 1] == cs;
    } else {
      assert next == cs;
    }
  }

  /** The builder: optional filters appended in turn, each bound to its own placeholder. */
  method Build(q: SearchQuery) returns (sql: seq<Token>, params: seq<Value>)
    ensures sql == HEAD + Rendered(Clauses(q)) + Tail(|Clauses(q)| + 1)
    ensures params == Bound(Clauses(q)) + [Int(q.limit)]
  {
    sql, params := HEAD, [];
    ghost var cs: seq<Clause> := [];
    assert sql == HEAD + Rendered(cs);
    var fts := FtsExpression(q.text);
    if fts.Some? {
      sql := sql + MatchClause();
      params := params + [Text(fts.value)];
      cs := [Match(fts.value)];
      assert cs[..0] == [] && Rendered(cs) == [] + MatchClause();
    }
    var n := |params|;
    assert Built(sql, params, n, TextClause(q));
    sql, params, n := Filters(q, sql, params, n);
    n := n + 1;
    sql := sql + Tail(n);
    params := params + [Int(q.limit)];
  }

  method Filters(q: SearchQuery, sql0: seq<Token>, params0: seq<Value>, n0: nat)
    returns (sql: seq<Token>, params: seq<Value>, n: nat)
    requires Built(sql0, params0, n0, TextClause(q))
    ensures Built(sql, params, n, Clauses(q))
  {
    ghost var cs := TextClause(q);
    sql, params, n := Bind(sql0, params0, n0, "l.id", "<", IntOf(q.beforeId), cs);
    cs := cs + Present("l.id", "<", IntOf(q.beforeId));
    sql, params, n := Bind(sql, params, n, "l.level", ">=", IntOf(q.minLevel), cs);
    cs := cs + Present("l.level", ">=", IntOf(q.minLevel));
    sql, params, n := Bind(sql, params, n, "l.device_id", "=", IntOf(q.deviceId), cs);
    cs := cs + Present("l.device_id", "=", IntOf(q.deviceId));
    sql, params, n := Bind(sql, params, n, "l.name", "=", TextOf(q.name), cs);
    cs := cs + Present("l.name", "=", TextOf(q.name));
    sql, params, n := Bind(sql, params, n, "l.ts", ">=", IntOf(q.since), cs);
    cs := cs + Present("l.ts", ">=", IntOf(q.since));
    sql, params, n := Bind(sql, params, n, "l.ts", "<=", IntOf(q.until), cs);
  }

  // ---------- a reader of such statements ----------

  datatype Cond = Compare(column: string, op: string, n: nat) | Matching(n: nat)

  datatype Statement = Statement(conds: seq<Cond>, limit: nat)

  /** AND column op ?n, AND l.id IN (... MATCH ?n), and the closing ORDER BY ... LIMIT ?n. */
  function ParseBody(toks: seq<Token>): Option<Statement>
    decreases |toks|
  {
    if |toks| == 3 && toks[0] == Word("ORDER BY l.id DESC") && toks[1] == Word("LIMIT") && toks[2].Param? then
      Some(Statement([], toks[2].n))
    else if |toks| > 4 && toks[0] == Word("AND") && toks[1] == Word("l.id") && toks[2] == Word("IN")
            && toks[3] == Word("logs_fts MATCH") && toks[4].Param? then
      var rest := ParseBody(toks[5..]);
      if rest.None? then None else Some(rest.value.(conds := [Matching(toks[4].n)] + rest.value.conds))
    else if |toks| > 4 && toks[0] == Word("AND") && toks[1].Word? && toks[2].Word? && toks[3].Param? then
      var rest := ParseBody(toks[4..]);
      if rest.None? then None
      else Some(rest.value.(conds := [Compare(toks[1].text, toks[2].text, toks[3].n)] + rest.value.conds))
    else None
  }

  function Parse(sql: seq<Token>): Option<Statement> {
    if |sql| >= 3 && sql[..3] == HEAD then ParseBody(sql[3..]) else None
  }

  datatype Cell = Null | IntCell(i: int) | TextCell(t: string)

  function ColumnOf(r: LogRecord, column: string): Cell {
    if column == "l.id" then IntCell(r.id)
    else if column == "l.ts" then IntCell(r.ts)
    else if column == "l.level" then IntCell(r.level)
    else if column == "l.name" then TextCell(r.name)
    else if column == "l.device_id" then (if r.deviceId.Some? then IntCell(r.deviceId.value) else Null)
    else Null
  }

  /** A comparison with NULL, or of different types, does not hold. */
  predicate CellHolds(cell: Cell, op: string, v: Value) {
    match cell
    case Null => false
    case IntCell(i) => v.Int? && (if op == "<" then i < v.i else if op == "<=" then i <= v.i
                                  else if op == ">=" then i >= v.i else op == "=" && i == v.i)
    case TextCell(t) => v.Text? && op == "=" && t == v.t
  }

  /** `found` stands for the index: whether a row matches a full-text expression. */
  predicate CondHolds(found: (string, LogRecord) -> bool, params: seq<Value>, c: Cond, r: LogRecord) {
    1 <= c.n <= |params| &&
    match c
    case Compare(column, op, n) => CellHolds(ColumnOf(r, column), op, params[n - 1])
    case Matching(n) => params[n - 1].Text? && found(params[n - 1].t, r)
  }

  ghost function Passing(found: (string, LogRecord) -> bool, params: seq<Value>, conds: seq<Cond>): LogRecord -> bool {
    (r: LogRecord) => forall c | c in conds :: CondHolds(found, params, c, r)
  }

  /** Running a statement: None if it does not parse or its limit is not a bound integer. */
  ghost function Run(found: (string, LogRecord) -> bool, logs: Rows, sql: seq<Token>, params: seq<Value>): Option<seq<LogRecord>> {
    var st := Parse(sql);
    if st.None? || !(1 <= st.value.limit <= |params|) || !params[st.value.limit - 1].Int? then None
    else Some(Newest(logs, Passing(found, params, st.value.conds), params[st.value.limit - 1].i))
  }

  // ---------- what a search should mean ----------

  predicate Satisfies(found: (string, LogRecord) -> bool, q: SearchQuery, r: LogRecord) {
    && (FtsExpression(q.text).Some? ==> found(FtsExpression(q.text).value, r))
    && (q.beforeId.Some? ==> r.id < q.beforeId.value)
    && (q.minLevel.Some? ==> r.level >= q.minLevel.value)
    && (q.deviceId.Some? ==> r.deviceId == q.deviceId)
    && (q.name.Some? ==> r.name == q.name.value)
    && (q.since.Some? ==> r.ts >= q.since.value)
    && (q.until.Some? ==> r.ts <= q.until.value)
  }

  predicate ClauseHolds(found: (string, LogRecord) -> bool, c: Clause, r: LogRecord) {
    match c
    case Match(expr) => found(expr, r)
    case Clause(column, op, v) => CellHolds(ColumnOf(r, column), op, v)
  }

  predicate AllHold(found: (string, LogRecord) -> bool, cs: seq<Clause>, r: LogRecord) {
    forall c | c in cs :: ClauseHolds(found, c, r)
  }

  lemma BothHold(found: (string, LogRecord) -> bool, a: seq<Clause>, b: seq<Clause>, r: LogRecord)
    ensures AllHold(found, a + b, r) <==> AllHold(found, a, r) && AllHold(found, b, r)
  {
    if AllHold(found, a + b, r) {
      assert forall c | c in a :: c in a + b;
      assert forall c | c in b :: c in a + b;
    }
  }

  lemma PresentHolds(found: (string, LogRecord) -> bool, column: string, op: string, v: Option<Value>, r: LogRecord)
    ensures AllHold(found, Present(column, op, v), r) <==> (v.Some? ==> CellHolds(ColumnOf(r, column), op, v.value))
  {
    if v.Some? {
      assert Clause(column, op, v.value) in Present(column, op, v);
    }
  }

  /** The clauses together say what the query asks for. */
  lemma ClausesMean(found: (string, LogRecord) -> bool, q: SearchQuery, r: LogRecord)
    ensures AllHold(found, Clauses(q), r) <==> Satisfies(found, q, r)
  {
    var c0 := TextClause(q);
    var c1 := c0 + Present("l.id", "<", IntOf(q.beforeId));
    var c2 := c1 + Present("l.level", ">=", IntOf(q.minLevel));
    var c3 := c2 + Present("l.device_id", "=", IntOf(q.deviceId));
    var c4 := c3 + Present("l.name", "=", TextOf(q.name));
    var c5 := c4 + Present("l.ts", ">=", IntOf(q.since));
    BothHold(found, c0, Present("l.id", "<", IntOf(q.beforeId)), r);
    BothHold(found, c1, Present("l.level", ">=", IntOf(q.minLevel)), r);
    BothHold(found, c2, Present("l.device_id", "=", IntOf(q.deviceId)), r);
    BothHold(found, c3, Present("l.name", "=", TextOf(q.name)), r);
    BothHold(found, c4, Present("l.ts", ">=", IntOf(q.since)), r);
    BothHold(found, c5, Present("l.ts", "<=", IntOf(q.until)), r);
    EachHolds(found, q, r);
  }

  lemma EachHolds(found: (string, LogRecord) -> bool, q: SearchQuery, r: LogRecord)
    ensures AllHold(found, TextClause(q), r) <==>
              (FtsExpression(q.text).Some? ==> found(FtsExpression(q.text).value, r))
    ensures AllHold(found, Present("l.id", "<", IntOf(q.beforeId)), r) <==>
              (q.beforeId.Some? ==> r.id < q.beforeId.value)
    ensures AllHold(found, Present("l.level", ">=", IntOf(q.minLevel)), r) <==>
              (q.minLevel.Some? ==> r.level >= q.minLevel.value)
    ensures AllHold(found, Present("l.device_id", "=", IntOf(q.deviceId)), r) <==>
              (q.deviceId.Some? ==> r.deviceId == q.deviceId)
    ensures AllHold(found, Present("l.name", "=", TextOf(q.name)), r) <==>
              (q.name.Some? ==> r.name == q.name.value)
    ensures AllHold(found, Present("l.ts", ">=", IntOf(q.since)), r) <==> (q.since.Some? ==> r.ts >= q.since.value)
    ensures AllHold(found, Present("l.ts", "<=", IntOf(q.until)), r) <==> (q.until.Some? ==> r.ts <= q.until.value)
  {
    var fts := FtsExpression(q.text);
    if fts.Some? { assert Match(fts.value) in TextClause(q); }
    PresentHolds(found, "l.id", "<", IntOf(q.beforeId), r);
    PresentHolds(found, "l.level", ">=", IntOf(q.minLevel), r);
    PresentHolds(found, "l.device_id", "=", IntOf(q.deviceId), r);
    PresentHolds(found, "l.name", "=", TextOf(q.name), r);
    PresentHolds(found, "l.ts", ">=", IntOf(q.since), r);
    PresentHolds(found, "l.ts", "<=", IntOf(q.until), r);
  }

  // ---------- the built statement reads back as its clauses ----------

  /** The text match, if any, comes first, and no comparison looks like the start of it. */
  ghost predicate Ordered(cs: seq<Clause>) {
    forall i | 0 <= i < |cs| :: if cs[i].Match? then i == 0 else cs[i].op != "IN"
  }

  lemma ClausesOrdered(q: SearchQuery)
    ensures Ordered(Clauses(q))
  {
    var cs := TextClause(q);
    Follows(cs, "l.id", "<", IntOf(q.beforeId));
    cs := cs + Present("l.id", "<", IntOf(q.beforeId));
    Follows(cs, "l.level", ">=", IntOf(q.minLevel));
    cs := cs + Present("l.level", ">=", IntOf(q.minLevel));
    Follows(cs, "l.device_id", "=", IntOf(q.deviceId));
    cs := cs + Present("l.device_id", "=", IntOf(q.deviceId));
    Follows(cs, "l.name", "=", TextOf(q.name));
    cs := cs + Present("l.name", "=", TextOf(q.name));
    Follows(cs, "l.ts", ">=", IntOf(q.since));
    cs := cs + Present("l.ts", ">=", IntOf(q.since));
    Follows(cs, "l.ts", "<=", IntOf(q.until));
  }

  lemma Follows(cs: seq<Clause>, column: string, op: string, v: Option<Value>)
    requires Ordered(cs) && op != "IN"
    ensures Ordered(cs + Present(column, op, v))
  {
  }

  function CondOf(c: Clause, n: nat): Cond {
    if c.Match? then Matching(n) else Compare(c.column, c.op, n)
  }

  function Conds(cs: seq<Clause>): seq<Cond> {
    seq(|cs|, i requires 0 <= i < |cs| => CondOf(cs[i], i + 1))
  }

  lemma ParseOne(c: Clause, n: nat, rest: seq<Token>)
    requires if c.Match? then n == 1 else c.op != "IN"
    requires ParseBody(rest).Some?
    ensures ParseBody(TextFor(c, n) + rest)
         == Some(Statement([CondOf(c, n)] + ParseBody(rest).value.conds, ParseBody(rest).value.limit))
  {
    var toks := TextFor(c, n) + rest;
    if c.Match? {
      assert toks[5..] == rest;
    } else {
      assert toks[0] == Word("AND") && toks[2] == Word(c.op);
      assert toks[1] == Word(c.column) && toks[3] == Param(n);
      assert toks[4..] == rest;
    }
  }

  lemma CondsSnoc(cs: seq<Clause>, more: seq<Cond>)
    requires cs != []
    ensures Conds(cs[..|cs| - 1]) + ([CondOf(cs[|cs| - 1], |cs|)] + more) == Conds(cs) + more
  {
  }

  lemma {:induction false} ParseRendered(cs: seq<Clause>, rest: seq<Token>)
    requires Ordered(cs) && ParseBody(rest).Some?
    ensures ParseBody(Rendered(cs) + rest)
         == Some(Statement(Conds(cs) + ParseBody(rest).value.conds, ParseBody(rest).value.limit))
  {
    if cs == [] {
      assert Rendered(cs) + rest == rest;
      assert Conds(cs) + ParseBody(rest).value.conds == ParseBody(rest).value.conds;
    } else {
      var front, c := cs[..|cs| - 1], cs[|cs| - 1];
      ParseOne(c, |cs|, rest);
      ParseRendered(front, TextFor(c, |cs|) + rest);
      Regroup(Rendered(front), TextFor(c, |cs|), rest);
      CondsSnoc(cs, ParseBody(rest).value.conds);
    }
  }

  /** The placeholders of a statement, in order. */
  function Placeholders(sql: seq<Token>): seq<nat> {
    if sql == [] then []
    else Placeholders(sql[..|sql| - 1]) + if sql[|sql| - 1].Param? then [sql[|sql| - 1].n] else []
  }

  lemma {:induction false} PlaceholdersConcat(a: seq<Token>, b: seq<Token>)
    ensures Placeholders(a + b) == Placeholders(a) + Placeholders(b)
  {
    if b == [] {
      assert a + b == a;
    } else {
      assert (a + b)[..|a + b| - 1] == a + b[..|b| - 1];
      PlaceholdersConcat(a, b[..|b| - 1]);
    }
  }

  lemma OneParam(toks: seq<Token>, n: nat)
    requires toks != [] && toks[|toks| - 1] == Param(n)
    requires forall i | 0 <= i < |toks| - 1 :: toks[i].Word?
    ensures Placeholders(toks) == [n]
  {
    NoParams(toks[..|toks| - 1]);
  }

  lemma {:induction false} NoParams(toks: seq<Token>)
    requires forall i | 0 <= i < |toks| :: toks[i].Word?
    ensures Placeholders(toks) == []
  {
    if toks != [] { NoParams(toks[..|toks| - 1]); }
  }

  function Upto(n: nat): seq<nat> {
    seq(n, i => i + 1)
  }

  lemma OneEach(c: Clause, n: nat)
    requires c.Match? ==> n == 1
    ensures Placeholders(TextFor(c, n)) == [n]
  {
    OneParam(TextFor(c, n), n);
  }

  lemma UptoSnoc(n: nat)
    ensures Upto(n + 1) == Upto(n) + [n + 1]
  {
  }

  lemma {:induction false} RenderedPlaceholders(cs: seq<Clause>)
    requires Ordered(cs)
    ensures Placeholders(Rendered(cs)) == Upto(|cs|)
  {
    if cs != [] {
      var front, c := cs[..|cs| - 1], cs[|cs| - 1];
      RenderedPlaceholders(front);
      PlaceholdersConcat(Rendered(front), TextFor(c, |cs|));
      OneEach(c, |cs|);
      UptoSnoc(|front|);
    }
  }

  lemma StatementPlaceholders(body: seq<Token>, n: nat)
    ensures Placeholders(HEAD + body + Tail(n)) == Placeholders(body) + [n]
  {
    PlaceholdersConcat(HEAD + body, Tail(n));
    PlaceholdersConcat(HEAD, body);
    NoParams(HEAD);
    OneParam(Tail(n), n);
  }

  /** The placeholders of the built statement are exactly ?1 to ?n, each once, and n values are bound. */
  lemma NumberedOnce(q: SearchQuery)
    ensures var cs := Clauses(q);
      var numbers := Placeholders(HEAD + Rendered(cs) + Tail(|cs| + 1));
      && |numbers| == |Bound(cs) + [Int(q.limit)]| && forall i | 0 <= i < |numbers| :: numbers[i] == i + 1
  {
    var cs := Clauses(q);
    ClausesOrdered(q);
    OnceFor(cs);
  }

  lemma OnceFor(cs: seq<Clause>)
    requires Ordered(cs)
    ensures Placeholders(HEAD + Rendered(cs) + Tail(|cs| + 1)) == Upto(|cs| + 1)
  {
    RenderedPlaceholders(cs);
    StatementPlaceholders(Rendered(cs), |cs| + 1);
    UptoSnoc(|cs|);
  }

  /** Reading the built statement against its bound values tests exactly the clauses. */
  lemma CondsMean(found: (string, LogRecord) -> bool, cs: seq<Clause>, params: seq<Value>, r: LogRecord)
    requires |cs| <= |params| && params[..|cs|] == Bound(cs)
    ensures (forall c | c in Conds(cs) :: CondHolds(found, params, c, r)) <==> AllHold(found, cs, r)
  {
    forall i | 0 <= i < |cs|
      ensures Conds(cs)[i] in Conds(cs) && CondHolds(found, params, Conds(cs)[i], r) == ClauseHolds(found, cs[i], r)
    {
      assert params[..|cs|][i] == ValueOf(cs[i]);
    }
  }

  lemma ParseTail(n: nat)
    ensures ParseBody(Tail(n)) == Some(Statement([], n))
  {
  }

  lemma ParseAfterHead(body: seq<Token>)
    ensures Parse(HEAD + body) == ParseBody(body)
  {
    assert (HEAD + body)[..3] == HEAD && (HEAD + body)[3..] == body;
  }

  lemma ParseBuilt(cs: seq<Clause>, tail: seq<Token>)
    requires Ordered(cs) && ParseBody(tail) == Some(Statement([], |cs| + 1))
    ensures Parse(HEAD + Rendered(cs) + tail) == Some(Statement(Conds(cs), |cs| + 1))
  {
    ParseRendered(cs, tail);
    Regroup(HEAD, Rendered(cs), tail);
    ParseAfterHead(Rendered(cs) + tail);
    assert Conds(cs) + [] == Conds(cs);
  }

  lemma BuiltParses(cs: seq<Clause>)
    requires Ordered(cs)
    ensures Parse(HEAD + Rendered(cs) + Tail(|cs| + 1)) == Some(Statement(Conds(cs), |Bound(cs)| + 1))
  {
    ParseTail(|cs| + 1);
    ParseBuilt(cs, Tail(|cs| + 1));
  }

  lemma SameTest(found: (string, LogRecord) -> bool, q: SearchQuery, r: LogRecord)
    ensures Passing(found, Bound(Clauses(q)) + [Int(q.limit)], Conds(Clauses(q)))(r) == Satisfies(found, q, r)
  {
    var cs := Clauses(q);
    CondsMean(found, cs, Bound(cs) + [Int(q.limit)], r);
    ClausesMean(found, q, r);
  }

  lemma RunParsed(found: (string, LogRecord) -> bool, logs: Rows, sql: seq<Token>, bound: seq<Value>, limit: int,
                  conds: seq<Cond>, wanted: LogRecord -> bool)
    requires Parse(sql) == Some(Statement(conds, |bound| + 1))
    requires forall r :: Passing(found, bound + [Int(limit)], conds)(r) == wanted(r)
    ensures Run(found, logs, sql, bound + [Int(limit)]) == Some(Newest(logs, wanted, limit))
  {
    FilterSame(Scan(logs), Passing(found, bound + [Int(limit)], conds), wanted);
  }

  /**
   * The builder preserves meaning: whatever filters are present, running the statement it builds
   * over any table gives the rows that satisfy all of them, newest first, cut to the limit.
   */
  lemma SearchMeaning(found: (string, LogRecord) -> bool, q: SearchQuery, logs: Rows, wanted: LogRecord -> bool)
    requires forall r :: wanted(r) <==>
               && (FtsExpression(q.text).Some? ==> found(FtsExpression(q.text).value, r))
               && (q.beforeId.Some? ==> r.id < q.beforeId.value)
               && (q.minLevel.Some? ==> r.level >= q.minLevel.value)
               && (q.deviceId.Some? ==> r.deviceId == Some(q.deviceId.value))
               && (q.name.Some? ==> r.name == q.name.value)
               && (q.since.Some? ==> r.ts >= q.since.value)
               && (q.until.Some? ==> r.ts <= q.until.value)
    ensures var cs := Clauses(q);
      Run(found, logs, HEAD + Rendered(cs) + Tail(|cs| + 1), Bound(cs) + [Int(q.limit)])
      == Some(Newest(logs, wanted, q.limit))
  {
    var cs := Clauses(q);
    ClausesOrdered(q);
    BuiltParses(cs);
    forall r ensures Passing(found, Bound(cs) + [Int(q.limit)], Conds(cs))(r) == wanted(r) {
      SameTest(found, q, r);
    }
    RunParsed(found, logs, HEAD + Rendered(cs) + Tail(|cs| + 1), Bound(cs), q.limit, Conds(cs), wanted);
  }
}
