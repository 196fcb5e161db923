/** Free text as a full-text query (src/store/reader.rs, fts_expression), printed and parsed back. */
module FtsQuery {
  import opened Basics
  import opened Text

  // ---------- split_whitespace ----------

  /** Length of the leading run without whitespace. */
  function Run(s: string): (n: nat)
    ensures n <= |s|
    ensures s != [] && !IsWhitespace(s[0]) ==> n > 0
  {
    if s == [] || IsWhitespace(s[0]) then 0 else 1 + Run(s[1..])
  }

  function SplitWhitespace(s: string): seq<string>
    decreases |s|
  {
    if s == [] then []
    else if IsWhitespace(s[0]) then SplitWhitespace(s[1..])
    else [s[..Run(s)]] + SplitWhitespace(s[Run(s)..])
  }

  // ---------- the printer ----------

  /** Doubles every double quote. */
  function Escape(t: string): string {
    if t == [] then []
    else (if t[0] == '"' then "\"\"" else [t[0]]) + Escape(t[1..])
  }

  function EscapeAll(tokens: seq<string>): seq<string> {
    if tokens == [] then []
    else
      var t := Escape(tokens[0]);
      (if t == [] then [] else [t]) + EscapeAll(tokens[1..])
  }

  /** Each token quoted, the last with a trailing star, joined by AND. */
  function Join(escaped: seq<string>): string
    requires escaped != []
  {
    if |escaped| == 1 then "\"" + (escaped[0] + "\"*")
    else "\"" + (escaped[0] + ("\"" + (" AND " + Join(escaped[1..]))))
  }

  function FtsExpression(text: Option<string>): Option<string> {
    if text.None? then None
    else
      var raw := Trim(text.value);
      if raw == [] then None
      else
        var tokens := EscapeAll(SplitWhitespace(raw));
        if tokens == [] then None else Some(Join(tokens))
  }

  // ---------- the FTS5 syntax: strings, prefixes and AND (sections 3.1, 3.3 and 3.7) ----------

  datatype Phrase = Phrase(text: string, prefix: bool)

  /** The rest of a string after its opening quote: its content, and what follows its closing quote. */
  function ParseString(s: string): (r: Option<(string, string)>)
    ensures r.Some? ==> |r.value.1| < |s|
    decreases |s|
  {
    if s == [] then None
    else if s[0] != '"' then
      var r := ParseString(s[1..]);
      if r.None? then None else Some(([s[0]] + r.value.0, r.value.1))
    else if |s| > 1 && s[1] == '"' then
      var r := ParseString(s[2..]);
      if r.None? then None else Some((['"'] + r.value.0, r.value.1))
    else Some(([], s[1..]))
  }

  function SkipSpaces(s: string): (r: string)
    ensures |r| <= |s|
  {
    if s != [] && (s[0] == ' ' || s[0] == '\t' || s[0] == '\n' || s[0] == '\r') then SkipSpaces(s[1..]) else s
  }

  predicate StartsWith(s: string, p: string) {
    |p| <= |s| && s[..|p|] == p
  }

  /** query := phrase | phrase AND query; phrase := string | string * */
  function ParseQuery(s: string): Option<seq<Phrase>>
    decreases |s|
  {
    var s0 := SkipSpaces(s);
    if s0 == [] || s0[0] != '"' then None
    else
      var r := ParseString(s0[1..]);
      if r.None? then None
      else
        var s1 := SkipSpaces(r.value.1);
        var prefix := s1 != [] && s1[0] == '*';
        var s2 := if prefix then SkipSpaces(s1[1..]) else s1;
        var phrase := Phrase(r.value.0, prefix);
        if s2 == [] then Some([phrase])
        else if StartsWith(s2, "AND") then
          var rest := ParseQuery(s2[3..]);
          if rest.None? then None else Some([phrase] + rest.value)
        else None
  }

  /** The query a list of words should mean. */
  function PhrasesOf(tokens: seq<string>): seq<Phrase> {
    if tokens == [] then []
    else [Phrase(tokens[0], |tokens| == 1)] + PhrasesOf(tokens[1..])
  }

  // ---------- quoting undoes itself ----------

  lemma {:induction false} StringStep(c: char, tail: string, text: string, rest: string)
    requires ParseString(tail) == Some((text, rest))
    ensures c != '"' ==> ParseString([c] + tail) == Some(([c] + text, rest))
    ensures ParseString("\"\"" + tail) == Some((['"'] + text, rest))
  {
    assert ([c] + tail)[1..] == tail;
    assert ("\"\"" + tail)[2..] == tail;
  }

  lemma {:induction false} QuotedParses(t: string, rest: string)
    requires rest == [] || rest[0] != '"'
    ensures ParseString(Escape(t) + ("\"" + rest)) == Some((t, rest))
  {
    if t == [] {
      assert Escape(t) + ("\"" + rest) == "\"" + rest;
      assert ("\"" + rest)[1..] == rest;
    } else {
      QuotedParses(t[1..], rest);
      StringStep(t[0], Escape(t[1..]) + ("\"" + rest), t[1..], rest);
      EscapeStep(t, "\"" + rest);
    }
  }

  lemma {:induction false} EscapeStep(t: string, after: string)
    requires t != []
    ensures [t[0]] + t[1..] == t
    ensures Escape(t) + after == (if t[0] == '"' then "\"\"" else [t[0]]) + (Escape(t[1..]) + after)
  {
    Regroup(if t[0] == '"' then "\"\"" else [t[0]], Escape(t[1..]), after);
  }

  lemma {:induction false} EscapeKeeps(tokens: seq<string>)
    requires forall t | t in tokens :: t != []
    ensures |EscapeAll(tokens)| == |tokens|
    ensures forall i | 0 <= i < |tokens| :: EscapeAll(tokens)[i] == Escape(tokens[i])
  {
    if tokens != [] {
      assert tokens[0] in tokens && forall t | t in tokens[1..] :: t in tokens;
      EscapeKeeps(tokens[1..]);
    }
  }

  lemma {:induction false} LastPhrase(t: string)
    ensures ParseQuery("\"" + (Escape(t) + "\"*")) == Some([Phrase(t, true)])
  {
    QuotedParses(t, "*");
    var s := "\"" + (Escape(t) + "\"*");
    assert "\"*" == "\"" + "*";
    assert s[1..] == Escape(t) + ("\"" + "*");
    assert "*"[1..] == [];
  }

  /** After a phrase, ` AND ` leads on to the next one. */
  lemma AndBetween(q: string)
    ensures SkipSpaces(" AND " + q) == "AND " + q
    ensures StartsWith("AND " + q, "AND") && ("AND " + q)[3..] == " " + q && ("AND " + q)[0] == 'A'
  {
    var and := "AND " + q;
    assert (" AND " + q)[1..] == and;
    assert and[..3] == "AND" && and[3..] == " " + q;
  }

  lemma NextPhrase(t: string, q: string)
    requires q != [] && q[0] == '"'
    ensures var r := ParseQuery(q);
      ParseQuery("\"" + (Escape(t) + ("\"" + (" AND " + q))))
        == if r.None? then None else Some([Phrase(t, false)] + r.value)
  {
    QuotedParses(t, " AND " + q);
    AndBetween(q);
    SpaceBefore(q);
    AfterPhrase(Escape(t) + ("\"" + (" AND " + q)), t, " AND " + q, "AND " + q);
  }

  /** How a quoted phrase followed by AND is read. */
  lemma AfterPhrase(quoted: string, t: string, rest: string, and: string)
    requires ParseString(quoted) == Some((t, rest)) && SkipSpaces(rest) == and && StartsWith(and, "AND") && and[0] == 'A'
    ensures var r := ParseQuery(and[3..]);
      ParseQuery("\"" + quoted) == if r.None? then None else Some([Phrase(t, false)] + r.value)
  {
    var s := "\"" + quoted;
    assert s[1..] == quoted && SkipSpaces(s) == s;
  }

  /** A leading space changes nothing. */
  lemma SpaceBefore(q: string)
    requires q != [] && q[0] == '"'
    ensures ParseQuery(" " + q) == ParseQuery(q)
  {
    assert (" " + q)[1..] == q;
    assert SkipSpaces(" " + q) == SkipSpaces(q) == q;
  }

  lemma {:induction false} JoinParses(tokens: seq<string>, escaped: seq<string>)
    requires tokens != [] && |escaped| == |tokens|
    requires forall i | 0 <= i < |tokens| :: escaped[i] == Escape(tokens[i])
    ensures Join(escaped) != [] && Join(escaped)[0] == '"'
    ensures ParseQuery(Join(escaped)) == Some(PhrasesOf(tokens))
  {
    if |tokens| == 1 {
      LastPhrase(tokens[0]);
      assert PhrasesOf(tokens) == [Phrase(tokens[0], true)];
    } else {
      JoinParses(tokens[1..], escaped[1..]);
      NextPhrase(tokens[0], Join(escaped[1..]));
    }
  }

  // ---------- words ----------

  lemma {:induction false} RunIsWord(s: string)
    ensures forall i | 0 <= i < Run(s) :: !IsWhitespace(s[i])
    ensures Run(s) < |s| ==> IsWhitespace(s[Run(s)])
  {
    if s != [] && !IsWhitespace(s[0]) {
      RunIsWord(s[1..]);
      forall i | 0 <= i < Run(s) ensures !IsWhitespace(s[i]) {
        if i > 0 { assert s[i] == s[1..][i - 1]; }
      }
    }
  }

  predicate IsWord(t: string) {
    t != [] && forall c | c in t :: !IsWhitespace(c)
  }

  function NonSpace(s: string): string {
    if s == [] then [] else (if IsWhitespace(s[0]) then [] else [s[0]]) + NonSpace(s[1..])
  }

  function Glue(tokens: seq<string>): string {
    if tokens == [] then [] else tokens[0] + Glue(tokens[1..])
  }

  lemma {:induction false} NonSpaceRun(s: string)
    ensures NonSpace(s) == s[..Run(s)] + NonSpace(s[Run(s)..])
  {
    if s != [] && !IsWhitespace(s[0]) {
      NonSpaceRun(s[1..]);
      assert s[Run(s)..] == s[1..][Run(s[1..])..];
      assert s[..Run(s)] == [s[0]] + s[1..][..Run(s[1..])];
    }
  }

  /** The words hold exactly the text's non-blank characters, in order, and each is one solid word. */
  lemma {:induction false} WordsOf(s: string)
    ensures forall t | t in SplitWhitespace(s) :: IsWord(t)
    ensures Glue(SplitWhitespace(s)) == NonSpace(s)
    ensures SplitWhitespace(s) == [] <==> Blank(s)
    decreases |s|
  {
    if s != [] {
      if IsWhitespace(s[0]) {
        WordsOf(s[1..]);
        assert s == [s[0]] + s[1..];
      } else {
        RunIsWord(s);
        NonSpaceRun(s);
        WordsOf(s[Run(s)..]);
        assert s[0] in s;
        var rest := SplitWhitespace(s[Run(s)..]);
        assert ([s[..Run(s)]] + rest)[1..] == rest;
        assert IsWord(s[..Run(s)]);
      }
    }
  }

  lemma {:induction false} SplitTrailing(s: string, c: char)
    requires IsWhitespace(c)
    ensures SplitWhitespace(s + [c]) == SplitWhitespace(s)
    decreases |s|
  {
    if s == [] {
      assert s + [c] == [c] && [c][1..] == [];
    } else if IsWhitespace(s[0]) {
      assert (s + [c])[1..] == s[1..] + [c];
      SplitTrailing(s[1..], c);
    } else {
      RunTrailing(s, c);
      assert (s + [c])[..Run(s)] == s[..Run(s)];
      assert (s + [c])[Run(s)..] == s[Run(s)..] + [c];
      SplitTrailing(s[Run(s)..], c);
    }
  }

  lemma {:induction false} RunTrailing(s: string, c: char)
    requires IsWhitespace(c)
    ensures Run(s + [c]) == Run(s)
  {
    if s == [] {
      assert s + [c] == [c];
    } else {
      assert (s + [c])[1..] == s[1..] + [c];
      RunTrailing(s[1..], c);
    }
  }

  lemma {:induction false} SplitTrimStart(s: string)
    ensures SplitWhitespace(TrimStart(s)) == SplitWhitespace(s)
    ensures Blank(TrimStart(s)) <==> Blank(s)
  {
    if s != [] && IsWhitespace(s[0]) {
      SplitTrimStart(s[1..]);
      assert s == [s[0]] + s[1..];
    }
  }

  lemma {:induction false} SplitTrimEnd(s: string)
    ensures SplitWhitespace(TrimEnd(s)) == SplitWhitespace(s)
    ensures Blank(s) ==> TrimEnd(s) == []
    ensures TrimEnd(s) == [] ==> Blank(s)
  {
    if s != [] && IsWhitespace(s[|s| - 1]) {
      var front, c := s[..|s| - 1], s[|s| - 1];
      assert s == front + [c];
      SplitTrimEnd(front);
      SplitTrailing(front, c);
    } else if s != [] {
      assert s[|s| - 1] in s;
    }
  }

  // ---------- where a text is cut ----------

  /** Whitespace separates: what is in front of it and what is behind it are split independently. */
  lemma {:induction false} SplitAtSpace(a: string, c: char, b: string)
    requires IsWhitespace(c)
    ensures SplitWhitespace(a + [c] + b) == SplitWhitespace(a) + SplitWhitespace(b)
    decreases |a|
  {
    var s := a + [c] + b;
    if a == [] {
      assert s[1..] == b;
    } else if IsWhitespace(a[0]) {
      assert s[1..] == a[1..] + [c] + b;
      SplitAtSpace(a[1..], c, b);
    } else {
      RunAtSpace(a, c, b);
      assert s[..Run(a)] == a[..Run(a)];
      assert s[Run(a)..] == a[Run(a)..] + [c] + b;
      SplitAtSpace(a[Run(a)..], c, b);
    }
  }

  lemma {:induction false} RunAtSpace(a: string, c: char, b: string)
    requires IsWhitespace(c)
    ensures Run(a + [c] + b) == Run(a)
  {
    if a == [] {
      assert (a + [c] + b)[0] == c;
    } else {
      assert (a + [c] + b)[1..] == a[1..] + [c] + b;
      RunAtSpace(a[1..], c, b);
    }
  }

  /** Nothing else does: a text without whitespace is one word. */
  lemma {:induction false} SplitSolid(t: string)
    requires t != [] && forall i | 0 <= i < |t| :: !IsWhitespace(t[i])
    ensures SplitWhitespace(t) == [t]
  {
    RunIsWord(t);
    assert Run(t) == |t|;
    assert t[..Run(t)] == t && t[Run(t)..] == [];
  }

  // ---------- main result ----------

  /**
   * Whatever quotes or operators the text contains: there is no query exactly when there is no text or it
   * is blank, and otherwise the query parses to its words, in order, the last one a prefix and no other.
   */
  lemma QuotingRoundTrip(text: string)
    ensures FtsExpression(None) == None
    ensures FtsExpression(Some(text)).None? <==> forall c | c in text :: IsWhitespace(c)
    ensures FtsExpression(Some(text)).Some? ==>
              var words, read := SplitWhitespace(text), ParseQuery(FtsExpression(Some(text)).value);
              && read.Some? && |read.value| == |words|
              && forall i | 0 <= i < |words| :: read.value[i] == Phrase(words[i], i == |words| - 1)
  {
    var raw := Trim(text);
    SplitTrimStart(text);
    SplitTrimEnd(TrimStart(text));
    var tokens := SplitWhitespace(raw);
    WordsOf(raw);
    WordsOf(text);
    EscapeKeeps(tokens);
    if tokens != [] {
      JoinParses(tokens, EscapeAll(tokens));
      PhrasesAre(tokens);
    }
  }

  lemma {:induction false} PhrasesAre(tokens: seq<string>)
    ensures |PhrasesOf(tokens)| == |tokens|
    ensures forall i | 0 <= i < |tokens| :: PhrasesOf(tokens)[i] == Phrase(tokens[i], i == |tokens| - 1)
  {
    if tokens != [] { PhrasesAre(tokens[1..]); }
  }
}
