// What stripping does to each piece of Kotlin source, piece by piece and in its own characters.
module KotlinLaws {
  import opened KotlinComments
  import opened KotlinIdempotence
  import D = KotlinDelimiters

  // How often the character occurs.
  function Occurrences(s: string, c: char): nat {
    if s == "" then 0 else (if s[0] == c then 1 else 0) + Occurrences(s[1..], c)
  }

  function Repeated(c: char, n: nat): string {
    if n == 0 then "" else [c] + Repeated(c, n - 1)
  }

  predicate Lacks(s: string, c: char) {
    forall i :: 0 <= i < |s| ==> s[i] != c
  }

  lemma {:induction false} NewlinesAre(s: string)
    ensures Newlines(s) == Repeated('\n', Occurrences(s, '\n'))
  {
    if s != "" {
      NewlinesAre(s[1..]);
    }
  }

  // ---------- Line comments ----------

  lemma {:induction false} LineEndsAt(line: string, rest: string)
    requires Lacks(line, '\n') && (rest == "" || rest[0] == '\n')
    ensures LineEnd(line + rest) == |line|
  {
    if line == "" {
      assert line + rest == rest;
    } else {
      assert (line + rest)[1..] == line[1..] + rest;
      LineEndsAt(line[1..], rest);
    }
  }

  // A line comment goes; its newline stays.
  lemma LineCommentGoes(line: string, rest: string)
    requires Lacks(line, '\n') && (rest == "" || rest[0] == '\n')
    ensures Strip("//" + (line + rest)) == Strip(rest)
  {
    var s := "//" + (line + rest);
    Openers(s);
    assert s[2..] == line + rest;
    LineEndsAt(line, rest);
    assert s[..Length(s)] == "//" + line && s[Length(s)..] == rest;
    NewlinesOf("//", line);
    NewlinesOfFew("//");
    NoNewlines(line);
  }

  lemma {:induction false} NoNewlines(s: string)
    requires Lacks(s, '\n')
    ensures Newlines(s) == ""
  {
    if s != "" {
      NoNewlines(s[1..]);
    }
  }

  // ---------- Block comments ----------

  lemma {:induction false} BlockGoesOn(body: string, rest: string, depth: nat)
    requires depth > 0 && Lacks(body, '*') && Lacks(body, '/')
    ensures BlockEnd(body + rest, depth) == |body| + BlockEnd(rest, depth)
  {
    if body == "" {
      assert body + rest == rest;
    } else {
      assert (body + rest)[1..] == body[1..] + rest && (body + rest)[0] == body[0];
      BlockGoesOn(body[1..], rest, depth);
    }
  }

  lemma BlockCloses(rest: string, depth: nat)
    requires depth > 0
    ensures BlockEnd("*/" + rest, depth) == 2 + BlockEnd(rest, depth - 1)
  {
    var s := "*/" + rest;
    assert s[0] == '*' && s[2..] == rest;
  }

  lemma BlockNests(rest: string, depth: nat)
    requires depth > 0
    ensures BlockEnd("/*" + rest, depth) == 2 + BlockEnd(rest, depth + 1)
  {
    var s := "/*" + rest;
    assert s[2..] == rest;
  }

  lemma CommentKind(behind: string)
    ensures var s := "/*" + behind; KindOf(s) == BlockComment && Length(s) == 2 + BlockEnd(behind, 1)
  {
    var s := "/*" + behind;
    Openers(s);
    assert s[2..] == behind;
  }

  lemma CommentIsStripped(s: string, body: string, rest: string)
    requires s == "/*" + (body + rest) && KindOf(s) == BlockComment && Length(s) == 2 + |body|
    ensures Strip(s) == Newlines(body) + Strip(rest)
  {
    assert s[..2 + |body|] == "/*" + body && s[2 + |body|..] == rest;
    NewlinesOf("/*", body);
    NewlinesOfFew("/*");
  }

  lemma CommentOf(body: string, rest: string, behind: string)
    requires behind == body + rest && BlockEnd(behind, 1) == |body|
    ensures Strip("/*" + behind) == Newlines(body) + Strip(rest)
  {
    CommentKind(behind);
    CommentIsStripped("/*" + behind, body, rest);
  }

  // A block comment goes but for its newlines.
  lemma BlockCommentGoes(body: string, rest: string)
    requires Lacks(body, '*') && Lacks(body, '/')
    ensures Strip("/*" + (body + ("*/" + rest))) == Repeated('\n', Occurrences(body, '\n')) + Strip(rest)
  {
    BlockGoesOn(body, "*/" + rest, 1);
    BlockCloses(rest, 1);
    CommentOf(body + "*/", rest, body + ("*/" + rest));
    ClosedNewlines(body);
  }

  lemma ClosedNewlines(body: string)
    ensures Newlines(body + "*/") == Repeated('\n', Occurrences(body, '\n'))
  {
    NewlinesOf(body, "*/");
    NewlinesOfFew("*/");
    NewlinesAre(body);
  }

  // Behind the sign that opens a comment within: what follows it, up to where both are closed.
  lemma InnerEnds(b: string, c: string, rest: string)
    requires Lacks(b, '*') && Lacks(b, '/') && Lacks(c, '*') && Lacks(c, '/')
    ensures BlockEnd(b + ("*/" + (c + ("*/" + rest))), 2) == |b| + |c| + 4
  {
    BlockCloses(rest, 1);
    BlockGoesOn(c, "*/" + rest, 1);
    BlockCloses(c + ("*/" + rest), 2);
    BlockGoesOn(b, "*/" + (c + ("*/" + rest)), 2);
  }

  lemma OuterEnds(a: string, inner: string)
    requires Lacks(a, '*') && Lacks(a, '/')
    ensures BlockEnd(a + ("/*" + inner), 1) == |a| + 2 + BlockEnd(inner, 2)
  {
    BlockNests(inner, 1);
    BlockGoesOn(a, "/*" + inner, 1);
  }

  function Nested(a: string, b: string, c: string): string {
    a + ("/*" + (b + ("*/" + (c + "*/"))))
  }

  lemma NestedSplits(a: string, b: string, c: string, rest: string)
    ensures a + ("/*" + (b + ("*/" + (c + ("*/" + rest))))) == Nested(a, b, c) + rest
    ensures |Nested(a, b, c)| == |a| + |b| + |c| + 6
  {
    Assoc(c, "*/", rest);
    Assoc("*/", c + "*/", rest);
    Assoc(b, "*/" + (c + "*/"), rest);
    Assoc("/*", b + ("*/" + (c + "*/")), rest);
    Assoc(a, "/*" + (b + ("*/" + (c + "*/"))), rest);
  }

  lemma NestedLacksNewlines(a: string, b: string, c: string)
    requires Lacks(a, '\n') && Lacks(b, '\n') && Lacks(c, '\n')
    ensures Lacks(Nested(a, b, c), '\n')
  {
    assert Lacks(c + "*/", '\n');
    assert Lacks("*/" + (c + "*/"), '\n');
    assert Lacks(b + ("*/" + (c + "*/")), '\n');
    assert Lacks("/*" + (b + ("*/" + (c + "*/"))), '\n');
  }

  // And so does one that holds another.
  lemma NestedCommentGoes(a: string, b: string, c: string, rest: string)
    requires Lacks(a, '*') && Lacks(a, '/') && Lacks(b, '*') && Lacks(b, '/') && Lacks(c, '*') && Lacks(c, '/')
    requires Lacks(a, '\n') && Lacks(b, '\n') && Lacks(c, '\n')
    ensures Strip("/*" + (a + ("/*" + (b + ("*/" + (c + ("*/" + rest))))))) == Strip(rest)
  {
    var inner := b + ("*/" + (c + ("*/" + rest)));
    InnerEnds(b, c, rest);
    OuterEnds(a, inner);
    NestedSplits(a, b, c, rest);
    NestedLacksNewlines(a, b, c);
    NoNewlines(Nested(a, b, c));
    CommentOf(Nested(a, b, c), rest, a + ("/*" + inner));
  }

  // ---------- Literals ----------

  lemma {:induction false} QuotedGoesOn(body: string, rest: string, quote: char)
    requires Lacks(body, quote) && Lacks(body, '\\')
    ensures QuotedEnd(body + rest, quote) == |body| + QuotedEnd(rest, quote)
  {
    if body == "" {
      assert body + rest == rest;
    } else {
      assert (body + rest)[1..] == body[1..] + rest && (body + rest)[0] == body[0];
      QuotedGoesOn(body[1..], rest, quote);
    }
  }

  lemma QuotedEnds(body: string, rest: string, quote: char)
    requires Lacks(body, quote) && Lacks(body, '\\') && quote != '\\'
    ensures QuotedEnd(body + ([quote] + rest), quote) == |body| + 1
  {
    QuotedGoesOn(body, [quote] + rest, quote);
    assert ([quote] + rest)[0] == quote;
  }

  // A string stays with all that is in it, comment signs too; only an empty one must not stand in
  // front of another quote.
  lemma StringStays(body: string, rest: string)
    requires Lacks(body, '"') && Lacks(body, '\\')
    requires body == "" ==> rest == "" || rest[0] != '"'
    ensures Strip("\"" + (body + ("\"" + rest))) == "\"" + body + "\"" + Strip(rest)
  {
    var token := "\"" + body + "\"";
    var s := "\"" + (body + ("\"" + rest));
    assert s == token + rest && s[1..] == body + ("\"" + rest);
    Openers(s);
    QuotedEnds(body, rest, '"');
    assert ['"'] == "\"";
    if body == "" {
      assert s[1] == '"' && (rest != "" ==> s[2] == rest[0]);
    } else {
      assert s[1] == body[0];
    }
    StripFirst(token, rest);
  }

  // A backslash hides the quote behind it.
  lemma EscapedQuoteStays(a: string, b: string, rest: string)
    requires Lacks(a, '"') && Lacks(a, '\\') && Lacks(b, '"') && Lacks(b, '\\')
    ensures Strip("\"" + (a + ("\\\"" + (b + ("\"" + rest))))) == "\"" + a + "\\\"" + b + "\"" + Strip(rest)
  {
    var hidden := "\\\"" + (b + ("\"" + rest));
    var s := "\"" + (a + hidden);
    var token := "\"" + a + "\\\"" + b + "\"";
    assert s == token + rest && s[1..] == a + hidden;
    Openers(s);
    QuotedGoesOn(a, hidden, '"');
    assert hidden[0] == '\\' && hidden[2..] == b + ("\"" + rest);
    QuotedEnds(b, rest, '"');
    assert ['"'] == "\"";
    assert s[1] == if a == "" then '\\' else a[0];
    StripFirst(token, rest);
  }

  lemma {:induction false} TripleGoesOn(body: string, rest: string)
    requires Lacks(body, '"')
    ensures TripleEnd(body + rest) == |body| + TripleEnd(rest)
  {
    if body == "" {
      assert body + rest == rest;
    } else {
      assert (body + rest)[1..] == body[1..] + rest && (body + rest)[0] == body[0];
      TripleGoesOn(body[1..], rest);
    }
  }

  // So does a triple-quoted literal, in which a backslash hides nothing.
  lemma TripleStays(body: string, rest: string)
    requires Lacks(body, '"')
    ensures Strip("\"\"\"" + (body + ("\"\"\"" + rest))) == "\"\"\"" + body + "\"\"\"" + Strip(rest)
  {
    var quotes := "\"\"\"";
    var s := quotes + (body + (quotes + rest));
    var token := quotes + body + quotes;
    assert s == token + rest && s[3..] == body + (quotes + rest);
    Openers(s);
    TripleGoesOn(body, quotes + rest);
    assert quotes <= quotes + rest;
    StripFirst(token, rest);
  }

  lemma CharStays(body: string, rest: string)
    requires Lacks(body, '\'') && Lacks(body, '\\')
    ensures Strip("'" + (body + ("'" + rest))) == "'" + body + "'" + Strip(rest)
  {
    var token := "'" + body + "'";
    var s := "'" + (body + ("'" + rest));
    assert s == token + rest && s[1..] == body + ("'" + rest);
    Openers(s);
    QuotedEnds(body, rest, '\'');
    assert ['\''] == "'";
    StripFirst(token, rest);
  }

  // ---------- Code ----------

  // All else stays: every character that opens neither a literal nor, with the next, a comment.
  lemma CodeStays(c: char, rest: string)
    requires c != '"' && c != '\'' && (c == '/' ==> rest == "" || (rest[0] != '/' && rest[0] != '*'))
    ensures Strip([c] + rest) == [c] + Strip(rest)
  {
    var s := [c] + rest;
    Openers(s);
    assert rest != "" ==> s[1] == rest[0];
    StripFirst([c], rest);
  }

  lemma NothingStays()
    ensures Strip("") == ""
  {
  }

  // ---------- Delimiters ----------

  // What counts for the search of a delimiter: outside of literals an opener is worth one and a
  // closer minus one; everything else, and every character of a literal, is worth nothing.
  lemma CodeWeighs(c: char, rest: string, d: D.Delimiters)
    requires c != '"' && c != '\''
    ensures D.Weights([c] + rest, d) == [if c == d.open then 1 else if c == d.close then -1 else 0] + D.Weights(rest, d)
  {
    assert ([c] + rest)[1..] == rest;
  }

  lemma LiteralWeighs(token: string, rest: string, d: D.Delimiters)
    requires token != "" && D.OpensLiteral(token + rest) && D.LiteralLength(token + rest) == |token|
    ensures D.Weights(token + rest, d) == D.Zeros(|token|) + D.Weights(rest, d)
  {
    assert (token + rest)[|token|..] == rest;
  }

  lemma StringWeighsNothing(body: string, rest: string, d: D.Delimiters)
    requires Lacks(body, '"') && Lacks(body, '\\')
    requires body == "" ==> rest == "" || rest[0] != '"'
    ensures D.Weights("\"" + body + "\"" + rest, d) == D.Zeros(|body| + 2) + D.Weights(rest, d)
  {
    var token := "\"" + body + "\"";
    var s := token + rest;
    Openers(s);
    assert s[1..] == body + (['"'] + rest);
    QuotedEnds(body, rest, '"');
    if body == "" {
      assert s[1] == '"' && (rest != "" ==> s[2] == rest[0]);
    } else {
      assert s[1] == body[0];
    }
    LiteralWeighs(token, rest, d);
  }

  lemma CharWeighsNothing(body: string, rest: string, d: D.Delimiters)
    requires Lacks(body, '\'') && Lacks(body, '\\')
    ensures D.Weights("'" + body + "'" + rest, d) == D.Zeros(|body| + 2) + D.Weights(rest, d)
  {
    var token := "'" + body + "'";
    var s := token + rest;
    Openers(s);
    assert s[1..] == body + (['\''] + rest);
    QuotedEnds(body, rest, '\'');
    LiteralWeighs(token, rest, d);
  }

  lemma TripleWeighsNothing(body: string, rest: string, d: D.Delimiters)
    requires Lacks(body, '"')
    ensures D.Weights("\"\"\"" + body + "\"\"\"" + rest, d) == D.Zeros(|body| + 6) + D.Weights(rest, d)
  {
    var quotes := "\"\"\"";
    var token := quotes + body + quotes;
    var s := token + rest;
    Openers(s);
    assert s[3..] == body + (quotes + rest);
    TripleGoesOn(body, quotes + rest);
    assert quotes <= quotes + rest;
    LiteralWeighs(token, rest, d);
  }
}
