// Stripping comments from Kotlin source: the state machine, and what it does token by token.
module KotlinComments {
  const TRIPLE: string := "\"\"\""

  // ---------- Tokens ----------

  datatype Kind = LineComment | BlockComment | TripleLiteral | StringLiteral | CharLiteral | Code

  function KindOf(s: string): Kind
    requires s != ""
  {
    if "//" <= s then LineComment
    else if "/*" <= s then BlockComment
    else if TRIPLE <= s then TripleLiteral
    else if s[0] == '"' then StringLiteral
    else if s[0] == '\'' then CharLiteral
    else Code
  }

  predicate IsComment(kind: Kind) {
    kind in {LineComment, BlockComment}
  }

  // How much of s belongs to a line comment that is already open; the newline does not.
  function LineEnd(s: string): (n: nat)
    ensures n <= |s|
  {
    if s == "" || s[0] == '\n' then 0 else 1 + LineEnd(s[1..])
  }

  // How much of s belongs to block comments, `depth` of which are open.
  function BlockEnd(s: string, depth: nat): (n: nat)
    ensures n <= |s|
  {
    if depth == 0 || s == "" then 0
    else if "/*" <= s then 2 + BlockEnd(s[2..], depth + 1)
    else if "*/" <= s then 2 + BlockEnd(s[2..], depth - 1)
    else 1 + BlockEnd(s[1..], depth)
  }

  // How much of s belongs to an open triple-quoted literal, with the closing quotes.
  function TripleEnd(s: string): (n: nat)
    ensures n <= |s|
  {
    if s == "" then 0 else if TRIPLE <= s then 3 else 1 + TripleEnd(s[1..])
  }

  // How much of s belongs to an open literal that `quote` closes; a backslash hides what follows it.
  function QuotedEnd(s: string, quote: char): (n: nat)
    ensures n <= |s|
  {
    if s == "" then 0
    else if s[0] == '\\' && |s| > 1 then 2 + QuotedEnd(s[2..], quote)
    else if s[0] == quote then 1
    else 1 + QuotedEnd(s[1..], quote)
  }

  // The length of the first token; an unclosed one runs to the end.
  function Length(s: string): (n: nat)
    requires s != ""
    ensures 1 <= n <= |s|
  {
    match KindOf(s)
    case LineComment => 2 + LineEnd(s[2..])
    case BlockComment => 2 + BlockEnd(s[2..], 1)
    case TripleLiteral => 3 + TripleEnd(s[3..])
    case StringLiteral => 1 + QuotedEnd(s[1..], '"')
    case CharLiteral => 1 + QuotedEnd(s[1..], '\'')
    case Code => 1
  }

  function Newlines(s: string): string {
    if s == "" then "" else (if s[0] == '\n' then "\n" else "") + Newlines(s[1..])
  }

  // What is left of the first token: of a comment only its newlines, of anything else all of it.
  function Rendered(s: string): string
    requires s != ""
  {
    if IsComment(KindOf(s)) then Newlines(s[..Length(s)]) else s[..Length(s)]
  }

  function Strip(s: string): string {
    if s == "" then "" else Rendered(s) + Strip(s[Length(s)..])
  }

  // ---------- The state machine ----------

  datatype State = Normal | InLine | InBlock | InTriple | InString | InChar

  // One turn of the loop: the next state and depth, how far the index moves, what is appended.
  datatype Move = Move(state: State, depth: int, width: nat, output: string)

  function Turn(state: State, depth: int, s: string): (m: Move)
    requires s != ""
    ensures 1 <= m.width <= |s|
  {
    match state
    case InLine =>
      if s[0] == '\n' then Move(Normal, depth, 1, "\n") else Move(InLine, depth, 1, "")
    case InBlock =>
      if "/*" <= s then Move(InBlock, depth + 1, 2, "")
      else if "*/" <= s then Move(if depth - 1 == 0 then Normal else InBlock, depth - 1, 2, "")
      else Move(InBlock, depth, 1, if s[0] == '\n' then "\n" else "")
    case InTriple =>
      if TRIPLE <= s then Move(Normal, depth, 3, TRIPLE) else Move(InTriple, depth, 1, s[..1])
    case InString =>
      if s[0] == '\\' && |s| > 1 then Move(InString, depth, 2, s[..2])
      else Move(if s[0] == '"' then Normal else InString, depth, 1, s[..1])
    case InChar =>
      if s[0] == '\\' && |s| > 1 then Move(InChar, depth, 2, s[..2])
      else Move(if s[0] == '\'' then Normal else InChar, depth, 1, s[..1])
    case Normal =>
      if "//" <= s then Move(InLine, depth, 2, "")
      else if "/*" <= s then Move(InBlock, 1, 2, "")
      else if TRIPLE <= s then Move(InTriple, depth, 3, TRIPLE)
      else if s[0] == '"' then Move(InString, depth, 1, "\"")
      else if s[0] == '\'' then Move(InChar, depth, 1, "'")
      else Move(Normal, depth, 1, s[..1])
  }

  function Scan(state: State, depth: int, s: string): string
    decreases |s|
  {
    if s == "" then ""
    else
      var m := Turn(state, depth, s);
      m.output + Scan(m.state, m.depth, s[m.width..])
  }

  // The body of the loop: what the machine does at `index`.
  method TakeTurn(source: string, index: nat, state: State, depth: int)
    returns (nextState: State, nextDepth: int, nextIndex: nat, output: string)
    requires index < |source|
    ensures nextIndex > index
    ensures Move(nextState, nextDepth, nextIndex - index, output) == Turn(state, depth, source[index..])
  {
    nextState, nextDepth, nextIndex, output := state, depth, index + 1, "";
    assert source[index..][..1] == [source[index]];
    if state == InLine {
      if source[index] == '\n' {
        output, nextState := "\n", Normal;
      }
    } else if state == InBlock {
      if StartsAt(source, "/*", index) {
        nextDepth, nextIndex := depth + 1, index + 2;
      } else if StartsAt(source, "*/", index) {
        nextDepth, nextIndex := depth - 1, index + 2;
        if nextDepth == 0 {
          nextState := Normal;
        }
      } else if source[index] == '\n' {
        output := "\n";
      }
    } else if state == InTriple {
      if StartsAt(source, TRIPLE, index) {
        output, nextIndex, nextState := TRIPLE, index + 3, Normal;
      } else {
        output := [source[index]];
      }
    } else if state == InString || state == InChar {
      output := [source[index]];
      if source[index] == '\\' && index + 1 < |source| {
        output, nextIndex := output + [source[index + 1]], index + 2;
        assert source[index..][..2] == output;
      } else if source[index] == (if state == InString then '"' else '\'') {
        nextState := Normal;
      }
    } else if StartsAt(source, "//", index) {
      nextState, nextIndex := InLine, index + 2;
    } else if StartsAt(source, "/*", index) {
      nextState, nextDepth, nextIndex := InBlock, 1, index + 2;
    } else if StartsAt(source, TRIPLE, index) {
      output, nextIndex, nextState := TRIPLE, index + 3, InTriple;
    } else if source[index] == '"' {
      output, nextState := "\"", InString;
    } else if source[index] == '\'' {
      output, nextState := "'", InChar;
    } else {
      output := [source[index]];
    }
  }

  lemma Suffix(s: string, i: nat, j: nat)
    requires i <= j <= |s|
    ensures s[i..][j - i..] == s[j..]
  {
  }

  lemma ScanGoesOn(source: string, index: nat, state: State, depth: int,
                   nextState: State, nextDepth: int, nextIndex: nat, output: string)
    requires index < |source| && index < nextIndex
    requires Move(nextState, nextDepth, nextIndex - index, output) == Turn(state, depth, source[index..])
    ensures nextIndex <= |source|
    ensures Scan(state, depth, source[index..]) == output + Scan(nextState, nextDepth, source[nextIndex..])
  {
    ScanTurn(state, depth, source[index..], Move(nextState, nextDepth, nextIndex - index, output));
    Suffix(source, index, nextIndex);
  }

  method StripKotlinComments(source: string) returns (result: string)
    ensures result == Strip(source)
  {
    result := "";
    var index, depth, state := 0, 0, Normal;
    while index < |source|
      invariant 0 <= index <= |source|
      invariant result + Scan(state, depth, source[index..]) == Scan(Normal, 0, source)
    {
      var nextState, nextDepth, nextIndex, output := TakeTurn(source, index, state, depth);
      ScanGoesOn(source, index, state, depth, nextState, nextDepth, nextIndex, output);
      Assoc(result, output, Scan(nextState, nextDepth, source[nextIndex..]));
      result := result + output;
      state, depth, index := nextState, nextDepth, nextIndex;
    }
    ScanIsStrip(source);
  }

  predicate StartsAt(source: string, prefix: string, index: nat)
    requires index <= |source|
    ensures StartsAt(source, prefix, index) <==> prefix <= source[index..]
  {
    index + |prefix| <= |source| && source[index..index + |prefix|] == prefix
  }

  // ---------- The machine does what the tokens say ----------

  lemma {:induction false} ScanLine(depth: int, s: string)
    ensures Scan(InLine, depth, s) == Scan(Normal, depth, s[LineEnd(s)..])
    decreases |s|
  {
    if s != "" {
      if s[0] == '\n' {
        assert Turn(Normal, depth, s) == Move(Normal, depth, 1, s[..1]);
        assert s[..1] == "\n";
      } else {
        ScanLine(depth, s[1..]);
        assert s[1..][LineEnd(s[1..])..] == s[LineEnd(s)..];
      }
    }
  }

  lemma {:induction false} NewlinesOf(a: string, b: string)
    ensures Newlines(a + b) == Newlines(a) + Newlines(b)
  {
    if a == "" {
      assert a + b == b;
    } else {
      NewlinesOf(a[1..], b);
      assert (a + b)[1..] == a[1..] + b;
    }
  }

  lemma Slices(s: string, w: nat, n: nat)
    requires w + n <= |s|
    ensures s[..w + n] == s[..w] + s[w..][..n]
    ensures s[w + n..] == s[w..][n..]
  {
  }

  lemma Assoc(a: string, b: string, c: string)
    ensures a + (b + c) == (a + b) + c
  {
  }

  lemma ScanTurn(state: State, depth: int, s: string, m: Move)
    requires s != "" && m == Turn(state, depth, s)
    ensures Scan(state, depth, s) == m.output + Scan(m.state, m.depth, s[m.width..])
  {
  }

  lemma NewlinesOfFew(s: string)
    ensures |s| == 1 ==> Newlines(s) == if s[0] == '\n' then "\n" else ""
    ensures |s| == 2 && s[0] != '\n' && s[1] != '\n' ==> Newlines(s) == ""
  {
    if |s| == 2 {
      assert s[1..][1..] == "";
    }
  }

  lemma BlockTurn(depth: int, s: string, m: Move)
    requires depth > 0 && s != "" && m == Turn(InBlock, depth, s)
    ensures m.depth >= 0 && (m.state == Normal <==> m.depth == 0) && (m.state == InBlock <==> m.depth > 0)
    ensures BlockEnd(s, depth) == m.width + BlockEnd(s[m.width..], m.depth)
    ensures Newlines(s[..m.width]) == m.output
  {
    NewlinesOfFew(s[..m.width]);
  }

  lemma {:induction false} ScanBlock(depth: int, s: string)
    requires depth > 0
    ensures Scan(InBlock, depth, s) == Newlines(s[..BlockEnd(s, depth)]) + Scan(Normal, 0, s[BlockEnd(s, depth)..])
    decreases |s|
  {
    if s != "" {
      var m := Turn(InBlock, depth, s);
      var rest := s[m.width..];
      var n := BlockEnd(rest, m.depth);
      BlockTurn(depth, s, m);
      ScanTurn(InBlock, depth, s, m);
      Slices(s, m.width, n);
      if m.depth > 0 {
        ScanBlock(m.depth, rest);
        NewlinesOf(s[..m.width], rest[..n]);
        Assoc(m.output, Newlines(rest[..n]), Scan(Normal, 0, rest[n..]));
      }
    }
  }

  // What is copied first and what is copied behind it are copied together.
  lemma CopyGoesOn(s: string, w: nat, rest: string, n: nat, copied: string, after: string)
    requires w <= |s| && rest == s[w..] && n <= |rest| && copied == rest[..n] + after
    ensures s[..w] + copied == s[..w + n] + after && s[w + n..] == rest[n..]
  {
    Slices(s, w, n);
    Assoc(s[..w], rest[..n], after);
  }

  lemma {:induction false} ScanTriple(depth: int, s: string)
    ensures Scan(InTriple, depth, s) == s[..TripleEnd(s)] + Scan(Normal, depth, s[TripleEnd(s)..])
    decreases |s|
  {
    if s != "" && !(TRIPLE <= s) {
      ScanTriple(depth, s[1..]);
      var n := TripleEnd(s[1..]);
      ScanTurn(InTriple, depth, s, Move(InTriple, depth, 1, s[..1]));
      CopyGoesOn(s, 1, s[1..], n, Scan(InTriple, depth, s[1..]), Scan(Normal, depth, s[1..][n..]));
    }
  }

  function Quote(state: State): char {
    if state == InString then '"' else '\''
  }

  lemma QuotedTurn(state: State, depth: int, s: string, m: Move)
    requires state in {InString, InChar} && s != "" && m == Turn(state, depth, s) && m.state != Normal
    ensures m.state == state && m.depth == depth && m.output == s[..m.width]
    ensures QuotedEnd(s, Quote(state)) == m.width + QuotedEnd(s[m.width..], Quote(state))
  {
  }

  lemma QuotedCloses(state: State, depth: int, s: string, m: Move)
    requires state in {InString, InChar} && s != "" && m == Turn(state, depth, s) && m.state == Normal
    ensures QuotedEnd(s, Quote(state)) == 1 && m == Move(Normal, depth, 1, s[..1])
  {
  }

  lemma {:induction false} ScanQuoted(state: State, depth: int, s: string)
    requires state in {InString, InChar}
    ensures var n := QuotedEnd(s, Quote(state));
      Scan(state, depth, s) == s[..n] + Scan(Normal, depth, s[n..])
    decreases |s|
  {
    if s != "" {
      var m := Turn(state, depth, s);
      ScanTurn(state, depth, s, m);
      if m.state != Normal {
        var rest := s[m.width..];
        ScanQuoted(state, depth, rest);
        QuotedTurn(state, depth, s, m);
        var n := QuotedEnd(rest, Quote(state));
        CopyGoesOn(s, m.width, rest, n, Scan(state, depth, rest), Scan(Normal, depth, rest[n..]));
      } else {
        QuotedCloses(state, depth, s, m);
      }
    }
  }

  // From the start of a token the machine renders it and is back in the normal state.
  lemma ScanToken(s: string)
    requires s != ""
    ensures Scan(Normal, 0, s) == Rendered(s) + Scan(Normal, 0, s[Length(s)..])
  {
    match KindOf(s)
    case LineComment => ScanLineComment(s);
    case BlockComment => ScanBlockComment(s);
    case _ => ScanLiteral(s);
  }

  lemma CommentOpener(s: string)
    requires s != "" && IsComment(KindOf(s))
    ensures Length(s) >= 2 && Turn(Normal, 0, s).width == 2 && Turn(Normal, 0, s).output == ""
    ensures Newlines(s[..Length(s)]) == Newlines(s[2..][..Length(s) - 2])
    ensures s[Length(s)..] == s[2..][Length(s) - 2..]
  {
    var n := Length(s) - 2;
    Slices(s, 2, n);
    NewlinesOf(s[..2], s[2..][..n]);
    NewlinesOfFew(s[..2]);
  }

  lemma ScanLineComment(s: string)
    requires s != "" && KindOf(s) == LineComment
    ensures Scan(Normal, 0, s) == Scan(Normal, 0, s[Length(s)..]) && Newlines(s[..Length(s)]) == ""
  {
    ScanTurn(Normal, 0, s, Turn(Normal, 0, s));
    CommentOpener(s);
    ScanLine(0, s[2..]);
    LineHasNoNewline(s[2..]);
  }

  lemma OpensBlock(s: string)
    requires s != "" && KindOf(s) == BlockComment
    ensures Scan(Normal, 0, s) == Scan(InBlock, 1, s[2..]) && Length(s) == 2 + BlockEnd(s[2..], 1)
  {
    ScanTurn(Normal, 0, s, Move(InBlock, 1, 2, ""));
  }

  lemma ScanBlockComment(s: string)
    requires s != "" && KindOf(s) == BlockComment
    ensures Scan(Normal, 0, s) == Newlines(s[..Length(s)]) + Scan(Normal, 0, s[Length(s)..])
  {
    OpensBlock(s);
    CommentOpener(s);
    ScanBlock(1, s[2..]);
  }

  lemma ScanTripleLiteral(s: string)
    requires s != "" && KindOf(s) == TripleLiteral
    ensures Scan(Normal, 0, s) == s[..Length(s)] + Scan(Normal, 0, s[Length(s)..])
  {
    ScanTriple(0, s[3..]);
    var n := TripleEnd(s[3..]);
    ScanTurn(Normal, 0, s, Move(InTriple, 0, 3, TRIPLE));
    CopyGoesOn(s, 3, s[3..], n, Scan(InTriple, 0, s[3..]), Scan(Normal, 0, s[3..][n..]));
  }

  lemma ScanStringLiteral(s: string)
    requires s != "" && KindOf(s) == StringLiteral
    ensures Scan(Normal, 0, s) == s[..Length(s)] + Scan(Normal, 0, s[Length(s)..])
  {
    ScanQuoted(InString, 0, s[1..]);
    var n := QuotedEnd(s[1..], '"');
    ScanTurn(Normal, 0, s, Move(InString, 0, 1, s[..1]));
    CopyGoesOn(s, 1, s[1..], n, Scan(InString, 0, s[1..]), Scan(Normal, 0, s[1..][n..]));
  }

  lemma ScanCharLiteral(s: string)
    requires s != "" && KindOf(s) == CharLiteral
    ensures Scan(Normal, 0, s) == s[..Length(s)] + Scan(Normal, 0, s[Length(s)..])
  {
    ScanQuoted(InChar, 0, s[1..]);
    var n := QuotedEnd(s[1..], '\'');
    ScanTurn(Normal, 0, s, Move(InChar, 0, 1, s[..1]));
    CopyGoesOn(s, 1, s[1..], n, Scan(InChar, 0, s[1..]), Scan(Normal, 0, s[1..][n..]));
  }

  lemma ScanLiteral(s: string)
    requires s != "" && !IsComment(KindOf(s))
    ensures Scan(Normal, 0, s) == s[..Length(s)] + Scan(Normal, 0, s[Length(s)..])
  {
    if KindOf(s) == TripleLiteral {
      ScanTripleLiteral(s);
    } else if KindOf(s) == StringLiteral {
      ScanStringLiteral(s);
    } else if KindOf(s) == CharLiteral {
      ScanCharLiteral(s);
    } else {
      ScanTurn(Normal, 0, s, Move(Normal, 0, 1, s[..1]));
    }
  }

  lemma {:induction false} ScanIsStrip(s: string)
    ensures Scan(Normal, 0, s) == Strip(s)
    decreases |s|
  {
    if s != "" {
      ScanToken(s);
      ScanIsStrip(s[Length(s)..]);
    }
  }

  lemma {:induction false} LineHasNoNewline(s: string)
    ensures Newlines(s[..LineEnd(s)]) == ""
  {
    if s != "" && s[0] != '\n' {
      LineHasNoNewline(s[1..]);
      assert s[..LineEnd(s)][1..] == s[1..][..LineEnd(s[1..])];
    }
  }

  // ---------- Nothing but comments is lost ----------

  predicate Subsequence(a: string, b: string) {
    a == "" || (b != "" && ((a[0] == b[0] && Subsequence(a[1..], b[1..])) || Subsequence(a, b[1..])))
  }

  lemma {:induction false} SubsequenceSelf(a: string)
    ensures Subsequence(a, a)
  {
    if a != "" {
      SubsequenceSelf(a[1..]);
    }
  }

  lemma {:induction false} SubsequenceBehind(a: string, b: string, c: string)
    requires Subsequence(a, c)
    ensures Subsequence(a, b + c)
  {
    if b == "" {
      assert b + c == c;
    } else {
      SubsequenceBehind(a, b[1..], c);
      assert (b + c)[1..] == b[1..] + c;
    }
  }

  lemma {:induction false} SubsequenceJoin(a: string, b: string, c: string, d: string)
    requires Subsequence(a, b) && Subsequence(c, d)
    ensures Subsequence(a + c, b + d)
    decreases |b|
  {
    if a == "" {
      assert a + c == c;
      SubsequenceBehind(c, b, d);
    } else {
      assert (b + d)[1..] == b[1..] + d;
      assert (a + c)[1..] == a[1..] + c;
      if a[0] == b[0] && Subsequence(a[1..], b[1..]) {
        SubsequenceJoin(a[1..], b[1..], c, d);
      } else {
        SubsequenceJoin(a, b[1..], c, d);
      }
    }
  }

  lemma {:induction false} NewlinesAreWithin(s: string)
    ensures Subsequence(Newlines(s), s)
  {
    if s != "" {
      NewlinesAreWithin(s[1..]);
      if s[0] == '\n' {
        assert Newlines(s)[1..] == Newlines(s[1..]);
      } else {
        assert Newlines(s) == Newlines(s[1..]);
      }
    }
  }

  // The output can be read off the input by skipping characters, and has the same newlines.
  lemma {:induction false} StripSkipsOnlyComments(s: string)
    ensures Subsequence(Strip(s), s)
    ensures Newlines(Strip(s)) == Newlines(s)
    decreases |s|
  {
    if s != "" {
      var token, rest := s[..Length(s)], s[Length(s)..];
      assert s == token + rest;
      StripSkipsOnlyComments(rest);
      NewlinesAreWithin(token);
      SubsequenceSelf(token);
      SubsequenceJoin(Rendered(s), token, Strip(rest), rest);
      NewlinesTwice(token);
      NewlinesOf(Rendered(s), Strip(rest));
      NewlinesOf(token, rest);
    }
  }

  lemma {:induction false} NewlinesTwice(s: string)
    ensures Newlines(Newlines(s)) == Newlines(s)
  {
    if s != "" {
      NewlinesTwice(s[1..]);
      NewlinesOf(if s[0] == '\n' then "\n" else "", Newlines(s[1..]));
      NewlinesOfFew("\n");
    }
  }
}
