// When stripping comments leaves the other tokens intact, and when stripping twice is stripping once.
module KotlinIdempotence {
  import opened KotlinComments

  function Tokens(s: string): seq<string> {
    if s == "" then [] else [s[..Length(s)]] + Tokens(s[Length(s)..])
  }

  function Each(s: string): seq<string> {
    seq(|s|, i requires 0 <= i < |s| => [s[i]])
  }

  // The tokens that are no comments, and a token for every newline of a comment.
  function Kept(s: string): seq<string> {
    if s == "" then []
    else (if IsComment(KindOf(s)) then Each(Rendered(s)) else [s[..Length(s)]]) + Kept(s[Length(s)..])
  }

  // A quote is the first thing left of s: only comments without newlines stand before it.
  predicate QuoteNext(s: string) {
    s != "" && (s[0] == '"' || (IsComment(KindOf(s)) && Rendered(s) == "" && QuoteNext(s[Length(s)..])))
  }

  // No empty string literal is followed, behind newline-free comments, by a quote.
  predicate NoGlue(s: string) {
    s == "" || ((s[..Length(s)] == "\"\"" ==> !QuoteNext(s[2..])) && NoGlue(s[Length(s)..]))
  }

  lemma {:induction false} NewlinesAreNewlines(s: string)
    ensures forall i :: 0 <= i < |Newlines(s)| ==> Newlines(s)[i] == '\n'
  {
    if s != "" {
      NewlinesAreNewlines(s[1..]);
    }
  }

  // The first character that survives, when the source does not start with a comment.
  lemma StripKeepsHead(s: string)
    requires s != "" && !IsComment(KindOf(s))
    ensures Strip(s) != "" && Strip(s)[0] == s[0]
  {
  }

  lemma {:induction false} StripStartsWithQuote(s: string)
    ensures (Strip(s) != "" && Strip(s)[0] == '"') <==> QuoteNext(s)
    decreases |s|
  {
    if s != "" {
      if IsComment(KindOf(s)) {
        StripStartsWithQuote(s[Length(s)..]);
        NewlinesAreNewlines(s[..Length(s)]);
        if Rendered(s) == "" {
          assert Strip(s) == Strip(s[Length(s)..]);
        } else {
          assert Strip(s)[0] == Rendered(s)[0];
        }
      } else {
        StripKeepsHead(s);
      }
    }
  }

  // ---------- A token in front of other text ----------

  lemma {:induction false} QuotedEndStays(s: string, quote: char, n: nat, r: string)
    requires quote != '\\' && n <= |s| && ClosesAt(s, quote, n)
    ensures QuotedEnd(s[..n] + r, quote) == n
    decreases |s|
  {
    var t := s[..n] + r;
    if s[0] == '\\' && |s| > 1 {
      QuotedEndStays(s[2..], quote, n - 2, r);
      assert t[2..] == s[2..][..n - 2] + r;
    } else if s[0] != quote {
      QuotedEndStays(s[1..], quote, n - 1, r);
      assert t[1..] == s[1..][..n - 1] + r;
    }
  }

  // The literal open at the start of s is closed by its quote after n characters.
  predicate ClosesAt(s: string, quote: char, n: nat) {
    s != "" && n > 0 &&
    if s[0] == '\\' && |s| > 1 then n > 2 && ClosesAt(s[2..], quote, n - 2)
    else if s[0] == quote then n == 1
    else ClosesAt(s[1..], quote, n - 1)
  }

  lemma {:induction false} EndsOrCloses(s: string, quote: char)
    ensures var n := QuotedEnd(s, quote); n == |s| || ClosesAt(s, quote, n)
    decreases |s|
  {
    if s != "" {
      if s[0] == '\\' && |s| > 1 {
        EndsOrCloses(s[2..], quote);
      } else if s[0] != quote {
        EndsOrCloses(s[1..], quote);
      }
    }
  }

  lemma {:induction false} TripleEndStays(s: string, r: string)
    requires TripleEnd(s) < |s|
    ensures TripleEnd(s[..TripleEnd(s)] + r) == TripleEnd(s)
  {
    var n := TripleEnd(s);
    var t := s[..n] + r;
    if TRIPLE <= s {
      assert TRIPLE <= t;
    } else {
      TripleEndStays(s[1..], r);
      assert t[1..] == s[1..][..n - 1] + r;
      TripleNotEarlier(s, n, r);
    }
  }

  // Cutting a literal's text behind its closing quotes does not move them forward.
  lemma TripleNotEarlier(s: string, n: nat, r: string)
    requires s != "" && !(TRIPLE <= s) && n == TripleEnd(s) < |s|
    ensures !(TRIPLE <= s[..n] + r)
  {
    TripleEndAtLeast(s[1..]);
    assert n >= 4;
    var t := s[..n] + r;
    assert t[0] == s[0] && t[1] == s[1] && t[2] == s[2];
    assert s[0] != '"' || s[1] != '"' || s[2] != '"';
  }

  lemma {:induction false} TripleEndAtLeast(s: string)
    ensures TripleEnd(s) == |s| || TripleEnd(s) >= 3
  {
    if s != "" && !(TRIPLE <= s) {
      TripleEndAtLeast(s[1..]);
    }
  }

  // What must not follow a token for it to stay the token it is.
  predicate Disturbs(s: string, r: string)
    requires s != ""
  {
    r != "" && ((s[..Length(s)] == "\"\"" && r[0] == '"') || (s[0] == '/' && (r[0] == '/' || r[0] == '*')))
  }

  lemma QuotedTokenStays(s: string, quote: char, r: string)
    requires quote in {'"', '\''} && s != "" && QuotedEnd(s[1..], quote) < |s| - 1
    ensures var n := QuotedEnd(s[1..], quote); QuotedEnd((s[..1 + n] + r)[1..], quote) == n
  {
    var n := QuotedEnd(s[1..], quote);
    EndsOrCloses(s[1..], quote);
    QuotedEndStays(s[1..], quote, n, r);
    assert (s[..1 + n] + r)[1..] == s[1..][..n] + r;
  }

  lemma Openers(s: string)
    ensures "//" <= s <==> |s| >= 2 && s[0] == '/' && s[1] == '/'
    ensures "/*" <= s <==> |s| >= 2 && s[0] == '/' && s[1] == '*'
    ensures TRIPLE <= s <==> |s| >= 3 && s[0] == '"' && s[1] == '"' && s[2] == '"'
  {
    if |s| >= 2 && s[0] == '/' && s[1] in {'/', '*'} {
      assert s[..2] == [s[0], s[1]];
    }
    if |s| >= 3 && s[0] == '"' && s[1] == '"' && s[2] == '"' {
      assert s[..3] == [s[0], s[1], s[2]];
    }
  }

  lemma KindStays(s: string, r: string)
    requires s != "" && !IsComment(KindOf(s)) && !Disturbs(s, r)
    requires Length(s) < |s|
    ensures KindOf(s[..Length(s)] + r) == KindOf(s)
  {
    var n := Length(s);
    var t := s[..n] + r;
    Openers(s);
    Openers(t);
    assert t[0] == s[0];
    assert n >= 2 ==> t[1] == s[1];
    assert n >= 3 ==> t[2] == s[2];
    assert n == 1 && |t| > 1 ==> t[1] == r[0];
    assert n == 2 && |t| > 2 ==> t[2] == r[0];
    if KindOf(s) == StringLiteral {
      ShortString(s);
    } else if KindOf(s) == TripleLiteral {
      assert n >= 3;
    }
  }

  // A closed string literal of two characters is the empty one.
  lemma ShortString(s: string)
    requires s != "" && KindOf(s) == StringLiteral && Length(s) < |s|
    ensures Length(s) >= 2 && (Length(s) == 2 ==> s[..2] == "\"\"")
  {
    EndsOrCloses(s[1..], '"');
  }

  lemma TokenStays(s: string, r: string)
    requires s != "" && !IsComment(KindOf(s)) && !Disturbs(s, r)
    requires Length(s) < |s|
    ensures KindOf(s[..Length(s)] + r) == KindOf(s) && Length(s[..Length(s)] + r) == Length(s)
  {
    KindStays(s, r);
    match KindOf(s)
    case TripleLiteral =>
      var n := TripleEnd(s[3..]);
      TripleEndStays(s[3..], r);
      assert (s[..3 + n] + r)[3..] == s[3..][..n] + r;
    case StringLiteral => QuotedTokenStays(s, '"', r);
    case CharLiteral => QuotedTokenStays(s, '\'', r);
    case _ =>
  }

  // A lone slash is never followed by something that would make it open a comment.
  lemma SlashIsSafe(s: string)
    requires s != "" && KindOf(s) == Code && s[0] == '/'
    ensures var r := Strip(s[1..]); r == "" || (r[0] != '/' && r[0] != '*')
  {
    if |s| > 1 {
      assert s[1] != '/' && s[1] != '*';
      StripKeepsHead(s[1..]);
    }
  }

  // A token that disturbs nothing is again the first token of the stripped text.
  lemma FirstTokenAgain(s: string)
    requires s != "" && !IsComment(KindOf(s))
    requires s[..Length(s)] == "\"\"" ==> !QuoteNext(s[2..])
    ensures Strip(s) != "" && KindOf(Strip(s)) == KindOf(s) && Length(Strip(s)) == Length(s)
  {
    var n := Length(s);
    var r := Strip(s[n..]);
    if n == |s| {
      assert Strip(s) == s;
    } else {
      StripStartsWithQuote(s[n..]);
      if KindOf(s) == Code && s[0] == '/' {
        SlashIsSafe(s);
      }
      TokenStays(s, r);
    }
  }

  // ---------- The tokens of the stripped text ----------

  lemma NewlineFirst(u: string)
    ensures Strip("\n" + u) == "\n" + Strip(u)
    ensures Tokens("\n" + u) == ["\n"] + Tokens(u)
  {
    var t := "\n" + u;
    assert t[0] == '\n' && KindOf(t) == Code && Length(t) == 1;
    assert t[1..] == u && t[..1] == "\n";
  }

  lemma SplitNewlines(w: string, r: string)
    requires w != "" && w[0] == '\n'
    ensures w + r == "\n" + (w[1..] + r)
    ensures Each(w) == ["\n"] + Each(w[1..])
  {
    assert w == "\n" + w[1..];
  }

  lemma AssocTokens(a: seq<string>, b: seq<string>, c: seq<string>)
    ensures a + (b + c) == (a + b) + c
  {
  }

  lemma {:induction false} NewlineTokens(w: string, r: string)
    requires forall i :: 0 <= i < |w| ==> w[i] == '\n'
    ensures Tokens(w + r) == Each(w) + Tokens(r)
  {
    if w == "" {
      assert w + r == r;
      assert Each(w) == [];
    } else {
      NewlineTokens(w[1..], r);
      SplitNewlines(w, r);
      NewlineFirst(w[1..] + r);
      AssocTokens(["\n"], Each(w[1..]), Tokens(r));
    }
  }

  lemma GluedHead(s: string)
    requires s != "" && s[..Length(s)] == "\"\"" && QuoteNext(s[2..])
    ensures Tokens(Strip(s)) != [] && Tokens(Strip(s))[0] != "\"\""
  {
    var r := Strip(s[2..]);
    StripStartsWithQuote(s[2..]);
    assert !IsComment(KindOf(s));
    assert Strip(s) == "\"\"" + r;
    assert TRIPLE <= Strip(s);
  }

  lemma CommentStep(s: string)
    requires s != "" && IsComment(KindOf(s))
    ensures var rest := s[Length(s)..];
      Tokens(Strip(s)) == Kept(s) <==> Tokens(Strip(rest)) == Kept(rest)
  {
    var rest, w := s[Length(s)..], Rendered(s);
    NewlinesAreNewlines(s[..Length(s)]);
    NewlineTokens(w, Strip(rest));
    SamePrefix(Each(w), Tokens(Strip(rest)), Kept(rest));
  }

  lemma CommentHead(s: string)
    requires s != "" && IsComment(KindOf(s))
    ensures s[..Length(s)] != "\"\""
  {
    assert s[..Length(s)][0] == s[0] == '/';
  }

  lemma TokenStep(s: string)
    requires s != "" && !IsComment(KindOf(s))
    requires s[..Length(s)] == "\"\"" ==> !QuoteNext(s[2..])
    ensures var rest := s[Length(s)..];
      Tokens(Strip(s)) == Kept(s) <==> Tokens(Strip(rest)) == Kept(rest)
  {
    var n := Length(s);
    var rest := s[n..];
    FirstTokenAgain(s);
    assert Strip(s) == s[..n] + Strip(rest);
    assert Strip(s)[..n] == s[..n] && Strip(s)[n..] == Strip(rest);
    SamePrefix([s[..n]], Tokens(Strip(rest)), Kept(rest));
  }

  // Stripping leaves exactly the tokens that are no comments (and newlines for the newlines of
  // comments) if and only if no empty string literal gets glued to a quote behind a comment.
  lemma {:induction false} StripKeepsTokensIff(s: string)
    ensures Tokens(Strip(s)) == Kept(s) <==> NoGlue(s)
    decreases |s|
  {
    if s != "" {
      StripKeepsTokensIff(s[Length(s)..]);
      if IsComment(KindOf(s)) {
        CommentStep(s);
        CommentHead(s);
      } else if s[..Length(s)] == "\"\"" && QuoteNext(s[2..]) {
        GluedHead(s);
        assert Kept(s)[0] == "\"\"";
      } else {
        TokenStep(s);
      }
    }
  }

  lemma SamePrefix<T>(a: seq<T>, b: seq<T>, c: seq<T>)
    ensures a + b == a + c <==> b == c
  {
    if a + b == a + c {
      assert b == (a + b)[|a|..] == (a + c)[|a|..] == c;
    }
  }

  lemma {:induction false} StripOfNewlines(w: string, r: string)
    requires forall i :: 0 <= i < |w| ==> w[i] == '\n'
    ensures Strip(w + r) == w + Strip(r)
  {
    if w == "" {
      assert w + r == r;
      assert w + Strip(r) == Strip(r);
    } else {
      StripOfNewlines(w[1..], r);
      SplitNewlines(w, r);
      NewlineFirst(w[1..] + r);
      SplitNewlines(w, Strip(r));
    }
  }

  // So stripping is idempotent on every source without such glue.
  lemma {:induction false} StripIsIdempotent(s: string)
    requires NoGlue(s)
    ensures Strip(Strip(s)) == Strip(s)
    decreases |s|
  {
    if s != "" {
      var n := Length(s);
      var rest := s[n..];
      StripIsIdempotent(rest);
      if IsComment(KindOf(s)) {
        NewlinesAreNewlines(s[..n]);
        StripOfNewlines(Rendered(s), Strip(rest));
      } else {
        FirstTokenAgain(s);
        assert Strip(s)[..n] == s[..n] && Strip(s)[n..] == Strip(rest);
      }
    }
  }

  predicate HasComment(s: string) {
    s != "" && (IsComment(KindOf(s)) || HasComment(s[Length(s)..]))
  }

  lemma {:induction false} StripShortens(s: string)
    ensures |Strip(s)| <= |s| && (HasComment(s) ==> |Strip(s)| < |s|)
    decreases |s|
  {
    if s != "" {
      StripShortens(s[Length(s)..]);
      if IsComment(KindOf(s)) {
        CommentShrinks(s);
      }
    }
  }

  lemma {:induction false} FewNewlines(s: string)
    ensures |Newlines(s)| <= |s|
  {
    if s != "" {
      FewNewlines(s[1..]);
    }
  }

  lemma CommentShrinks(s: string)
    requires s != "" && IsComment(KindOf(s))
    ensures |Rendered(s)| < Length(s)
  {
    CommentOpener(s);
    FewNewlines(s[2..][..Length(s) - 2]);
  }

  // What stripping leaves alone is exactly the text without comments; so a second pass changes
  // nothing if and only if the first one did not bring a comment about.
  lemma {:induction false} StripFixesIff(s: string)
    ensures Strip(s) == s <==> !HasComment(s)
    decreases |s|
  {
    if s != "" {
      var token, rest := s[..Length(s)], s[Length(s)..];
      StripFixesIff(rest);
      if IsComment(KindOf(s)) {
        StripShortens(s);
      } else {
        assert s == token + rest;
        SamePrefix(token, Strip(rest), rest);
      }
    }
  }

  lemma StripFirst(token: string, r: string)
    requires token != "" && Length(token + r) == |token| && !IsComment(KindOf(token + r))
    ensures Strip(token + r) == token + Strip(r)
  {
    assert (token + r)[..|token|] == token && (token + r)[|token|..] == r;
  }

  // The glue is real: stripping "" /**/ "\"" "//" (without the blanks) leaves a triple-quoted
  // literal that holds a backslash, and behind it two slashes that now open a comment.
  lemma StrippingTwiceCanStripMore()
    ensures exists s :: Strip(Strip(s)) != Strip(s)
  {
    var rest := "\"\\\"\"" + "\"//\"";
    var s, once := "\"\"" + ("/**/" + rest), "\"\"" + rest;
    StripToGlue(rest);
    StripOfRest();
    GlueIsStripped(once);
    CanStripMore(s, once);
  }

  lemma CanStripMore(s: string, once: string)
    requires Strip(s) == once && Strip(once) != once
    ensures exists s :: Strip(Strip(s)) != Strip(s)
  {
    assert Strip(Strip(s)) != Strip(s);
  }

  // The comment goes, and the empty string is left in front of what follows.
  lemma StripToGlue(r: string)
    ensures Strip("\"\"" + ("/**/" + r)) == "\"\"" + Strip(r)
  {
    EmptyString("/**/" + r);
    StripFirst("\"\"", "/**/" + r);
    EmptyComment(r);
  }

  lemma GluedText()
    ensures "\"\"" + ("\"\\\"\"" + "\"//\"") == "\"\"\"\\\"\"\"" + "//\""
  {
  }

  lemma GlueIsStripped(s: string)
    requires s == "\"\"" + ("\"\\\"\"" + "\"//\"")
    ensures Strip(s) != s
  {
    GluedText();
    GluedTriple();
    assert |Strip(s)| < |s|;
  }

  lemma StripOfRest()
    ensures var rest := "\"\\\"\"" + "\"//\""; Strip(rest) == rest
  {
    var escaped, slashes := "\"\\\"\"", "\"//\"";
    EscapedQuote(slashes);
    StripFirst(escaped, slashes);
    QuotedSlashes();
    StripFirst(slashes, "");
    assert slashes + "" == slashes;
  }

  lemma EmptyString(r: string)
    requires r != "" && r[0] != '"'
    ensures var t := "\"\"" + r; KindOf(t) == StringLiteral && Length(t) == 2
  {
    var t := "\"\"" + r;
    Openers(t);
    assert t[1..][0] == '"' && t[2] == r[0];
    assert QuotedEnd(t[1..], '"') == 1;
  }

  lemma EscapedQuote(r: string)
    requires r != ""
    ensures var t := "\"\\\"\"" + r; KindOf(t) == StringLiteral && Length(t) == 4
  {
    var t := "\"\\\"\"" + r;
    Openers(t);
    var body := t[1..];
    assert body[0] == '\\' && body[2..][0] == '"';
    assert QuotedEnd(body[2..], '"') == 1;
    assert QuotedEnd(body, '"') == 3;
  }

  lemma QuotedSlashes()
    ensures var t := "\"//\""; KindOf(t + "") == StringLiteral && Length(t + "") == 4
  {
    var t := "\"//\"" + "";
    Openers(t);
    var body := t[1..];
    assert body[0] == '/' && body[1..][0] == '/' && body[1..][1..][0] == '"';
    assert QuotedEnd(body[1..][1..], '"') == 1;
    assert QuotedEnd(body[1..], '"') == 2;
  }

  lemma EmptyComment(r: string)
    ensures Strip("/**/" + r) == Strip(r)
  {
    var t := "/**/" + r;
    Openers(t);
    var body := t[2..];
    assert body == "*/" + r;
    assert body[0] == '*' && body[..2] == "*/";
    assert BlockEnd(body[2..], 0) == 0;
    assert BlockEnd(body, 1) == 2;
    assert Length(t) == 4 && t[4..] == r && t[..4] == "/**/";
    NewlinesOf("/*", "*/");
    NewlinesOfFew("/*");
    NewlinesOfFew("*/");
    assert "/**/" == "/*" + "*/";
    assert Rendered(t) == "";
  }

  lemma GluedTriple()
    ensures Strip("\"\"\"\\\"\"\"" + "//\"") == "\"\"\"\\\"\"\""
  {
    var head, r := "\"\"\"\\\"\"\"", "//\"";
    var t := head + r;
    Openers(t);
    var body := t[3..];
    Openers(body);
    Openers(body[1..]);
    assert TripleEnd(body[1..]) == 3;
    assert Length(t) == |head|;
    StripFirst(head, r);
    SlashesToTheEnd();
  }

  lemma SlashesToTheEnd()
    ensures Strip("//\"") == ""
  {
    var r := "//\"";
    Openers(r);
    assert r[2..] == "\"" && r[2..][1..] == "";
    assert LineEnd(r[2..]) == 1;
    assert Length(r) == 3 && r[3..] == "" && r[..3] == r;
    NewlinesOf(r[..2], r[2..]);
    NewlinesOfFew(r[..2]);
    NewlinesOfFew(r[2..]);
    assert r == r[..2] + r[2..];
  }
}
