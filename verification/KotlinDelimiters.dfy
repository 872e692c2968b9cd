// Matching a delimiter in comment-free Kotlin source, literals left aside.
module KotlinDelimiters {
  import opened Common
  import K = KotlinComments

  datatype Delimiters = Delimiters(open: char, close: char)

  const BRACES := Delimiters('{', '}')
  const PARENTHESES := Delimiters('(', ')')

  // ---------- What counts ----------

  predicate OpensLiteral(s: string)
    requires s != ""
  {
    s[0] in {'"', '\''}
  }

  function LiteralLength(s: string): (n: nat)
    requires s != "" && OpensLiteral(s)
    ensures 1 <= n <= |s|
  {
    if K.TRIPLE <= s then 3 + K.TripleEnd(s[3..]) else 1 + K.QuotedEnd(s[1..], s[0])
  }

  function Zeros(n: nat): (r: seq<int>)
    ensures |r| == n
  {
    seq(n, i => 0)
  }

  function Weight(c: char, d: Delimiters): int {
    if c == d.open then 1 else if c == d.close then -1 else 0
  }

  // One weight per character: +1 an opener, -1 a closer, and 0 for all else, notably inside literals.
  function Weights(s: string, d: Delimiters): (r: seq<int>)
    ensures |r| == |s|
    decreases |s|
  {
    if s == "" then []
    else if OpensLiteral(s) then Zeros(LiteralLength(s)) + Weights(s[LiteralLength(s)..], d)
    else [Weight(s[0], d)] + Weights(s[1..], d)
  }

  // By how much the openers outnumber the closers among the first k characters.
  function Net(w: seq<int>, k: nat): int
    requires k <= |w|
  {
    if k == 0 then 0 else Net(w, k - 1) + w[k - 1]
  }

  predicate NeverNegative(w: seq<int>, k: nat)
    requires k <= |w|
  {
    forall j :: 0 <= j <= k ==> Net(w, j) >= 0
  }

  // k is the first place at which the closers come to outnumber the openers.
  predicate FirstDeficit(w: seq<int>, k: nat) {
    k < |w| && NeverNegative(w, k) && Net(w, k + 1) == -1
  }

  predicate Closes(s: string, d: Delimiters, k: nat) {
    FirstDeficit(Weights(s, d), k)
  }

  lemma {:induction false} NetOfPrefix(w: seq<int>, v: seq<int>, k: nat)
    requires k <= |w| && k <= |v| && w[..k] == v[..k]
    ensures Net(w, k) == Net(v, k)
  {
    if k > 0 {
      assert w[..k][k - 1] == v[..k][k - 1];
      assert w[..k - 1] == w[..k][..k - 1] == v[..k - 1];
      NetOfPrefix(w, v, k - 1);
    }
  }

  lemma NeverNegativePrefix(w: seq<int>, v: seq<int>, k: nat)
    requires k <= |w| && k <= |v| && w[..k] == v[..k]
    ensures NeverNegative(w, k) <==> NeverNegative(v, k)
  {
    forall j | 0 <= j <= k ensures Net(w, j) == Net(v, j) {
      assert w[..j] == w[..k][..j] == v[..j];
      NetOfPrefix(w, v, j);
    }
  }

  // ---------- The state machine ----------

  datatype Mode = Normal | InTriple | InString | InChar

  datatype Move = Move(mode: Mode, width: nat)

  function Turn(mode: Mode, s: string): (m: Move)
    requires s != ""
    ensures 1 <= m.width <= |s|
  {
    match mode
    case InTriple => if K.TRIPLE <= s then Move(Normal, 3) else Move(InTriple, 1)
    case InString =>
      if s[0] == '\\' && |s| > 1 then Move(InString, 2)
      else Move(if s[0] == '"' then Normal else InString, 1)
    case InChar =>
      if s[0] == '\\' && |s| > 1 then Move(InChar, 2)
      else Move(if s[0] == '\'' then Normal else InChar, 1)
    case Normal =>
      if K.TRIPLE <= s then Move(InTriple, 3)
      else if s[0] == '"' then Move(InString, 1)
      else if s[0] == '\'' then Move(InChar, 1)
      else Move(Normal, 1)
  }

  // The mode in which a scan of all of s ends.
  function Finish(mode: Mode, s: string): Mode
    decreases |s|
  {
    if s == "" then mode else Finish(Turn(mode, s).mode, s[Turn(mode, s).width..])
  }

  // How much of s belongs to the literal that is open.
  function LiteralEnd(mode: Mode, s: string): (n: nat)
    ensures n <= |s|
  {
    match mode
    case Normal => 0
    case InTriple => K.TripleEnd(s)
    case InString => K.QuotedEnd(s, '"')
    case InChar => K.QuotedEnd(s, '\'')
  }

  function WeightsIn(mode: Mode, s: string, d: Delimiters): (r: seq<int>)
    ensures |r| == |s|
  {
    Zeros(LiteralEnd(mode, s)) + Weights(s[LiteralEnd(mode, s)..], d)
  }

  lemma NormalWeights(s: string, d: Delimiters)
    ensures WeightsIn(Normal, s, d) == Weights(s, d)
  {
    assert s[0..] == s;
  }

  // The weights of the characters that one turn passes over.
  function TurnWeights(mode: Mode, s: string, d: Delimiters): (r: seq<int>)
    requires s != ""
    ensures |r| == Turn(mode, s).width
  {
    if mode == Normal && !OpensLiteral(s) then [Weight(s[0], d)] else Zeros(Turn(mode, s).width)
  }

  lemma Drops(s: string, a: nat, b: nat)
    requires a + b <= |s|
    ensures s[a..][b..] == s[a + b..]
    ensures Zeros(a + b) == Zeros(a) + Zeros(b)
  {
  }

  lemma Assoc(a: seq<int>, b: seq<int>, c: seq<int>)
    ensures (a + b) + c == a + (b + c)
  {
  }

  lemma TripleOpens(s: string)
    ensures K.TRIPLE <= s <==> |s| >= 3 && s[0] == '"' && s[1] == '"' && s[2] == '"'
  {
    if |s| >= 3 && s[0] == '"' && s[1] == '"' && s[2] == '"' {
      assert s[..3] == [s[0], s[1], s[2]];
    }
  }

  lemma LiteralTurn(mode: Mode, s: string)
    requires s != "" && (mode != Normal || OpensLiteral(s))
    ensures var m := Turn(mode, s);
      (if mode == Normal then LiteralLength(s) else LiteralEnd(mode, s))
      == m.width + LiteralEnd(m.mode, s[m.width..])
  {
    TripleOpens(s);
  }

  lemma TurnSplitsWeights(mode: Mode, s: string, d: Delimiters)
    requires s != ""
    ensures var m := Turn(mode, s);
      WeightsIn(mode, s, d) == TurnWeights(mode, s, d) + WeightsIn(m.mode, s[m.width..], d)
  {
    var m := Turn(mode, s);
    var rest := s[m.width..];
    if mode == Normal && !OpensLiteral(s) {
      NormalWeights(s, d);
      NormalWeights(rest, d);
      TripleOpens(s);
    } else {
      var n := LiteralEnd(m.mode, rest);
      LiteralTurn(mode, s);
      Drops(s, m.width, n);
      Assoc(Zeros(m.width), Zeros(n), Weights(rest[n..], d));
      if mode == Normal {
        NormalWeights(s, d);
      }
    }
  }

  // ---------- The search ----------

  function Tail(source: string, index: nat): string {
    if index <= |source| then source[index..] else ""
  }

  // The text behind the opening delimiter.
  function Behind(source: string, openIndex: nat): string {
    Tail(source, openIndex + 1)
  }

  // What one turn adds to the depth.
  function Change(mode: Mode, s: string, d: Delimiters): int
    requires s != ""
  {
    if mode == Normal && !OpensLiteral(s) then Weight(s[0], d) else 0
  }

  // One turn of the loop. `hit` says that the delimiter at `index` closes the search.
  method TakeTurn(source: string, index: nat, mode: Mode, depth: int, d: Delimiters)
    returns (nextMode: Mode, nextDepth: int, nextIndex: nat, hit: bool)
    requires index < |source| && depth >= 1
    ensures nextIndex > index
    ensures Move(nextMode, nextIndex - index) == Turn(mode, source[index..])
    ensures nextDepth == depth + Change(mode, source[index..], d)
    ensures hit <==> nextDepth == 0
    ensures nextDepth >= 0 && (hit ==> nextIndex == index + 1)
  {
    nextMode, nextDepth, nextIndex, hit := mode, depth, index + 1, false;
    TripleOpens(source[index..]);
    if mode == InTriple {
      if K.StartsAt(source, K.TRIPLE, index) {
        nextMode, nextIndex := Normal, index + 3;
      }
    } else if mode == InString || mode == InChar {
      if source[index] == '\\' && index + 1 < |source| {
        nextIndex := index + 2;
      } else if source[index] == (if mode == InString then '"' else '\'') {
        nextMode := Normal;
      }
    } else if K.StartsAt(source, K.TRIPLE, index) {
      nextMode, nextIndex := InTriple, index + 3;
    } else if source[index] == '"' {
      nextMode := InString;
    } else if source[index] == '\'' {
      nextMode := InChar;
    } else if source[index] == d.open {
      nextDepth := depth + 1;
    } else if source[index] == d.close {
      nextDepth := depth - 1;
      hit := nextDepth == 0;
    }
  }

  // Of the weights w, the first k are passed and `rest` is still to come.
  ghost predicate Searching(w: seq<int>, k: nat, depth: int, rest: seq<int>) {
    && k <= |w|
    && NeverNegative(w, k)
    && depth == 1 + Net(w, k)
    && w[k..] == rest
  }

  lemma Advance(w: seq<int>, k: nat, passed: seq<int>, rest: seq<int>)
    requires k <= |w| && w[k..] == passed + rest
    ensures k + |passed| <= |w| && w[k + |passed|..] == rest
    ensures forall j :: k <= j < k + |passed| ==> w[j] == passed[j - k]
  {
    var n := |passed|;
    assert |w[k..]| == n + |rest|;
    assert w[k..][n..] == rest;
    forall j | k <= j < k + n ensures w[j] == passed[j - k] {
      assert w[k..][j - k] == passed[j - k];
    }
  }

  lemma {:induction false} NetOverZeros(w: seq<int>, k: nat, n: nat)
    requires k + n <= |w| && forall j :: k <= j < k + n ==> w[j] == 0
    ensures forall j :: k <= j <= k + n ==> Net(w, j) == Net(w, k)
  {
    if n > 0 {
      NetOverZeros(w, k, n - 1);
      assert w[k + n - 1] == 0;
    }
  }

  lemma PassZeros(w: seq<int>, k: nat, depth: int, n: nat, rest: seq<int>)
    requires Searching(w, k, depth, Zeros(n) + rest)
    ensures Searching(w, k + n, depth, rest)
  {
    Advance(w, k, Zeros(n), rest);
    NetOverZeros(w, k, n);
  }

  lemma PassOne(w: seq<int>, k: nat, depth: int, x: int, rest: seq<int>)
    requires Searching(w, k, depth, [x] + rest)
    ensures depth + x >= 1 ==> Searching(w, k + 1, depth + x, rest)
    ensures depth + x == 0 ==> FirstDeficit(w, k)
  {
    Advance(w, k, [x], rest);
    assert w[k] == x;
    assert Net(w, k + 1) == Net(w, k) + x;
  }

  lemma SearchGoesOn(w: seq<int>, k: nat, depth: int, mode: Mode, s: string, d: Delimiters)
    requires s != "" && depth >= 1 && Searching(w, k, depth, WeightsIn(mode, s, d))
    ensures var m := Turn(mode, s);
      var nextDepth := depth + Change(mode, s, d);
      (nextDepth >= 1 ==> Searching(w, k + m.width, nextDepth, WeightsIn(m.mode, s[m.width..], d)))
      && (nextDepth == 0 ==> m.width == 1 && FirstDeficit(w, k))
  {
    var m := Turn(mode, s);
    TripleOpens(s);
    TurnSplitsWeights(mode, s, d);
    if mode == Normal && !OpensLiteral(s) {
      PassOne(w, k, depth, Weight(s[0], d), WeightsIn(m.mode, s[m.width..], d));
    } else {
      PassZeros(w, k, depth, m.width, WeightsIn(m.mode, s[m.width..], d));
    }
  }

  // Where a search that is `depth` deep ends; `index` is where s starts in the source.
  function Search(mode: Mode, depth: int, s: string, index: nat, d: Delimiters): (found: Option<nat>)
    decreases |s|
  {
    if s == "" then None
    else if depth + Change(mode, s, d) == 0 then Some(index)
    else
      var m := Turn(mode, s);
      Search(m.mode, depth + Change(mode, s, d), s[m.width..], index + m.width, d)
  }

  lemma SearchTurn(mode: Mode, depth: int, s: string, index: nat, d: Delimiters,
                   nextMode: Mode, nextDepth: int, rest: string, nextIndex: nat)
    requires s != "" && nextIndex >= index && Move(nextMode, nextIndex - index) == Turn(mode, s)
    requires nextDepth == depth + Change(mode, s, d) && rest == s[nextIndex - index..]
    ensures Search(mode, depth, s, index, d)
         == if nextDepth == 0 then Some(index) else Search(nextMode, nextDepth, rest, nextIndex, d)
  {
  }

  // `found` is where the text s, which starts at `start` in the source, closes, if it does.
  ghost predicate Finds(s: string, start: nat, d: Delimiters, found: Option<nat>) {
    if found.Some? then found.value >= start && Closes(s, d, found.value - start)
    else forall k :: !Closes(s, d, k)
  }

  ghost predicate FindsIn(w: seq<int>, start: nat, found: Option<nat>) {
    if found.Some? then found.value >= start && FirstDeficit(w, found.value - start)
    else forall k :: !FirstDeficit(w, k)
  }

  lemma NothingLeft(w: seq<int>, k: nat, depth: int, mode: Mode, start: nat, s: string, d: Delimiters)
    requires s == "" && depth >= 1 && Searching(w, k, depth, WeightsIn(mode, s, d))
    ensures FindsIn(w, start, None)
  {
    assert |w[k..]| == 0;
  }

  lemma FoundHere(w: seq<int>, k: nat, start: nat, index: nat)
    requires FirstDeficit(w, k) && index == start + k
    ensures FindsIn(w, start, Some(index))
  {
  }

  lemma {:induction false} SearchFinds(w: seq<int>, k: nat, depth: int, mode: Mode, s: string, start: nat,
                                       d: Delimiters, found: Option<nat>)
    requires depth >= 1 && Searching(w, k, depth, WeightsIn(mode, s, d))
    requires found == Search(mode, depth, s, start + k, d)
    ensures FindsIn(w, start, found)
    decreases |s|
  {
    if s == "" {
      NothingLeft(w, k, depth, mode, start, s, d);
    } else {
      var nextMode, nextDepth, n, rest := SearchStep(w, k, depth, mode, s, start + k, d, found);
      if nextDepth == 0 {
        FoundHere(w, k, start, start + k);
      } else {
        SearchFinds(w, k + n, nextDepth, nextMode, rest, start, d, found);
      }
    }
  }

  lemma SearchStep(w: seq<int>, k: nat, depth: int, mode: Mode, s: string, index: nat, d: Delimiters,
                   found: Option<nat>)
    returns (nextMode: Mode, nextDepth: nat, n: nat, rest: string)
    requires s != "" && depth >= 1 && Searching(w, k, depth, WeightsIn(mode, s, d))
    requires found == Search(mode, depth, s, index, d)
    ensures |rest| < |s|
    ensures nextDepth == 0 ==> FirstDeficit(w, k) && found == Some(index)
    ensures nextDepth != 0 ==> Searching(w, k + n, nextDepth, WeightsIn(nextMode, rest, d))
    ensures nextDepth != 0 ==> found == Search(nextMode, nextDepth, rest, index + n, d)
  {
    SearchGoesOn(w, k, depth, mode, s, d);
    var m := Turn(mode, s);
    nextMode, nextDepth, n, rest := m.mode, depth + Change(mode, s, d), m.width, s[m.width..];
    SearchTurn(mode, depth, s, index, d, nextMode, nextDepth, rest, index + n);
  }

  lemma FindsByWeights(s: string, start: nat, d: Delimiters, found: Option<nat>)
    requires FindsIn(Weights(s, d), start, found)
    ensures Finds(s, start, d, found)
  {
    if found.None? {
      forall k ensures !Closes(s, d, k) {
        assert !FirstDeficit(Weights(s, d), k);
      }
    }
  }

  lemma WholeSearchFinds(s: string, start: nat, d: Delimiters)
    ensures Finds(s, start, d, Search(Normal, 1, s, start, d))
  {
    NormalWeights(s, d);
    var found := Search(Normal, 1, s, start, d);
    SearchFinds(Weights(s, d), 0, 1, Normal, s, start, d, found);
    FindsByWeights(s, start, d, found);
  }

  method FindMatchingDelimiter(source: string, openIndex: nat, d: Delimiters) returns (found: Option<nat>)
    ensures Finds(Behind(source, openIndex), openIndex + 1, d, found)
  {
    var depth, index, mode := 1, openIndex + 1, Normal;
    ghost var s := Behind(source, openIndex);
    WholeSearchFinds(s, openIndex + 1, d);
    while index < |source|
      invariant openIndex < index && depth >= 1
      invariant Search(Normal, 1, s, openIndex + 1, d) == Search(mode, depth, Tail(source, index), index, d)
    {
      var nextMode, nextDepth, nextIndex, hit := TakeTurn(source, index, mode, depth, d);
      assert source[index..][nextIndex - index..] == source[nextIndex..];
      SearchTurn(mode, depth, source[index..], index, d, nextMode, nextDepth, source[nextIndex..], nextIndex);
      if hit {
        return Some(index);
      }
      mode, depth, index := nextMode, nextDepth, nextIndex;
    }
    return None;
  }

  // ---------- What the search finds ----------

  // A word in which the delimiters pair up and every literal is closed.
  predicate Balanced(s: string, d: Delimiters) {
    && NeverNegative(Weights(s, d), |s|)
    && Net(Weights(s, d), |s|) == 0
    && Finish(Normal, s) == Normal
  }

  // Only a character outside of literals weighs anything.
  lemma HeavyCharacter(mode: Mode, s: string, d: Delimiters)
    requires s != "" && WeightsIn(mode, s, d)[0] != 0
    ensures mode == Normal && !OpensLiteral(s)
  {
    TurnSplitsWeights(mode, s, d);
    assert WeightsIn(mode, s, d)[0] == TurnWeights(mode, s, d)[0];
  }

  lemma TurnOfPrefix(mode: Mode, s: string, k: nat)
    requires 0 < k <= |s| && Turn(mode, s).width <= k
    ensures Turn(mode, s[..k]) == Turn(mode, s)
  {
    TripleOpens(s);
    TripleOpens(s[..k]);
  }

  lemma HeavyBehind(a: seq<int>, b: seq<int>, k: nat)
    requires |a| <= k < |a| + |b|
    ensures (a + b)[k] == b[k - |a|]
  {
  }

  lemma PrefixBehind(a: seq<int>, b: seq<int>, k: nat)
    requires |a| <= k <= |a| + |b|
    ensures (a + b)[..k] == a + b[..k - |a|]
  {
  }

  // Cut in front of a delimiter, a text keeps its weights and has no open literal.
  lemma {:induction false} CutBeforeDelimiter(mode: Mode, s: string, k: nat, d: Delimiters)
    requires k < |s| && WeightsIn(mode, s, d)[k] != 0
    ensures WeightsIn(mode, s[..k], d) == WeightsIn(mode, s, d)[..k]
    ensures Finish(mode, s[..k]) == Normal
    ensures !OpensLiteral(s[k..])
    decreases k
  {
    if k == 0 {
      HeavyCharacter(mode, s, d);
      assert s[..0] == "" && s[0..] == s;
    } else {
      var m := Turn(mode, s);
      TurnSplitsWeights(mode, s, d);
      assert m.width <= k;
      var rest, j := s[m.width..], k - m.width;
      HeavyBehind(TurnWeights(mode, s, d), WeightsIn(m.mode, rest, d), k);
      CutBeforeDelimiter(m.mode, rest, j, d);
      CutBehindTurn(mode, s, k, d, m);
    }
  }

  lemma CutBehindTurn(mode: Mode, s: string, k: nat, d: Delimiters, m: Move)
    requires 0 < k < |s| && m == Turn(mode, s) && m.width <= k
    requires WeightsIn(m.mode, s[m.width..][..k - m.width], d)
          == WeightsIn(m.mode, s[m.width..], d)[..k - m.width]
    ensures WeightsIn(mode, s[..k], d) == WeightsIn(mode, s, d)[..k]
    ensures Finish(mode, s[..k]) == Finish(m.mode, s[m.width..][..k - m.width])
    ensures s[k..] == s[m.width..][k - m.width..]
  {
    TurnOfPrefix(mode, s, k);
    TurnSplitsWeights(mode, s, d);
    TurnSplitsWeights(mode, s[..k], d);
    assert s[..k][m.width..] == s[m.width..][..k - m.width];
    PrefixBehind(TurnWeights(mode, s, d), WeightsIn(m.mode, s[m.width..], d), k);
  }

  lemma TurnOfExtension(mode: Mode, t: string, r: string)
    requires t != "" && r != "" && !OpensLiteral(r) && Finish(mode, t) == Normal
    ensures Turn(mode, t + r) == Turn(mode, t)
  {
    TripleOpens(t);
    TripleOpens(t + r);
    assert (t + r)[0] == t[0];
    if |t| == 1 {
      assert t[1..] == "";
      assert Finish(mode, t) == Turn(mode, t).mode;
      assert (t + r)[1] == r[0];
    } else if |t| == 2 {
      assert (t + r)[1] == t[1] && (t + r)[2] == r[0];
    }
  }

  // A text without an open literal keeps its weights in front of any text that opens none.
  lemma {:induction false} ExtendClosed(mode: Mode, t: string, r: string, d: Delimiters)
    requires r != "" && !OpensLiteral(r) && Finish(mode, t) == Normal
    ensures WeightsIn(mode, t + r, d) == WeightsIn(mode, t, d) + Weights(r, d)
    decreases |t|
  {
    if t == "" {
      assert t + r == r;
      NormalWeights(r, d);
      NormalWeights(t, d);
    } else {
      var m := Turn(mode, t);
      var rest := t[m.width..];
      TurnOfExtension(mode, t, r);
      assert (t + r)[m.width..] == rest + r;
      ExtendClosed(m.mode, rest, r, d);
      TurnSplitsWeights(mode, t, d);
      TurnSplitsWeights(mode, t + r, d);
      Assoc(TurnWeights(mode, t, d), WeightsIn(m.mode, rest, d), Weights(r, d));
    }
  }

  // What the search finds is the closing delimiter of a balanced word, and every such
  // delimiter would be found: the weights need not be known to say where the block ends.
  lemma ClosesIffBalanced(s: string, d: Delimiters, k: nat)
    requires d in {BRACES, PARENTHESES}
    ensures Closes(s, d, k) <==> k < |s| && s[k] == d.close && Balanced(s[..k], d)
  {
    if k < |s| {
      NormalWeights(s, d);
      NormalWeights(s[..k], d);
      if Closes(s, d, k) {
        assert Net(Weights(s, d), k + 1) == Net(Weights(s, d), k) + Weights(s, d)[k];
        CutBeforeDelimiter(Normal, s, k, d);
        BlockWeights(s, d, k);
      }
      if s[k] == d.close && Balanced(s[..k], d) {
        BlockWeights(s, d, k);
      }
    }
  }

  // The weights up to and with the character behind a text that leaves no literal open.
  lemma BlockWeights(s: string, d: Delimiters, k: nat)
    requires k < |s| && !OpensLiteral(s[k..]) && Finish(Normal, s[..k]) == Normal
    ensures Weights(s, d)[k] == Weight(s[k], d)
    ensures Net(Weights(s, d), k) == Net(Weights(s[..k], d), k)
    ensures NeverNegative(Weights(s, d), k) <==> NeverNegative(Weights(s[..k], d), k)
  {
    WeightsBefore(s, d, k);
    NetOfPrefix(Weights(s, d), Weights(s[..k], d), k);
    NeverNegativePrefix(Weights(s, d), Weights(s[..k], d), k);
  }

  lemma WeightsBefore(s: string, d: Delimiters, k: nat)
    requires k < |s| && !OpensLiteral(s[k..]) && Finish(Normal, s[..k]) == Normal
    ensures Weights(s, d)[k] == Weight(s[k], d)
    ensures Weights(s, d)[..k] == Weights(s[..k], d)
  {
    var t, r := s[..k], s[k..];
    NormalWeights(s, d);
    NormalWeights(t, d);
    assert s == t + r;
    ExtendClosed(Normal, t, r, d);
    JoinedAt(Weights(t, d), Weights(r, d));
    assert r[0] == s[k];
  }

  lemma JoinedAt(a: seq<int>, b: seq<int>)
    requires b != []
    ensures (a + b)[..|a|] == a && (a + b)[|a|] == b[0]
  {
  }

  // At most one place closes: a block has one end.
  lemma ClosesOnce(s: string, d: Delimiters, j: nat, k: nat)
    requires Closes(s, d, j) && Closes(s, d, k)
    ensures j == k
  {
  }

  ghost predicate IsBlock(source: string, openIndex: nat, block: string, d: Delimiters) {
    && Balanced(block, d)
    && block + [d.close] <= Behind(source, openIndex)
  }

  // The text between the delimiter that a pattern ended on, if it matched, and the one that closes it.
  method ExtractKotlin(source: Option<string>, openIndex: Option<nat>, d: Delimiters)
    returns (block: Option<string>)
    requires d in {BRACES, PARENTHESES}
    ensures block.Some? ==>
      source.Some? && openIndex.Some? && IsBlock(source.value, openIndex.value, block.value, d)
    ensures block.None? && source.Some? && openIndex.Some? ==>
      forall t :: !IsBlock(source.value, openIndex.value, t, d)
  {
    if source.None? || openIndex.None? {
      return None;
    }
    var closeIndex := FindMatchingDelimiter(source.value, openIndex.value, d);
    ghost var rest := Behind(source.value, openIndex.value);
    if closeIndex.None? {
      NoBlock(source.value, openIndex.value, d);
      return None;
    }
    ghost var k := closeIndex.value - (openIndex.value + 1);
    ClosesIffBalanced(rest, d, k);
    block := Some(source.value[openIndex.value + 1..closeIndex.value]);
    assert block.value == rest[..k];
    assert block.value + [d.close] == rest[..k + 1];
  }

  lemma NoBlock(source: string, openIndex: nat, d: Delimiters)
    requires d in {BRACES, PARENTHESES}
    requires forall k :: !Closes(Behind(source, openIndex), d, k)
    ensures forall t :: !IsBlock(source, openIndex, t, d)
  {
    var rest := Behind(source, openIndex);
    forall t ensures !IsBlock(source, openIndex, t, d) {
      if IsBlock(source, openIndex, t, d) {
        var k := |t|;
        assert rest[k] == (t + [d.close])[k] == d.close;
        assert rest[..k] == (t + [d.close])[..k] == t;
        ClosesIffBalanced(rest, d, k);
        assert false;
      }
    }
  }

  // And the block is the only text of its kind.
  lemma BlockIsUnique(source: string, openIndex: nat, a: string, b: string, d: Delimiters)
    requires d in {BRACES, PARENTHESES}
    requires IsBlock(source, openIndex, a, d) && IsBlock(source, openIndex, b, d)
    ensures a == b
  {
    var rest := Behind(source, openIndex);
    assert rest[..|a|] == (a + [d.close])[..|a|] == a && rest[|a|] == (a + [d.close])[|a|];
    assert rest[..|b|] == (b + [d.close])[..|b|] == b && rest[|b|] == (b + [d.close])[|b|];
    ClosesIffBalanced(rest, d, |a|);
    ClosesIffBalanced(rest, d, |b|);
    ClosesOnce(rest, d, |a|, |b|);
  }
}
