// Python's stable list sort, and the lexicographic order that compares tuples and strings.
module Ordering {
  // a <= b for sequences compared element by element, a proper prefix coming first.
  predicate LexLeq(a: seq<int>, b: seq<int>) {
    a == [] || (b != [] && (a[0] < b[0] || (a[0] == b[0] && LexLeq(a[1..], b[1..]))))
  }

  // What the order is: a is a prefix of b, or smaller at the first place where they differ.
  lemma {:induction false} LexLeqIff(a: seq<int>, b: seq<int>)
    ensures LexLeq(a, b) <==> a <= b || exists k :: IsSmallerAt(a, b, k)
  {
    if a != [] && b != [] {
      if a[0] == b[0] {
        LexLeqIff(a[1..], b[1..]);
        TailPrefix(a, b);
        forall k: nat ensures IsSmallerAt(a[1..], b[1..], k) <==> IsSmallerAt(a, b, k + 1) {
          TailSmaller(a, b, k);
        }
        if k :| IsSmallerAt(a, b, k) {
          TailSmaller(a, b, k - 1);
        }
      } else {
        assert a[..0] == b[..0];
        assert a[0] < b[0] <==> IsSmallerAt(a, b, 0);
        forall k | IsSmallerAt(a, b, k) ensures k == 0 {
          SmallerFirst(a, b, k);
        }
      }
    }
  }

  lemma SmallerFirst(a: seq<int>, b: seq<int>, k: int)
    requires IsSmallerAt(a, b, k)
    ensures k == 0 || a[0] == b[0]
  {
    if k > 0 {
      assert a[..k][0] == b[..k][0];
    }
  }

  lemma TailPrefix(a: seq<int>, b: seq<int>)
    requires a != [] && b != [] && a[0] == b[0]
    ensures a <= b <==> a[1..] <= b[1..]
  {
    if a[1..] <= b[1..] {
      assert b == [b[0]] + b[1..] && a == [a[0]] + a[1..];
    }
  }

  lemma TailSmaller(a: seq<int>, b: seq<int>, k: nat)
    requires a != [] && b != [] && a[0] == b[0]
    ensures IsSmallerAt(a[1..], b[1..], k) <==> IsSmallerAt(a, b, k + 1)
  {
    if k + 1 < |a| && k + 1 < |b| {
      assert a[..k + 1] == [a[0]] + a[1..][..k] && b[..k + 1] == [b[0]] + b[1..][..k];
      assert a[..k + 1][1..] == a[1..][..k] && b[..k + 1][1..] == b[1..][..k];
    }
  }

  predicate IsSmallerAt(a: seq<int>, b: seq<int>, k: int) {
    0 <= k < |a| && k < |b| && a[..k] == b[..k] && a[k] < b[k]
  }

  lemma {:induction false} LexTotal(a: seq<int>, b: seq<int>)
    ensures LexLeq(a, b) || LexLeq(b, a)
  {
    if a != [] && b != [] {
      LexTotal(a[1..], b[1..]);
    }
  }

  lemma {:induction false} LexTransitive(a: seq<int>, b: seq<int>, c: seq<int>)
    requires LexLeq(a, b) && LexLeq(b, c)
    ensures LexLeq(a, c)
  {
    if a != [] && a[0] == b[0] == c[0] {
      LexTransitive(a[1..], b[1..], c[1..]);
    }
  }

  // A string compares by code points.
  function Codes(s: string): (r: seq<int>)
    ensures |r| == |s|
  {
    seq(|s|, i requires 0 <= i < |s| => s[i] as int)
  }

  // `ahead(x, y)` says that x may stay in front of y.
  ghost predicate TotalPreorder<T(!new)>(ahead: (T, T) -> bool) {
    && (forall x, y :: ahead(x, y) || ahead(y, x))
    && (forall x, y, z :: ahead(x, y) && ahead(y, z) ==> ahead(x, z))
  }

  predicate SortedBy<T>(s: seq<T>, ahead: (T, T) -> bool) {
    forall i, j :: 0 <= i < j < |s| ==> ahead(s[i], s[j])
  }

  // x goes behind every element that may stay in front of it, so equal keys keep their order.
  function Insert<T>(s: seq<T>, x: T, ahead: (T, T) -> bool): (r: seq<T>)
    ensures |r| == |s| + 1
  {
    if s == [] || !ahead(s[0], x) then [x] + s else [s[0]] + Insert(s[1..], x, ahead)
  }

  function Sort<T>(s: seq<T>, ahead: (T, T) -> bool): (r: seq<T>)
    ensures |r| == |s|
  {
    if s == [] then [] else Insert(Sort(s[..|s| - 1], ahead), s[|s| - 1], ahead)
  }

  lemma {:induction false} InsertKeeps<T>(s: seq<T>, x: T, ahead: (T, T) -> bool)
    ensures multiset(Insert(s, x, ahead)) == multiset(s) + multiset{x}
  {
    if s != [] && ahead(s[0], x) {
      InsertKeeps(s[1..], x, ahead);
      assert s == [s[0]] + s[1..];
    }
  }

  lemma {:induction false} InsertSorted<T(!new)>(s: seq<T>, x: T, ahead: (T, T) -> bool)
    requires TotalPreorder(ahead) && SortedBy(s, ahead)
    ensures SortedBy(Insert(s, x, ahead), ahead)
  {
    if s == [] {
    } else if !ahead(s[0], x) {
      var r := [x] + s;
      forall i, j | 0 <= i < j < |r| ensures ahead(r[i], r[j]) {
        assert ahead(x, s[0]);
        if i > 0 { assert ahead(s[i - 1], s[j - 1]); }
      }
    } else {
      var t := Insert(s[1..], x, ahead);
      InsertSorted(s[1..], x, ahead);
      InsertKeeps(s[1..], x, ahead);
      forall k | 0 <= k < |t| ensures ahead(s[0], t[k]) {
        assert t[k] in multiset(t);
        assert t[k] in s[1..] || t[k] == x;
      }
    }
  }

  lemma {:induction false} SortKeeps<T>(s: seq<T>, ahead: (T, T) -> bool)
    ensures multiset(Sort(s, ahead)) == multiset(s)
  {
    if s != [] {
      SortKeeps(s[..|s| - 1], ahead);
      InsertKeeps(Sort(s[..|s| - 1], ahead), s[|s| - 1], ahead);
      assert s == s[..|s| - 1] + [s[|s| - 1]];
    }
  }

  lemma {:induction false} SortSorts<T(!new)>(s: seq<T>, ahead: (T, T) -> bool)
    requires TotalPreorder(ahead)
    ensures SortedBy(Sort(s, ahead), ahead)
  {
    if s != [] {
      SortSorts(s[..|s| - 1], ahead);
      InsertSorted(Sort(s[..|s| - 1], ahead), s[|s| - 1], ahead);
    }
  }
}
