/** Strings are sequences of Unicode characters, ordered lexicographically;
    UTF-8 keeps that order, so it is also the order of their bytes. */
module Strings {
  import opened Wrappers

  lemma Assoc<T>(a: seq<T>, b: seq<T>, c: seq<T>)
    ensures a + (b + c) == a + b + c
  {
  }

  /** `s.split(c)`: the pieces between the occurrences of `c`, at least one. */
  function Split(s: string, c: char): (r: seq<string>)
    ensures r != []
  {
    if s == "" then [""]
    else if s[0] == c then [""] + Split(s[1..], c)
    else var rest := Split(s[1..], c); [[s[0]] + rest[0]] + rest[1..]
  }

  lemma {:induction false} SplitNone(s: string, c: char)
    requires c !in s
    ensures Split(s, c) == [s]
  {
    if s != "" {
      SplitNone(s[1..], c);
      assert [s[0]] + s[1..] == s;
    }
  }

  /** A separator splits what is before it from what is behind it. */
  lemma {:induction false} SplitConcat(a: string, c: char, b: string)
    ensures Split(a + [c] + b, c) == Split(a, c) + Split(b, c)
  {
    if a == "" {
      assert a + [c] + b == [c] + b;
    } else {
      assert (a + [c] + b)[1..] == a[1..] + [c] + b;
      SplitConcat(a[1..], c, b);
    }
  }

  /** `s.splitn(2, c)`. */
  function SplitOnce(s: string, c: char): (string, Option<string>) {
    if s == "" then ("", None)
    else if s[0] == c then ("", Some(s[1..]))
    else var r := SplitOnce(s[1..], c); ([s[0]] + r.0, r.1)
  }

  lemma {:induction false} SplitOnceJoin(a: string, c: char, b: string)
    requires c !in a
    ensures SplitOnce(a + [c] + b, c) == (a, Some(b))
  {
    if a == "" {
      assert a + [c] + b == [c] + b;
    } else {
      assert (a + [c] + b)[1..] == a[1..] + [c] + b;
      SplitOnceJoin(a[1..], c, b);
      assert [a[0]] + a[1..] == a;
    }
  }

  lemma {:induction false} SplitOnceParts(s: string, c: char)
    ensures var r := SplitOnce(s, c);
            && c !in r.0
            && (if r.1.Some? then s == r.0 + [c] + r.1.value else s == r.0 && c !in s)
  {
    if s != "" && s[0] != c { SplitOnceParts(s[1..], c); }
  }

  /** `a < b` as strings compare in Rust. */
  predicate Less(a: string, b: string) {
    if b == "" then false
    else if a == "" then true
    else a[0] < b[0] || (a[0] == b[0] && Less(a[1..], b[1..]))
  }

  predicate AtMost(a: string, b: string) {
    a == b || Less(a, b)
  }

  lemma LessIrreflexive(a: string)
    ensures !Less(a, a)
  {
  }

  lemma {:induction false} LessTrans(a: string, b: string, c: string)
    requires Less(a, b) && Less(b, c)
    ensures Less(a, c)
    decreases |a|
  {
    if a != "" && a[0] == b[0] == c[0] { LessTrans(a[1..], b[1..], c[1..]); }
  }

  lemma {:induction false} LessTotal(a: string, b: string)
    ensures a == b || Less(a, b) || Less(b, a)
    decreases |a|
  {
    if a != "" && b != "" && a[0] == b[0] {
      LessTotal(a[1..], b[1..]);
      assert a == [a[0]] + a[1..] && b == [b[0]] + b[1..];
    }
  }

  lemma LessAsymmetric(a: string, b: string)
    requires Less(a, b)
    ensures !Less(b, a)
  {
    if Less(b, a) { LessTrans(a, b, a); LessIrreflexive(a); }
  }

  /** A proper prefix comes first; strings that part ways at a character are
      ordered by it, whatever follows. */
  lemma {:induction false} PrefixLess(a: string, b: string)
    requires a < b
    ensures Less(a, b)
    decreases |a|
  {
    if a != "" {
      assert a[1..] < b[1..];
      PrefixLess(a[1..], b[1..]);
    }
  }

  lemma {:induction false} LessAfterPrefix(p: string, a: string, b: string)
    ensures Less(p + a, p + b) <==> Less(a, b)
    decreases |p|
  {
    if p == "" {
      assert p + a == a && p + b == b;
    } else {
      assert (p + a)[1..] == p[1..] + a && (p + b)[1..] == p[1..] + b;
      LessAfterPrefix(p[1..], a, b);
    }
  }

  /** `slice::sort`: stable, for any way to compare. */
  function InsertBy(le: (string, string) -> bool, x: string, s: seq<string>): seq<string> {
    if s == [] || le(x, s[0]) then [x] + s else [s[0]] + InsertBy(le, x, s[1..])
  }

  function SortBy(le: (string, string) -> bool, s: seq<string>): seq<string> {
    if s == [] then [] else InsertBy(le, s[0], SortBy(le, s[1..]))
  }

  predicate SortedBy(le: (string, string) -> bool, s: seq<string>) {
    forall i, j | 0 <= i < j < |s| :: le(s[i], s[j])
  }

  /** Any two strings compare, and comparisons chain. */
  ghost predicate Preorder(le: (string, string) -> bool) {
    && (forall a, b :: le(a, b) || le(b, a))
    && (forall a, b, c :: le(a, b) && le(b, c) ==> le(a, c))
  }

  lemma {:induction false} InsertBySorts(le: (string, string) -> bool, x: string, s: seq<string>)
    requires Preorder(le) && SortedBy(le, s)
    ensures SortedBy(le, InsertBy(le, x, s))
    ensures multiset(InsertBy(le, x, s)) == multiset(s) + multiset{x}
  {
    if s != [] && !le(x, s[0]) {
      InsertBySorts(le, x, s[1..]);
      assert s == [s[0]] + s[1..];
      var r := InsertBy(le, x, s[1..]);
      forall j | 0 <= j < |r| ensures le(s[0], r[j]) {
        assert r[j] in multiset(r);
        assert r[j] == x || r[j] in s[1..];
      }
    }
  }

  lemma {:induction false} SortBySorts(le: (string, string) -> bool, s: seq<string>)
    requires Preorder(le)
    ensures SortedBy(le, SortBy(le, s)) && multiset(SortBy(le, s)) == multiset(s)
  {
    if s != [] {
      SortBySorts(le, s[1..]);
      InsertBySorts(le, s[0], SortBy(le, s[1..]));
      assert s == [s[0]] + s[1..];
    }
  }

  function Sort(s: seq<string>): seq<string> {
    SortBy(AtMost, s)
  }

  predicate Sorted(s: seq<string>) {
    SortedBy(AtMost, s)
  }

  lemma AtMostTrans(a: string, b: string, c: string)
    requires AtMost(a, b) && AtMost(b, c)
    ensures AtMost(a, c)
  {
    if Less(a, b) && Less(b, c) { LessTrans(a, b, c); }
  }

  lemma AtMostPreorder()
    ensures Preorder(AtMost)
  {
    forall a, b ensures AtMost(a, b) || AtMost(b, a) { LessTotal(a, b); }
    forall a, b, c | AtMost(a, b) && AtMost(b, c) ensures AtMost(a, c) { AtMostTrans(a, b, c); }
  }

  lemma SortSorts(s: seq<string>)
    ensures Sorted(Sort(s)) && multiset(Sort(s)) == multiset(s)
  {
    AtMostPreorder();
    SortBySorts(AtMost, s);
  }

  lemma FirstOfSorted(a: seq<string>, x: string)
    requires Sorted(a) && x in a
    ensures AtMost(a[0], x)
  {
    var i :| 0 <= i < |a| && a[i] == x;
  }

  lemma {:induction false} SortedUnique(a: seq<string>, b: seq<string>)
    requires Sorted(a) && Sorted(b) && multiset(a) == multiset(b)
    ensures a == b
    decreases |a|
  {
    if a == [] {
      assert |multiset(b)| == 0;
    } else {
      assert a[0] in multiset(b);
      assert b[0] in multiset(a);
      FirstOfSorted(a, b[0]);
      FirstOfSorted(b, a[0]);
      if a[0] != b[0] { LessAsymmetric(a[0], b[0]); }
      TailMultiset(a);
      TailMultiset(b);
      SortedUnique(a[1..], b[1..]);
      assert a == [a[0]] + a[1..] && b == [b[0]] + b[1..];
    }
  }

  lemma TailMultiset<T>(a: seq<T>)
    requires a != []
    ensures multiset(a[1..]) == multiset(a) - multiset{a[0]}
  {
    assert a == [a[0]] + a[1..];
  }

  /** Sorting forgets the order of its input and nothing else. */
  lemma SortCanonical(a: seq<string>, b: seq<string>)
    ensures Sort(a) == Sort(b) <==> multiset(a) == multiset(b)
  {
    SortSorts(a);
    SortSorts(b);
    if multiset(a) == multiset(b) { SortedUnique(Sort(a), Sort(b)); }
  }

  /** Where a separator first occurs, a string splits in one way. */
  lemma FirstSplit(a: string, b: string, x: string, y: string, c: char)
    requires c !in a && c !in b && a + [c] + x == b + [c] + y
    ensures a == b && x == y
  {
    var w := a + [c] + x;
    assert w[|a|] == c && w[|b|] == c;
    assert forall k | 0 <= k < |a| :: w[k] in a;
    assert forall k | 0 <= k < |b| :: w[k] in b;
    assert w[..|a|] == a && w[..|b|] == b;
    assert w[|a| + 1..] == x && w[|b| + 1..] == y;
  }
}
