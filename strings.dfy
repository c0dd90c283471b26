/** The parts of Swift's standard library the signing code relies on:
    string comparison, `sorted()` on an array of strings, `joined(separator:)`
    and `map`. Every string that gets sorted is percent-encoded first and so
    is pure ASCII, where Swift's `<` is the lexicographic order of the
    characters' code points; that order is `LexLe` below. */
module Strings {

  /** `a` precedes or equals `b` in lexicographic order. */
  predicate LexLe(a: string, b: string) {
    if a == [] then true
    else if b == [] then false
    else if a[0] != b[0] then a[0] < b[0]
    else LexLe(a[1..], b[1..])
  }

  lemma {:induction false} LexLeReflexive(a: string)
    ensures LexLe(a, a)
  {
    if a != [] { LexLeReflexive(a[1..]); }
  }

  lemma {:induction false} LexLeTotal(a: string, b: string)
    ensures LexLe(a, b) || LexLe(b, a)
  {
    if a != [] && b != [] && a[0] == b[0] { LexLeTotal(a[1..], b[1..]); }
  }

  lemma {:induction false} LexLeAntisymmetric(a: string, b: string)
    requires LexLe(a, b) && LexLe(b, a)
    ensures a == b
  {
    if a != [] && b != [] {
      LexLeAntisymmetric(a[1..], b[1..]);
      assert a == [a[0]] + a[1..] && b == [b[0]] + b[1..];
    }
  }

  lemma {:induction false} LexLeTransitive(a: string, b: string, c: string)
    requires LexLe(a, b) && LexLe(b, c)
    ensures LexLe(a, c)
  {
    if a != [] && b != [] && c != [] && a[0] == b[0] && b[0] == c[0] {
      LexLeTransitive(a[1..], b[1..], c[1..]);
    }
  }

  /** A common prefix does not affect the order of two strings. */
  lemma {:induction false} LexLeCommonPrefix(p: string, a: string, b: string)
    ensures LexLe(p + a, p + b) == LexLe(a, b)
  {
    if p != [] {
      assert (p + a)[1..] == p[1..] + a && (p + b)[1..] == p[1..] + b;
      LexLeCommonPrefix(p[1..], a, b);
    } else {
      assert p + a == a && p + b == b;
    }
  }

  ghost predicate IsSorted(s: seq<string>) {
    forall i, j :: 0 <= i < j < |s| ==> LexLe(s[i], s[j])
  }

  /** Inserts `x` into a sorted sequence, before the first element it precedes. */
  function Insert(x: string, s: seq<string>): (r: seq<string>)
    requires IsSorted(s)
    ensures IsSorted(r)
    ensures multiset(r) == multiset(s) + multiset{x}
  {
    if s == [] then [x]
    else if LexLe(x, s[0]) then
      SortedBelowHead(x, s);
      ConsSorted(x, s);
      [x] + s
    else
      assert s == [s[0]] + s[1..];
      var t := Insert(x, s[1..]);
      LexLeTotal(x, s[0]);
      BoundKeptByInsertion(s[0], s[1..], x, t);
      ConsSorted(s[0], t);
      [s[0]] + t
  }

  /** What precedes the head of a sorted sequence precedes all of it. */
  lemma SortedBelowHead(x: string, s: seq<string>)
    requires IsSorted(s) && s != [] && LexLe(x, s[0])
    ensures forall j :: 0 <= j < |s| ==> LexLe(x, s[j])
  {
    forall j | 0 < j < |s| ensures LexLe(x, s[j]) { LexLeTransitive(x, s[0], s[j]); }
  }

  lemma ConsSorted(h: string, t: seq<string>)
    requires IsSorted(t)
    requires forall k :: 0 <= k < |t| ==> LexLe(h, t[k])
    ensures IsSorted([h] + t)
  {
    var r := [h] + t;
    forall i, j | 0 <= i < j < |r| ensures LexLe(r[i], r[j]) {
      assert r[j] == t[j - 1];
      if i > 0 { assert r[i] == t[i - 1]; }
    }
  }

  /** A lower bound of `s` and of `x` bounds every element of a sequence that
      holds the elements of `s` and `x`. */
  lemma BoundKeptByInsertion(lo: string, s: seq<string>, x: string, t: seq<string>)
    requires forall j :: 0 <= j < |s| ==> LexLe(lo, s[j])
    requires LexLe(lo, x)
    requires multiset(t) == multiset(s) + multiset{x}
    ensures forall k :: 0 <= k < |t| ==> LexLe(lo, t[k])
  {
    forall k | 0 <= k < |t| ensures LexLe(lo, t[k]) {
      assert t[k] in multiset(t);
      if t[k] != x {
        assert t[k] in multiset(s);
        var j :| 0 <= j < |s| && s[j] == t[k];
      }
    }
  }

  /** Swift's `sorted()` on an array of strings: a sorted permutation of the input. */
  function Sort(s: seq<string>): (r: seq<string>)
    ensures IsSorted(r)
    ensures multiset(r) == multiset(s)
  {
    if s == [] then []
    else
      assert s == [s[0]] + s[1..];
      Insert(s[0], Sort(s[1..]))
  }

  /** Two sorted sequences with the same elements are equal, so the result of
      sorting depends only on the multiset of its input. */
  lemma {:induction false} SortedUnique(a: seq<string>, b: seq<string>)
    requires IsSorted(a) && IsSorted(b)
    requires multiset(a) == multiset(b)
    ensures a == b
  {
    if a != [] {
      SortedSameHead(a, b);
      DropHead(a);
      DropHead(b);
      SortedUnique(a[1..], b[1..]);
    } else {
      assert |b| == |multiset(b)|;
    }
  }

  /** Two sorted sequences with the same elements start with the same one. */
  lemma SortedSameHead(a: seq<string>, b: seq<string>)
    requires IsSorted(a) && IsSorted(b)
    requires multiset(a) == multiset(b) && a != []
    ensures b != [] && a[0] == b[0]
  {
    assert a[0] in multiset(b);
    assert b[0] in multiset(a);
    var i :| 0 <= i < |b| && b[i] == a[0];
    var j :| 0 <= j < |a| && a[j] == b[0];
    assert LexLe(b[0], a[0]) by { if i == 0 { LexLeReflexive(a[0]); } }
    assert LexLe(a[0], b[0]) by { if j == 0 { LexLeReflexive(b[0]); } }
    LexLeAntisymmetric(a[0], b[0]);
  }

  /** The tail of a sorted sequence is sorted and holds the other elements. */
  lemma DropHead(a: seq<string>)
    requires IsSorted(a) && a != []
    ensures IsSorted(a[1..]) && multiset(a[1..]) == multiset(a) - multiset{a[0]}
  {
    assert a == [a[0]] + a[1..];
  }

  lemma SortDependsOnlyOnMultiset(a: seq<string>, b: seq<string>)
    requires multiset(a) == multiset(b)
    ensures Sort(a) == Sort(b)
  {
    SortedUnique(Sort(a), Sort(b));
  }

  /** Swift's `joined(separator:)`. */
  function Join(xs: seq<string>, separator: string): string {
    if xs == [] then ""
    else if |xs| == 1 then xs[0]
    else xs[0] + separator + Join(xs[1..], separator)
  }

  /** Swift's `map` over an array. */
  function MapSeq<A, B>(f: A -> B, xs: seq<A>): (r: seq<B>)
    ensures |r| == |xs|
    ensures forall i :: 0 <= i < |xs| ==> r[i] == f(xs[i])
  {
    if xs == [] then [] else [f(xs[0])] + MapSeq(f, xs[1..])
  }

  lemma MapSeqAppend<A, B>(f: A -> B, xs: seq<A>, ys: seq<A>)
    ensures MapSeq(f, xs + ys) == MapSeq(f, xs) + MapSeq(f, ys)
  {
  }

  /** One more step of a loop that maps `f` over a prefix of `xs`. */
  lemma MapSeqPrefixStep<A, B>(f: A -> B, xs: seq<A>, i: nat)
    requires i < |xs|
    ensures MapSeq(f, xs[..i + 1]) == MapSeq(f, xs[..i]) + [f(xs[i])]
  {
    assert xs[..i + 1] == xs[..i] + [xs[i]];
    MapSeqAppend(f, xs[..i], [xs[i]]);
  }

  lemma MapSeqMultisetAppend<A, B>(f: A -> B, xs: seq<A>, ys: seq<A>)
    ensures multiset(MapSeq(f, xs + ys)) == multiset(MapSeq(f, xs)) + multiset(MapSeq(f, ys))
  {
    MapSeqAppend(f, xs, ys);
  }

  /** Taking one element out of the input takes its image out of the output. */
  lemma MapSeqRemove<A, B>(f: A -> B, ys: seq<A>, k: nat)
    requires k < |ys|
    ensures multiset(MapSeq(f, ys)) == multiset(MapSeq(f, ys[..k] + ys[k + 1..])) + multiset{f(ys[k])}
  {
    var left, right := ys[..k], ys[k + 1..];
    assert ys == left + ([ys[k]] + right);
    MapSeqMultisetAppend(f, left, [ys[k]] + right);
    MapSeqMultisetAppend(f, [ys[k]], right);
    MapSeqMultisetAppend(f, left, right);
  }

  /** Mapping respects permutations: rearranging the input rearranges the output. */
  lemma {:induction false} MapSeqPermutation<A, B>(f: A -> B, xs: seq<A>, ys: seq<A>)
    requires multiset(xs) == multiset(ys)
    ensures multiset(MapSeq(f, xs)) == multiset(MapSeq(f, ys))
  {
    if xs == [] {
      assert |ys| == |multiset(ys)|;
    } else {
      assert xs[0] in multiset(ys);
      var k :| 0 <= k < |ys| && ys[k] == xs[0];
      var rest := ys[..k] + ys[k + 1..];
      assert multiset(xs[1..]) == multiset(rest) by {
        assert xs == [xs[0]] + xs[1..];
        assert ys == ys[..k] + [ys[k]] + ys[k + 1..];
        assert multiset(xs[1..]) == multiset(xs) - multiset{xs[0]};
      }
      MapSeqPermutation(f, xs[1..], rest);
      MapSeqRemove(f, ys, k);
      MapSeqRemove(f, xs, 0);
      assert xs[..0] + xs[1..] == xs[1..];
    }
  }
}
