/** `Array.prototype.filter` and what it promises: the kept elements, in order,
    each as often as it occurs. */
module Seqs {

  /** `a` is `b` with some elements left out, the rest in the same order. */
  predicate IsSubsequence<T(==)>(a: seq<T>, b: seq<T>)
    decreases |b|
  {
    if a == [] then true
    else if b == [] then false
    else if a[0] == b[0] then IsSubsequence(a[1..], b[1..])
    else IsSubsequence(a, b[1..])
  }

  /** `s.filter(p)`. */
  function Filter<T(==, !new)>(p: T -> bool, s: seq<T>): (r: seq<T>)
    ensures IsSubsequence(r, s)
    ensures forall x :: x in r <==> x in s && p(x)
  {
    if s == [] then []
    else
      var rest := Filter(p, s[1..]);
      assert s == [s[0]] + s[1..];
      assert forall x :: x in s <==> x == s[0] || x in s[1..];
      if p(s[0]) then
        assert ([s[0]] + rest)[1..] == rest;
        [s[0]] + rest
      else
        SubsequenceDropFront(rest, s);
        rest
  }

  /** A subsequence of `b[1..]` is a subsequence of `b`. */
  lemma {:induction false} SubsequenceDropFront<T>(a: seq<T>, b: seq<T>)
    requires b != [] && IsSubsequence(a, b[1..])
    ensures IsSubsequence(a, b)
    decreases |a| + |b|
  {
    if a != [] && a[0] == b[0] {
      SubsequenceTail(a, b[1..]);
    }
  }

  /** Dropping the first element of a subsequence keeps it a subsequence. */
  lemma {:induction false} SubsequenceTail<T>(a: seq<T>, b: seq<T>)
    requires a != [] && IsSubsequence(a, b)
    ensures IsSubsequence(a[1..], b)
    decreases |a| + |b|
  {
    if a[0] == b[0] {
      SubsequenceDropFront(a[1..], b);
    } else {
      SubsequenceTail(a, b[1..]);
      SubsequenceDropFront(a[1..], b);
    }
  }

  /** Each element that passes is kept as many times as it occurs; the others never. */
  lemma {:induction false} FilterMultiplicity<T(!new)>(p: T -> bool, s: seq<T>, x: T)
    ensures multiset(Filter(p, s))[x] == if p(x) then multiset(s)[x] else 0
  {
    if s != [] {
      FilterMultiplicity(p, s[1..], x);
      assert s == [s[0]] + s[1..];
    }
  }

  /** When every element passes, nothing is dropped. */
  lemma {:induction false} FilterAll<T(!new)>(p: T -> bool, s: seq<T>)
    requires forall k :: 0 <= k < |s| ==> p(s[k])
    ensures Filter(p, s) == s
  {
    if s != [] {
      FilterAll(p, s[1..]);
    }
  }

  /** Filtering one more element at the end extends the result by that element when it passes. */
  lemma {:induction false} FilterSnoc<T(!new)>(p: T -> bool, s: seq<T>, x: T)
    ensures Filter(p, s + [x]) == Filter(p, s) + (if p(x) then [x] else [])
  {
    if s == [] {
      assert [x][1..] == [];
    } else {
      var t := s + [x];
      assert t[0] == s[0] && t[1..] == s[1..] + [x];
      FilterSnoc(p, s[1..], x);
      if p(s[0]) {
        calc {
          Filter(p, t);
          [s[0]] + Filter(p, s[1..] + [x]);
          [s[0]] + (Filter(p, s[1..]) + (if p(x) then [x] else []));
          ([s[0]] + Filter(p, s[1..])) + (if p(x) then [x] else []);
        }
      } else {
        calc {
          Filter(p, t);
          Filter(p, s[1..] + [x]);
        }
      }
    }
  }

  /** The lists `f(x)` for the elements `x` of `xs`, one after the other. */
  function Concat<S, T>(f: S -> seq<T>, xs: seq<S>): seq<T> {
    if xs == [] then [] else Concat(f, xs[..|xs| - 1]) + f(xs[|xs| - 1])
  }

  /** Concatenating over two lists is concatenating over each in turn. */
  lemma {:induction false} ConcatAppend<S, T>(f: S -> seq<T>, a: seq<S>, b: seq<S>)
    ensures Concat(f, a + b) == Concat(f, a) + Concat(f, b)
    decreases |b|
  {
    if b == [] {
      assert a + b == a;
    } else {
      var c := a + b;
      assert c[..|c| - 1] == a + b[..|b| - 1];
      assert c[|c| - 1] == b[|b| - 1];
      ConcatAppend(f, a, b[..|b| - 1]);
    }
  }

  /** Every element of a concatenation comes from the list of one of the elements. */
  lemma {:induction false} ConcatFrom<S, T>(f: S -> seq<T>, xs: seq<S>, y: T)
    requires y in Concat(f, xs)
    ensures exists x :: x in xs && y in f(x)
  {
    var init, last := xs[..|xs| - 1], xs[|xs| - 1];
    assert last in xs;
    if y in Concat(f, init) {
      ConcatFrom(f, init, y);
      var x :| x in init && y in f(x);
      assert x in xs;
    }
  }

  /** One more element adds its list at the end. */
  lemma ConcatSnoc<S, T>(f: S -> seq<T>, xs: seq<S>, x: S)
    ensures Concat(f, xs + [x]) == Concat(f, xs) + f(x)
  {
    assert (xs + [x])[..|xs|] == xs;
  }

  /** A prefix one longer is the prefix followed by the next element. */
  lemma TakeSnoc<T>(s: seq<T>, i: nat)
    requires i < |s|
    ensures s[..i + 1] == s[..i] + [s[i]]
  {
  }
}
