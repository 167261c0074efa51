/** Order-preserving selection from a sequence: JavaScript's `Array.prototype.filter`. */
module Seqs {

  /** `a` can be obtained from `b` by deleting elements, keeping the order of the rest. */
  predicate IsSubsequence<T(==)>(a: seq<T>, b: seq<T>) {
    if a == [] then true
    else if b == [] then false
    else if a[0] == b[0] then IsSubsequence(a[1..], b[1..])
    else IsSubsequence(a, b[1..])
  }

  /** The elements of `xs` that satisfy `p`, in their original order. */
  function Select<T(==,!new)>(xs: seq<T>, p: T -> bool): (r: seq<T>)
    ensures |r| <= |xs|
    ensures forall x :: x in r <==> x in xs && p(x)
  {
    if xs == [] then []
    else if p(xs[0]) then [xs[0]] + Select(xs[1..], p)
    else Select(xs[1..], p)
  }

  lemma {:induction false} SelectIsSubsequence<T(!new)>(xs: seq<T>, p: T -> bool)
    ensures IsSubsequence(Select(xs, p), xs)
  {
    if xs != [] {
      SelectIsSubsequence(xs[1..], p);
      var rest := Select(xs[1..], p);
      if p(xs[0]) {
        assert Select(xs, p)[1..] == rest;
      } else if rest != [] {
        // the head of `rest` comes from `xs[1..]`, so it may or may not equal `xs[0]`
        SubsequenceDropHead(rest, xs);
      }
    }
  }

  /** If `a` is a subsequence of `b[1..]`, it is a subsequence of `b`. */
  lemma {:induction false} SubsequenceDropHead<T>(a: seq<T>, b: seq<T>)
    requires |b| > 0 && IsSubsequence(a, b[1..])
    ensures IsSubsequence(a, b)
    decreases |b|, |a|
  {
    if a != [] && a[0] == b[0] {
      // need IsSubsequence(a[1..], b[1..]) from IsSubsequence(a, b[1..])
      SubsequenceTail(a, b[1..]);
    }
  }

  /** Dropping the head of a subsequence keeps it a subsequence. */
  lemma {:induction false} SubsequenceTail<T>(a: seq<T>, b: seq<T>)
    requires |a| > 0 && IsSubsequence(a, b)
    ensures IsSubsequence(a[1..], b)
    decreases |b|, |a|
  {
    assert b != [];
    if a[0] == b[0] {
      SubsequenceDropHead(a[1..], b);
    } else {
      SubsequenceTail(a, b[1..]);
      SubsequenceDropHead(a[1..], b);
    }
  }

  /** When every element passes, nothing is removed. */
  lemma {:induction false} SelectAll<T(!new)>(xs: seq<T>, p: T -> bool)
    requires forall x :: x in xs ==> p(x)
    ensures Select(xs, p) == xs
  {
    if xs != [] {
      SelectAll(xs[1..], p);
    }
  }

  /** Selecting twice with the same test is selecting once. */
  lemma SelectIdempotent<T(!new)>(xs: seq<T>, p: T -> bool)
    ensures Select(Select(xs, p), p) == Select(xs, p)
  {
    SelectAll(Select(xs, p), p);
  }

  /** Two tests that no element passes together select at most `|xs|` elements between them. */
  lemma {:induction false} SelectDisjoint<T(!new)>(xs: seq<T>, p: T -> bool, q: T -> bool)
    requires forall x :: x in xs ==> !(p(x) && q(x))
    ensures |Select(xs, p)| + |Select(xs, q)| <= |xs|
  {
    if xs != [] {
      SelectDisjoint(xs[1..], p, q);
    }
  }

  lemma {:induction false} SelectConcat<T(!new)>(a: seq<T>, b: seq<T>, p: T -> bool)
    ensures Select(a + b, p) == Select(a, p) + Select(b, p)
  {
    if a != [] {
      assert (a + b)[1..] == a[1..] + b;
      SelectConcat(a[1..], b, p);
    } else {
      assert a + b == b;
    }
  }

  /** Selecting with a weaker test first does not change what a stronger test selects. */
  lemma {:induction false} SelectNarrow<T(!new)>(xs: seq<T>, p: T -> bool, q: T -> bool)
    requires forall x :: q(x) ==> p(x)
    ensures Select(Select(xs, p), q) == Select(xs, q)
  {
    if xs != [] {
      SelectNarrow(xs[1..], p, q);
    }
  }

  /** Selecting with a test that every element fails yields nothing. */
  lemma SelectNone<T(!new)>(xs: seq<T>, p: T -> bool)
    requires forall x :: x in xs ==> !p(x)
    ensures Select(xs, p) == []
  {
    if Select(xs, p) != [] {
      assert Select(xs, p)[0] in Select(xs, p);
    }
  }

  /** The number of elements of `xs` that satisfy `p`, counted from the back. */
  function CountWhere<T>(xs: seq<T>, p: T -> bool): nat {
    if xs == [] then 0
    else CountWhere(xs[..|xs| - 1], p) + (if p(xs[|xs| - 1]) then 1 else 0)
  }

  /** The selection holds exactly as many elements as satisfy the test. */
  lemma {:induction false} SelectLength<T(!new)>(xs: seq<T>, p: T -> bool)
    ensures |Select(xs, p)| == CountWhere(xs, p)
    decreases |xs|
  {
    if xs != [] {
      var init := xs[..|xs| - 1];
      var last := xs[|xs| - 1];
      assert xs == init + [last];
      SelectConcat(init, [last], p);
      assert Select([last], p) == if p(last) then [last] else [];
      SelectLength(init, p);
    }
  }
}
