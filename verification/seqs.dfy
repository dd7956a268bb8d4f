/** Small facts about sequence concatenation and slicing, stated once and
    used wherever a proof needs one of them as a single step. */
module Seqs {

  lemma HeadTail<T>(s: seq<T>)
    requires |s| > 0
    ensures [s[0]] + s[1..] == s
  {
  }

  /** Dropping the head of a concatenation whose first part is non-empty. */
  lemma DropHead<T>(a: seq<T>, t: seq<T>)
    requires |a| > 0
    ensures (a + t)[0] == a[0] && (a + t)[1..] == a[1..] + t
  {
  }

  lemma ConsAppend<T>(a: seq<T>, t: seq<T>)
    requires |a| > 0
    ensures [a[0]] + (a[1..] + t) == a + t
  {
    assert [a[0]] + a[1..] == a;
  }

  lemma Assoc<T>(a: seq<T>, b: seq<T>, c: seq<T>)
    ensures a + b + c == a + (b + c)
  {
  }

  lemma Assoc4<T>(a: seq<T>, b: seq<T>, c: seq<T>, d: seq<T>, e: seq<T>)
    ensures a + b + c + d + e == a + (b + (c + d + e))
  {
  }

  lemma TakeSnoc<T>(s: seq<T>, j: nat)
    requires j < |s|
    ensures s[..j + 1] == s[..j] + [s[j]]
  {
  }

  lemma AppendPair<T>(p: seq<T>, a: T, b: T)
    ensures p + [a, b] == p + [a] + [b]
  {
  }

  /** A prefix of a prefix is a prefix. */
  lemma PrefixTrans<T>(a: seq<T>, b: seq<T>, c: seq<T>)
    requires |a| <= |b| && a == b[..|a|] && b <= c
    ensures a <= c
  {
    assert a == c[..|a|];
  }

  lemma SnocInjective<T>(a: seq<T>, x: T, b: seq<T>, y: T)
    requires a + [x] == b + [y]
    ensures a == b && x == y
  {
    assert a == (a + [x])[..|a|];
    assert b == (b + [y])[..|b|];
  }

  /** No element occurs twice. */
  predicate NoRepeats<T(==)>(xs: seq<T>) {
    forall i, j :: 0 <= i < j < |xs| ==> xs[i] != xs[j]
  }

  /** A sequence without repeats is as long as the set it forms. */
  lemma {:induction false} SetSize<T>(xs: seq<T>)
    requires NoRepeats(xs)
    ensures |set x | x in xs| == |xs|
  {
    if |xs| > 0 {
      var init := xs[..|xs| - 1];
      assert NoRepeats(init) by {
        forall i, j | 0 <= i < j < |init| ensures init[i] != init[j] {
          assert init[i] == xs[i] && init[j] == xs[j];
        }
      }
      SetSize(init);
      assert xs == init + [xs[|xs| - 1]];
      assert (set x | x in xs) == (set x | x in init) + {xs[|xs| - 1]};
    }
  }

  lemma {:induction false} SubsetSize<T>(a: set<T>, b: set<T>)
    requires a <= b
    ensures |a| <= |b|
    decreases |a|
  {
    if a != {} {
      var y :| y in a;
      SubsetSize(a - {y}, b - {y});
    }
  }

  /** The elements of `xs` that satisfy `p`, in order (`Array.prototype.filter`
      and a `where` clause alike). */
  function Filter<T(!new)>(xs: seq<T>, p: T -> bool): (r: seq<T>)
    ensures |r| <= |xs|
    ensures forall x :: x in r <==> x in xs && p(x)
    ensures multiset(r) <= multiset(xs)
  {
    if |xs| == 0 then []
    else
      var rest := Filter(xs[1..], p);
      assert xs == [xs[0]] + xs[1..];
      if p(xs[0]) then [xs[0]] + rest else rest
  }

  /** Filtering a non-empty sequence: its head, if it passes, then the
      filtered tail. */
  lemma FilterCons<T(!new)>(xs: seq<T>, p: T -> bool)
    requires |xs| > 0
    ensures Filter(xs, p) == (if p(xs[0]) then [xs[0]] else []) + Filter(xs[1..], p)
  {
  }

  /** Filtering a concatenation filters each part. */
  lemma {:induction false} FilterAppend<T(!new)>(a: seq<T>, b: seq<T>, p: T -> bool)
    ensures Filter(a + b, p) == Filter(a, p) + Filter(b, p)
  {
    if |a| == 0 {
      assert a + b == b;
    } else {
      var ab := a + b;
      assert ab[0] == a[0] && ab[1..] == a[1..] + b;
      FilterAppend(a[1..], b, p);
    }
  }

  /** Filtering a sequence with one more element at the end. */
  lemma FilterSnoc<T(!new)>(xs: seq<T>, p: T -> bool)
    requires |xs| > 0
    ensures Filter(xs, p) == Filter(xs[..|xs| - 1], p) + (if p(xs[|xs| - 1]) then [xs[|xs| - 1]] else [])
  {
    var init, last := xs[..|xs| - 1], xs[|xs| - 1];
    assert xs == init + [last];
    FilterAppend(init, [last], p);
    assert [last][1..] == [];
  }

  /** Filtering keeps a sequence whose every element passes. */
  lemma {:induction false} FilterAll<T(!new)>(xs: seq<T>, p: T -> bool)
    requires forall j :: 0 <= j < |xs| ==> p(xs[j])
    ensures Filter(xs, p) == xs
  {
    if |xs| > 0 {
      FilterAll(xs[1..], p);
    }
  }

  /** Filtering drops a sequence whose every element fails. */
  lemma FilterNone<T(!new)>(xs: seq<T>, p: T -> bool)
    requires forall x :: x in xs ==> !p(x)
    ensures Filter(xs, p) == []
  {
  }

  /** A filter and its complement split a sequence between them. */
  lemma {:induction false} FilterSplit<T(!new)>(xs: seq<T>, p: T -> bool, q: T -> bool)
    requires forall x :: q(x) == !p(x)
    ensures |Filter(xs, p)| + |Filter(xs, q)| == |xs|
  {
    if |xs| > 0 {
      FilterSplit(xs[1..], p, q);
    }
  }

  /** Sequences with the same elements, counted, have the same members. */
  lemma SameMembers<T>(a: seq<T>, b: seq<T>)
    requires multiset(a) == multiset(b)
    ensures forall x :: x in a <==> x in b
  {
    forall x ensures x in a <==> x in b {
      assert x in a <==> x in multiset(a);
    }
  }

  /** Every element of a slice is an element of the whole. */
  lemma SliceIn<T>(s: seq<T>, lo: nat, hi: nat)
    requires lo <= hi <= |s|
    ensures forall x :: x in s[lo..hi] ==> x in s
  {
    forall x | x in s[lo..hi] ensures x in s {
      var j :| lo <= j < hi && s[j] == x;
    }
  }
}
