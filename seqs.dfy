/** Sequence helpers shared by the model: duplicate-freedom, the key order an
    insertion-ordered dictionary keeps, and joining strings with a separator. */
module Seqs {

  predicate NoDup<T(==)>(s: seq<T>) {
    forall i, j :: 0 <= i < j < |s| ==> s[i] != s[j]
  }

  /** `order` extended, in the order of `xs`, by every element of `xs` not yet
      present: the key order of an insertion-ordered dictionary after the keys
      `xs` have been assigned one after the other. */
  function Discover<T(==,!new)>(order: seq<T>, xs: seq<T>): (r: seq<T>)
    ensures |order| <= |r| && r[..|order|] == order
    ensures forall x :: x in r <==> x in order || x in xs
    ensures NoDup(order) ==> NoDup(r)
    decreases |xs|
  {
    if xs == [] then order
    else
      assert xs == xs[..|xs| - 1] + [xs[|xs| - 1]];
      var o := Discover(order, xs[..|xs| - 1]);
      if xs[|xs| - 1] in o then o else o + [xs[|xs| - 1]]
  }

  lemma DiscoverSnoc<T(!new)>(order: seq<T>, xs: seq<T>, x: T)
    ensures Discover(order, xs + [x])
         == var o := Discover(order, xs); if x in o then o else o + [x]
  {
    assert (xs + [x])[..|xs|] == xs;
  }

  /** A sequence lists each element once exactly when no element occurs
      twice in its multiset. */
  lemma {:induction false} NoDupMultiset<T>(s: seq<T>)
    ensures NoDup(s) <==> forall x :: multiset(s)[x] <= 1
    decreases |s|
  {
    if s != [] {
      NoDupMultiset(s[1..]);
      assert s == [s[0]] + s[1..];
      assert multiset(s) == multiset{s[0]} + multiset(s[1..]);
      if NoDup(s) {
        assert NoDup(s[1..]);
        assert s[0] !in s[1..];
      } else if s[0] in s[1..] {
        assert multiset(s)[s[0]] >= 2;
      } else {
        assert !NoDup(s[1..]) by {
          var i, j :| 0 <= i < j < |s| && s[i] == s[j];
          assert i > 0;
          assert s[1..][i - 1] == s[1..][j - 1];
        }
        var x :| multiset(s[1..])[x] > 1;
        assert multiset(s)[x] > 1;
      }
    }
  }

  /** Rearranging a sequence keeps it free of duplicates. */
  lemma NoDupPermutation<T>(a: seq<T>, b: seq<T>)
    requires NoDup(a) && multiset(a) == multiset(b)
    ensures NoDup(b)
  {
    NoDupMultiset(a);
    NoDupMultiset(b);
  }

  /** Assigning keys that are all present already leaves the key order alone. */
  lemma {:induction false} DiscoverKnown<T(!new)>(order: seq<T>, xs: seq<T>)
    requires forall x :: x in xs ==> x in order
    ensures Discover(order, xs) == order
    decreases |xs|
  {
    if xs != [] {
      DiscoverKnown(order, xs[..|xs| - 1]);
    }
  }

  /** Assigning the same keys a second time changes nothing. */
  lemma DiscoverTwice<T(!new)>(order: seq<T>, xs: seq<T>)
    ensures Discover(Discover(order, xs), xs) == Discover(order, xs)
  {
    DiscoverKnown(Discover(order, xs), xs);
  }

  lemma TakeSnoc<T>(s: seq<T>, j: nat)
    requires j < |s|
    ensures s[..j + 1] == s[..j] + [s[j]]
  {
  }

  /** `sep.join(parts)`. */
  function Join(parts: seq<string>, sep: string): (r: string)
    ensures |parts| == 0 ==> r == ""
    ensures |parts| == 1 ==> r == parts[0]
    ensures |parts| > 0 ==> |parts[0]| <= |r| && |parts[|parts| - 1]| <= |r|
    ensures |parts| > 0 ==> r[..|parts[0]|] == parts[0]
    ensures |parts| > 0 ==> r[|r| - |parts[|parts| - 1]|..] == parts[|parts| - 1]
    decreases |parts|
  {
    if |parts| == 0 then ""
    else if |parts| == 1 then parts[0]
    else Join(parts[..|parts| - 1], sep) + sep + parts[|parts| - 1]
  }
}
