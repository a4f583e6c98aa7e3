/** Queues without duplicates: removal, filtering, rotation and positions. */
module Sequences {
  predicate NoDuplicates<T(==)>(s: seq<T>) {
    forall i, j :: 0 <= i < j < |s| ==> s[i] != s[j]
  }

  /** `list::remove`: every occurrence of x is taken out. */
  function Without<T(==)>(s: seq<T>, x: T): (r: seq<T>)
    ensures forall y :: y in r ==> y in s && y != x
    ensures forall y :: y in s && y != x ==> y in r
    ensures NoDuplicates(s) ==> NoDuplicates(r)
  {
    if s == [] then []
    else if s[0] == x then Without(s[1..], x)
    else
      var rest := Without(s[1..], x);
      assert s == [s[0]] + s[1..];
      assert NoDuplicates(s) ==> s[0] !in rest;
      [s[0]] + rest
  }

  /** The elements of s that are in keep, in their order. */
  function Keep<T(==)>(s: seq<T>, keep: set<T>): (r: seq<T>)
    ensures forall y :: y in r ==> y in s && y in keep
    ensures forall y :: y in s && y in keep ==> y in r
    ensures NoDuplicates(s) ==> NoDuplicates(r)
  {
    if s == [] then []
    else if s[0] !in keep then Keep(s[1..], keep)
    else
      var rest := Keep(s[1..], keep);
      assert s == [s[0]] + s[1..];
      assert NoDuplicates(s) ==> s[0] !in rest;
      [s[0]] + rest
  }

  /** The elements of s that are not in known, each at its first appearance. */
  function FirstAppearances<T(==)>(known: set<T>, s: seq<T>): (r: seq<T>)
    ensures forall y :: y in r ==> y in s && y !in known
    ensures forall y :: y in s && y !in known ==> y in r
    ensures NoDuplicates(r)
  {
    if s == [] then []
    else
      var earlier, x := s[..|s| - 1], s[|s| - 1];
      assert s == earlier + [x];
      if x in known || x in earlier then FirstAppearances(known, earlier)
      else FirstAppearances(known, earlier) + [x]
  }

  lemma FirstAppearancesStep<T>(known: set<T>, s: seq<T>, x: T)
    ensures FirstAppearances(known, s + [x])
         == FirstAppearances(known, s) + if x in known || x in s then [] else [x]
  {
    assert (s + [x])[..|s|] == s;
  }

  function Rotated<T>(s: seq<T>): seq<T>
    requires s != []
  {
    s[1..] + [s[0]]
  }

  lemma RotatedIsPermutation<T>(s: seq<T>)
    requires s != []
    ensures forall y :: y in Rotated(s) <==> y in s
    ensures NoDuplicates(s) ==> NoDuplicates(Rotated(s))
  {
    assert s == [s[0]] + s[1..];
  }

  /** The position of the first occurrence of x. */
  function IndexOf<T(==)>(s: seq<T>, x: T): (i: nat)
    requires x in s
    ensures i < |s| && s[i] == x && x !in s[..i]
  {
    if s[0] == x then 0
    else
      var i := 1 + IndexOf(s[1..], x);
      assert s[..i] == [s[0]] + s[1..][..i - 1];
      i
  }

  lemma {:induction false} IndexOfWithout<T>(s: seq<T>, x: T, y: T)
    requires x in s && x != y
    ensures IndexOf(Without(s, y), x) <= IndexOf(s, x)
  {
    if s[0] != x {
      IndexOfWithout(s[1..], x, y);
    }
  }

  lemma {:induction false} IndexOfKeep<T>(s: seq<T>, x: T, keep: set<T>)
    requires x in s && x in keep
    ensures IndexOf(Keep(s, keep), x) <= IndexOf(s, x)
  {
    if s[0] != x {
      IndexOfKeep(s[1..], x, keep);
    }
  }

  /** Filtering keeps the relative order of what it keeps. */
  lemma {:induction false} KeepPreservesOrder<T>(s: seq<T>, x: T, y: T, keep: set<T>)
    requires x in s && y in s && x in keep && y in keep
    ensures IndexOf(Keep(s, keep), x) < IndexOf(Keep(s, keep), y) <==> IndexOf(s, x) < IndexOf(s, y)
  {
    if s[0] != x && s[0] != y {
      KeepPreservesOrder(s[1..], x, y, keep);
    }
  }

  lemma {:induction false} IndexOfAppended<T>(s: seq<T>, t: seq<T>, x: T)
    requires x in s
    ensures x in s + t && IndexOf(s + t, x) == IndexOf(s, x)
  {
    if s[0] != x {
      assert (s + t)[1..] == s[1..] + t;
      IndexOfAppended(s[1..], t, x);
    }
  }

  lemma IndexOfRotated<T>(s: seq<T>, x: T)
    requires x in s && s[0] != x
    ensures x in Rotated(s) && IndexOf(Rotated(s), x) == IndexOf(s, x) - 1
  {
    IndexOfAppended(s[1..], [s[0]], x);
  }

  lemma {:induction false} WithoutAbsent<T>(s: seq<T>, x: T)
    requires x !in s
    ensures Without(s, x) == s
  {
    if s != [] { WithoutAbsent(s[1..], x); }
  }

  lemma {:induction false} KeepAll<T>(s: seq<T>, keep: set<T>)
    requires forall y :: y in s ==> y in keep
    ensures Keep(s, keep) == s
  {
    if s != [] { KeepAll(s[1..], keep); }
  }

  lemma {:induction false} WithoutIsKeep<T>(s: seq<T>, keep: set<T>, x: T)
    ensures Without(Keep(s, keep), x) == Keep(s, keep - {x})
  {
    if s != [] { WithoutIsKeep(s[1..], keep, x); }
  }

  lemma ConcatWithoutDuplicates<T>(s: seq<T>, t: seq<T>)
    requires NoDuplicates(s) && NoDuplicates(t)
    requires forall x :: x in s ==> x !in t
    ensures NoDuplicates(s + t)
  {
    forall i, j | 0 <= i < j < |s + t|
      ensures (s + t)[i] != (s + t)[j]
    {
      if i < |s| <= j { assert s[i] in s && t[j - |s|] in t; }
    }
  }

  lemma {:induction false} IndexOfInTail<T>(s: seq<T>, t: seq<T>, x: T)
    requires x !in s && x in t
    ensures x in s + t && IndexOf(s + t, x) == |s| + IndexOf(t, x)
  {
    if s == [] {
      assert s + t == t;
    } else {
      assert (s + t)[0] == s[0] && (s + t)[1..] == s[1..] + t;
      IndexOfInTail(s[1..], t, x);
    }
  }

  /** First appearances are listed in the order in which they appear. */
  lemma {:induction false} FirstAppearancesInOrder<T>(known: set<T>, s: seq<T>, x: T, y: T)
    requires x in s && y in s && x !in known && y !in known
    ensures var r := FirstAppearances(known, s);
            IndexOf(r, x) < IndexOf(r, y) <==> IndexOf(s, x) < IndexOf(s, y)
  {
    var earlier, z := s[..|s| - 1], s[|s| - 1];
    assert s == earlier + [z];
    var r := FirstAppearances(known, earlier);
    FirstAppearancesStep(known, earlier, z);
    hide FirstAppearances, IndexOf;
    IndexOfLast(earlier, z, x);
    IndexOfLast(earlier, z, y);
    if z !in earlier && z !in known {
      IndexOfLast(r, z, x);
      IndexOfLast(r, z, y);
    } else {
      assert r + [] == r;
    }
    if x in earlier && y in earlier { FirstAppearancesInOrder(known, earlier, x, y); }
  }

  lemma IndexOfLast<T>(s: seq<T>, z: T, x: T)
    requires x in s || x == z
    ensures IndexOf(s + [z], x) == if x in s then IndexOf(s, x) else |s|
  {
    if x in s { IndexOfAppended(s, [z], x); } else { IndexOfInTail(s, [z], x); }
  }

  lemma {:induction false} KeepConcat<T>(s: seq<T>, t: seq<T>, keep: set<T>)
    ensures Keep(s + t, keep) == Keep(s, keep) + Keep(t, keep)
  {
    if s == [] {
      assert s + t == t;
    } else {
      assert (s + t)[0] == s[0] && (s + t)[1..] == s[1..] + t;
      KeepConcat(s[1..], t, keep);
    }
  }

  /** A sequence that lists a finite set without duplicates is as long as the set is large. */
  lemma {:induction false} LengthOfListing<T>(s: seq<T>, all: set<T>)
    requires NoDuplicates(s)
    requires forall x :: x in s <==> x in all
    ensures |s| == |all|
  {
    if s == [] {
      assert all == {};
    } else {
      var rest := s[1..];
      assert s == [s[0]] + rest;
      forall x | x in rest ensures x != s[0] {
        var i :| 0 <= i < |rest| && rest[i] == x;
        assert s[i + 1] == x;
      }
      LengthOfListing(rest, all - {s[0]});
    }
  }
}
