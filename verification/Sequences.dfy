/** Facts about sequences that several modules share. */
module Sequences {

  /** The concatenation of `parts`, in order. */
  function Flatten<T>(parts: seq<seq<T>>): seq<T> {
    if parts == [] then [] else parts[0] + Flatten(parts[1..])
  }

  lemma {:induction false} FlattenConcat<T>(a: seq<seq<T>>, b: seq<seq<T>>)
    ensures Flatten(a + b) == Flatten(a) + Flatten(b)
  {
    if a == [] {
      assert a + b == b;
    } else {
      assert (a + b)[1..] == a[1..] + b;
      FlattenConcat(a[1..], b);
    }
  }

  lemma FlattenSnoc<T>(a: seq<seq<T>>, x: seq<T>)
    ensures Flatten(a + [x]) == Flatten(a) + x
  {
    FlattenConcat(a, [x]);
    assert Flatten([x]) == x + Flatten([[]][1..]);
  }

  /** Applies `f` to every element, keeping the order. */
  function Map<T, U>(f: T -> U, s: seq<T>): (r: seq<U>)
    ensures |r| == |s|
    ensures forall i :: 0 <= i < |s| ==> r[i] == f(s[i])
  {
    if s == [] then [] else [f(s[0])] + Map(f, s[1..])
  }

  lemma MapConcat<T, U>(f: T -> U, a: seq<T>, b: seq<T>)
    ensures Map(f, a + b) == Map(f, a) + Map(f, b)
  {
  }

  /** `s` lists the elements of `all`, each exactly once. */
  ghost predicate Enumerates<T>(s: seq<T>, all: set<T>) {
    && (forall i :: 0 <= i < |s| ==> s[i] in all)
    && (forall x :: x in all ==> x in s)
    && (forall i, j :: 0 <= i < j < |s| ==> s[i] != s[j])
  }

  /** Some enumeration of a set; which one is left open. */
  ghost function Enumeration<T>(all: set<T>): (s: seq<T>)
    ensures Enumerates(s, all)
  {
    if all == {} then [] else var x :| x in all; [x] + Enumeration(all - {x})
  }

  /** An enumeration seen as a multiset is the set it enumerates. */
  lemma {:induction false} EnumerationAsMultiset<T>(s: seq<T>, all: set<T>)
    requires Enumerates(s, all)
    ensures multiset(s) == multiset(all)
  {
    if s == [] {
      assert all == {};
    } else {
      var rest := all - {s[0]};
      assert Enumerates(s[1..], rest);
      EnumerationAsMultiset(s[1..], rest);
      assert s == [s[0]] + s[1..];
    }
  }
}

/** The byte order of Go strings and a sort by it (the library call sort.Strings). */
module StringOrder {
  import Sequences

  predicate Le(a: string, b: string) {
    a == [] || (b != [] && (a[0] < b[0] || (a[0] == b[0] && Le(a[1..], b[1..]))))
  }

  /** Two texts are ordered at the first place where they differ, and a prefix comes first. */
  lemma {:induction false} LeExactly(a: string, b: string, k: nat)
    requires k <= |a| && k <= |b| && a[..k] == b[..k]
    requires k == |a| || k == |b| || a[k] != b[k]
    ensures Le(a, b) <==> k == |a| || (k < |b| && a[k] < b[k])
  {
    if k > 0 {
      assert a[0] == a[..k][0] == b[..k][0] == b[0];
      assert a[1..][..k - 1] == a[..k][1..] && b[1..][..k - 1] == b[..k][1..];
      LeExactly(a[1..], b[1..], k - 1);
    }
  }

  lemma {:induction false} LeTransitive(a: string, b: string, c: string)
    requires Le(a, b) && Le(b, c)
    ensures Le(a, c)
  {
    if a != [] && a[0] == b[0] == c[0] {
      LeTransitive(a[1..], b[1..], c[1..]);
    }
  }

  lemma {:induction false} LeTotal(a: string, b: string)
    ensures Le(a, b) || Le(b, a)
    ensures Le(a, b) && Le(b, a) ==> a == b
  {
    if a != [] && b != [] {
      LeTotal(a[1..], b[1..]);
      assert a == [a[0]] + a[1..] && b == [b[0]] + b[1..];
    }
  }

  ghost predicate Sorted(s: seq<string>) {
    forall i, j :: 0 <= i < j < |s| ==> Le(s[i], s[j])
  }

  ghost predicate StrictlyAscending(s: seq<string>) {
    forall i, j :: 0 <= i < j < |s| ==> Le(s[i], s[j]) && s[i] != s[j]
  }

  function Insert(x: string, s: seq<string>): (r: seq<string>)
    requires Sorted(s)
    ensures Sorted(r)
    ensures multiset(r) == multiset(s) + multiset{x}
  {
    if s == [] then [x]
    else if Le(x, s[0]) then
      SortedBelow(x, s);
      [x] + s
    else
      var r := Insert(x, s[1..]);
      InsertedAbove(s, x, r);
      [s[0]] + r
  }

  lemma SortedBelow(x: string, s: seq<string>)
    requires Sorted(s) && s != [] && Le(x, s[0])
    ensures Sorted([x] + s)
  {
    forall j | 0 < j < |s| ensures Le(x, s[j]) {
      LeTransitive(x, s[0], s[j]);
    }
  }

  lemma InsertedAbove(s: seq<string>, x: string, r: seq<string>)
    requires Sorted(s) && s != [] && !Le(x, s[0])
    requires Sorted(r) && multiset(r) == multiset(s[1..]) + multiset{x}
    ensures Sorted([s[0]] + r)
    ensures multiset([s[0]] + r) == multiset(s) + multiset{x}
  {
    assert s == [s[0]] + s[1..];
    hide Le;
    LeTotal(x, s[0]);
    forall j | 0 <= j < |r| ensures Le(s[0], r[j]) {
      assert r[j] in multiset(r);
      assert r[j] == x || r[j] in s[1..];
    }
  }

  function Sort(s: seq<string>): (r: seq<string>)
    ensures Sorted(r)
    ensures multiset(r) == multiset(s)
  {
    if s == [] then []
    else
      assert s == [s[0]] + s[1..];
      Insert(s[0], Sort(s[1..]))
  }

  lemma HeadIsLeast(s: seq<string>, x: string)
    requires Sorted(s) && x in multiset(s)
    ensures Le(s[0], x)
  {
    LeTotal(x, x);
    var i :| 0 <= i < |s| && s[i] == x;
  }

  /** A sorted list is determined by its elements, so sorting forgets the input order. */
  lemma {:induction false} SortedUnique(a: seq<string>, b: seq<string>)
    requires Sorted(a) && Sorted(b) && multiset(a) == multiset(b)
    ensures a == b
  {
    assert |a| == |multiset(a)| == |multiset(b)| == |b|;
    if a != [] {
      assert a[0] == b[0] by {
        assert a[0] in multiset(a) && b[0] in multiset(b);
        HeadIsLeast(a, b[0]);
        HeadIsLeast(b, a[0]);
        LeTotal(a[0], b[0]);
      }
      TailMultiset(a);
      TailMultiset(b);
      SortedUnique(a[1..], b[1..]);
      assert a == [a[0]] + a[1..] && b == [b[0]] + b[1..];
    }
  }

  lemma TailMultiset(s: seq<string>)
    requires s != []
    ensures multiset(s[1..]) == multiset(s) - multiset{s[0]}
  {
    assert s == [s[0]] + s[1..];
  }

  /** A strictly ascending list is determined by its set of elements. */
  lemma AscendingUnique(a: seq<string>, b: seq<string>, all: set<string>)
    requires StrictlyAscending(a) && StrictlyAscending(b)
    requires (set x | x in a) == all && (set x | x in b) == all
    ensures a == b
  {
    assert Sequences.Enumerates(a, all) by {
      forall x | x in all ensures x in a { assert x in (set y | y in a); }
      forall i | 0 <= i < |a| ensures a[i] in all { assert a[i] in (set y | y in a); }
    }
    assert Sequences.Enumerates(b, all) by {
      forall x | x in all ensures x in b { assert x in (set y | y in b); }
      forall i | 0 <= i < |b| ensures b[i] in all { assert b[i] in (set y | y in b); }
    }
    Sequences.EnumerationAsMultiset(a, all);
    Sequences.EnumerationAsMultiset(b, all);
    SortedUnique(a, b);
  }
}
