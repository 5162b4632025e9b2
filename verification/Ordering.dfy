/** A stable sort over a caller-supplied order, and the facts that make its
    result independent of how the input happened to be enumerated. */
module Ordering {

  /** `le` is a total preorder on the elements of `s`. */
  ghost predicate Preorder<T(!new)>(le: (T, T) -> bool) {
    && (forall x, y :: le(x, y) || le(y, x))
    && (forall x, y, z :: le(x, y) && le(y, z) ==> le(x, z))
  }

  /** On the elements of `s`, `le` never ties two different elements. */
  ghost predicate Strict<T>(le: (T, T) -> bool, s: seq<T>) {
    forall i, j :: 0 <= i < |s| && 0 <= j < |s| && le(s[i], s[j]) && le(s[j], s[i]) ==> s[i] == s[j]
  }

  ghost predicate Sorted<T>(le: (T, T) -> bool, s: seq<T>) {
    forall i, j :: 0 <= i < j < |s| ==> le(s[i], s[j])
  }

  predicate NoDuplicates<T(==)>(s: seq<T>) {
    forall i, j :: 0 <= i < j < |s| ==> s[i] != s[j]
  }

  /** Places `x` before the first element it does not exceed. */
  function Insert<T>(le: (T, T) -> bool, x: T, s: seq<T>): (r: seq<T>)
    ensures |r| == |s| + 1
    ensures multiset(r) == multiset(s) + multiset{x}
  {
    if s == [] then [x]
    else if le(x, s[0]) then [x] + s
    else
      assert s == [s[0]] + s[1..];
      [s[0]] + Insert(le, x, s[1..])
  }

  /** Insertion sort from the right, so equal elements keep their order. */
  function Sort<T>(le: (T, T) -> bool, s: seq<T>): (r: seq<T>)
    ensures |r| == |s|
    ensures multiset(r) == multiset(s)
  {
    if s == [] then []
    else
      assert s == [s[0]] + s[1..];
      Insert(le, s[0], Sort(le, s[1..]))
  }

  lemma SameElements<T>(a: seq<T>, b: seq<T>)
    requires multiset(a) == multiset(b)
    ensures |a| == |b|
    ensures forall x :: x in a <==> x in b
  {
    assert |a| == |multiset(a)| == |multiset(b)| == |b|;
    forall x ensures x in a <==> x in b {
      assert x in a <==> x in multiset(a);
      assert x in b <==> x in multiset(b);
    }
  }

  lemma {:induction false} InsertSorted<T(!new)>(le: (T, T) -> bool, x: T, s: seq<T>)
    requires Preorder(le) && Sorted(le, s)
    ensures Sorted(le, Insert(le, x, s))
  {
    if s == [] || le(x, s[0]) {
    } else {
      InsertSorted(le, x, s[1..]);
      var r := Insert(le, x, s[1..]);
      assert s == [s[0]] + s[1..];
      forall j | 0 <= j < |r| ensures le(s[0], r[j]) {
        assert r[j] in multiset(r);
        assert r[j] in multiset(s[1..]) + multiset{x};
        if r[j] != x {
          assert r[j] in s[1..];
        }
      }
    }
  }

  lemma {:induction false} SortSorted<T(!new)>(le: (T, T) -> bool, s: seq<T>)
    requires Preorder(le)
    ensures Sorted(le, Sort(le, s))
  {
    if s != [] {
      SortSorted(le, s[1..]);
      InsertSorted(le, s[0], Sort(le, s[1..]));
    }
  }

  /** A sorted arrangement of given elements is unique when nothing ties. */
  lemma {:induction false} SortedUnique<T(!new)>(le: (T, T) -> bool, a: seq<T>, b: seq<T>)
    requires Preorder(le) && Strict(le, a)
    requires Sorted(le, a) && Sorted(le, b) && multiset(a) == multiset(b)
    ensures a == b
  {
    hide Preorder, Strict, Sorted;
    SameElements(a, b);
    if a != [] {
      HeadsAgree(le, a, b);
      Tail(le, a);
      Tail(le, b);
      SortedUnique(le, a[1..], b[1..]);
      FromParts(a, b);
    }
  }

  lemma FromParts<T>(a: seq<T>, b: seq<T>)
    requires a != [] && b != [] && a[0] == b[0] && a[1..] == b[1..]
    ensures a == b
  {
    assert a == [a[0]] + a[1..] && b == [b[0]] + b[1..];
  }

  lemma Tail<T(!new)>(le: (T, T) -> bool, s: seq<T>)
    requires s != [] && Sorted(le, s)
    ensures Sorted(le, s[1..]) && multiset(s[1..]) == multiset(s) - multiset{s[0]}
    ensures Strict(le, s) ==> Strict(le, s[1..])
  {
    assert s == [s[0]] + s[1..];
    assert forall i :: 0 <= i < |s| - 1 ==> s[1..][i] == s[i+1];
  }

  lemma HeadsAgree<T(!new)>(le: (T, T) -> bool, a: seq<T>, b: seq<T>)
    requires Preorder(le) && Strict(le, a) && a != [] && b != []
    requires Sorted(le, a) && Sorted(le, b) && forall x :: x in a <==> x in b
    ensures a[0] == b[0]
  {
    assert a[0] in b && b[0] in a;
    var i :| 0 <= i < |b| && b[i] == a[0];
    var j :| 0 <= j < |a| && a[j] == b[0];
    assert le(a[0], a[0]) && le(b[0], b[0]);
    assert le(a[0], a[j]) && le(b[0], b[i]);
  }

  /** Sorting forgets the enumeration order. */
  lemma SortCanonical<T(!new)>(le: (T, T) -> bool, a: seq<T>, b: seq<T>)
    requires Preorder(le) && Strict(le, a)
    requires multiset(a) == multiset(b)
    ensures Sort(le, a) == Sort(le, b)
  {
    SortSorted(le, a);
    SortSorted(le, b);
    SameElements(Sort(le, a), a);
    assert Strict(le, Sort(le, a)) by {
      var s := Sort(le, a);
      forall i, j | 0 <= i < |s| && 0 <= j < |s| && le(s[i], s[j]) && le(s[j], s[i])
        ensures s[i] == s[j]
      {
        assert s[i] in a && s[j] in a;
        var p :| 0 <= p < |a| && a[p] == s[i];
        var q :| 0 <= q < |a| && a[q] == s[j];
        assert le(a[p], a[q]) && le(a[q], a[p]);
      }
    }
    SortedUnique(le, Sort(le, a), Sort(le, b));
  }

  /** The elements, each once, in the order first met. */
  function FirstOccurrences<T(==,!new)>(s: seq<T>): (r: seq<T>)
    ensures NoDuplicates(r) && forall x :: x in r <==> x in s
  {
    if s == [] then []
    else
      var front, last := s[..|s|-1], s[|s|-1];
      assert s == front + [last];
      if last in FirstOccurrences(front) then FirstOccurrences(front) else FirstOccurrences(front) + [last]
  }

  /** x is met in s before y is. */
  ghost predicate MetBefore<T>(s: seq<T>, x: T, y: T) { exists p :: 0 <= p < |s| && s[p] == x && y !in s[..p+1] }

  lemma {:induction false} FirstOccurrencesOrdered<T(!new)>(s: seq<T>, i: nat, j: nat)
    requires i < j < |FirstOccurrences(s)|
    ensures MetBefore(s, FirstOccurrences(s)[i], FirstOccurrences(s)[j])
  {
    var front, last := s[..|s|-1], s[|s|-1];
    assert s == front + [last];
    var q, x, y := FirstOccurrences(front), FirstOccurrences(s)[i], FirstOccurrences(s)[j];
    if j < |q| {
      FirstOccurrencesOrdered(front, i, j);
      var p :| 0 <= p < |front| && front[p] == x && y !in front[..p+1];
      assert s[p] == x && s[..p+1] == front[..p+1];
    } else {
      assert q[i] in front && y == last && y !in front;
      var p :| 0 <= p < |front| && front[p] == x;
      assert s[p] == x && s[..p+1] == front[..p+1];
    }
  }

  /** Duplicate-free lists with the same members are permutations. */
  lemma {:induction false} SameSetSameMultiset<T>(a: seq<T>, b: seq<T>)
    requires NoDuplicates(a) && NoDuplicates(b)
    requires forall x :: x in a <==> x in b
    ensures multiset(a) == multiset(b)
  {
    forall x ensures multiset(a)[x] == multiset(b)[x] {
      CountAtMostOne(a, x);
      CountAtMostOne(b, x);
      assert x in a <==> x in multiset(a);
      assert x in b <==> x in multiset(b);
    }
  }

  lemma {:induction false} CountAtMostOne<T>(s: seq<T>, x: T)
    requires NoDuplicates(s)
    ensures multiset(s)[x] <= 1
  {
    if s != [] {
      CountAtMostOne(s[1..], x);
      assert s == [s[0]] + s[1..];
      if s[0] == x {
        assert x !in s[1..];
      }
    }
  }

  lemma RepeatCountsTwice<T>(s: seq<T>, i: nat, j: nat)
    requires i < j < |s| && s[i] == s[j]
    ensures multiset(s)[s[i]] >= 2
  {
    assert s == s[..j] + [s[j]] + s[j+1..];
    assert s[i] in s[..j];
  }

  /** Permutations keep duplicate-freeness. */
  lemma NoDuplicatesByCount<T>(a: seq<T>, b: seq<T>)
    requires NoDuplicates(a) && multiset(a) == multiset(b)
    ensures NoDuplicates(b)
  {
    forall i, j | 0 <= i < j < |b| ensures b[i] != b[j] {
      CountAtMostOne(a, b[i]);
      if b[i] == b[j] {
        RepeatCountsTwice(b, i, j);
      }
    }
  }
}
