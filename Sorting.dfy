/**
 * Stable sorting by an ECMAScript-style comparator (negative: first argument goes
 * first; positive: second goes first; zero: a tie).
 *
 * `InsertionSort` is the reference definition: a sorted, stable permutation of its
 * input. `StableSortIsUnique` shows that every sorted and stable permutation is
 * that one sequence, so the result does not depend on which stable algorithm an
 * engine uses, provided the comparator is consistent on the elements sorted.
 */
module Sorting {

  /**
   * `cmp` is a consistent comparator on the elements of `w`: reversing the
   * arguments reverses the sign, and "sorts no later than" is transitive.
   */
  ghost predicate ConsistentOn<T>(cmp: (T, T) -> int, w: seq<T>) {
    && (forall x, y :: x in w && y in w ==> (cmp(x, y) < 0 <==> cmp(y, x) > 0))
    && (forall x, y, z {:trigger Leq(cmp, x, y), Leq(cmp, y, z)} ::
          x in w && y in w && z in w && Leq(cmp, x, y) && Leq(cmp, y, z) ==> cmp(x, z) <= 0)
  }

  /** `x` sorts no later than `y`; named so that transitivity is used only where a proof asks for it. */
  ghost predicate Leq<T>(cmp: (T, T) -> int, x: T, y: T) {
    cmp(x, y) <= 0
  }

  lemma {:induction false} Transitive<T>(cmp: (T, T) -> int, w: seq<T>, x: T, y: T, z: T)
    requires ConsistentOn(cmp, w) && x in w && y in w && z in w
    requires cmp(x, y) <= 0 && cmp(y, z) <= 0
    ensures cmp(x, z) <= 0
  {
    assert Leq(cmp, x, y) && Leq(cmp, y, z);
  }

  /** No element sorts after a later one. */
  ghost predicate SortedBy<T>(s: seq<T>, cmp: (T, T) -> int) {
    forall i, j :: 0 <= i < j < |s| ==> cmp(s[i], s[j]) <= 0
  }

  /** The elements of `s` that tie with `y`, in the order of `s`. */
  function Ties<T>(s: seq<T>, y: T, cmp: (T, T) -> int): seq<T>
    decreases |s|
  {
    if s == [] then []
    else Ties(s[..|s| - 1], y, cmp) + (if cmp(s[|s| - 1], y) == 0 then [s[|s| - 1]] else [])
  }

  /** `s` with `x` placed after every element that does not sort after it. */
  function Insert<T>(s: seq<T>, x: T, cmp: (T, T) -> int): (r: seq<T>)
    ensures |r| == |s| + 1
    ensures multiset(r) == multiset(s) + multiset{x}
    decreases |s|
  {
    if s == [] || cmp(s[|s| - 1], x) <= 0 then s + [x]
    else
      assert s == s[..|s| - 1] + [s[|s| - 1]];
      Insert(s[..|s| - 1], x, cmp) + [s[|s| - 1]]
  }

  /** Insertion sort, taking the elements left to right. */
  function InsertionSort<T>(s: seq<T>, cmp: (T, T) -> int): (r: seq<T>)
    ensures |r| == |s|
    ensures multiset(r) == multiset(s)
    decreases |s|
  {
    if s == [] then []
    else
      assert s == s[..|s| - 1] + [s[|s| - 1]];
      Insert(InsertionSort(s[..|s| - 1], cmp), s[|s| - 1], cmp)
  }

  // ---------------------------------------------------------------------------
  // Basic facts
  // ---------------------------------------------------------------------------

  lemma {:induction false} ConsistentReflexive<T>(cmp: (T, T) -> int, w: seq<T>, x: T)
    requires ConsistentOn(cmp, w) && x in w
    ensures cmp(x, x) == 0
  {
  }

  lemma {:induction false} TiesAppend<T>(a: seq<T>, b: seq<T>, y: T, cmp: (T, T) -> int)
    ensures Ties(a + b, y, cmp) == Ties(a, y, cmp) + Ties(b, y, cmp)
    decreases |b|
  {
    if b == [] {
      assert a + b == a;
    } else {
      var ab := a + b;
      assert ab[..|ab| - 1] == a + b[..|b| - 1];
      assert ab[|ab| - 1] == b[|b| - 1];
      TiesAppend(a, b[..|b| - 1], y, cmp);
    }
  }

  lemma {:induction false} ElementsOfSorted<T>(s: seq<T>, cmp: (T, T) -> int, e: T)
    ensures e in InsertionSort(s, cmp) <==> e in s
  {
    var r := InsertionSort(s, cmp);
    assert e in r <==> e in multiset(r);
    assert e in s <==> e in multiset(s);
  }

  // ---------------------------------------------------------------------------
  // Sorted
  // ---------------------------------------------------------------------------

  lemma {:induction false} InsertSorted<T>(s: seq<T>, x: T, cmp: (T, T) -> int, w: seq<T>)
    requires ConsistentOn(cmp, w)
    requires forall e :: e in s ==> e in w
    requires x in w
    requires SortedBy(s, cmp)
    ensures SortedBy(Insert(s, x, cmp), cmp)
    decreases |s|
  {
    if s == [] || cmp(s[|s| - 1], x) <= 0 {
      forall e | e in s ensures cmp(e, x) <= 0 {
        var k :| 0 <= k < |s| && s[k] == e;
        if k < |s| - 1 {
          Transitive(cmp, w, s[k], s[|s| - 1], x);
        }
      }
      AppendSorted(s, x, cmp);
    } else {
      var init, last := s[..|s| - 1], s[|s| - 1];
      assert forall e :: e in init ==> e in s;
      assert SortedBy(init, cmp);
      InsertSorted(init, x, cmp, w);
      var ins := Insert(init, x, cmp);
      forall e | e in ins ensures cmp(e, last) <= 0 {
        assert e in multiset(ins);
        if e != x {
          assert e in multiset(init);
          var k :| 0 <= k < |init| && init[k] == e;
          assert cmp(s[k], s[|s| - 1]) <= 0;
        }
      }
      AppendSorted(ins, last, cmp);
    }
  }

  /** Appending an element no smaller than every element keeps a sequence sorted. */
  lemma AppendSorted<T>(s: seq<T>, x: T, cmp: (T, T) -> int)
    requires SortedBy(s, cmp)
    requires forall e :: e in s ==> cmp(e, x) <= 0
    ensures SortedBy(s + [x], cmp)
  {
    var r := s + [x];
    forall i, j | 0 <= i < j < |r| ensures cmp(r[i], r[j]) <= 0 {
      if j == |s| {
        assert r[i] in s;
      } else {
        assert r[i] == s[i] && r[j] == s[j];
      }
    }
  }

  lemma {:induction false} SortSorted<T>(s: seq<T>, cmp: (T, T) -> int, w: seq<T>)
    requires ConsistentOn(cmp, w)
    requires forall e :: e in s ==> e in w
    ensures SortedBy(InsertionSort(s, cmp), cmp)
    decreases |s|
  {
    if s != [] {
      var init := s[..|s| - 1];
      assert forall e :: e in init ==> e in s;
      SortSorted(init, cmp, w);
      forall e | e in InsertionSort(init, cmp) ensures e in w {
        ElementsOfSorted(init, cmp, e);
      }
      InsertSorted(InsertionSort(init, cmp), s[|s| - 1], cmp, w);
    }
  }

  // ---------------------------------------------------------------------------
  // Stable
  // ---------------------------------------------------------------------------

  lemma {:induction false} InsertTies<T>(s: seq<T>, x: T, y: T, cmp: (T, T) -> int, w: seq<T>)
    requires ConsistentOn(cmp, w)
    requires forall e :: e in s ==> e in w
    requires x in w && y in w
    ensures Ties(Insert(s, x, cmp), y, cmp) == Ties(s, y, cmp) + (if cmp(x, y) == 0 then [x] else [])
    decreases |s|
  {
    if s == [] || cmp(s[|s| - 1], x) <= 0 {
      TiesSnoc(s, x, y, cmp);
    } else {
      var init, last := s[..|s| - 1], s[|s| - 1];
      assert forall e :: e in init ==> e in s;
      InsertTies(init, x, y, cmp, w);
      var ins := Insert(init, x, cmp);
      assert Insert(s, x, cmp) == ins + [last];
      assert s == init + [last];
      TiesSnoc(ins, last, y, cmp);
      TiesSnoc(init, last, y, cmp);
      if cmp(x, y) == 0 {
        assert last in w;
        if cmp(last, y) == 0 {
          Transitive(cmp, w, last, y, x);
          assert false;
        }
      }
    }
  }

  /** Appending `e` appends it to the ties exactly when it ties with `y`. */
  lemma TiesSnoc<T>(s: seq<T>, e: T, y: T, cmp: (T, T) -> int)
    ensures Ties(s + [e], y, cmp) == Ties(s, y, cmp) + (if cmp(e, y) == 0 then [e] else [])
  {
    assert (s + [e])[..|s + [e]| - 1] == s;
  }

  /** Insertion sort is stable: the elements tying with any `y` keep their input order. */
  lemma {:induction false} SortTies<T>(s: seq<T>, y: T, cmp: (T, T) -> int, w: seq<T>)
    requires ConsistentOn(cmp, w)
    requires forall e :: e in s ==> e in w
    requires y in w
    ensures Ties(InsertionSort(s, cmp), y, cmp) == Ties(s, y, cmp)
    decreases |s|
  {
    if s != [] {
      var init := s[..|s| - 1];
      assert forall e :: e in init ==> e in s;
      SortTies(init, y, cmp, w);
      forall e | e in InsertionSort(init, cmp) ensures e in w {
        ElementsOfSorted(init, cmp, e);
      }
      InsertTies(InsertionSort(init, cmp), s[|s| - 1], y, cmp, w);
    }
  }

  // ---------------------------------------------------------------------------
  // Uniqueness
  // ---------------------------------------------------------------------------

  /** In a sorted sequence, every element sorts no later than the last one. */
  lemma {:induction false} LastIsGreatest<T>(t: seq<T>, cmp: (T, T) -> int, w: seq<T>, e: T)
    requires ConsistentOn(cmp, w)
    requires forall x :: x in t ==> x in w
    requires SortedBy(t, cmp) && e in t
    ensures cmp(e, t[|t| - 1]) <= 0
  {
    var k :| 0 <= k < |t| && t[k] == e;
    if k == |t| - 1 {
      ConsistentReflexive(cmp, w, e);
    }
  }

  /** Two sorted permutations with the same ties end in the same element. */
  lemma {:induction false} SameLast<T>(t1: seq<T>, t2: seq<T>, cmp: (T, T) -> int, w: seq<T>)
    requires ConsistentOn(cmp, w)
    requires forall e :: e in t1 ==> e in w
    requires |t1| > 0 && multiset(t1) == multiset(t2)
    requires SortedBy(t1, cmp) && SortedBy(t2, cmp)
    requires Ties(t1, t1[|t1| - 1], cmp) == Ties(t2, t1[|t1| - 1], cmp)
    requires |t2| == |t1|
    ensures t1[|t1| - 1] == t2[|t2| - 1]
  {
    var n := |t1|;
    var a, b := t1[n - 1], t2[n - 1];
    assert a in t1;
    assert b in multiset(t1);
    assert forall e :: e in t2 ==> e in w by {
      forall e | e in t2 ensures e in w { assert e in multiset(t1); }
    }
    LastIsGreatest(t1, cmp, w, b);
    assert a in multiset(t2);
    LastIsGreatest(t2, cmp, w, a);
    ConsistentReflexive(cmp, w, a);
    assert cmp(b, a) == 0;
    var ties1 := Ties(t1, a, cmp);
    assert ties1 == Ties(t1[..n - 1], a, cmp) + [a];
    assert ties1 == Ties(t2[..n - 1], a, cmp) + [b];
    assert ties1[|ties1| - 1] == a && ties1[|ties1| - 1] == b;
  }

  /** Removing a common last element keeps the ties equal. */
  lemma {:induction false} TiesOfInit<T>(t1: seq<T>, t2: seq<T>, y: T, cmp: (T, T) -> int)
    requires |t1| > 0 && |t2| > 0 && t1[|t1| - 1] == t2[|t2| - 1]
    requires Ties(t1, y, cmp) == Ties(t2, y, cmp)
    ensures Ties(t1[..|t1| - 1], y, cmp) == Ties(t2[..|t2| - 1], y, cmp)
  {
    var a := t1[|t1| - 1];
    var e := if cmp(a, y) == 0 then [a] else [];
    var x1, x2 := Ties(t1[..|t1| - 1], y, cmp), Ties(t2[..|t2| - 1], y, cmp);
    assert Ties(t1, y, cmp) == x1 + e;
    assert Ties(t2, y, cmp) == x2 + e;
    assert |x1| == |x2|;
    assert x1 == (x1 + e)[..|x1|] && x2 == (x2 + e)[..|x2|];
  }

  lemma {:induction false} MultisetOfInit<T>(t1: seq<T>, t2: seq<T>)
    requires |t1| > 0 && |t2| > 0 && t1[|t1| - 1] == t2[|t2| - 1]
    requires multiset(t1) == multiset(t2)
    ensures multiset(t1[..|t1| - 1]) == multiset(t2[..|t2| - 1])
  {
    var a := t1[|t1| - 1];
    var i1, i2 := t1[..|t1| - 1], t2[..|t2| - 1];
    assert t1 == i1 + [a];
    assert t2 == i2 + [a];
    var m1, m2 := multiset(i1), multiset(i2);
    assert multiset(t1) == m1 + multiset{a};
    assert multiset(t2) == m2 + multiset{a};
    forall z ensures m1[z] == m2[z] {
      assert (m1 + multiset{a})[z] == (m2 + multiset{a})[z];
    }
  }

  /** Two sorted, tie-preserving permutations agree on their last element, and their prefixes are again such a pair. */
  lemma {:induction false} SortedUniqueStep<T>(t1: seq<T>, t2: seq<T>, cmp: (T, T) -> int, w: seq<T>)
    requires ConsistentOn(cmp, w)
    requires forall e :: e in t1 ==> e in w
    requires |t1| > 0 && |t2| == |t1| && multiset(t1) == multiset(t2)
    requires SortedBy(t1, cmp) && SortedBy(t2, cmp)
    requires forall y :: y in w ==> Ties(t1, y, cmp) == Ties(t2, y, cmp)
    ensures t1[|t1| - 1] == t2[|t2| - 1]
    ensures forall e :: e in t1[..|t1| - 1] ==> e in w
    ensures multiset(t1[..|t1| - 1]) == multiset(t2[..|t2| - 1])
    ensures SortedBy(t1[..|t1| - 1], cmp) && SortedBy(t2[..|t2| - 1], cmp)
    ensures forall y :: y in w ==> Ties(t1[..|t1| - 1], y, cmp) == Ties(t2[..|t2| - 1], y, cmp)
  {
    assert t1[|t1| - 1] in w;
    SameLast(t1, t2, cmp, w);
    forall y | y in w ensures Ties(t1[..|t1| - 1], y, cmp) == Ties(t2[..|t2| - 1], y, cmp) {
      TiesOfInit(t1, t2, y, cmp);
    }
    MultisetOfInit(t1, t2);
    assert forall e :: e in t1[..|t1| - 1] ==> e in t1;
  }

  lemma {:induction false} SameLength<T>(t1: seq<T>, t2: seq<T>)
    requires multiset(t1) == multiset(t2)
    ensures |t1| == |t2|
  {
    assert |t1| == |multiset(t1)| && |t2| == |multiset(t2)|;
  }

  lemma {:induction false} EqualByInitAndLast<T>(t1: seq<T>, t2: seq<T>)
    requires |t1| == |t2| > 0
    requires t1[..|t1| - 1] == t2[..|t2| - 1] && t1[|t1| - 1] == t2[|t2| - 1]
    ensures t1 == t2
  {
    assert t1 == t1[..|t1| - 1] + [t1[|t1| - 1]];
    assert t2 == t2[..|t2| - 1] + [t2[|t2| - 1]];
  }

  lemma {:induction false} SortedUnique<T>(t1: seq<T>, t2: seq<T>, cmp: (T, T) -> int, w: seq<T>)
    requires ConsistentOn(cmp, w)
    requires forall e :: e in t1 ==> e in w
    requires multiset(t1) == multiset(t2)
    requires SortedBy(t1, cmp) && SortedBy(t2, cmp)
    requires forall y :: y in w ==> Ties(t1, y, cmp) == Ties(t2, y, cmp)
    ensures t1 == t2
    decreases |t1|
  {
    SameLength(t1, t2);
    if t1 != [] {
      SortedUniqueStep(t1, t2, cmp, w);
      SortedUnique(t1[..|t1| - 1], t2[..|t2| - 1], cmp, w);
      EqualByInitAndLast(t1, t2);
    }
  }

  /**
   * A stable sort's result is determined: any permutation of `s` that is sorted and
   * keeps every group of ties in input order is `InsertionSort(s, cmp)`.
   */
  lemma {:induction false} StableSortIsUnique<T>(s: seq<T>, t: seq<T>, cmp: (T, T) -> int)
    requires ConsistentOn(cmp, s)
    requires multiset(t) == multiset(s)
    requires SortedBy(t, cmp)
    requires forall y :: y in s ==> Ties(t, y, cmp) == Ties(s, y, cmp)
    ensures t == InsertionSort(s, cmp)
  {
    var r := InsertionSort(s, cmp);
    forall e | e in t ensures e in s {
      assert e in multiset(t);
    }
    SortSorted(s, cmp, s);
    forall y | y in s ensures Ties(t, y, cmp) == Ties(r, y, cmp) {
      SortTies(s, y, cmp, s);
    }
    SortedUnique(t, r, cmp, s);
  }

  /** Insertion sort is a sorted, stable permutation of its input. */
  lemma {:induction false} InsertionSortCorrect<T>(s: seq<T>, cmp: (T, T) -> int)
    requires ConsistentOn(cmp, s)
    ensures SortedBy(InsertionSort(s, cmp), cmp)
    ensures forall y :: y in s ==> Ties(InsertionSort(s, cmp), y, cmp) == Ties(s, y, cmp)
  {
    SortSorted(s, cmp, s);
    forall y | y in s ensures Ties(InsertionSort(s, cmp), y, cmp) == Ties(s, y, cmp) {
      SortTies(s, y, cmp, s);
    }
  }

  // ---------------------------------------------------------------------------
  // Comparators derived from a numeric key
  // ---------------------------------------------------------------------------

  /** The sign of `x`: what a sort makes of a comparator returning `x`. */
  function Sign(x: real): (r: int)
    ensures -1 <= r <= 1
    ensures r < 0 <==> x < 0.0
    ensures r > 0 <==> x > 0.0
  {
    if x < 0.0 then -1 else if x > 0.0 then 1 else 0
  }

  /** A comparator that orders by a numeric key is consistent. */
  lemma {:induction false} KeyComparatorConsistent<T>(cmp: (T, T) -> int, key: T -> real, w: seq<T>)
    requires forall a, b :: a in w && b in w ==> cmp(a, b) == Sign(key(a) - key(b))
    ensures ConsistentOn(cmp, w)
  {
    forall x, y, z | x in w && y in w && z in w && Leq(cmp, x, y) && Leq(cmp, y, z)
      ensures cmp(x, z) <= 0
    {
    }
  }

  /** Sorted by a key comparator means the key does not decrease. */
  lemma {:induction false} SortedByKey<T>(s: seq<T>, cmp: (T, T) -> int, key: T -> real, w: seq<T>)
    requires forall a, b :: a in w && b in w ==> cmp(a, b) == Sign(key(a) - key(b))
    requires forall e :: e in s ==> e in w
    requires SortedBy(s, cmp)
    ensures forall i, j :: 0 <= i < j < |s| ==> key(s[i]) <= key(s[j])
  {
    forall i, j | 0 <= i < j < |s| ensures key(s[i]) <= key(s[j]) {
      assert cmp(s[i], s[j]) <= 0;
      assert s[i] in w && s[j] in w;
    }
  }

  /**
   * Sorting by a comparator that compares a numeric key orders the key, and
   * elements with equal keys keep their input order.
   */
  lemma {:induction false} KeySortOrder<T>(s: seq<T>, cmp: (T, T) -> int, key: T -> real, out: seq<T>)
    requires forall a, b :: a in s && b in s ==> cmp(a, b) == Sign(key(a) - key(b))
    requires out == InsertionSort(s, cmp)
    ensures forall i, j :: 0 <= i < j < |out| ==> key(out[i]) <= key(out[j])
    ensures forall y :: y in s ==> Ties(out, y, cmp) == Ties(s, y, cmp)
  {
    KeyComparatorConsistent(cmp, key, s);
    InsertionSortCorrect(s, cmp);
    forall e | e in out ensures e in s {
      ElementsOfSorted(s, cmp, e);
    }
    SortedByKey(out, cmp, key, s);
  }

  // ---------------------------------------------------------------------------
  // In place
  // ---------------------------------------------------------------------------

  /** `x` is inserted after the last element that does not sort after it. */
  lemma {:induction false} InsertPosition<T>(p: seq<T>, x: T, j: nat, cmp: (T, T) -> int)
    requires j <= |p|
    requires j == 0 || cmp(p[j - 1], x) <= 0
    requires forall k :: j <= k < |p| ==> cmp(p[k], x) > 0
    ensures Insert(p, x, cmp) == p[..j] + [x] + p[j..]
    decreases |p|
  {
    if |p| == j {
      assert p[..j] == p && p[j..] == [];
    } else {
      var init := p[..|p| - 1];
      assert forall k :: j <= k < |init| ==> init[k] == p[k];
      InsertPosition(init, x, j, cmp);
      InsertPositionShifted(p, x, j, cmp);
    }
  }

  lemma {:induction false} InsertPositionShifted<T>(p: seq<T>, x: T, j: nat, cmp: (T, T) -> int)
    requires j < |p| && cmp(p[|p| - 1], x) > 0
    requires Insert(p[..|p| - 1], x, cmp) == p[..|p| - 1][..j] + [x] + p[..|p| - 1][j..]
    ensures Insert(p, x, cmp) == p[..j] + [x] + p[j..]
  {
    var init, last := p[..|p| - 1], p[|p| - 1];
    assert Insert(p, x, cmp) == Insert(init, x, cmp) + [last];
    assert init[..j] == p[..j];
    assert init[j..] + [last] == p[j..];
  }

  /** Inserts `a[i]` into the sorted prefix `a[..i]`, shifting strictly greater elements right. */
  method InsertInPlace<T>(a: array<T>, i: nat, cmp: (T, T) -> int)
    requires i < a.Length
    modifies a
    ensures a[..i + 1] == Insert(old(a[..i]), old(a[i]), cmp)
    ensures a[i + 1..] == old(a[i + 1..])
  {
    ghost var before := a[..];
    var x := a[i];
    var j := ShiftGreater(a, i, x, cmp);
    a[j] := x;
    Placed(a[..], before, i, j, cmp);
  }

  /**
   * After the elements of `before[j..i]` moved one place right and `before[i]` went
   * to position `j`, the prefix holds the insertion and the rest is untouched.
   */
  lemma {:induction false} Placed<T>(s: seq<T>, before: seq<T>, i: nat, j: nat, cmp: (T, T) -> int)
    requires |s| == |before| && j <= i < |s|
    requires j == 0 || cmp(before[j - 1], before[i]) <= 0
    requires forall k :: j <= k < i ==> cmp(before[k], before[i]) > 0
    requires forall k :: 0 <= k < j ==> s[k] == before[k]
    requires s[j] == before[i]
    requires forall k :: j < k <= i ==> s[k] == before[k - 1]
    requires forall k :: i < k < |s| ==> s[k] == before[k]
    ensures s[..i + 1] == Insert(before[..i], before[i], cmp)
    ensures s[i + 1..] == before[i + 1..]
  {
    var prefix := before[..i];
    InsertPosition(prefix, before[i], j, cmp);
    Shifted(s[..i + 1], prefix, before[i], j);
    SameTail(s, before, i);
  }

  /** Two sequences equal after position `i` have the same suffix after `i`. */
  lemma SameTail<T>(s: seq<T>, t: seq<T>, i: nat)
    requires |s| == |t| && i < |s|
    requires forall k :: i < k < |s| ==> s[k] == t[k]
    ensures s[i + 1..] == t[i + 1..]
  {
    var u, v := s[i + 1..], t[i + 1..];
    forall k | 0 <= k < |u| ensures u[k] == v[k] {
      assert u[k] == s[k + i + 1] && v[k] == t[k + i + 1];
    }
  }

  /**
   * Moves every element of `a[..i]` that sorts strictly after `x`, from the
   * right, one place to the right; `j` is the gap left for `x`.
   */
  method ShiftGreater<T>(a: array<T>, i: nat, x: T, cmp: (T, T) -> int) returns (j: nat)
    requires i < a.Length
    modifies a
    ensures j <= i
    ensures j == 0 || cmp(old(a[j - 1]), x) <= 0
    ensures forall k :: j <= k < i ==> cmp(old(a[k]), x) > 0
    ensures forall k :: 0 <= k < j ==> a[k] == old(a[k])
    ensures forall k :: j < k <= i ==> a[k] == old(a[k - 1])
    ensures forall k :: i < k < a.Length ==> a[k] == old(a[k])
  {
    j := i;
    while j > 0 && cmp(a[j - 1], x) > 0
      invariant 0 <= j <= i
      invariant forall k :: 0 <= k < j ==> a[k] == old(a[k])
      invariant forall k :: j < k <= i ==> a[k] == old(a[k - 1])
      invariant forall k :: j <= k < i ==> cmp(old(a[k]), x) > 0
      invariant forall k :: i < k < a.Length ==> a[k] == old(a[k])
    {
      a[j] := a[j - 1];
      j := j - 1;
    }
  }

  /** A sequence that agrees with `prefix` before `j`, holds `x` at `j` and `prefix` shifted by one after it. */
  lemma {:induction false} Shifted<T>(s: seq<T>, prefix: seq<T>, x: T, j: nat)
    requires j <= |prefix| && |s| == |prefix| + 1
    requires forall k :: 0 <= k < j ==> s[k] == prefix[k]
    requires s[j] == x
    requires forall k :: j < k < |s| ==> s[k] == prefix[k - 1]
    ensures s == prefix[..j] + [x] + prefix[j..]
  {
    var target := prefix[..j] + [x] + prefix[j..];
    forall k | 0 <= k < |s| ensures s[k] == target[k] {
      if k > j {
        assert target[k] == prefix[k - 1];
      }
    }
  }

  /** Sorting one more element inserts it into the sorted prefix. */
  lemma {:induction false} SortStep<T>(s: seq<T>, i: nat, cmp: (T, T) -> int)
    requires i < |s|
    ensures InsertionSort(s[..i + 1], cmp) == Insert(InsertionSort(s[..i], cmp), s[i], cmp)
  {
    assert s[..i + 1][..i] == s[..i];
  }

  /** Sorts `a` in place by insertion, left to right. */
  method InsertionSortInPlace<T>(a: array<T>, cmp: (T, T) -> int)
    modifies a
    ensures a[..] == InsertionSort(old(a[..]), cmp)
  {
    ghost var orig := a[..];
    var i := 0;
    while i < a.Length
      invariant 0 <= i <= a.Length
      invariant a[..i] == InsertionSort(orig[..i], cmp)
      invariant a[i..] == orig[i..]
    {
      assert a[i] == orig[i];
      InsertInPlace(a, i, cmp);
      SortStep(orig, i, cmp);
      assert orig[i..][1..] == orig[i + 1..];
      i := i + 1;
    }
    assert a[..] == a[..a.Length] && orig == orig[..a.Length];
  }
}
