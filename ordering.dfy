/**
 * Key ordering for deterministic output. Every place the archiver writes
 * the contents of a Go map (the event serialiser, `addSortedMapKeyValue`,
 * `writeJournalDB`) first collects the keys and sorts them, so that the
 * output does not depend on the map's iteration order (main.go:408-421,
 * main.go:490-513, main.go:717-729).
 */
module Ordering {

  /** `lt` is a strict total order. */
  ghost predicate IsStrictTotalOrder<T(!new)>(lt: (T, T) -> bool) {
    && (forall a :: !lt(a, a))
    && (forall a, b, c :: lt(a, b) && lt(b, c) ==> lt(a, c))
    && (forall a, b :: a != b ==> lt(a, b) || lt(b, a))
  }

  predicate StrictlySorted<T(!new)>(s: seq<T>, lt: (T, T) -> bool) {
    forall i, j :: 0 <= i < j < |s| ==> lt(s[i], s[j])
  }

  /** Go's `<` on integers (`sortIds.Less`). */
  function IntLess(a: int, b: int): bool {
    a < b
  }

  /**
   * Go's `<` on strings, as used by `sort.Strings`: lexicographic, a proper
   * prefix first. Characters compare by code point, which orders UTF-8
   * strings exactly as Go's byte-wise comparison does.
   */
  function StrLess(a: string, b: string): bool {
    if a == [] then b != []
    else if b == [] then false
    else if a[0] != b[0] then a[0] < b[0]
    else StrLess(a[1..], b[1..])
  }

  lemma {:induction false} StrLessIrreflexive(a: string)
    ensures !StrLess(a, a)
  {
    if a != [] {
      StrLessIrreflexive(a[1..]);
    }
  }

  lemma {:induction false} StrLessTransitive(a: string, b: string, c: string)
    requires StrLess(a, b) && StrLess(b, c)
    ensures StrLess(a, c)
  {
    if a != [] && b != [] && c != [] && a[0] == b[0] && b[0] == c[0] {
      StrLessTransitive(a[1..], b[1..], c[1..]);
    }
  }

  lemma {:induction false} StrLessTotal(a: string, b: string)
    requires a != b
    ensures StrLess(a, b) || StrLess(b, a)
  {
    if a != [] && b != [] && a[0] == b[0] {
      assert a == [a[0]] + a[1..] && b == [b[0]] + b[1..];
      StrLessTotal(a[1..], b[1..]);
    }
  }

  lemma StrLessIsStrictTotalOrder()
    ensures IsStrictTotalOrder(StrLess)
  {
    forall a {
      StrLessIrreflexive(a);
    }
    forall a, b, c | StrLess(a, b) && StrLess(b, c) {
      StrLessTransitive(a, b, c);
    }
    forall a, b | a != b {
      StrLessTotal(a, b);
    }
  }

  lemma IntLessIsStrictTotalOrder()
    ensures IsStrictTotalOrder(IntLess)
  {
  }

  predicate IsLeast<T(!new)>(m: T, s: set<T>, lt: (T, T) -> bool) {
    m in s && forall x :: x in s && x != m ==> lt(m, x)
  }

  /** Every non-empty finite set has a least element under a strict total order. */
  lemma {:induction false} LeastExists<T(!new)>(s: set<T>, lt: (T, T) -> bool)
    requires s != {} && IsStrictTotalOrder(lt)
    ensures exists m :: IsLeast(m, s, lt)
    decreases s
  {
    var x :| x in s;
    if s != {x} {
      LeastExists(s - {x}, lt);
      var m :| IsLeast(m, s - {x}, lt);
      if lt(x, m) {
        forall y | y in s && y != x
          ensures lt(x, y)
        {
          if y != m {
            assert lt(m, y);
          }
        }
        assert IsLeast(x, s, lt);
      } else {
        assert IsLeast(m, s, lt);
      }
    } else {
      assert IsLeast(x, s, lt);
    }
  }

  /** The elements of a finite set in ascending order. */
  ghost function SortedOf<T(!new)>(s: set<T>, lt: (T, T) -> bool): (r: seq<T>)
    requires IsStrictTotalOrder(lt)
    ensures StrictlySorted(r, lt)
    ensures forall x :: x in r <==> x in s
    ensures |r| == |s|
    decreases s
  {
    if s == {} then []
    else
      LeastExists(s, lt);
      var m :| IsLeast(m, s, lt);
      [m] + SortedOf(s - {m}, lt)
  }

  /**
   * Two ascending sequences with the same elements are equal: however a
   * map's keys are enumerated, sorting them gives one and the same sequence.
   */
  lemma {:induction false} SortedUnique<T(!new)>(a: seq<T>, b: seq<T>, lt: (T, T) -> bool)
    requires IsStrictTotalOrder(lt)
    requires StrictlySorted(a, lt) && StrictlySorted(b, lt)
    requires forall x :: x in a <==> x in b
    ensures a == b
    decreases |a|
  {
    if a == [] {
      assert forall i :: 0 <= i < |b| ==> b[i] in a;
    } else {
      assert b != [] by { assert a[0] in b; }
      assert a[0] == b[0] by {
        assert b[0] in a;
        assert a[0] in b;
      }
      forall x
        ensures x in a[1..] <==> x in b[1..]
      {
        if x in a[1..] {
          var i :| 1 <= i < |a| && a[i] == x;
          assert lt(a[0], x);
          assert x in a;
          assert x in b;
          var k :| 0 <= k < |b| && b[k] == x;
          assert k != 0;
          assert b[1..][k - 1] == x;
        }
        if x in b[1..] {
          var i :| 1 <= i < |b| && b[i] == x;
          assert lt(b[0], x);
          assert x in b;
          assert x in a;
          var k :| 0 <= k < |a| && a[k] == x;
          assert k != 0;
          assert a[1..][k - 1] == x;
        }
      }
      SortedUnique(a[1..], b[1..], lt);
      assert a == [a[0]] + a[1..] && b == [b[0]] + b[1..];
    }
  }

  /**
   * Collects the elements of a set and sorts them (the source's "copy the
   * map keys into a slice, then `sort.Strings` / `sort.Sort`"); the keys are
   * taken out of the set in ascending order, which leaves the same slice.
   */
  method SortSet<T(!new)>(s: set<T>, lt: (T, T) -> bool) returns (r: seq<T>)
    requires IsStrictTotalOrder(lt)
    ensures StrictlySorted(r, lt)
    ensures forall x :: x in r <==> x in s
    ensures |r| == |s|
    ensures r == SortedOf(s, lt)
  {
    r := [];
    var rest := s;
    while rest != {}
      invariant StrictlySorted(r, lt)
      invariant forall x :: x in s <==> x in r || x in rest
      invariant forall x :: x in r ==> x !in rest
      invariant forall i, y :: 0 <= i < |r| && y in rest ==> lt(r[i], y)
      invariant |r| + |rest| == |s|
      decreases rest
    {
      LeastExists(rest, lt);
      var m :| IsLeast(m, rest, lt);
      r := r + [m];
      rest := rest - {m};
    }
    SortedUnique(r, SortedOf(s, lt), lt);
  }
}
