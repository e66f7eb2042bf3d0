// Small shared vocabulary: an optional value, the fixed-width integer
// ranges the C++ code uses, and facts about ordering finite sets of keys.

module Wrappers {
  /** A nullable pointer in the C++ code becomes an Option. */
  datatype Option<+T> = None | Some(value: T)
}

module BoundedInts {
  type Int32 = x: int | -0x8000_0000 <= x < 0x8000_0000
  type UInt32 = x: int | 0 <= x < 0x1_0000_0000
  type Int64 = x: int | -0x8000_0000_0000_0000 <= x < 0x8000_0000_0000_0000

  const UINT32_MAX: UInt32 := 0xFFFF_FFFF

  /** `uint32_t` addition: wraps around modulo 2^32. */
  function AddUInt32(a: UInt32, b: UInt32): (r: UInt32)
    ensures a + b <= UINT32_MAX ==> r == a + b
    ensures a + b > UINT32_MAX ==> r == a + b - 0x1_0000_0000
  {
    (a + b) % 0x1_0000_0000
  }
}

/** Ordered traversal of finite key sets, as `std::map` iterates them. */
module Orders {

  predicate IsMin(s: set<int>, m: int) {
    m in s && forall x :: x in s ==> m <= x
  }

  predicate IsMax(s: set<int>, m: int) {
    m in s && forall x :: x in s ==> x <= m
  }

  /** A set other than the empty set has an element to pick. */
  lemma NonEmptyHasElement(s: set<int>)
    requires s != {}
    ensures exists x :: x in s
  {
    if forall x :: x !in s {
      assert false;
    }
  }

  /** Every non-empty finite set of integers has a least and a greatest element. */
  lemma {:induction false} HasExtremes(s: set<int>)
    requires s != {}
    ensures exists m :: IsMin(s, m)
    ensures exists m :: IsMax(s, m)
    decreases |s|
  {
    NonEmptyHasElement(s);
    var x :| x in s;
    if s == {x} {
      assert IsMin(s, x) && IsMax(s, x);
    } else {
      var rest := s - {x};
      HasExtremes(rest);
      var lo :| IsMin(rest, lo);
      var hi :| IsMax(rest, hi);
      var m := if x < lo then x else lo;
      var n := if x > hi then x else hi;
      forall y | y in s ensures m <= y <= n {
        if y != x {
          assert y in rest;
        }
      }
      assert IsMin(s, m);
      assert IsMax(s, n);
    }
  }

  /** The least element of a non-empty finite set. */
  ghost function MinOf(s: set<int>): (m: int)
    requires s != {}
    ensures IsMin(s, m)
  {
    HasExtremes(s);
    var m :| IsMin(s, m); m
  }

  /** The greatest element of a non-empty finite set. */
  ghost function MaxOf(s: set<int>): (m: int)
    requires s != {}
    ensures IsMax(s, m)
  {
    HasExtremes(s);
    var m :| IsMax(s, m); m
  }

  lemma MinIsUnique(s: set<int>, a: int, b: int)
    requires IsMin(s, a) && IsMin(s, b)
    ensures a == b
  {
  }

  /** The keys of a set in ascending order: `std::map`'s iteration order. */
  ghost function SortedKeys(s: set<int>): (ks: seq<int>)
    ensures |ks| == |s|
    ensures forall x :: x in ks <==> x in s
    decreases |s|
  {
    if s == {} then []
    else
      var m := MinOf(s);
      [m] + SortedKeys(s - {m})
  }

  ghost predicate StrictlyIncreasing(ks: seq<int>) {
    forall i, j :: 0 <= i < j < |ks| ==> ks[i] < ks[j]
  }

  /** Ascending order leaves no key out and repeats none. */
  lemma {:induction false} SortedKeysAscending(s: set<int>)
    ensures StrictlyIncreasing(SortedKeys(s))
    decreases |s|
  {
    if s != {} {
      var m := MinOf(s);
      var rest := SortedKeys(s - {m});
      SortedKeysAscending(s - {m});
      var ks := SortedKeys(s);
      assert ks == [m] + rest;
      forall i, j | 0 <= i < j < |ks| ensures ks[i] < ks[j] {
        assert ks[j] == rest[j - 1] && rest[j - 1] in s - {m};
        if i > 0 {
          assert ks[i] == rest[i - 1];
        }
      }
    }
  }

  /**
   * `a` is a subsequence of `b`: it is `b` with some elements deleted and
   * the rest in their original order.
   */
  ghost predicate SubSeq<T>(a: seq<T>, b: seq<T>)
    decreases |b|
  {
    if |b| == 0 then |a| == 0
    else
      SubSeq(a, b[..|b| - 1])
      || (|a| > 0 && a[|a| - 1] == b[|b| - 1] && SubSeq(a[..|a| - 1], b[..|b| - 1]))
  }

  lemma SubSeqExtendRight<T>(a: seq<T>, b: seq<T>, x: T)
    requires SubSeq(a, b)
    ensures SubSeq(a, b + [x])
  {
    assert (b + [x])[..|b|] == b;
  }

  lemma SubSeqExtendBoth<T>(a: seq<T>, b: seq<T>, x: T)
    requires SubSeq(a, b)
    ensures SubSeq(a + [x], b + [x])
  {
    assert (b + [x])[..|b|] == b;
    assert (a + [x])[..|a|] == a;
  }

  /** A subsequence is never longer than the sequence it is taken from. */
  lemma {:induction false} SubSeqLength<T>(a: seq<T>, b: seq<T>)
    requires SubSeq(a, b)
    ensures |a| <= |b|
    decreases |b|
  {
    if |b| > 0 {
      if SubSeq(a, b[..|b| - 1]) {
        SubSeqLength(a, b[..|b| - 1]);
      } else {
        SubSeqLength(a[..|a| - 1], b[..|b| - 1]);
      }
    }
  }

  lemma SubSeqRefl<T>(a: seq<T>)
    ensures SubSeq(a, a)
    decreases |a|
  {
    if |a| > 0 {
      SubSeqRefl(a[..|a| - 1]);
    }
  }
}
