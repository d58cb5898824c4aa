/** Strict total orders and the `sorted(set(...))` construction over them. */
module Ordering {

  ghost predicate StrictTotalOrder<T(!new)>(less: (T, T) -> bool)
  {
    && (forall x :: !less(x, x))
    && (forall x, y, z :: less(x, y) && less(y, z) ==> less(x, z))
    && (forall x, y :: x != y ==> less(x, y) || less(y, x))
  }

  /** Strictly ascending: sorted and free of duplicates. */
  ghost predicate Ascending<T>(less: (T, T) -> bool, s: seq<T>)
  {
    forall i, j :: 0 <= i < j < |s| ==> less(s[i], s[j])
  }

  /** Puts `x` into its place in an ascending `s`, unless it is already there. */
  function Insert<T(==,!new)>(less: (T, T) -> bool, x: T, s: seq<T>): (r: seq<T>)
    requires StrictTotalOrder(less) && Ascending(less, s)
    ensures Ascending(less, r)
    ensures forall y :: y in r <==> y == x || y in s
  {
    if s == [] then [x]
    else if x == s[0] then s
    else if less(x, s[0]) then [x] + s
    else
      var rest := Insert(less, x, s[1..]);
      assert forall y :: y in rest ==> less(s[0], y) by {
        forall y | y in rest
          ensures less(s[0], y)
        {
          if y != x {
            var k :| 1 <= k < |s| && s[k] == y;
          }
        }
      }
      [s[0]] + rest
  }

  /** The distinct elements of `s` in ascending order. */
  function SortedDistinct<T(==,!new)>(less: (T, T) -> bool, s: seq<T>): (r: seq<T>)
    requires StrictTotalOrder(less)
    ensures Ascending(less, r)
    ensures forall y :: y in r <==> y in s
  {
    if s == [] then []
    else Insert(less, s[|s| - 1], SortedDistinct(less, s[..|s| - 1]))
  }

  /** The head of an ascending sequence is below every other element. */
  lemma HeadIsLeast<T>(less: (T, T) -> bool, a: seq<T>, y: T)
    requires Ascending(less, a) && y in a
    ensures y == a[0] || less(a[0], y)
  {
    var k :| 0 <= k < |a| && a[k] == y;
    if k != 0 {
      assert less(a[0], a[k]);
    }
  }

  /** An ascending sequence is determined by its elements: whatever order the
      values were met in, the sorted list of distinct values is the same. */
  lemma {:induction false} AscendingUnique<T(!new)>(less: (T, T) -> bool, a: seq<T>, b: seq<T>)
    requires StrictTotalOrder(less)
    requires Ascending(less, a) && Ascending(less, b)
    requires forall y :: y in a <==> y in b
    ensures a == b
  {
    assert a == [] <==> b == [] by {
      if a != [] { assert a[0] in b; }
      if b != [] { assert b[0] in a; }
    }
    if a != [] {
      assert a[0] in a && b[0] in b;
      HeadIsLeast(less, a, b[0]);
      HeadIsLeast(less, b, a[0]);
      assert a[0] == b[0];
      assert a == [a[0]] + a[1..] && b == [b[0]] + b[1..];
      forall y
        ensures y in a[1..] <==> y in b[1..]
      {
        if y in a[1..] {
          assert y in a;
          HeadIsLeast(less, a[1..], y);
          assert less(a[0], y);
        }
        if y in b[1..] {
          assert y in b;
          assert less(b[0], y);
        }
      }
      AscendingUnique(less, a[1..], b[1..]);
    }
  }
}

/** Python's comparison of `str` values: lexicographic by code point. */
module Lex {
  import opened Ordering

  predicate Less(a: string, b: string)
  {
    if a == [] then b != []
    else if b == [] then false
    else a[0] < b[0] || (a[0] == b[0] && Less(a[1..], b[1..]))
  }

  lemma {:induction false} LessIrreflexive(a: string)
    ensures !Less(a, a)
  {
    if a != [] {
      LessIrreflexive(a[1..]);
    }
  }

  lemma {:induction false} LessTransitive(a: string, b: string, c: string)
    requires Less(a, b) && Less(b, c)
    ensures Less(a, c)
  {
    if a != [] && a[0] == b[0] && b[0] == c[0] {
      LessTransitive(a[1..], b[1..], c[1..]);
    }
  }

  lemma {:induction false} LessTotal(a: string, b: string)
    requires a != b
    ensures Less(a, b) || Less(b, a)
  {
    if a != [] && b != [] && a[0] == b[0] {
      assert a == [a[0]] + a[1..] && b == [b[0]] + b[1..];
      LessTotal(a[1..], b[1..]);
    }
  }

  lemma LessIsStrictTotalOrder()
    ensures StrictTotalOrder(Less)
  {
    forall x: string
      ensures !Less(x, x)
    {
      LessIrreflexive(x);
    }
    forall x: string, y: string, z: string | Less(x, y) && Less(y, z)
      ensures Less(x, z)
    {
      LessTransitive(x, y, z);
    }
    forall x: string, y: string | x != y
      ensures Less(x, y) || Less(y, x)
    {
      LessTotal(x, y);
    }
  }
}
