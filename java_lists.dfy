/**
 * `List<Integer>.sort(Integer::compareTo)`. Java's list sort is a library
 * merge sort; since a sorted permutation of a list of integers is unique,
 * any sorting algorithm yields the same list, and the model uses insertion
 * sort.
 */
module JavaLists {

  predicate Sorted(s: seq<int>)
  {
    forall i, j :: 0 <= i < j < |s| ==> s[i] <= s[j]
  }

  /** Inserts `x` before the first element that is not smaller. */
  function Insert(x: int, s: seq<int>): (r: seq<int>)
    ensures |r| == |s| + 1
    ensures x in r
    decreases |s|
  {
    if |s| == 0 then [x]
    else if x <= s[0] then [x] + s
    else [s[0]] + Insert(x, s[1..])
  }

  /** The sorted list. */
  function Sort(s: seq<int>): (r: seq<int>)
    ensures |r| == |s|
    decreases |s|
  {
    if |s| == 0 then [] else Insert(s[0], Sort(s[1..]))
  }

  /** Putting an element no larger than every element in front of a sorted list keeps it sorted. */
  lemma SortedCons(h: int, t: seq<int>)
    requires Sorted(t)
    requires forall k :: 0 <= k < |t| ==> h <= t[k]
    ensures Sorted([h] + t)
  {
    var s := [h] + t;
    forall i, j | 0 <= i < j < |s|
      ensures s[i] <= s[j]
    {
      assert s[j] == t[j - 1];
      if i > 0 {
        assert s[i] == t[i - 1];
      }
    }
  }

  /** Inserting adds exactly `x`. */
  lemma {:induction false} InsertPermutation(x: int, s: seq<int>)
    ensures multiset(Insert(x, s)) == multiset(s) + multiset{x}
    decreases |s|
  {
    if |s| > 0 {
      assert s == [s[0]] + s[1..];
      if x > s[0] {
        InsertPermutation(x, s[1..]);
      }
    }
  }

  /** Inserting into a sorted list keeps it sorted and adds exactly `x`. */
  lemma {:induction false} InsertSortedPermutation(x: int, s: seq<int>)
    requires Sorted(s)
    ensures Sorted(Insert(x, s))
    ensures multiset(Insert(x, s)) == multiset(s) + multiset{x}
    decreases |s|
  {
    InsertPermutation(x, s);
    if |s| > 0 {
      if x <= s[0] {
        SortedCons(x, s);
      } else {
        var rest := Insert(x, s[1..]);
        InsertSortedPermutation(x, s[1..]);
        forall k | 0 <= k < |rest|
          ensures s[0] <= rest[k]
        {
          assert rest[k] in multiset(s[1..]) + multiset{x};
          if rest[k] != x {
            var j :| 0 <= j < |s[1..]| && s[1..][j] == rest[k];
            assert s[0] <= s[j + 1];
          }
        }
        SortedCons(s[0], rest);
      }
    }
  }

  /** `Sort` returns an ascending permutation of its input. */
  lemma {:induction false} SortSortedPermutation(s: seq<int>)
    ensures Sorted(Sort(s))
    ensures multiset(Sort(s)) == multiset(s)
    decreases |s|
  {
    if |s| > 0 {
      SortSortedPermutation(s[1..]);
      InsertSortedPermutation(s[0], Sort(s[1..]));
      assert s == [s[0]] + s[1..];
    }
  }

  /** The head of an ascending list is no larger than any of its elements. */
  lemma SortedHeadIsMinimum(s: seq<int>, x: int)
    requires Sorted(s) && x in multiset(s)
    ensures |s| > 0 && s[0] <= x
  {
    var j :| 0 <= j < |s| && s[j] == x;
  }

  /** Dropping the head removes one copy of it. */
  lemma DropHead(s: seq<int>)
    requires |s| > 0
    ensures multiset(s[1..]) == multiset(s) - multiset{s[0]}
  {
    assert s == [s[0]] + s[1..];
  }

  /** The tail of an ascending list is ascending. */
  lemma SortedTail(s: seq<int>)
    requires Sorted(s) && |s| > 0
    ensures Sorted(s[1..])
  {
    forall i, j | 0 <= i < j < |s| - 1
      ensures s[1..][i] <= s[1..][j]
    {
      assert s[1..][i] == s[i + 1] && s[1..][j] == s[j + 1];
    }
  }

  /** Two ascending lists with the same elements start with the same element and agree on the rest as multisets. */
  lemma SameHeads(a: seq<int>, b: seq<int>)
    requires Sorted(a) && Sorted(b)
    requires multiset(a) == multiset(b) && |a| > 0
    ensures |b| > 0 && a[0] == b[0]
    ensures multiset(a[1..]) == multiset(b[1..])
  {
    assert a[0] in multiset(a);
    assert |b| > 0;
    assert b[0] in multiset(b);
    SortedHeadIsMinimum(a, b[0]);
    SortedHeadIsMinimum(b, a[0]);
    DropHead(a);
    DropHead(b);
  }

  /** Two non-empty lists with the same head and the same tail are equal. */
  lemma SameHeadAndTail(a: seq<int>, b: seq<int>)
    requires |a| > 0 && |b| > 0 && a[0] == b[0] && a[1..] == b[1..]
    ensures a == b
  {
    assert a == [a[0]] + a[1..];
    assert b == [b[0]] + b[1..];
  }

  /** Two ascending lists with the same elements are equal: every sort algorithm agrees with `Sort`. */
  lemma {:induction false} SortedPermutationUnique(a: seq<int>, b: seq<int>)
    requires Sorted(a) && Sorted(b)
    requires multiset(a) == multiset(b)
    ensures a == b
    decreases |a|
  {
    if |a| == 0 {
      assert |multiset(b)| == 0;
    } else {
      SameHeads(a, b);
      SortedTail(a);
      SortedTail(b);
      SortedPermutationUnique(a[1..], b[1..]);
      SameHeadAndTail(a, b);
    }
  }

  /** The sorted list is the only ascending permutation of the input. */
  lemma SortIsTheSortedPermutation(s: seq<int>, t: seq<int>)
    requires Sorted(t) && multiset(t) == multiset(s)
    ensures t == Sort(s)
  {
    SortSortedPermutation(s);
    SortedPermutationUnique(t, Sort(s));
  }
}
