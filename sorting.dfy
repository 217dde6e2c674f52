/**
 * The library sorts the core calls: Go's sort.Ints and Python's list.sort on
 * integers, and Python's sort on strings. Each is modelled as a stable
 * insertion sort, with the facts that identify it: the result is sorted, is a
 * permutation of the input, and is the only sorted permutation.
 */
module Sorting {

  predicate Sorted(s: seq<int>) {
    forall i, j :: 0 <= i < j < |s| ==> s[i] <= s[j]
  }

  function Insert(x: int, s: seq<int>): (r: seq<int>)
    ensures multiset(r) == multiset(s) + multiset{x}
    ensures Sorted(s) ==> Sorted(r)
  {
    if s == [] || x <= s[0] then
      [x] + s
    else
      assert s == [s[0]] + s[1..];
      var tail := Insert(x, s[1..]);
      InsertBehind(s[0], x, s[1..], tail);
      [s[0]] + tail
  }

  /**
   * Putting an element that is at most the head of a sorted sequence in
   * front of it, or keeping a head that is at most the inserted element,
   * keeps the sequence sorted.
   */
  lemma InsertBehind(h: int, x: int, rest: seq<int>, tail: seq<int>)
    requires h <= x
    requires multiset(tail) == multiset(rest) + multiset{x}
    requires Sorted(rest) ==> Sorted(tail)
    ensures Sorted([h] + rest) ==> Sorted([h] + tail)
  {
    if Sorted([h] + rest) {
      assert Sorted(rest) by {
        forall i, j | 0 <= i < j < |rest| ensures rest[i] <= rest[j] {
          assert ([h] + rest)[i + 1] == rest[i] && ([h] + rest)[j + 1] == rest[j];
        }
      }
      var r := [h] + tail;
      forall i, j | 0 <= i < j < |r| ensures r[i] <= r[j] {
        if i == 0 {
          assert r[0] == h && r[j] == tail[j - 1];
          assert tail[j - 1] in multiset(tail);
          if tail[j - 1] != x {
            assert tail[j - 1] in multiset(rest);
            var k :| 0 <= k < |rest| && rest[k] == tail[j - 1];
            assert ([h] + rest)[0] == h && ([h] + rest)[k + 1] == rest[k];
          }
        } else {
          assert r[i] == tail[i - 1] && r[j] == tail[j - 1];
        }
      }
    }
  }

  /** The first element of a non-empty sorted sequence is its least element. */
  lemma SortedHeadIsMin(a: seq<int>, x: int)
    requires Sorted(a) && x in multiset(a)
    ensures a[0] <= x
  {
    var i :| 0 <= i < |a| && a[i] == x;
  }

  /** sort.Ints: ascending order of the same integers. */
  function SortInts(s: seq<int>): (r: seq<int>)
    ensures multiset(r) == multiset(s)
    ensures Sorted(r)
  {
    if s == [] then []
    else
      assert s == [s[0]] + s[1..];
      Insert(s[0], SortInts(s[1..]))
  }

  /** Two sorted sequences holding the same integers are equal. */
  lemma {:induction false} SortedUnique(a: seq<int>, b: seq<int>)
    requires Sorted(a) && Sorted(b) && multiset(a) == multiset(b)
    ensures a == b
  {
    assert |a| == |multiset(a)| == |multiset(b)| == |b|;
    if |a| > 0 {
      MultisetTail(a);
      MultisetTail(b);
      SortedHeadIsMin(b, a[0]);
      SortedHeadIsMin(a, b[0]);
      assert a[0] == b[0];
      var a', b' := a[1..], b[1..];
      assert multiset(a') == multiset(b');
      assert Sorted(a');
      assert Sorted(b');
      SortedUnique(a', b');
      assert a == [a[0]] + a' && b == [b[0]] + b';
    }
  }

  lemma MultisetTail<T>(a: seq<T>)
    requires |a| > 0
    ensures a[0] in multiset(a)
    ensures multiset(a[1..]) == multiset(a) - multiset{a[0]}
  {
    assert a == [a[0]] + a[1..];
  }

  /** Sorting an already sorted sequence leaves it as it is. */
  lemma SortIntsOfSorted(s: seq<int>)
    requires Sorted(s)
    ensures SortInts(s) == s
  {
    SortedUnique(SortInts(s), s);
  }

  /** Sorting depends only on which integers are present, not on their order. */
  lemma SortIntsOfPermutation(a: seq<int>, b: seq<int>)
    requires multiset(a) == multiset(b)
    ensures SortInts(a) == SortInts(b)
  {
    SortedUnique(SortInts(a), SortInts(b));
  }

  /** Code-point order on strings, as Python compares str values. */
  predicate LexLe(a: string, b: string)
    decreases |a|
  {
    |a| == 0 || (|b| > 0 && (a[0] < b[0] || (a[0] == b[0] && LexLe(a[1..], b[1..]))))
  }

  lemma {:induction false} LexTotal(a: string, b: string)
    ensures LexLe(a, b) || LexLe(b, a)
    decreases |a|
  {
    if |a| > 0 && |b| > 0 && a[0] == b[0] {
      LexTotal(a[1..], b[1..]);
    }
  }

  lemma {:induction false} LexTrans(a: string, b: string, c: string)
    requires LexLe(a, b) && LexLe(b, c)
    ensures LexLe(a, c)
    decreases |a|
  {
    if |a| > 0 && a[0] == b[0] && b[0] == c[0] {
      LexTrans(a[1..], b[1..], c[1..]);
    }
  }

  lemma {:induction false} LexAntisym(a: string, b: string)
    requires LexLe(a, b) && LexLe(b, a)
    ensures a == b
    decreases |a|
  {
    if |a| > 0 {
      LexAntisym(a[1..], b[1..]);
      assert a == [a[0]] + a[1..] && b == [b[0]] + b[1..];
    }
  }

  predicate LexSorted(s: seq<string>) {
    forall i, j :: 0 <= i < j < |s| ==> LexLe(s[i], s[j])
  }

  function InsertLex(x: string, s: seq<string>): (r: seq<string>)
    ensures multiset(r) == multiset(s) + multiset{x}
    ensures LexSorted(s) ==> LexSorted(r)
  {
    if s == [] || LexLe(x, s[0]) then
      InsertLexFront(x, s);
      [x] + s
    else
      assert s == [s[0]] + s[1..];
      var tail := InsertLex(x, s[1..]);
      LexTotal(x, s[0]);
      InsertLexBehind(s[0], x, s[1..], tail);
      [s[0]] + tail
  }

  /** An element at most the head of a sorted sequence may go in front of it. */
  lemma InsertLexFront(x: string, s: seq<string>)
    requires s == [] || LexLe(x, s[0])
    ensures LexSorted(s) ==> LexSorted([x] + s)
  {
    if LexSorted(s) && s != [] {
      var r := [x] + s;
      forall i, j | 0 <= i < j < |r| ensures LexLe(r[i], r[j]) {
        if i == 0 && j > 1 {
          LexTrans(x, s[0], s[j - 1]);
        }
      }
    }
  }

  /** A head at most the inserted element stays in front of the insertion into the rest. */
  lemma InsertLexBehind(h: string, x: string, rest: seq<string>, tail: seq<string>)
    requires LexLe(h, x)
    requires multiset(tail) == multiset(rest) + multiset{x}
    requires LexSorted(rest) ==> LexSorted(tail)
    ensures LexSorted([h] + rest) ==> LexSorted([h] + tail)
  {
    if LexSorted([h] + rest) {
      assert LexSorted(rest) by {
        forall i, j | 0 <= i < j < |rest| ensures LexLe(rest[i], rest[j]) {
          assert ([h] + rest)[i + 1] == rest[i] && ([h] + rest)[j + 1] == rest[j];
        }
      }
      var r := [h] + tail;
      forall i, j | 0 <= i < j < |r| ensures LexLe(r[i], r[j]) {
        if i == 0 {
          assert r[0] == h && r[j] == tail[j - 1];
          assert tail[j - 1] in multiset(tail);
          if tail[j - 1] != x {
            assert tail[j - 1] in multiset(rest);
            var k :| 0 <= k < |rest| && rest[k] == tail[j - 1];
            assert ([h] + rest)[0] == h && ([h] + rest)[k + 1] == rest[k];
          }
        } else {
          assert r[i] == tail[i - 1] && r[j] == tail[j - 1];
          assert LexLe(tail[i - 1], tail[j - 1]);
        }
      }
    }
  }

  /** Python's sort on strings: code-point order, same strings. */
  function SortLex(s: seq<string>): (r: seq<string>)
    ensures multiset(r) == multiset(s)
    ensures LexSorted(r)
  {
    if s == [] then []
    else
      assert s == [s[0]] + s[1..];
      InsertLex(s[0], SortLex(s[1..]))
  }
}
