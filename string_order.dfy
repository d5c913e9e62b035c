/**
 * The natural order of `java.lang.String` (`compareTo`): character by
 * character, and a proper prefix before the longer string.  It orders the
 * request ids of a `SortedSet<String>` and the rows that `Collections.sort`
 * arranges in the role report.
 */
module StringOrder {

  /** `a.compareTo(b) <= 0`. */
  predicate LessEq(a: string, b: string)
    decreases |a|
  {
    if a == [] then true
    else if b == [] then false
    else if a[0] != b[0] then a[0] < b[0]
    else LessEq(a[1..], b[1..])
  }

  /** `a.compareTo(b) < 0`. */
  predicate Less(a: string, b: string)
  {
    LessEq(a, b) && a != b
  }

  lemma {:induction false} LessEqReflexive(a: string)
    ensures LessEq(a, a)
  {
    if a != [] { LessEqReflexive(a[1..]); }
  }

  lemma {:induction false} LessEqAntisymmetric(a: string, b: string)
    requires LessEq(a, b) && LessEq(b, a)
    ensures a == b
  {
    if a != [] && b != [] {
      LessEqAntisymmetric(a[1..], b[1..]);
      assert a == [a[0]] + a[1..] && b == [b[0]] + b[1..];
    }
  }

  lemma {:induction false} LessEqTransitive(a: string, b: string, c: string)
    requires LessEq(a, b) && LessEq(b, c)
    ensures LessEq(a, c)
  {
    if a != [] && b != [] && c != [] && a[0] == b[0] && b[0] == c[0] {
      LessEqTransitive(a[1..], b[1..], c[1..]);
    }
  }

  lemma {:induction false} LessEqTotal(a: string, b: string)
    ensures LessEq(a, b) || LessEq(b, a)
  {
    if a != [] && b != [] && a[0] == b[0] {
      LessEqTotal(a[1..], b[1..]);
    }
  }

  /** Non-decreasing in the string order: what `Collections.sort` leaves behind. */
  predicate Sorted(s: seq<string>)
  {
    forall i, j | 0 <= i < j < |s| :: LessEq(s[i], s[j])
  }

  /** Strictly ascending: the iteration order of a `SortedSet<String>`. */
  predicate StrictlyAscending(s: seq<string>)
  {
    forall i, j | 0 <= i < j < |s| :: Less(s[i], s[j])
  }

  /** Places `x` in front of the first element it does not exceed. */
  function Insert(x: string, s: seq<string>): seq<string>
  {
    if s == [] then [x]
    else if LessEq(x, s[0]) then [x] + s
    else [s[0]] + Insert(x, s[1..])
  }

  lemma {:induction false} InsertPermutes(x: string, s: seq<string>)
    ensures multiset(Insert(x, s)) == multiset(s) + multiset{x}
  {
    if s != [] && !LessEq(x, s[0]) {
      InsertPermutes(x, s[1..]);
      assert s == [s[0]] + s[1..];
    }
  }

  lemma {:induction false} InsertSorted(x: string, s: seq<string>)
    requires Sorted(s)
    ensures Sorted(Insert(x, s))
  {
    if s != [] && !LessEq(x, s[0]) {
      var tail := s[1..];
      assert Sorted(tail) by {
        forall i, j | 0 <= i < j < |tail| ensures LessEq(tail[i], tail[j]) {
          assert tail[i] == s[i + 1] && tail[j] == s[j + 1];
        }
      }
      InsertSorted(x, tail);
      InsertPermutes(x, tail);
      var r := Insert(x, tail);
      LessEqTotal(x, s[0]);
      forall k | 0 <= k < |r| ensures LessEq(s[0], r[k]) {
        assert r[k] in multiset(r);
        if r[k] == x {
        } else {
          assert r[k] in multiset(tail);
          var m :| 0 <= m < |tail| && tail[m] == r[k];
          assert s[m + 1] == r[k];
        }
      }
      var out := [s[0]] + r;
      forall i, j | 0 <= i < j < |out| ensures LessEq(out[i], out[j]) {
        if i == 0 {
          assert out[j] == r[j - 1];
        } else {
          assert out[i] == r[i - 1] && out[j] == r[j - 1];
        }
      }
    } else if s != [] {
      var out := [x] + s;
      forall i, j | 0 <= i < j < |out| ensures LessEq(out[i], out[j]) {
        if i == 0 {
          assert out[j] == s[j - 1];
          if j > 1 { LessEqTransitive(x, s[0], s[j - 1]); }
        } else {
          assert out[i] == s[i - 1] && out[j] == s[j - 1];
        }
      }
    }
  }

  /** The sorted arrangement of `s`, defined by insertion from the back. */
  function SortSpec(s: seq<string>): seq<string>
  {
    if s == [] then [] else Insert(s[0], SortSpec(s[1..]))
  }

  lemma {:induction false} SortSpecSortedPermutation(s: seq<string>)
    ensures Sorted(SortSpec(s))
    ensures multiset(SortSpec(s)) == multiset(s)
  {
    if s != [] {
      SortSpecSortedPermutation(s[1..]);
      InsertSorted(s[0], SortSpec(s[1..]));
      InsertPermutes(s[0], SortSpec(s[1..]));
      assert s == [s[0]] + s[1..];
    }
  }

  /** The first element of a sorted sequence is below every element. */
  lemma SortedHeadIsLeast(s: seq<string>, x: string)
    requires Sorted(s) && x in multiset(s)
    ensures LessEq(s[0], x)
  {
    var k :| 0 <= k < |s| && s[k] == x;
    if k == 0 { LessEqReflexive(x); }
  }

  lemma SortedTail(s: seq<string>)
    requires Sorted(s) && s != []
    ensures Sorted(s[1..])
  {
    forall i, j | 0 <= i < j < |s[1..]| ensures LessEq(s[1..][i], s[1..][j]) {
      assert s[1..][i] == s[i + 1] && s[1..][j] == s[j + 1];
    }
  }

  lemma MultisetTail(s: seq<string>)
    requires s != []
    ensures multiset(s[1..]) == multiset(s) - multiset{s[0]}
  {
    assert s == [s[0]] + s[1..];
  }

  /**
   * Two sorted arrangements of the same strings are the same sequence, so the
   * sorted output is determined by the multiset of its input.
   */
  lemma {:induction false} SortedUnique(a: seq<string>, b: seq<string>)
    requires Sorted(a) && Sorted(b)
    requires multiset(a) == multiset(b)
    ensures a == b
  {
    if a == [] {
      assert |b| == |multiset(b)| == 0;
    } else {
      assert |b| == |multiset(b)| == |a|;
      assert a[0] in multiset(a) && b[0] in multiset(b);
      SortedHeadIsLeast(a, b[0]);
      SortedHeadIsLeast(b, a[0]);
      LessEqAntisymmetric(a[0], b[0]);
      MultisetTail(a);
      MultisetTail(b);
      SortedTail(a);
      SortedTail(b);
      SortedUnique(a[1..], b[1..]);
      assert a == [a[0]] + a[1..] && b == [b[0]] + b[1..];
    }
  }

  /** `Collections.sort` on a list of strings: the result is its sorted permutation. */
  method Sort(rows: seq<string>) returns (sorted: seq<string>)
    ensures Sorted(sorted)
    ensures multiset(sorted) == multiset(rows)
    ensures sorted == SortSpec(rows)
  {
    sorted := [];
    for i := 0 to |rows|
      invariant Sorted(sorted)
      invariant multiset(sorted) == multiset(rows[..i])
    {
      InsertSorted(rows[i], sorted);
      InsertPermutes(rows[i], sorted);
      sorted := Insert(rows[i], sorted);
      assert rows[..i + 1] == rows[..i] + [rows[i]];
    }
    assert rows[..|rows|] == rows;
    SortSpecSortedPermutation(rows);
    SortedUnique(sorted, SortSpec(rows));
  }
}
