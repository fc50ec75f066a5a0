/** The few operations of Python's `list` that the game relies on. */
module Lists {

  /** No element occurs twice. */
  predicate Distinct<T(==)>(s: seq<T>) {
    forall i, j :: 0 <= i < j < |s| ==> s[i] != s[j]
  }

  /** In a list without repeats, no element occurs before its own position. */
  lemma DistinctAt<T>(s: seq<T>, i: nat)
    requires Distinct(s) && i < |s|
    ensures s[i] !in s[..i]
  {
    forall j | 0 <= j < i ensures s[..i][j] != s[i] {
      assert s[..i][j] == s[j];
    }
  }

  /** Position of the first occurrence of `x` (`list.index`). */
  function IndexOf<T(==)>(s: seq<T>, x: T): (k: nat)
    requires x in s
    ensures k < |s| && s[k] == x && x !in s[..k]
  {
    if s[0] == x then 0 else 1 + IndexOf(s[1..], x)
  }

  /** `list.remove(x)`: drops the first occurrence of `x`, keeping the order of the rest. */
  function RemoveFirst<T(==)>(s: seq<T>, x: T): (r: seq<T>)
    requires x in s
    ensures |r| == |s| - 1
    ensures Distinct(s) ==> Distinct(r) && x !in r
  {
    var k := IndexOf(s, x);
    SpliceFacts(s, k);
    s[..k] + s[k + 1..]
  }

  /** `list.remove(x)` keeps every other element, and adds none. */
  lemma RemoveFirstMembers<T>(s: seq<T>, x: T)
    requires x in s
    ensures var r := RemoveFirst(s, x);
      && (forall i :: 0 <= i < |s| && s[i] != x ==> s[i] in r)
      && (forall i :: 0 <= i < |r| ==> r[i] in s)
  {
    SpliceFacts(s, IndexOf(s, x));
  }

  lemma SpliceFacts<T>(s: seq<T>, k: nat)
    requires k < |s|
    ensures var r := s[..k] + s[k + 1..];
      && (forall i :: 0 <= i < |s| && s[i] != s[k] ==> s[i] in r)
      && (forall i :: 0 <= i < |r| ==> r[i] in s)
      && (Distinct(s) ==> Distinct(r) && s[k] !in r)
  {
    var r := s[..k] + s[k + 1..];
    forall i | 0 <= i < |s| && s[i] != s[k] ensures s[i] in r {
      if i < k { assert r[i] == s[i]; } else { assert r[i - 1] == s[i]; }
    }
    forall i | 0 <= i < |r| ensures r[i] in s {
      if i < k { assert r[i] == s[i]; } else { assert r[i] == s[i + 1]; }
    }
    if Distinct(s) {
      forall i, j | 0 <= i < j < |r| ensures r[i] != r[j] {
        var i' := if i < k then i else i + 1;
        var j' := if j < k then j else j + 1;
        assert r[i] == s[i'] && r[j] == s[j'];
      }
      forall i | 0 <= i < |r| ensures r[i] != s[k] {
        var i' := if i < k then i else i + 1;
        assert r[i] == s[i'] && i' != k;
      }
    }
  }

  lemma {:induction false} DistinctCardinality<T>(s: seq<T>)
    requires Distinct(s)
    ensures |set x | x in s| == |s|
  {
    if s != [] {
      var t := s[..|s| - 1];
      var last := s[|s| - 1];
      assert Distinct(t);
      DistinctCardinality(t);
      assert s == t + [last];
      assert (set x | x in s) == (set x | x in t) + {last};
      assert last !in (set x | x in t);
    }
  }

  /** A sequence with a repeated element has fewer distinct elements than entries. */
  lemma {:induction false} RepeatCardinality<T>(s: seq<T>)
    requires !Distinct(s)
    ensures |set x | x in s| < |s|
  {
    var t := s[..|s| - 1];
    var last := s[|s| - 1];
    assert s == t + [last];
    assert (set x | x in s) == (set x | x in t) + {last};
    if Distinct(t) {
      DistinctCardinality(t);
      assert last in t by {
        var i, j :| 0 <= i < j < |s| && s[i] == s[j];
        assert j == |s| - 1;
        assert t[i] == last;
      }
    } else {
      RepeatCardinality(t);
    }
  }

  /** Removing an element that only occurs after a prefix keeps the prefix and the rest. */
  lemma RemoveFirstAfter<T>(a: seq<T>, x: T, b: seq<T>)
    requires x !in a
    ensures RemoveFirst(a + [x] + b, x) == a + b
  {
    var s := a + [x] + b;
    var k := IndexOf(s, x);
    assert s[|a|] == x;
    assert forall i :: 0 <= i < |a| ==> s[i] == a[i];
    assert forall j :: |a| < j <= |s| ==> s[..j][|a|] == x;
    assert s[..k] == a && s[k + 1..] == b;
  }

  /**
   * A duplicate-free sequence drawn from `b` is no longer than the number of
   * distinct elements of `b`, which is less than `|b|` when `b` repeats one.
   */
  lemma SubsetBound<T>(a: seq<T>, b: seq<T>)
    requires Distinct(a)
    requires forall i :: 0 <= i < |a| ==> a[i] in b
    ensures |a| <= |set x | x in b| <= |b|
    ensures !Distinct(b) ==> |a| < |b|
  {
    DistinctCardinality(a);
    assert (set x | x in a) <= (set x | x in b);
    SubsetCardinality(set x | x in a, set x | x in b);
    if Distinct(b) {
      DistinctCardinality(b);
    } else {
      RepeatCardinality(b);
    }
  }

  lemma SubsetCardinality<T>(A: set<T>, B: set<T>)
    requires A <= B
    ensures |A| <= |B|
    ensures |A| == |B| ==> A == B
  {
    assert B == A + (B - A);
    assert |B| == |A| + |B - A|;
    if |A| == |B| {
      assert |B - A| == 0;
    }
  }

  /**
   * Two duplicate-free sequences, one drawn from the other, have the same
   * length exactly when they hold the same elements.
   */
  lemma SameLengthSameElements<T>(a: seq<T>, b: seq<T>)
    requires Distinct(a) && Distinct(b)
    requires forall i :: 0 <= i < |a| ==> a[i] in b
    ensures |a| == |b| <==> forall i :: 0 <= i < |b| ==> b[i] in a
  {
    DistinctCardinality(a);
    DistinctCardinality(b);
    var A := set x | x in a;
    var B := set x | x in b;
    assert A <= B;
    SubsetCardinality(A, B);
    if |a| == |b| {
      assert A == B;
      forall i | 0 <= i < |b| ensures b[i] in a {
        assert b[i] in B;
      }
    }
    if forall i :: 0 <= i < |b| ==> b[i] in a {
      assert B <= A;
      assert A == B;
    }
  }
}
