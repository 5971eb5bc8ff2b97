/**
 * Removing occurrences of a value from a list: the three scans behind `lrem`
 * (every occurrence, the first n from the head, the last n from the tail),
 * together with reference characterisations of what each leaves behind.
 */
module Occurrences {

  /** Number of elements of xs equal to v. */
  function Count<T(==)>(xs: seq<T>, v: T): (n: nat)
    ensures n <= |xs|
  {
    if |xs| == 0 then 0 else (if xs[0] == v then 1 else 0) + Count(xs[1..], v)
  }

  /** How many occurrences a scan with budget n removes from a list holding occ of them. */
  function Removed(n: int, occ: nat): (k: nat)
    ensures k <= occ
  {
    if n <= 0 then 0 else if n < occ then n else occ
  }

  /** The list read back to front. */
  function Reverse<T>(xs: seq<T>): (r: seq<T>)
    ensures |r| == |xs|
  {
    if |xs| == 0 then [] else [xs[|xs| - 1]] + Reverse(xs[..|xs| - 1])
  }

  /** Position i of the reversed list holds position |xs| - 1 - i of the original. */
  lemma {:induction false} ReverseIndex<T>(xs: seq<T>, i: nat)
    requires i < |xs|
    ensures Reverse(xs)[i] == xs[|xs| - 1 - i]
  {
    if i > 0 {
      ReverseIndex(xs[..|xs| - 1], i - 1);
    }
  }

  /** a is a subsequence of b: a can be obtained from b by deleting elements, keeping order. */
  ghost predicate IsSubsequence<T>(a: seq<T>, b: seq<T>)
    decreases |b|
  {
    |a| == 0 || (|b| > 0 && ((a[0] == b[0] && IsSubsequence(a[1..], b[1..])) || IsSubsequence(a, b[1..])))
  }

  /** Every element not equal to v, in the original order (`Vec::retain(|x| x != v)`). */
  function RemoveAll<T(==)>(xs: seq<T>, v: T): seq<T>
  {
    if |xs| == 0 then []
    else if xs[0] == v then RemoveAll(xs[1..], v)
    else [xs[0]] + RemoveAll(xs[1..], v)
  }

  /**
   * Scan from the head with a removal budget n: an element equal to v is dropped
   * while the budget is positive, each drop spending one unit; all other elements
   * are kept in order.
   */
  function RemoveFirst<T(==)>(xs: seq<T>, v: T, n: int): seq<T>
  {
    if |xs| == 0 then []
    else if n > 0 && xs[0] == v then RemoveFirst(xs[1..], v, n - 1)
    else [xs[0]] + RemoveFirst(xs[1..], v, n)
  }

  /**
   * Scan from the tail with a removal budget n: the list is read back to front,
   * the survivors are collected, and the collection is turned back round.
   */
  function RemoveLast<T(==)>(xs: seq<T>, v: T, n: int): seq<T>
  {
    Reverse(RemoveFirst(Reverse(xs), v, n))
  }

  // ---------------------------------------------------------------------------
  // Facts about Count and Reverse
  // ---------------------------------------------------------------------------

  lemma {:induction false} CountConcat<T>(a: seq<T>, b: seq<T>, v: T)
    ensures Count(a + b, v) == Count(a, v) + Count(b, v)
  {
    if |a| > 0 {
      assert (a + b)[1..] == a[1..] + b;
      CountConcat(a[1..], b, v);
    } else {
      assert a + b == b;
    }
  }

  /** No copies counted means no copy present. */
  lemma {:induction false} CountZeroIffAbsent<T>(xs: seq<T>, v: T)
    ensures Count(xs, v) == 0 <==> v !in xs
  {
    if |xs| > 0 {
      CountZeroIffAbsent(xs[1..], v);
      assert xs == [xs[0]] + xs[1..];
    }
  }

  lemma {:induction false} CountReverse<T>(xs: seq<T>, v: T)
    ensures Count(Reverse(xs), v) == Count(xs, v)
  {
    if |xs| > 0 {
      var init := xs[..|xs| - 1];
      var last := [xs[|xs| - 1]];
      CountReverse(init, v);
      CountConcat(last, Reverse(init), v);
      assert xs == init + last;
      CountConcat(init, last, v);
    }
  }

  lemma {:induction false} ReverseConcat<T>(a: seq<T>, b: seq<T>)
    ensures Reverse(a + b) == Reverse(b) + Reverse(a)
  {
    var r, s := Reverse(a + b), Reverse(b) + Reverse(a);
    assert |r| == |s|;
    forall i | 0 <= i < |r|
      ensures r[i] == s[i]
    {
      ReverseIndex(a + b, i);
      if i < |b| {
        ReverseIndex(b, i);
        assert s[i] == Reverse(b)[i];
      } else {
        ReverseIndex(a, i - |b|);
        assert s[i] == Reverse(a)[i - |b|];
      }
    }
  }

  lemma ReverseReverse<T>(xs: seq<T>)
    ensures Reverse(Reverse(xs)) == xs
  {
    var r := Reverse(Reverse(xs));
    forall i | 0 <= i < |xs|
      ensures r[i] == xs[i]
    {
      ReverseIndex(Reverse(xs), i);
      ReverseIndex(xs, |xs| - 1 - i);
    }
  }

  lemma {:induction false} RemoveAllConcat<T>(a: seq<T>, b: seq<T>, v: T)
    ensures RemoveAll(a + b, v) == RemoveAll(a, v) + RemoveAll(b, v)
  {
    if |a| > 0 {
      assert (a + b)[1..] == a[1..] + b;
      RemoveAllConcat(a[1..], b, v);
    } else {
      assert a + b == b;
    }
  }

  lemma {:induction false} RemoveAllReverse<T>(xs: seq<T>, v: T)
    ensures RemoveAll(Reverse(xs), v) == Reverse(RemoveAll(xs, v))
  {
    if |xs| > 0 {
      var init := xs[..|xs| - 1];
      var last := [xs[|xs| - 1]];
      assert xs == init + last;
      RemoveAllReverse(init, v);
      RemoveAllConcat(last, Reverse(init), v);
      RemoveAllConcat(init, last, v);
      ReverseConcat(RemoveAll(init, v), RemoveAll(last, v));
    }
  }

  // ---------------------------------------------------------------------------
  // How many elements each scan removes
  // ---------------------------------------------------------------------------

  /** Removing every occurrence of v leaves none and shortens the list by their number. */
  lemma {:induction false} RemoveAllCounts<T>(xs: seq<T>, v: T)
    ensures Count(RemoveAll(xs, v), v) == 0
    ensures |RemoveAll(xs, v)| == |xs| - Count(xs, v)
  {
    if |xs| > 0 {
      RemoveAllCounts(xs[1..], v);
      if xs[0] != v {
        assert ([xs[0]] + RemoveAll(xs[1..], v))[1..] == RemoveAll(xs[1..], v);
      }
    }
  }

  /** The head scan removes min(budget, occurrences) elements, all of them equal to v. */
  lemma {:induction false} RemoveFirstCounts<T>(xs: seq<T>, v: T, n: int)
    ensures |RemoveFirst(xs, v, n)| == |xs| - Removed(n, Count(xs, v))
    ensures Count(RemoveFirst(xs, v, n), v) == Count(xs, v) - Removed(n, Count(xs, v))
  {
    if |xs| > 0 {
      if n > 0 && xs[0] == v {
        RemoveFirstCounts(xs[1..], v, n - 1);
      } else {
        RemoveFirstCounts(xs[1..], v, n);
        assert ([xs[0]] + RemoveFirst(xs[1..], v, n))[1..] == RemoveFirst(xs[1..], v, n);
      }
    }
  }

  /** The tail scan removes min(budget, occurrences) elements, all of them equal to v. */
  lemma RemoveLastCounts<T>(xs: seq<T>, v: T, n: int)
    ensures |RemoveLast(xs, v, n)| == |xs| - Removed(n, Count(xs, v))
    ensures Count(RemoveLast(xs, v, n), v) == Count(xs, v) - Removed(n, Count(xs, v))
  {
    var kept := RemoveFirst(Reverse(xs), v, n);
    RemoveFirstCounts(Reverse(xs), v, n);
    CountReverse(xs, v);
    CountReverse(kept, v);
  }

  // ---------------------------------------------------------------------------
  // Reference characterisations of the three scans
  // ---------------------------------------------------------------------------

  /** With no budget left the head scan removes nothing. */
  lemma {:induction false} RemoveFirstWithoutBudget<T>(xs: seq<T>, v: T, n: int)
    requires n <= 0
    ensures RemoveFirst(xs, v, n) == xs
  {
    if |xs| > 0 {
      RemoveFirstWithoutBudget(xs[1..], v, n);
    }
  }

  /** Without an occurrence of v the head scan removes nothing. */
  lemma {:induction false} RemoveFirstWithoutOccurrence<T>(xs: seq<T>, v: T, n: int)
    requires Count(xs, v) == 0
    ensures RemoveFirst(xs, v, n) == xs
  {
    if |xs| > 0 {
      RemoveFirstWithoutOccurrence(xs[1..], v, n);
    }
  }

  /**
   * The head scan over a + b, when a holds exactly the occurrences it removes,
   * deletes every occurrence of v in a and leaves b untouched.
   */
  lemma {:induction false} RemoveFirstConcat<T>(a: seq<T>, b: seq<T>, v: T, n: int)
    requires Count(a, v) == Removed(n, Count(a + b, v))
    ensures RemoveFirst(a + b, v, n) == RemoveAll(a, v) + b
  {
    if |a| == 0 {
      assert a + b == b;
      if n <= 0 {
        RemoveFirstWithoutBudget(b, v, n);
      } else {
        RemoveFirstWithoutOccurrence(b, v, n);
      }
    } else {
      var x, rest := a[0], a[1..];
      assert (a + b)[0] == x && (a + b)[1..] == rest + b;
      if x == v {
        assert n > 0;
        RemoveFirstConcat(rest, b, v, n - 1);
      } else {
        RemoveFirstConcat(rest, b, v, n);
        assert [x] + (RemoveAll(rest, v) + b) == ([x] + RemoveAll(rest, v)) + b;
      }
    }
  }

  /**
   * The tail scan over a + b, when b holds exactly the occurrences it removes,
   * leaves a untouched and deletes every occurrence of v in b.
   */
  lemma RemoveLastConcat<T>(a: seq<T>, b: seq<T>, v: T, n: int)
    requires Count(b, v) == Removed(n, Count(a + b, v))
    ensures RemoveLast(a + b, v, n) == a + RemoveAll(b, v)
  {
    ReverseConcat(a, b);
    CountReverse(b, v);
    CountReverse(a + b, v);
    RemoveFirstConcat(Reverse(b), Reverse(a), v, n);
    RemoveAllReverse(b, v);
    ReverseConcat(Reverse(RemoveAll(b, v)), Reverse(a));
    ReverseReverse(RemoveAll(b, v));
    ReverseReverse(a);
  }

  /** A cut point with exactly k occurrences before it exists for every k up to the total. */
  lemma {:induction false} PrefixWithCount<T>(xs: seq<T>, v: T, k: nat) returns (p: nat)
    requires k <= Count(xs, v)
    ensures p <= |xs| && Count(xs[..p], v) == k
  {
    if k == 0 {
      p := 0;
    } else {
      var q: nat;
      if xs[0] == v {
        q := PrefixWithCount(xs[1..], v, k - 1);
      } else {
        q := PrefixWithCount(xs[1..], v, k);
      }
      p := q + 1;
      assert xs[..p][1..] == xs[1..][..q];
    }
  }

  /** A cut point with exactly k occurrences after it exists for every k up to the total. */
  lemma SuffixWithCount<T>(xs: seq<T>, v: T, k: nat) returns (p: nat)
    requires k <= Count(xs, v)
    ensures p <= |xs| && Count(xs[p..], v) == k
  {
    p := PrefixWithCount(xs, v, Count(xs, v) - k);
    assert xs == xs[..p] + xs[p..];
    CountConcat(xs[..p], xs[p..], v);
  }

  // ---------------------------------------------------------------------------
  // Order preservation
  // ---------------------------------------------------------------------------

  lemma {:induction false} SubsequenceOfSelf<T>(a: seq<T>)
    ensures IsSubsequence(a, a)
  {
    if |a| > 0 {
      SubsequenceOfSelf(a[1..]);
    }
  }

  lemma {:induction false} SubsequenceOfLonger<T>(a: seq<T>, b1: seq<T>, b2: seq<T>)
    requires IsSubsequence(a, b2)
    ensures IsSubsequence(a, b1 + b2)
  {
    if |b1| > 0 {
      assert (b1 + b2)[1..] == b1[1..] + b2;
      SubsequenceOfLonger(a, b1[1..], b2);
    } else {
      assert b1 + b2 == b2;
    }
  }

  lemma {:induction false} SubsequenceConcat<T>(a1: seq<T>, b1: seq<T>, a2: seq<T>, b2: seq<T>)
    requires IsSubsequence(a1, b1) && IsSubsequence(a2, b2)
    ensures IsSubsequence(a1 + a2, b1 + b2)
    decreases |b1|
  {
    if |a1| == 0 {
      assert a1 + a2 == a2;
      SubsequenceOfLonger(a2, b1, b2);
    } else {
      assert (b1 + b2)[1..] == b1[1..] + b2;
      if a1[0] == b1[0] && IsSubsequence(a1[1..], b1[1..]) {
        assert (a1 + a2)[1..] == a1[1..] + a2;
        SubsequenceConcat(a1[1..], b1[1..], a2, b2);
      } else {
        SubsequenceConcat(a1, b1[1..], a2, b2);
      }
    }
  }

  /** Removing every occurrence keeps the survivors in their original order. */
  lemma {:induction false} RemoveAllKeepsOrder<T>(xs: seq<T>, v: T)
    ensures IsSubsequence(RemoveAll(xs, v), xs)
  {
    if |xs| > 0 {
      RemoveAllKeepsOrder(xs[1..], v);
      if xs[0] != v {
        assert ([xs[0]] + RemoveAll(xs[1..], v))[1..] == RemoveAll(xs[1..], v);
      }
    }
  }

  /** Removing every occurrence of v leaves the number of every other value unchanged. */
  lemma {:induction false} RemoveAllKeepsOthers<T>(xs: seq<T>, v: T, w: T)
    requires w != v
    ensures Count(RemoveAll(xs, v), w) == Count(xs, w)
  {
    if |xs| > 0 {
      RemoveAllKeepsOthers(xs[1..], v, w);
      if xs[0] != v {
        assert ([xs[0]] + RemoveAll(xs[1..], v))[1..] == RemoveAll(xs[1..], v);
      }
    }
  }

  /** Deleting the occurrences of v on one side of a cut keeps the number of every other value. */
  lemma CutKeepsOthers<T>(a: seq<T>, b: seq<T>, v: T, w: T)
    requires w != v
    ensures Count(RemoveAll(a, v) + b, w) == Count(a + b, w)
    ensures Count(a + RemoveAll(b, v), w) == Count(a + b, w)
  {
    CountConcat(a, b, w);
    CountConcat(RemoveAll(a, v), b, w);
    CountConcat(a, RemoveAll(b, v), w);
    RemoveAllKeepsOthers(a, v, w);
    RemoveAllKeepsOthers(b, v, w);
  }

  /** The head scan keeps the survivors in their original order. */
  lemma {:induction false} RemoveFirstKeepsOrder<T>(xs: seq<T>, v: T, n: int)
    ensures IsSubsequence(RemoveFirst(xs, v, n), xs)
  {
    var p := PrefixWithCount(xs, v, Removed(n, Count(xs, v)));
    var a, b := xs[..p], xs[p..];
    assert xs == a + b;
    RemoveFirstConcat(a, b, v, n);
    RemoveAllKeepsOrder(a, v);
    SubsequenceOfSelf(b);
    SubsequenceConcat(RemoveAll(a, v), a, b, b);
  }

  /** The tail scan keeps the survivors in their original order. */
  lemma {:induction false} RemoveLastKeepsOrder<T>(xs: seq<T>, v: T, n: int)
    ensures IsSubsequence(RemoveLast(xs, v, n), xs)
  {
    var p := SuffixWithCount(xs, v, Removed(n, Count(xs, v)));
    var a, b := xs[..p], xs[p..];
    assert xs == a + b;
    RemoveLastConcat(a, b, v, n);
    RemoveAllKeepsOrder(b, v);
    SubsequenceOfSelf(a);
    SubsequenceConcat(a, a, RemoveAll(b, v), b);
  }

  // ---------------------------------------------------------------------------
  // The loops as written: scan with a budget, collecting survivors
  // ---------------------------------------------------------------------------

  /** One iteration of a scan at position i: drop ys[i] and spend budget, or keep it. */
  lemma ScanStep<T>(ys: seq<T>, i: nat, v: T, left: int)
    requires i < |ys|
    ensures RemoveFirst(ys[i..], v, left) ==
      if left > 0 && ys[i] == v then RemoveFirst(ys[i + 1..], v, left - 1)
      else [ys[i]] + RemoveFirst(ys[i + 1..], v, left)
  {
    assert ys[i..][0] == ys[i] && ys[i..][1..] == ys[i + 1..];
  }

  /** Head-to-tail loop: drop an element equal to v while the budget is positive. */
  method ScanFromHead<T(==)>(xs: seq<T>, v: T, budget: int) returns (kept: seq<T>)
    ensures kept == RemoveFirst(xs, v, budget)
  {
    kept := [];
    var left := budget;
    var i := 0;
    assert xs[0..] == xs;
    while i < |xs|
      invariant 0 <= i <= |xs|
      invariant kept + RemoveFirst(xs[i..], v, left) == RemoveFirst(xs, v, budget)
    {
      ScanStep(xs, i, v, left);
      if left > 0 && xs[i] == v {
        left := left - 1;
      } else {
        ghost var rest := RemoveFirst(xs[i + 1..], v, left);
        assert (kept + [xs[i]]) + rest == kept + ([xs[i]] + rest);
        kept := kept + [xs[i]];
      }
      i := i + 1;
    }
    assert xs[i..] == [];
  }

  /**
   * Tail-to-head loop: walk the list backwards dropping an element equal to v
   * while the budget is positive, collect the survivors, then reverse them.
   */
  method ScanFromTail<T(==)>(xs: seq<T>, v: T, budget: int) returns (kept: seq<T>)
    ensures kept == RemoveLast(xs, v, budget)
  {
    ghost var backwards := Reverse(xs);
    var collected := [];
    var left := budget;
    var j := 0;
    assert backwards[0..] == backwards;
    while j < |xs|
      invariant 0 <= j <= |xs|
      invariant collected + RemoveFirst(backwards[j..], v, left) == RemoveFirst(backwards, v, budget)
    {
      var item := xs[|xs| - 1 - j];
      ReverseIndex(xs, j);
      ScanStep(backwards, j, v, left);
      if left > 0 && item == v {
        left := left - 1;
      } else {
        ghost var rest := RemoveFirst(backwards[j + 1..], v, left);
        assert (collected + [item]) + rest == collected + ([item] + rest);
        collected := collected + [item];
      }
      j := j + 1;
    }
    assert backwards[j..] == [];
    assert collected + [] == collected;
    kept := Reverse(collected);
  }
}
