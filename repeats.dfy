/**
 * The specification of duplicate detection: the first element of a sequence
 * that repeats an element seen before it, scanning left to right.
 */
module Repeats {
  import opened Types

  /** No element occurs twice. */
  ghost predicate AllDistinct<T>(s: seq<T>) {
    forall i, j :: 0 <= i < j < |s| ==> s[i] != s[j]
  }

  /**
   * Position `k` is the earliest repeat of `s`: `s[k]` already occurs
   * before it, and nothing before `k` repeats.
   */
  ghost predicate IsFirstRepeatAt<T>(s: seq<T>, k: int) {
    0 <= k < |s| && s[k] in s[..k] && AllDistinct(s[..k])
  }

  /**
   * The element at the earliest position whose value already occurs earlier,
   * or `None` when there is no such position. Defined by peeling off the last
   * element: either the prefix already has a repeat, or the last element
   * repeats something in the prefix.
   */
  function FirstRepeat<T(==)>(s: seq<T>): Option<T>
    decreases |s|
  {
    if s == [] then None
    else
      var init, last := s[..|s| - 1], s[|s| - 1];
      var earlier := FirstRepeat(init);
      if earlier.Some? then earlier
      else if last in init then Some(last)
      else None
  }

  /** Appending one element keeps a sequence distinct exactly when the element is new. */
  lemma DistinctSnoc<T>(init: seq<T>, last: T)
    ensures AllDistinct(init + [last]) <==> AllDistinct(init) && last !in init
  {
    var s := init + [last];
    if AllDistinct(s) {
      forall i, j | 0 <= i < j < |init| ensures init[i] != init[j] {
        assert s[i] == init[i] && s[j] == init[j];
      }
      forall i | 0 <= i < |init| ensures init[i] != last {
        assert s[i] == init[i] && s[|init|] == last;
      }
    }
    if AllDistinct(init) && last !in init {
      forall i, j | 0 <= i < j < |s| ensures s[i] != s[j] {
        assert s[i] == init[i];
        if j < |init| {
          assert s[j] == init[j];
        } else {
          assert s[j] == last;
        }
      }
    }
  }

  /** There is no repeat exactly when all elements are distinct. */
  lemma {:induction false} FirstRepeatNoneIff<T>(s: seq<T>)
    ensures FirstRepeat(s) == None <==> AllDistinct(s)
    decreases |s|
  {
    if s != [] {
      var init, last := s[..|s| - 1], s[|s| - 1];
      FirstRepeatNoneIff(init);
      DistinctSnoc(init, last);
      assert s == init + [last];
    }
  }

  /** A reported repeat sits at the earliest repeating position. */
  lemma {:induction false} FirstRepeatSome<T>(s: seq<T>)
    ensures FirstRepeat(s).Some? ==>
      exists k :: IsFirstRepeatAt(s, k) && s[k] == FirstRepeat(s).value
    decreases |s|
  {
    if s != [] {
      var init, last := s[..|s| - 1], s[|s| - 1];
      FirstRepeatSome(init);
      if FirstRepeat(init).Some? {
        var k :| IsFirstRepeatAt(init, k) && init[k] == FirstRepeat(init).value;
        assert s[..k] == init[..k];
        assert IsFirstRepeatAt(s, k);
      } else if last in init {
        FirstRepeatNoneIff(init);
        assert s[..|s| - 1] == init;
        assert IsFirstRepeatAt(s, |s| - 1);
      }
    }
  }

  /** Conversely, the earliest repeating position determines the reported element. */
  lemma {:induction false} FirstRepeatAt<T>(s: seq<T>, k: int)
    requires IsFirstRepeatAt(s, k)
    ensures FirstRepeat(s) == Some(s[k])
    decreases |s|
  {
    var init := s[..|s| - 1];
    if k == |s| - 1 {
      assert init == s[..k];
      FirstRepeatNoneIff(init);
    } else {
      assert init[..k] == s[..k];
      assert IsFirstRepeatAt(init, k);
      FirstRepeatAt(init, k);
    }
  }

  /** A repeat inside a prefix is the repeat of the whole: later elements are never examined. */
  lemma FirstRepeatOfPrefix<T>(s: seq<T>, t: seq<T>)
    requires FirstRepeat(s).Some?
    ensures FirstRepeat(s + t) == FirstRepeat(s)
  {
    FirstRepeatSome(s);
    var k :| IsFirstRepeatAt(s, k) && s[k] == FirstRepeat(s).value;
    assert (s + t)[..k] == s[..k];
    assert IsFirstRepeatAt(s + t, k);
    FirstRepeatAt(s + t, k);
  }

  /** Within a distinct prefix no position repeats an earlier one, whatever follows. */
  lemma NoRepeatInsideDistinctPrefix<T>(s: seq<T>, t: seq<T>)
    requires AllDistinct(s)
    ensures forall k :: 0 <= k < |s| ==> (s + t)[k] !in (s + t)[..k]
  {
    forall k | 0 <= k < |s| ensures (s + t)[k] !in (s + t)[..k] {
      forall i | 0 <= i < k ensures (s + t)[..k][i] != (s + t)[k] {
        assert (s + t)[..k][i] == s[i] && (s + t)[k] == s[k];
      }
    }
  }

  /**
   * Two distinct sequences that share exactly one element `x`: the first
   * repeat of their concatenation is `x`.
   */
  lemma FirstRepeatOfSharedElement<T>(s: seq<T>, t: seq<T>, x: T)
    requires AllDistinct(s) && AllDistinct(t)
    requires x in s && x in t
    requires forall y :: y in s && y in t ==> y == x
    ensures FirstRepeat(s + t) == Some(x)
  {
    var u := s + t;
    var i :| 0 <= i < |s| && s[i] == x;
    var j :| 0 <= j < |t| && t[j] == x;
    assert u[i] == u[|s| + j];
    FirstRepeatNoneIff(u);
    FirstRepeatSome(u);
    var k :| IsFirstRepeatAt(u, k) && u[k] == FirstRepeat(u).value;
    NoRepeatInsideDistinctPrefix(s, t);
    assert k >= |s|;
    var m := k - |s|;
    assert u[..k] == s + t[..m];
    assert u[k] == t[m];
    assert t[m] !in t[..m] by {
      forall p | 0 <= p < m ensures t[..m][p] != t[m] {
        assert t[..m][p] == t[p];
      }
    }
    assert t[m] in s;
  }
}
