/**
  The two bounded-list idioms of the game: "append, then drop the oldest entry
  when over capacity" (undo history, token trails, the mystery recency window)
  and "keep the last n" (the event log).
 */
module Buffers {

  /** The last `n` elements of `s` (all of `s` when it is shorter). */
  function KeepLast<T>(s: seq<T>, n: nat): (r: seq<T>)
    ensures |r| == if |s| <= n then |s| else n
    ensures r == s[|s| - |r|..]
  {
    if |s| <= n then s else s[|s| - n..]
  }

  /** `s.append(x)` followed by one `s.pop(0)` when the list has grown past `cap`. */
  function PushBounded<T>(s: seq<T>, x: T, cap: nat): (r: seq<T>)
    requires 0 < cap
    ensures 0 < |r| <= |s| + 1 && r[|r| - 1] == x
    ensures |s| < cap ==> r == s + [x]
    ensures |s| <= cap ==> |r| <= cap
    ensures forall y :: y in r ==> y in s || y == x
  {
    var t := s + [x];
    if |t| > cap then t[1..] else t
  }

  /** Pushing each of `xs` in turn. */
  function PushAll<T>(s: seq<T>, xs: seq<T>, cap: nat): seq<T>
    requires 0 < cap
    decreases |xs|
  {
    if xs == [] then s else PushAll(PushBounded(s, xs[0], cap), xs[1..], cap)
  }

  /** On a buffer within its capacity, one bounded push is the keep-last slice of the appended list. */
  lemma PushIsKeepLast<T>(s: seq<T>, x: T, cap: nat)
    requires 0 < cap && |s| <= cap
    ensures PushBounded(s, x, cap) == KeepLast(s + [x], cap)
  {
  }

  /** Keeping the last `n` of a suffix that still holds `n` elements keeps the last `n` of the whole. */
  lemma KeepLastOfSuffix<T>(t: seq<T>, j: nat, n: nat)
    requires j <= |t| && (j == 0 || |t| - j >= n)
    ensures KeepLast(t[j..], n) == KeepLast(t, n)
  {
  }

  /**
    A run of bounded pushes keeps exactly the `cap` most recent entries: the oldest
    entries are the ones evicted, and nothing is reordered.
   */
  lemma {:induction false} PushAllKeepsNewest<T>(s: seq<T>, xs: seq<T>, cap: nat)
    requires 0 < cap && |s| <= cap
    ensures PushAll(s, xs, cap) == KeepLast(s + xs, cap)
    decreases |xs|
  {
    if xs == [] {
      assert s + xs == s;
    } else {
      var k := PushBounded(s, xs[0], cap);
      PushAllKeepsNewest(k, xs[1..], cap);
      PushThenAppend(s, xs[0], xs[1..], cap);
      assert s + [xs[0]] + xs[1..] == s + xs;
    }
  }

  /** What one bounded push evicts does not matter to the last `cap` of what follows. */
  lemma PushThenAppend<T>(s: seq<T>, x: T, ys: seq<T>, cap: nat)
    requires 0 < cap && |s| <= cap
    ensures KeepLast(PushBounded(s, x, cap) + ys, cap) == KeepLast(s + [x] + ys, cap)
  {
    var a := s + [x];
    var k := PushBounded(s, x, cap);
    PushIsKeepLast(s, x, cap);
    var j := |a| - |k|;
    assert k + ys == (a + ys)[j..];
    KeepLastOfSuffix(a + ys, j, cap);
  }

  /**
    Popping the newest entry after a push gives back the buffer when nothing was
    evicted, and the buffer without its oldest entry when it was full.
   */
  lemma PushThenPop<T>(s: seq<T>, x: T, cap: nat)
    requires 0 < cap && |s| <= cap
    ensures var r := PushBounded(s, x, cap);
      r[..|r| - 1] == (if |s| < cap then s else s[1..])
  {
  }
}
