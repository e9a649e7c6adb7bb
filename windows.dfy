/** Sliding windows over a sequence, as produced by the two generator helpers
    of the simulation script: `sliding_window_iter`, which rebuilds a tuple at
    every step, and `window`, which keeps one bounded deque and appends to it.
    Each generator is modelled by a method whose result is the sequence of
    values it yields, one entry per `yield`. */
module SlidingWindows {

  datatype Option<T> = None | Some(value: T)

  /** The windows of width w over s: window k is s[k..k+w], for every k at
      which a whole window fits. */
  function Windows<T>(s: seq<T>, w: nat): (r: seq<seq<T>>)
    ensures |s| >= w ==> |r| == |s| - w + 1
    ensures |s| < w ==> r == []
    ensures forall k :: 0 <= k < |r| ==> |r[k]| == w
  {
    if |s| < w then [] else seq(|s| - w + 1, k requires 0 <= k < |s| - w + 1 => s[k..k + w])
  }

  /** Python's t[1:]: everything but the first element, empty for empty t. */
  function Drop1<T>(t: seq<T>): (r: seq<T>)
    ensures |r| == if |t| == 0 then 0 else |t| - 1
    ensures forall k :: 0 <= k < |r| ==> r[k] == t[k + 1]
  {
    if |t| == 0 then [] else t[1..]
  }

  /** Each window is the previous one shifted left by one, with the next
      element of s appended: the update `sliding_window_iter` performs. */
  lemma WindowsShift<T>(s: seq<T>, w: nat, k: nat)
    requires w >= 1 && k + 1 < |Windows(s, w)|
    ensures Windows(s, w)[k + 1] == Drop1(Windows(s, w)[k]) + [s[k + w]]
  {
    var r := Windows(s, w);
    assert r[k] == s[k..k + w] && r[k + 1] == s[k + 1..k + 1 + w];
    assert Drop1(r[k]) == s[k + 1..k + w];
  }

  /** A sequence exactly w long has itself as its only window. */
  lemma WindowsOfExactLength<T>(t: seq<T>, w: nat)
    requires |t| == w
    ensures Windows(t, w) == [t]
  {
    var r := Windows(t, w);
    assert |r| == 1 && r[0] == t[0..w];
    assert t[0..w] == t;
  }

  /** One more element at the end of s adds exactly one window, the one
      that ends with it. */
  lemma WindowsSnoc<T>(s: seq<T>, w: nat, i: nat)
    requires w <= i < |s|
    ensures Windows(s[..i + 1], w) == Windows(s[..i], w) + [s[i + 1 - w..i + 1]]
  {
    var r, p := Windows(s[..i + 1], w), Windows(s[..i], w);
    var q := p + [s[i + 1 - w..i + 1]];
    assert |r| == |q| == |p| + 1;
    forall k | 0 <= k < |r|
      ensures r[k] == q[k]
    {
      assert r[k] == s[..i + 1][k..k + w] == s[k..k + w];
      if k < |p| {
        assert q[k] == p[k] == s[..i][k..k + w] == s[k..k + w];
      } else {
        assert q[k] == s[i + 1 - w..i + 1];
      }
    }
  }

  /** The state of a sliding loop over s after consuming i elements: the
      current window is s[i-w..i] and the windows yielded so far are all the
      windows of s[..i]. */
  ghost predicate Sliding<T>(s: seq<T>, w: nat, i: nat, cur: seq<T>, out: seq<seq<T>>)
  {
    w <= i <= |s| && cur == s[i - w..i] && out == Windows(s[..i], w)
  }

  /** The loop starts with the first window yielded. */
  lemma SlidingStart<T>(s: seq<T>, w: nat)
    requires w <= |s|
    ensures Sliding(s, w, w, s[..w], [s[..w]])
  {
    WindowsOfExactLength(s[..w], w);
  }

  /** Shifting the current window by one and yielding it keeps the state. */
  lemma SlidingShift<T>(s: seq<T>, w: nat, i: nat, cur: seq<T>, out: seq<seq<T>>)
    requires w >= 1 && Sliding(s, w, i, cur, out) && i < |s|
    ensures Drop1(cur) + [s[i]] == s[i - w + 1..i + 1]
    ensures Sliding(s, w, i + 1, Drop1(cur) + [s[i]], out + [Drop1(cur) + [s[i]]])
  {
    assert Drop1(cur) == s[i - w + 1..i];
    WindowsSnoc(s, w, i);
  }

  /** Once every element is consumed, the yielded windows are all windows. */
  lemma SlidingDone<T>(s: seq<T>, w: nat, cur: seq<T>, out: seq<seq<T>>)
    requires Sliding(s, w, |s|, cur, out)
    ensures out == Windows(s, w)
  {
    assert s[..|s|] == s;
  }

  /** The state of `sliding_window_iter` with width 0 after i elements: it
      has yielded () and then each consumed element as a 1-tuple. */
  ghost predicate ZeroWidth<T>(s: seq<T>, i: nat, cur: seq<T>, out: seq<seq<T>>)
  {
    i <= |s| && cur == (if i == 0 then [] else [s[i - 1]]) && |out| == i + 1 && out[0] == [] &&
    forall k :: 0 < k < |out| ==> out[k] == [s[k - 1]]
  }

  /** One step of the width-0 loop. */
  lemma ZeroWidthShift<T>(s: seq<T>, i: nat, cur: seq<T>, out: seq<seq<T>>)
    requires ZeroWidth(s, i, cur, out) && i < |s|
    ensures ZeroWidth(s, i + 1, Drop1(cur) + [s[i]], out + [Drop1(cur) + [s[i]]])
  {
  }

  /** The width-0 loop ends having yielded () and every element alone. */
  lemma ZeroWidthDone<T>(s: seq<T>, cur: seq<T>, out: seq<seq<T>>)
    requires ZeroWidth(s, |s|, cur, out)
    ensures out == [[]] + seq(|s|, k requires 0 <= k < |s| => [s[k]])
  {
    var e := [[]] + seq(|s|, k requires 0 <= k < |s| => [s[k]]);
    assert |out| == |e|;
    forall k | 0 <= k < |out|
      ensures out[k] == e[k]
    {
    }
  }

  /** `sliding_window_iter(seq, width)`. `islice` takes up to `width`
      elements; a full first tuple is yielded, and every element the iterator
      still holds then shifts the tuple by one and yields it. */
  method SlidingWindowIter<T>(s: seq<T>, width: nat) returns (out: seq<seq<T>>)
    ensures width >= 1 ==> out == Windows(s, width)
    ensures width == 0 ==> out == [[]] + seq(|s|, k requires 0 <= k < |s| => [s[k]])
  {
    var taken := if |s| < width then |s| else width;
    var result := s[..taken];
    out := [];
    if |result| == width {
      out := [result];
    }
    if |s| >= width {
      SlidingStart(s, width);
    }
    var i := taken;
    while i < |s|
      invariant taken <= i <= |s|
      invariant |s| < width ==> i == |s| && out == []
      invariant width >= 1 && |s| >= width ==> Sliding(s, width, i, result, out)
      invariant width == 0 ==> ZeroWidth(s, i, result, out)
    {
      if width >= 1 {
        SlidingShift(s, width, i, result, out);
      } else {
        ZeroWidthShift(s, i, result, out);
      }
      result := Drop1(result) + [s[i]];
      out := out + [result];
      i := i + 1;
    }
    if width >= 1 && |s| >= width {
      SlidingDone(s, width, result, out);
    } else if width == 0 {
      ZeroWidthDone(s, result, out);
    }
  }

  /** The last n elements of t, or all of t when it is shorter. */
  function LastN<T>(t: seq<T>, n: nat): (r: seq<T>)
    ensures |r| == if |t| < n then |t| else n
  {
    if |t| <= n then t else t[|t| - n..]
  }

  /** LastN keeps a suffix: the items it drops are the leftmost ones. */
  lemma LastNSuffix<T>(t: seq<T>, n: nat)
    ensures t == t[..|t| - |LastN(t, n)|] + LastN(t, n)
  {
  }

  /** A `collections.deque` created with `maxlen`: it never holds more than
      `maxlen` items, and appending to a full deque drops its leftmost item. */
  class BoundedDeque<T> {
    var items: seq<T>
    const maxlen: nat

    ghost predicate Valid()
      reads this
    {
      |items| <= maxlen
    }

    /** `deque(init, maxlen=n)`: the items of init appended in order, so only
        the last n remain. */
    constructor (init: seq<T>, n: nat)
      ensures Valid() && maxlen == n
      ensures items == LastN(init, n)
    {
      maxlen := n;
      items := LastN(init, n);
    }

    /** `append(x)`: x goes on the right; the leftmost item is trimmed when
        that makes the deque longer than `maxlen`. */
    method Append(x: T)
      requires Valid()
      modifies this
      ensures Valid()
      ensures items == LastN(old(items) + [x], maxlen)
    {
      items := items + [x];
      if |items| > maxlen {
        items := items[1..];
      }
    }
  }

  /** `next(it, None)` called n times: the first n elements of s, padded
      with None where s runs out. */
  function FirstFill<T>(s: seq<T>, n: nat): (r: seq<Option<T>>)
    ensures |r| == n
    ensures forall k :: 0 <= k < n ==> r[k] == if k < |s| then Some(s[k]) else None
  {
    if n == 0 then [] else FirstFill(s, n - 1) + [if n - 1 < |s| then Some(s[n - 1]) else None]
  }

  /** The elements of s, each wrapped in Some. */
  function Lift<T>(s: seq<T>): (r: seq<Option<T>>)
    ensures |r| == |s|
    ensures forall k :: 0 <= k < |s| ==> r[k] == Some(s[k])
  {
    if s == [] then [] else [Some(s[0])] + Lift(s[1..])
  }

  /** m copies of None. */
  function Nones<T>(m: nat): (r: seq<Option<T>>)
    ensures |r| == m
    ensures forall k :: 0 <= k < m ==> r[k] == None
  {
    if m == 0 then [] else [None] + Nones(m - 1)
  }

  /** Appending the element after a window of t and keeping the last n items
      gives the next window of t. */
  lemma LastNSlide<T>(t: seq<T>, n: nat, i: nat)
    requires n <= i < |t|
    ensures LastN(t[i - n..i] + [t[i]], n) == t[i - n + 1..i + 1]
  {
    assert t[i - n..i] + [t[i]] == t[i - n..i + 1];
  }

  /** The input as the deque sees it: every element wrapped in Some, padded
      with None up to length n when the input is shorter than n. */
  function Padded<T>(s: seq<T>, n: nat): (r: seq<Option<T>>)
    ensures |r| == if |s| < n then n else |s|
    ensures forall k :: 0 <= k < |r| ==> r[k] == if k < |s| then Some(s[k]) else None
  {
    Lift(s) + Nones(if |s| < n then n - |s| else 0)
  }

  /** Appending the next element x of t to a deque that holds the current
      window and yielding its new contents keeps the state of the sliding
      loop. */
  lemma DequeStep<T>(t: seq<T>, n: nat, i: nat, x: T, cur: seq<T>, next: seq<T>, out: seq<seq<T>>)
    requires Sliding(t, n, i, cur, out) && i < |t| && t[i] == x && next == LastN(cur + [x], n)
    ensures Sliding(t, n, i + 1, next, out + [next])
  {
    LastNSlide(t, n, i);
    WindowsSnoc(t, n, i);
  }

  /** The deque's first contents are the first window of the padded input. */
  lemma WindowStart<T>(s: seq<T>, n: nat)
    ensures LastN(FirstFill(s, n), n) == Padded(s, n)[..n]
    ensures Sliding(Padded(s, n), n, n, Padded(s, n)[..n], [Padded(s, n)[..n]])
  {
    assert FirstFill(s, n) == Padded(s, n)[..n];
    SlidingStart(Padded(s, n), n);
  }

  /** The windows of the padded input: those of the input when it is at
      least n long, and the single padded input otherwise. */
  lemma PaddedWindows<T>(s: seq<T>, n: nat)
    ensures |s| >= n ==> Windows(Padded(s, n), n) == Windows(Lift(s), n)
    ensures |s| < n ==> Windows(Padded(s, n), n) == [Lift(s) + Nones(n - |s|)]
  {
    if |s| >= n {
      assert Padded(s, n) == Lift(s);
    } else {
      assert Padded(s, n) == Lift(s) + Nones(n - |s|);
      WindowsOfExactLength(Padded(s, n), n);
    }
  }

  /** The elements `window` still has to append after the first fill are
      those of the padded input after index n. */
  lemma PaddedTail<T>(s: seq<T>, n: nat, taken: nat)
    requires taken == if |s| < n then |s| else n
    ensures forall q :: taken <= q < |s| ==> Padded(s, n)[n + q - taken] == Some(s[q])
  {
  }

  /** The `for e in it` loop of `window`: every element of s from index i
      on is appended to the deque, which is yielded after each append. The
      elements to come are those of the padded input t after index j, and the
      deque holds the window of t ending at j. */
  method Feed<T>(win: BoundedDeque<Option<T>>, s: seq<T>, n: nat, i: nat,
                 ghost t: seq<Option<T>>, ghost j: nat, out0: seq<seq<Option<T>>>)
      returns (out: seq<seq<Option<T>>>)
    requires win.Valid() && win.maxlen == n
    requires i <= |s| && j + |s| - i == |t|
    requires forall q :: i <= q < |s| ==> t[j + q - i] == Some(s[q])
    requires Sliding(t, n, j, win.items, out0)
    modifies win
    ensures win.Valid()
    ensures win.items == t[|t| - n..]
    ensures out == Windows(t, n)
  {
    out := out0;
    var k := i;
    ghost var m := j;
    while k < |s|
      invariant i <= k <= |s| && m == j + k - i
      invariant win.Valid() && win.maxlen == n
      invariant Sliding(t, n, m, win.items, out)
    {
      assert t[m] == Some(s[k]);
      ghost var cur := win.items;
      win.Append(Some(s[k]));
      DequeStep(t, n, m, Some(s[k]), cur, win.items, out);
      out := out + [win.items];
      k, m := k + 1, m + 1;
    }
    SlidingDone(t, n, win.items, out);
  }

  /** `window(seq, n)`. The deque is filled by n calls of `next(it, None)`
      and yielded; then each remaining element is appended and the deque is
      yielded again. `out` records the deque's contents at every yield: the
      windows of the padded input. */
  method Window<T>(s: seq<T>, n: nat) returns (out: seq<seq<Option<T>>>)
    ensures out == Windows(Padded(s, n), n)
  {
    var taken := if |s| < n then |s| else n;
    var win := new BoundedDeque(FirstFill(s, n), n);
    WindowStart(s, n);
    PaddedTail(s, n, taken);
    out := Feed(win, s, n, taken, Padded(s, n), n, [win.items]);
  }

  /** What `window` yields, `Windows(Padded(s, n), n)`, set against the
      windows `Windows(s, n)` of the input. On an input at least n long they
      agree up to the Some wrapping of the deque's items. For n >= 1 the
      latter is what `sliding_window_iter` yields, so there the two
      generators agree. For n == 0 they do not: `window` yields empty deques
      only, while `sliding_window_iter` yields () and then 1-tuples. */
  lemma WindowAgreesWithSlidingWindowIter<T>(s: seq<T>, n: nat)
    requires |s| >= n
    ensures |Windows(Padded(s, n), n)| == |Windows(s, n)|
    ensures forall k :: 0 <= k < |Windows(s, n)| ==> Windows(Padded(s, n), n)[k] == Lift(Windows(s, n)[k])
    ensures n == 0 ==> forall k :: 0 <= k < |Windows(Padded(s, n), n)| ==> Windows(Padded(s, n), n)[k] == []
  {
    PaddedWindows(s, n);
    forall k | 0 <= k < |Windows(s, n)|
      ensures Windows(Lift(s), n)[k] == Lift(Windows(s, n)[k])
    {
      assert Windows(Lift(s), n)[k] == Lift(s)[k..k + n];
      assert Windows(s, n)[k] == s[k..k + n];
    }
  }
}
