/**
 * Smoothing of the raw per-frame labels: the bounded history window
 * (`deque(maxlen=10)`) and the majority vote over it
 * (`Counter(window).most_common(1)`).
 */
module Smoothing {

  /** A label as the classifier produces it ("happy", "neutral", ...). */
  type Label = string

  /** Capacity of the recent-label window. */
  const WindowSize: nat := 10

  /** The last `n` elements of `s`, or all of `s` when it is shorter. */
  function LastN<T>(s: seq<T>, n: nat): (r: seq<T>)
    ensures |r| == if |s| <= n then |s| else n
  {
    if |s| <= n then s else s[|s| - n..]
  }

  /**
   * `append` on a deque of capacity WindowSize: when the window is full
   * its oldest label is evicted first. The result is the newest
   * WindowSize labels of the old window followed by `x`.
   */
  function Slide(w: seq<Label>, x: Label): (r: seq<Label>)
    requires |w| <= WindowSize
    ensures r == LastN(w + [x], WindowSize)
    ensures 0 < |r| <= WindowSize && r[|r| - 1] == x
  {
    if |w| == WindowSize then w[1..] + [x] else w + [x]
  }

  /** Whatever the window holds was observed. */
  lemma InLastN<T>(s: seq<T>, n: nat, x: T)
    requires x in LastN(s, n)
    ensures x in s
  {
  }

  /** Windowing the whole history at every step is the same as sliding the previous window. */
  lemma WindowOfHistory(h: seq<Label>, x: Label)
    ensures Slide(LastN(h, WindowSize), x) == LastN(h + [x], WindowSize)
  {
    var w := LastN(h, WindowSize);
    if |h| >= WindowSize {
      assert w + [x] == (h + [x])[|h| - WindowSize..];
    }
  }

  /** How often `x` occurs in the window. */
  function Count(w: seq<Label>, x: Label): nat
  {
    if w == [] then 0 else (if w[0] == x then 1 else 0) + Count(w[1..], x)
  }

  /** Position of the first occurrence of `x`, reading the window oldest to newest. */
  function FirstIndex(w: seq<Label>, x: Label): (i: nat)
    requires x in w
    ensures i < |w| && w[i] == x
    ensures x !in w[..i]
  {
    if w[0] == x then 0 else 1 + FirstIndex(w[1..], x)
  }

  /**
   * `m` is what `Counter(w).most_common(1)` yields: a label of the window
   * with the highest count, and among the labels with that count the one
   * whose first occurrence comes earliest (a Counter built from `w` lists
   * its keys in first-occurrence order and `most_common(1)` keeps the first
   * maximum). Stated over the window's positions: no label at any position
   * beats `m`, and no position holding a label tied with `m` comes before
   * the first occurrence of `m`.
   */
  ghost predicate IsMostCommon(w: seq<Label>, m: Label)
  {
    && m in w
    && (forall j :: 0 <= j < |w| ==> Count(w, w[j]) <= Count(w, m))
    && (forall j :: 0 <= j < |w| && Count(w, w[j]) == Count(w, m) ==> FirstIndex(w, m) <= j)
  }

  /**
   * Scans positions `i..` of the window; `best` is the winner among
   * positions `..i`: it is replaced only by a label with a strictly
   * higher count, so an earlier label keeps a tie.
   */
  function ScanFrom(w: seq<Label>, i: nat, best: Label): (m: Label)
    requires i <= |w| && best in w
    ensures m in w
    decreases |w| - i
  {
    if i == |w| then best
    else if Count(w, w[i]) > Count(w, best) then ScanFrom(w, i + 1, w[i])
    else ScanFrom(w, i + 1, best)
  }

  /** The scan keeps the winner of the positions seen so far, so at the end it holds the winner of the window. */
  lemma {:induction false} ScanFromFindsMostCommon(w: seq<Label>, i: nat, best: Label)
    requires i <= |w| && best in w && FirstIndex(w, best) < i
    requires forall j :: 0 <= j < i ==> Count(w, w[j]) <= Count(w, best)
    requires forall j :: 0 <= j < i && Count(w, w[j]) == Count(w, best) ==> FirstIndex(w, best) <= j
    ensures IsMostCommon(w, ScanFrom(w, i, best))
    decreases |w| - i
  {
    if i < |w| {
      if Count(w, w[i]) > Count(w, best) {
        ScanFromFindsMostCommon(w, i + 1, w[i]);
      } else {
        ScanFromFindsMostCommon(w, i + 1, best);
      }
    }
  }

  /** The majority label of a non-empty window: always one of its labels. */
  function MostCommon(w: seq<Label>): (m: Label)
    requires |w| > 0
    ensures m in w
  {
    ScanFrom(w, 1, w[0])
  }

  /** MostCommon is the vote of `most_common(1)`: highest count, earliest first occurrence among ties. */
  lemma MostCommonCorrect(w: seq<Label>)
    requires |w| > 0
    ensures IsMostCommon(w, MostCommon(w))
  {
    ScanFromFindsMostCommon(w, 1, w[0]);
  }

  /** The vote is determined: MostCommon is the only label meeting the definition. */
  lemma MostCommonUnique(w: seq<Label>, m: Label)
    requires |w| > 0
    ensures IsMostCommon(w, m) <==> m == MostCommon(w)
  {
    MostCommonCorrect(w);
    if IsMostCommon(w, m) {
      var r := MostCommon(w);
      assert Count(w, m) == Count(w, r);
      assert w[FirstIndex(w, m)] == m && w[FirstIndex(w, r)] == r;
    }
  }

  /** Two different labels together occur no more often than the window is long. */
  lemma {:induction false} CountPair(w: seq<Label>, x: Label, y: Label)
    ensures x != y ==> Count(w, x) + Count(w, y) <= |w|
  {
    if w != [] {
      CountPair(w[1..], x, y);
      assert w == [w[0]] + w[1..];
    }
  }

  /** A label holding more than half of the window wins the vote. */
  lemma StrictMajorityWins(w: seq<Label>, x: Label)
    requires 2 * Count(w, x) > |w|
    ensures |w| > 0 && MostCommon(w) == x
  {
    MostCommonCorrect(w);
    CountPair(w, x, MostCommon(w));
  }
}
