/**
  The gallery's three-wide window: the start index the two arrow buttons move,
  the bound that index must stay under, the slice shown, and the button guards.
 */
module Paging {

  /** How many records the gallery shows at once. */
  const PageSize: nat := 3

  function Min(a: int, b: int): int { if a <= b then a else b }

  /** `Math.max(0, len - 3)`: the last start index that still shows a full window. */
  function MaxIndex(len: nat): (m: nat)
    ensures len >= PageSize ==> m + PageSize == len
    ensures len <= PageSize ==> m == 0
  {
    if len >= PageSize then len - PageSize else 0
  }

  /** The start index is within the range the buttons can reach. */
  predicate InRange(index: nat, len: nat) {
    index <= MaxIndex(len)
  }

  /** The update `handlePrevious` applies to the start index. */
  function Previous(index: nat): (r: nat)
    ensures r <= index && index - r <= 1
    ensures r == index <==> index == 0
  {
    if index > 0 then index - 1 else index
  }

  /** The update `handleNext` applies to the start index, for a list of `len` records. */
  function Next(index: nat, len: nat): (r: nat)
    ensures index <= r <= index + 1
    ensures r == index <==> index >= MaxIndex(len)
    ensures index <= MaxIndex(len) ==> r <= MaxIndex(len)
  {
    if index < MaxIndex(len) then index + 1 else index
  }

  /**
    `Array.prototype.slice(begin, end)` for non-negative arguments: both ends are
    clamped to the length, and an end before the beginning gives nothing.
   */
  function Slice<T>(s: seq<T>, begin: nat, end: nat): (r: seq<T>)
    ensures |r| == if begin < end && begin < |s| then Min(end, |s|) - begin else 0
    ensures forall k :: 0 <= k < |r| ==> r[k] == s[begin + k]
  {
    var b := Min(begin, |s|);
    var e := Min(end, |s|);
    if b < e then s[b..e] else []
  }

  /** The records on screen: up to `PageSize` of them, starting at `index`. */
  function Window<T>(s: seq<T>, index: nat): (w: seq<T>)
    ensures |w| == if index < |s| then Min(PageSize, |s| - index) else 0
    ensures forall k :: 0 <= k < |w| ==> w[k] == s[index + k]
  {
    Slice(s, index, index + PageSize)
  }

  /** A list of at least three records, viewed from a reachable index, shows exactly three. */
  lemma FullWindow<T>(s: seq<T>, index: nat)
    requires InRange(index, |s|) && |s| >= PageSize
    ensures |Window(s, index)| == PageSize
    ensures Window(s, index) == s[index..index + PageSize]
  {
  }

  /** The window at a reachable index always shows `min(3, len)` records. */
  lemma WindowShowsAvailable<T>(s: seq<T>, index: nat)
    requires InRange(index, |s|)
    ensures |Window(s, index)| == Min(PageSize, |s|)
  {
  }

  /** Both handlers keep an in-range index in range. */
  lemma HandlersKeepRange(index: nat, len: nat)
    ensures InRange(index, len) ==> InRange(Previous(index), len)
    ensures InRange(index, len) ==> InRange(Next(index, len), len)
  {
  }

  /** Growing the list never takes a reachable index out of range. */
  lemma GrowthKeepsRange(index: nat, len: nat, len': nat)
    requires InRange(index, len) && len <= len'
    ensures InRange(index, len')
  {
  }

  /** Repeated clicks on next stop at the last full window and never pass it. */
  lemma {:induction false} NextSaturates(index: nat, len: nat, clicks: nat)
    requires InRange(index, len)
    ensures NextN(index, len, clicks) == Min(index + clicks, MaxIndex(len))
    decreases clicks
  {
    if clicks > 0 {
      NextSaturates(Next(index, len), len, clicks - 1);
    }
  }

  /** The index after `clicks` presses of next. */
  function NextN(index: nat, len: nat, clicks: nat): nat
    decreases clicks
  {
    if clicks == 0 then index else NextN(Next(index, len), len, clicks - 1)
  }
}
