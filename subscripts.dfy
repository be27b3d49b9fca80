/** Integer-offset subscripts on a string of grapheme clusters.

    A Swift `String` is addressed by opaque cursors (`String.Index`), not by
    integers. The extension modelled here turns `Int` offsets and the five
    integer range literals `a..<b`, `a...b`, `a...`, `...b`, `..<b` into
    cursors with `index(_:offsetBy:)` and then subscripts the string with
    those cursors.

    A string is a `seq<C>` over an opaque cluster type `C`. A cursor is the
    number of clusters in front of it, so `startIndex` is 0 and `endIndex`
    is `|s|`. Every situation in which Swift traps at run time is a
    `requires` clause. */
module StringSubscripts {

  /** `startIndex`: the cursor before the first cluster. */
  function StartIndex<C>(s: seq<C>): nat
  {
    0
  }

  /** `endIndex`: the cursor after the last cluster. */
  function EndIndex<C>(s: seq<C>): nat
  {
    |s|
  }

  /** `index(i, offsetBy: n)`: moves the cursor `i` by `n` clusters, one
      cluster at a time, forwards for positive `n` and backwards for
      negative `n`. Each step traps when it would move past `endIndex` or
      before `startIndex`, so the whole walk is defined exactly when its
      target lies in `[startIndex, endIndex]`. */
  function IndexOffsetBy<C>(s: seq<C>, i: nat, n: int): (j: nat)
    requires i <= |s| && 0 <= i + n <= |s|
    ensures j == i + n
    decreases if n < 0 then -n else n
  {
    if n == 0 then i
    else if n > 0 then IndexOffsetBy(s, i + 1, n - 1)
    else IndexOffsetBy(s, i - 1, n + 1)
  }

  /** `self[start...end]` for two cursors. Forming the closed range needs
      `start <= end`; the standard library turns it into the half-open
      range `start..<index(after: end)`, and `index(after:)` traps at
      `endIndex`, so `end` must name a cluster. */
  function CursorSliceClosed<C>(s: seq<C>, start: nat, end: nat): (r: seq<C>)
    requires start <= end < |s|
    ensures |r| == end - start + 1 && r[|r| - 1] == s[end]
    ensures forall k :: 0 <= k < |r| ==> r[k] == s[start + k]
  {
    s[start..IndexOffsetBy(s, end, 1)]
  }

  /** `s[i]` for an `Int` offset `i`. The offset walk traps outside
      `[0, |s|]` and subscripting at `endIndex` traps too. */
  function At<C>(s: seq<C>, i: int): (c: C)
    requires 0 <= i < |s|
    ensures c == s[i]
  {
    s[IndexOffsetBy(s, StartIndex(s), i)]
  }

  /** `s[lo..<hi]` (`CountableRange<Int>`). Forming `lo..<hi` traps unless
      `lo <= hi`, and both offset walks trap outside `[0, |s|]`. */
  function Slice<C>(s: seq<C>, lo: int, hi: int): (r: seq<C>)
    requires 0 <= lo <= hi <= |s|
    ensures |r| == hi - lo
    ensures forall k :: 0 <= k < |r| ==> r[k] == s[lo + k]
  {
    var start := IndexOffsetBy(s, StartIndex(s), lo);
    var end := IndexOffsetBy(s, StartIndex(s), hi);
    if end < start then [] else s[start..end]
  }

  /** `s[lo...hi]` (`CountableClosedRange<Int>`). Forming `lo...hi` traps
      unless `lo <= hi`; the closed cursor subscript traps when `hi` is
      `endIndex`, so `hi` must name a cluster. */
  function SliceClosed<C>(s: seq<C>, lo: int, hi: int): (r: seq<C>)
    requires 0 <= lo <= hi < |s|
    ensures |r| == hi - lo + 1 && r[|r| - 1] == s[hi]
    ensures forall k :: 0 <= k < |r| ==> r[k] == s[lo + k]
  {
    var start := IndexOffsetBy(s, StartIndex(s), lo);
    var end := IndexOffsetBy(s, StartIndex(s), hi);
    if end < start then [] else CursorSliceClosed(s, start, end)
  }

  /** `s[lo...]` (`CountablePartialRangeFrom<Int>`). The last cluster is
      found with `index(endIndex, offsetBy: -1)`, which traps on the empty
      string; the `end < start` guard turns `lo == |s|` into the empty
      result. */
  function SuffixFrom<C>(s: seq<C>, lo: int): (r: seq<C>)
    requires 0 <= lo <= |s| && |s| > 0
    ensures |r| == |s| - lo
    ensures forall k :: 0 <= k < |r| ==> r[k] == s[lo + k]
  {
    var start := IndexOffsetBy(s, StartIndex(s), lo);
    var end := IndexOffsetBy(s, EndIndex(s), -1);
    if end < start then [] else CursorSliceClosed(s, start, end)
  }

  /** `s[...hi]` (`PartialRangeThrough<Int>`): the clusters up to and
      including offset `hi`. */
  function PrefixThrough<C>(s: seq<C>, hi: int): (r: seq<C>)
    requires 0 <= hi < |s|
    ensures |r| == hi + 1 && r[hi] == s[hi]
    ensures forall k :: 0 <= k < |r| ==> r[k] == s[k]
  {
    var end := IndexOffsetBy(s, StartIndex(s), hi);
    if end < StartIndex(s) then [] else CursorSliceClosed(s, StartIndex(s), end)
  }

  /** `s[..<hi]` (`PartialRangeUpTo<Int>`): the clusters before offset `hi`. */
  function PrefixUpTo<C>(s: seq<C>, hi: int): (r: seq<C>)
    requires 0 <= hi <= |s|
    ensures |r| == hi
    ensures forall k :: 0 <= k < |r| ==> r[k] == s[k]
  {
    var end := IndexOffsetBy(s, StartIndex(s), hi);
    if end < StartIndex(s) then [] else s[StartIndex(s)..end]
  }

  /** `s[lo...]` as evidently intended: the suffix from `lo`, which for the
      empty string and `lo == 0` is the empty string instead of a trap. The
      end cursor is `endIndex` itself and the range is half-open, so no
      guard is needed. */
  function SuffixFromCorrected<C>(s: seq<C>, lo: int): (r: seq<C>)
    requires 0 <= lo <= |s|
    ensures |r| == |s| - lo
    ensures forall k :: 0 <= k < |r| ==> r[k] == s[lo + k]
  {
    var start := IndexOffsetBy(s, StartIndex(s), lo);
    s[start..EndIndex(s)]
  }

  /** The two ends of the cursor range bracket the clusters: walking
      `count` clusters from `startIndex` reaches `endIndex`, subscripting at
      `startIndex` gives the first cluster, and one step back from
      `endIndex` names the last one. */
  lemma StartAndEndIndex<C>(s: seq<C>)
    ensures StartIndex(s) <= EndIndex(s)
    ensures IndexOffsetBy(s, StartIndex(s), |s|) == EndIndex(s)
    ensures |s| > 0 ==> s[StartIndex(s)] == s[0] && s[IndexOffsetBy(s, EndIndex(s), -1)] == s[|s| - 1]
    ensures StartIndex(s) == EndIndex(s) <==> s == []
  {
  }

  // ---------------------------------------------------------------------
  // Each subscript returns exactly the Dafny slice of the same clusters.

  lemma SubscriptsAreSlices<C>(s: seq<C>, lo: int, hi: int)
    requires 0 <= lo <= hi <= |s|
    ensures Slice(s, lo, hi) == s[lo..hi]
    ensures PrefixUpTo(s, hi) == s[..hi]
    ensures hi < |s| ==> SliceClosed(s, lo, hi) == s[lo..hi + 1]
    ensures hi < |s| ==> PrefixThrough(s, hi) == s[..hi + 1]
    ensures |s| > 0 ==> SuffixFrom(s, lo) == s[lo..]
    ensures SuffixFromCorrected(s, lo) == s[lo..]
  {
  }

  /** The whole half-open range gives back the string itself. */
  lemma WholeSlice<C>(s: seq<C>)
    ensures Slice(s, 0, |s|) == s
  {
    SubscriptsAreSlices(s, 0, |s|);
  }

  /** `s[lo...hi]` is `s[lo..<hi + 1]`. */
  lemma ClosedIsHalfOpen<C>(s: seq<C>, lo: int, hi: int)
    requires 0 <= lo <= hi < |s|
    ensures SliceClosed(s, lo, hi) == Slice(s, lo, hi + 1)
  {
    SubscriptsAreSlices(s, lo, hi);
    SubscriptsAreSlices(s, lo, hi + 1);
  }

  /** `s[...hi]` is `s[..<hi + 1]`. */
  lemma ThroughIsUpTo<C>(s: seq<C>, hi: int)
    requires 0 <= hi < |s|
    ensures PrefixThrough(s, hi) == PrefixUpTo(s, hi + 1)
  {
    SubscriptsAreSlices(s, 0, hi);
    SubscriptsAreSlices(s, 0, hi + 1);
  }

  /** On a non-empty string `s[lo...]` is `s[lo..<|s|]`, and it agrees with
      the corrected form. */
  lemma FromIsHalfOpen<C>(s: seq<C>, lo: int)
    requires 0 <= lo <= |s| && |s| > 0
    ensures SuffixFrom(s, lo) == Slice(s, lo, |s|)
    ensures SuffixFrom(s, lo) == SuffixFromCorrected(s, lo)
  {
    SubscriptsAreSlices(s, lo, |s|);
  }

  /** Cutting a non-empty string at any offset `k` and joining
      `s[..<k]` with `s[k...]` restores it. */
  lemma SplitAt<C>(s: seq<C>, k: int)
    requires 0 <= k <= |s| && |s| > 0
    ensures PrefixUpTo(s, k) + SuffixFrom(s, k) == s
  {
    SubscriptsAreSlices(s, k, k);
    assert s[..k] + s[k..] == s;
  }

  /** With the corrected suffix the split holds for every string. */
  lemma SplitAtCorrected<C>(s: seq<C>, k: int)
    requires 0 <= k <= |s|
    ensures PrefixUpTo(s, k) + SuffixFromCorrected(s, k) == s
  {
    SubscriptsAreSlices(s, k, k);
    assert s[..k] + s[k..] == s;
  }

  /** The only `end < start` guard that can fire is the one of `s[lo...]`,
      and it fires exactly when `lo` is the cluster count. */
  lemma FromGuardFiresOnlyAtEnd<C>(s: seq<C>, lo: int)
    requires 0 <= lo <= |s| && |s| > 0
    ensures IndexOffsetBy(s, EndIndex(s), -1) < IndexOffsetBy(s, StartIndex(s), lo) <==> lo == |s|
    ensures lo == |s| ==> SuffixFrom(s, lo) == []
  {
  }

  /** Whenever the walks of the other four range subscripts succeed, their
      guards are false: Swift's range types already order their bounds. */
  lemma OtherGuardsNeverFire<C>(s: seq<C>, lo: int, hi: int)
    requires 0 <= lo <= hi <= |s|
    ensures !(IndexOffsetBy(s, StartIndex(s), hi) < IndexOffsetBy(s, StartIndex(s), lo))
    ensures !(IndexOffsetBy(s, StartIndex(s), hi) < StartIndex(s))
  {
  }

  /** On the empty string the walk `index(endIndex, offsetBy: -1)` leaves
      the string. That walk does not depend on the lower bound, so
      `s[lo...]` traps on the empty string for every `lo`, while the
      corrected suffix from 0 is empty. */
  lemma FromTrapsOnEmpty<C>(s: seq<C>)
    requires s == []
    ensures !(0 <= EndIndex(s) + -1 <= |s|)
    ensures SuffixFromCorrected(s, 0) == []
  {
  }

  // ---------------------------------------------------------------------
  // The usage lines of the extension and further concrete scenarios.

  /** `"Hello, world!"[7...]` */
  lemma HelloWorldFrom()
    ensures SuffixFrom("Hello, world!", 7) == "world!"
  {
    SubscriptsAreSlices("Hello, world!", 7, 7);
  }

  /** `"Hello, world!"[7...11]` */
  lemma HelloWorldClosed()
    ensures SliceClosed("Hello, world!", 7, 11) == "world"
  {
    SubscriptsAreSlices("Hello, world!", 7, 11);
  }

  /** Further offsets into the same 13-cluster text; offset 13 is
      `endIndex` and cannot be subscripted. */
  lemma HelloWorldOthers()
    ensures var text := "Hello, world!";
      |text| == 13 &&
      At(text, 0) == 'H' &&
      Slice(text, 0, 5) == "Hello" &&
      PrefixUpTo(text, 0) == ""
  {
    SubscriptsAreSlices("Hello, world!", 0, 5);
  }

  /** `é` is one cluster, so it sits at offset 3 of "café". */
  lemma Cafe()
    ensures var text := "café";
      |text| == 4 && At(text, 3) == 'é' && SuffixFrom(text, 3) == "é"
  {
    SubscriptsAreSlices("café", 3, 3);
  }
}
