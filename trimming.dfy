/** `trimmed` and `trim()`: removing the characters of a set from both ends
    of a string.

    Foundation's `.whitespacesAndNewlines` set is not spelled out here: it
    is a parameter `ws`. Strings are sequences of Unicode scalar values.
    Trimming scans forwards from the start for the first character to keep,
    then backwards from the end, not past that character, for the last. */
module Trimming {

  /** The forward scan: the first position at or after `i` whose character
      is not in `ws`, or `|s|` when there is none. */
  function FirstKept(s: string, ws: set<char>, i: nat): (n: nat)
    requires i <= |s|
    ensures i <= n <= |s|
    ensures forall k :: i <= k < n ==> s[k] in ws
    ensures n < |s| ==> s[n] !in ws
    decreases |s| - i
  {
    if i == |s| || s[i] !in ws then i else FirstKept(s, ws, i + 1)
  }

  /** The backward scan: the end of the kept part, scanning down from `j`
      and stopping at `lo`: every character from the result up to `j` is in
      `ws`, and the one just before the result, if above `lo`, is not. */
  function LastKeptEnd(s: string, ws: set<char>, lo: nat, j: nat): (n: nat)
    requires lo <= j <= |s|
    ensures lo <= n <= j
    ensures forall k :: n <= k < j ==> s[k] in ws
    ensures lo < n ==> s[n - 1] !in ws
    decreases j
  {
    if j == lo || s[j - 1] !in ws then j else LastKeptEnd(s, ws, lo, j - 1)
  }

  /** `s[lo..hi]` is a slice of `s` and everything outside it is in `ws`. */
  ghost predicate BlankMargins(s: string, ws: set<char>, lo: int, hi: int) {
    0 <= lo <= hi <= |s| &&
    (forall i :: 0 <= i < lo ==> s[i] in ws) &&
    (forall i :: hi <= i < |s| ==> s[i] in ws)
  }

  /** `trimmed` (`trimmingCharacters(in:)`): a contiguous slice of the
      string, with only `ws` characters cut away on either side, that
      neither starts nor ends with a `ws` character. */
  function Trimmed(s: string, ws: set<char>): (r: string)
    ensures r == [] || (r[0] !in ws && r[|r| - 1] !in ws)
    ensures exists lo, hi :: BlankMargins(s, ws, lo, hi) && r == s[lo..hi]
  {
    var lo := FirstKept(s, ws, 0);
    var hi := LastKeptEnd(s, ws, lo, |s|);
    assert BlankMargins(s, ws, lo, hi);
    s[lo..hi]
  }

  /** The two conditions of `Trimmed` determine the result: any slice with
      blank margins whose ends are not blank is the trimmed string. */
  lemma TrimmedUnique(s: string, ws: set<char>, lo: int, hi: int)
    requires BlankMargins(s, ws, lo, hi)
    requires lo < hi ==> s[lo] !in ws && s[hi - 1] !in ws
    ensures Trimmed(s, ws) == s[lo..hi]
  {
    var first := FirstKept(s, ws, 0);
    var end := LastKeptEnd(s, ws, first, |s|);
    if lo == hi {
      // Every character is blank, so the forward scan runs to the end.
      assert first < |s| ==> first < lo || hi <= first;
      assert first == |s|;
    } else {
      // The scans stop at `lo` and just after `hi - 1`.
      assert first == lo;
      assert end == hi;
    }
  }

  /** Trimming twice is trimming once. */
  lemma TrimmedIdempotent(s: string, ws: set<char>)
    ensures Trimmed(Trimmed(s, ws), ws) == Trimmed(s, ws)
  {
    var t := Trimmed(s, ws);
    TrimmedUnique(t, ws, 0, |t|);
  }

  /** The usage line of the extension, for any set that holds the space and
      the newline and none of the letters. */
  lemma UsageExample(ws: set<char>)
    requires ' ' in ws && '\n' in ws
    requires 'a' !in ws && 'b' !in ws && 'c' !in ws && 'd' !in ws
    ensures Trimmed(" a b c d    \n", ws) == "a b c d"
  {
    var s := " a b c d    \n";
    assert BlankMargins(s, ws, 1, 8);
    TrimmedUnique(s, ws, 1, 8);
  }

  /** A string value that `trim()` replaces in place. */
  class Text {
    var value: string

    constructor (s: string)
      ensures value == s
    {
      value := s;
    }

    /** `trim()`: the receiver becomes its own trimmed form. */
    method Trim(ws: set<char>)
      modifies this
      ensures value == Trimmed(old(value), ws)
    {
      value := Trimmed(value, ws);
    }
  }
}
