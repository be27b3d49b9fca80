# Integer-offset string subscripts, validators and trimming

This project models the `String` extensions in `useful_ext.playground/Contents.swift`. Its core is the family of integer-offset subscripts. Swift addresses a string by opaque cursors over grapheme clusters. The subscripts turn an `Int` offset, or one of the range literals `a..<b`, `a...b`, `a...`, `...b` and `..<b`, into cursors. They do this by walking from `startIndex` (or from `endIndex` by -1) with `index(_:offsetBy:)`, and then subscript the string with those cursors. Three small helpers sit beside them:
- the whole-string validators `containsOnlyDigits` and `isAlphaNumeric`;
- the trimmer `trimmed` and its in-place form `trim()`.

Modules:
- `StringSubscripts` (`subscripts.dfy`). A string is a `seq<C>` over an opaque cluster type `C`. A cursor is the number of clusters before it. `index(_:offsetBy:)` is a walk of one cluster per step (`IndexOffsetBy`). Each subscript keeps the source's structure: it resolves the cursors, applies the `end < start` guard, then takes the cursor slice. Every run-time trap of Swift is a `requires` clause:
  - an offset walk that leaves `[startIndex, endIndex]`;
  - subscripting at `endIndex`, including the closed cursor range `start...end` with `end == endIndex`;
  - forming `lo..<hi` or `lo...hi` with `hi < lo`;
  - `index(endIndex, offsetBy: -1)` on the empty string.
- `CharacterClasses` (`char_classes.dfy`). The validators are searches for the first character outside a class. Foundation's decimal-digit set is a parameter.
- `Trimming` (`trimming.dfy`). `trimmed` is a function. `trim()` is a method of a class `Text` whose `value` field it reassigns. Foundation's whitespace-and-newline set is a parameter. `trimmed` scans forwards for the first character to keep, then backwards for the last.

The model follows the code on one point where one might expect more tolerance. An inverted range literal such as `5..<2` traps as soon as Swift forms the range, and an upper bound past the cluster count traps in `index(_:offsetBy:)`. So neither gives an empty result. The `end < start` guards therefore never fire, with one exception: `s[count...]`, which returns the empty string (`FromGuardFiresOnlyAtEnd`, `OtherGuardsNeverFire`).

## Model

| member | source | states |
|---|---|---|
| `StringSubscripts.StartAndEndIndex` | useful_ext.playground/Contents.swift:192-211 | the cursor convention: `startIndex` is cursor 0 and `endIndex` is cursor `count`; walking `count` clusters from `startIndex` reaches `endIndex`; on a non-empty string `startIndex` names the first cluster and `index(endIndex, offsetBy: -1)` the last; the two coincide exactly on the empty string |
| `StringSubscripts.IndexOffsetBy` | useful_ext.playground/Contents.swift:196-197 | walking `n` clusters from cursor `i` is defined exactly when `0 <= i + n <= count`, and it lands on cursor `i + n` |
| `StringSubscripts.CursorSliceClosed` | useful_ext.playground/Contents.swift:206 | `self[start...end]` needs `start <= end < count` and yields the `end - start + 1` clusters from `start`, the last being the cluster at `end` |
| `StringSubscripts.At` | useful_ext.playground/Contents.swift:191-193 | `s[i]` is defined only for `0 <= i < count` and is the i-th cluster |
| `StringSubscripts.Slice` | useful_ext.playground/Contents.swift:195-200 | `s[lo..<hi]` needs `0 <= lo <= hi <= count`; it has `hi - lo` clusters, the k-th being `s[lo + k]` |
| `StringSubscripts.SliceClosed` | useful_ext.playground/Contents.swift:202-207 | `s[lo...hi]` needs `0 <= lo <= hi < count`; it has `hi - lo + 1` clusters, the k-th being `s[lo + k]` and the last `s[hi]` |
| `StringSubscripts.SuffixFrom` | useful_ext.playground/Contents.swift:209-214 | `s[lo...]` needs a non-empty string and `0 <= lo <= count`; it has `count - lo` clusters, the k-th being `s[lo + k]` |
| `StringSubscripts.PrefixThrough` | useful_ext.playground/Contents.swift:216-220 | `s[...hi]` needs `0 <= hi < count`; it is the first `hi + 1` clusters |
| `StringSubscripts.PrefixUpTo` | useful_ext.playground/Contents.swift:222-226 | `s[..<hi]` needs `0 <= hi <= count`; it is the first `hi` clusters |
| `StringSubscripts.SuffixFromCorrected` | useful_ext.playground/Contents.swift:209-214 | the intended `s[lo...]`: for every string and `0 <= lo <= count`, the `count - lo` clusters from `lo` |
| `StringSubscripts.SubscriptsAreSlices` | useful_ext.playground/Contents.swift:190-227 | every subscript result is the contiguous slice of `s` between its resolved bounds |
| `StringSubscripts.WholeSlice` | useful_ext.playground/Contents.swift:195-200 | `s[0..<count] == s` |
| `StringSubscripts.ClosedIsHalfOpen` | useful_ext.playground/Contents.swift:195-207 | `s[lo...hi] == s[lo..<hi + 1]` |
| `StringSubscripts.ThroughIsUpTo` | useful_ext.playground/Contents.swift:216-226 | `s[...hi] == s[..<hi + 1]` |
| `StringSubscripts.FromIsHalfOpen` | useful_ext.playground/Contents.swift:195-214 | on a non-empty string `s[lo...] == s[lo..<count]`, which is also the corrected suffix |
| `StringSubscripts.SplitAt` | useful_ext.playground/Contents.swift:209-226 | for a non-empty string and `0 <= k <= count`, `s[..<k] + s[k...] == s` |
| `StringSubscripts.SplitAtCorrected` | useful_ext.playground/Contents.swift:209-226 | with the corrected suffix the split restores every string, the empty one included |
| `StringSubscripts.FromGuardFiresOnlyAtEnd` | useful_ext.playground/Contents.swift:209-214 | the guard of `s[lo...]` fires iff `lo == count`, and then the result is empty |
| `StringSubscripts.OtherGuardsNeverFire` | useful_ext.playground/Contents.swift:195-226 | whenever the offset walks succeed, the guards of `s[lo..<hi]`, `s[lo...hi]`, `s[...hi]` and `s[..<hi]` are false |
| `StringSubscripts.FromTrapsOnEmpty` | useful_ext.playground/Contents.swift:211 | on the empty string the walk `index(endIndex, offsetBy: -1)`, which does not depend on the lower bound, leaves the string, so `s[lo...]` traps for every `lo`; the corrected suffix from 0 is empty |
| `StringSubscripts.HelloWorldFrom` | useful_ext.playground/Contents.swift:230 | `"Hello, world!"[7...] == "world!"` |
| `StringSubscripts.HelloWorldClosed` | useful_ext.playground/Contents.swift:231 | `"Hello, world!"[7...11] == "world"` |
| `StringSubscripts.HelloWorldOthers` | useful_ext.playground/Contents.swift:191-226 | on `"Hello, world!"` (13 clusters): `[0]` is `H`, `[0..<5]` is `Hello`, `[..<0]` is empty |
| `StringSubscripts.Cafe` | useful_ext.playground/Contents.swift:191-214 | on `"café"` (4 clusters) `[3]` is `é` and `[3...]` is `é` |
| `CharacterClasses.FirstIndexIn` | useful_ext.playground/Contents.swift:164-180 | the search finds the first character in the set, and finds nothing iff no character is in the set |
| `CharacterClasses.ContainsOnlyDigits` | useful_ext.playground/Contents.swift:164-167 | true iff every character is a decimal digit, so true for the empty string |
| `CharacterClasses.IsAlphaNumeric` | useful_ext.playground/Contents.swift:178-180 | true iff the string is non-empty and every character is in `a-z`, `A-Z` or `0-9` |
| `CharacterClasses.EmptyString` | useful_ext.playground/Contents.swift:164-180 | the empty string contains only digits and is not alphanumeric |
| `CharacterClasses.AsciiDigitsAreDigits` | useful_ext.playground/Contents.swift:164-180 | an alphanumeric string without letters contains only digits, for any digit set holding `0-9` |
| `CharacterClasses.DigitsYes` | useful_ext.playground/Contents.swift:171 | `"1234567890"` contains only digits, for any digit set holding `0-9` |
| `CharacterClasses.DigitsNo` | useful_ext.playground/Contents.swift:172 | `"1234+567890"` does not, for any digit set without `+` |
| `CharacterClasses.AlphaNumericYes` | useful_ext.playground/Contents.swift:184 | `"asds1235adas"` is alphanumeric |
| `CharacterClasses.AlphaNumericNo` | useful_ext.playground/Contents.swift:185 | `"sdasd_/@#?$"` is not alphanumeric |
| `Trimming.FirstKept` | useful_ext.playground/Contents.swift:10 | the forward scan stops at the first non-blank position at or after its start, or at the end; everything it passes is blank |
| `Trimming.LastKeptEnd` | useful_ext.playground/Contents.swift:10 | the backward scan, bounded below by the first kept position, stops just after the last non-blank character; everything it passes is blank |
| `Trimming.Trimmed` | useful_ext.playground/Contents.swift:9-11 | `trimmed` is a contiguous slice with only blanks outside it, and it neither starts nor ends with a blank |
| `Trimming.TrimmedUnique` | useful_ext.playground/Contents.swift:9-11 | any slice with blank margins and non-blank ends is the trimmed string, so the two properties above define `trimmed` |
| `Trimming.TrimmedIdempotent` | useful_ext.playground/Contents.swift:9-11 | `s.trimmed.trimmed == s.trimmed` |
| `Trimming.UsageExample` | useful_ext.playground/Contents.swift:18-21 | `" a b c d    \n".trimmed == "a b c d"` for any blank set holding space and newline but no letter |
| `Trimming.Text.Trim` | useful_ext.playground/Contents.swift:13-15 | `trim()` replaces the receiver's value with its trimmed form and changes nothing else |

## Findings

| source | as written | input that shows it | evidently intended | confidence | as-written member | corrected member |
|---|---|---|---|---|---|---|
| useful_ext.playground/Contents.swift:211 | `s[lo...]` finds its end cursor with `index(endIndex, offsetBy: -1)`, which traps on the empty string | `""[0...]` traps instead of returning `""` | `s[lo...]` is the suffix from `lo` for every string, so `""[0...] == ""` | medium, not executed | `StringSubscripts.SuffixFrom`, `StringSubscripts.FromTrapsOnEmpty` | `StringSubscripts.SuffixFromCorrected`, `StringSubscripts.SplitAtCorrected` |

`SuffixFrom` stays the faithful model of the code as written. `SuffixFromCorrected` is proved to agree with it on every non-empty string (`FromIsHalfOpen`).

## Left out

- Grapheme-cluster segmentation: clusters are opaque elements of a sequence. The cost of `index(_:offsetBy:)`, linear in the distance walked, is not modelled beyond the step-by-step definition.
- `Substring` storage sharing: a subscript result is a plain sequence value, not a view into the original string.
- `Trimming.Text` value semantics: Swift's `String` is a value type, so after `var t = s; t.trim()` the string `s` is unchanged. Two references to one `Text` object share the trim instead. No contract depends on this.
- Swift's 64-bit `Int`: offsets are unbounded integers. Every valid offset lies between 0 and the cluster count, so no wrap-around can occur on a defined call.
- Foundation's decimal-digit and whitespace-and-newline sets: they are parameters, the sets `digits` and `ws`, because their contents are Unicode tables outside this code.
- `containsOnlyDigits` and `trimmed` work here on Unicode scalar values (`char`), while Foundation's `rangeOfCharacter(from:)` and `trimmingCharacters(in:)` work on UTF-16 code units. A character outside the Basic Multilingual Plane is one element here but two units there. (`isAlphaNumeric` goes through the regular-expression engine, which matches one code point at a time, as the model does.)
- `toDouble`/`toInt`, `centsToRub`, `Double.toString`, `toPrice`, `asCoordinates`: floating-point conversion and `NumberFormatter` formatting.
- `toDate`/`toString(format:)`: thin wrappers over `DateFormatter`.
- `height`/`width`, `squared`/`resized`, `UIDevice.vibrate`: UIKit, CoreGraphics and AudioToolbox calls.
- `asURL`, `asDict`, `asArray`, `asAttributedString`, `Bundle.appVersion`: delegation to `URL`, `JSONSerialization`, the HTML importer and bundle metadata.
- The playground's top-level usage statements appear only as the example lemmas.
