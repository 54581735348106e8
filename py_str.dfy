/**
 * The few operations on Python `str` values that the tutor relies on:
 * `strip()` with no argument, `sub in s` and `s.split(sep)`. `Join` (Python's
 * `sep.join(parts)`) is added as the inverse of `split` and to assemble the
 * prompt templates.
 */
module PyStr {
  import opened Wrappers

  /** Python's `str.isspace()` for a single character: the characters that
      `strip()` with no argument removes. */
  predicate IsSpace(c: char) {
    || c == ' '
    || ('\t' <= c <= '\r')
    || ('\U{1C}' <= c <= '\U{1F}')
    || c == '\U{85}' || c == '\U{A0}' || c == '\U{1680}'
    || ('\U{2000}' <= c <= '\U{200A}')
    || c == '\U{2028}' || c == '\U{2029}' || c == '\U{202F}' || c == '\U{205F}'
    || c == '\U{3000}'
  }

  /** Index of the first character of `s` that is not whitespace (or `|s|`). */
  function LeftEnd(s: string): (i: nat)
    ensures i <= |s|
    ensures forall k :: 0 <= k < i ==> IsSpace(s[k])
    ensures i < |s| ==> !IsSpace(s[i])
  {
    if |s| > 0 && IsSpace(s[0]) then
      var i' := LeftEnd(s[1..]);
      assert forall k :: 1 <= k < 1 + i' ==> s[k] == s[1..][k - 1];
      1 + i'
    else 0
  }

  /** Index just past the last character of `s` that is not whitespace (or 0). */
  function RightEnd(s: string): (j: nat)
    ensures j <= |s|
    ensures forall k :: j <= k < |s| ==> IsSpace(s[k])
    ensures j > 0 ==> !IsSpace(s[j - 1])
  {
    if |s| > 0 && IsSpace(s[|s| - 1]) then RightEnd(s[..|s| - 1]) else |s|
  }

  /** `s.strip()`: `s` without its leading and trailing whitespace. */
  function Strip(s: string): (r: string)
    ensures LeftEnd(s) + |r| <= |s|
    ensures r == s[LeftEnd(s)..LeftEnd(s) + |r|]
    ensures forall k :: 0 <= k < LeftEnd(s) ==> IsSpace(s[k])
    ensures forall k :: LeftEnd(s) + |r| <= k < |s| ==> IsSpace(s[k])
    ensures r == [] || (!IsSpace(r[0]) && !IsSpace(r[|r| - 1]))
  {
    var i := LeftEnd(s);
    var rest := s[i..];
    var j := RightEnd(rest);
    assert rest[..j] == s[i..i + j];
    assert forall k :: i + j <= k < |s| ==> s[k] == rest[k - i];
    assert j > 0 ==> rest[..j][0] == s[i] && rest[..j][j - 1] == rest[j - 1];
    rest[..j]
  }

  /** Stripping twice is the same as stripping once. */
  lemma StripIdempotent(s: string)
    ensures Strip(Strip(s)) == Strip(s)
  {
    var r := Strip(s);
    if r != [] {
      assert LeftEnd(r) == 0;
      assert RightEnd(r[0..]) == |r| by { assert r[0..] == r; }
    }
  }

  /** A string with no whitespace at either end is its own strip. */
  lemma StripUnchanged(s: string)
    requires s != [] && !IsSpace(s[0]) && !IsSpace(s[|s| - 1])
    ensures Strip(s) == s
  {
    assert LeftEnd(s) == 0;
    assert s[0..] == s;
  }

  /** `p` occurs in `s` starting at index `i`. */
  predicate OccursAt(s: string, p: string, i: int) {
    0 <= i && i + |p| <= |s| && s[i..i + |p|] == p
  }

  /** The first occurrence of `p` in `s` at or after `i` (`s.find(p, i)`). */
  function FindFrom(s: string, p: string, i: nat): (r: Option<nat>)
    requires i <= |s|
    ensures r.Some? ==> i <= r.value && OccursAt(s, p, r.value)
    ensures r.Some? ==> forall j :: i <= j < r.value ==> !OccursAt(s, p, j)
    ensures r.None? ==> forall j :: i <= j ==> !OccursAt(s, p, j)
    decreases |s| - i
  {
    if i + |p| > |s| then None
    else if s[i..i + |p|] == p then Some(i)
    else FindFrom(s, p, i + 1)
  }

  /** The first occurrence of `p` in `s`, if any. */
  function Find(s: string, p: string): (r: Option<nat>)
    ensures r.Some? ==> OccursAt(s, p, r.value)
    ensures r.Some? ==> forall j :: 0 <= j < r.value ==> !OccursAt(s, p, j)
    ensures r.None? ==> forall j :: !OccursAt(s, p, j)
  {
    FindFrom(s, p, 0)
  }

  /** Python's `p in s`. */
  predicate Contains(s: string, p: string) {
    Find(s, p).Some?
  }

  /** An occurrence inside a slice of `s` is an occurrence in `s`. */
  lemma OccursInSlice(s: string, p: string, lo: nat, hi: nat, j: int)
    requires lo <= hi <= |s|
    requires OccursAt(s[lo..hi], p, j)
    ensures OccursAt(s, p, lo + j)
  {
    forall k | 0 <= k < |p|
      ensures s[lo + j + k] == p[k]
    {
      assert s[lo..hi][j..j + |p|][k] == p[k];
    }
  }

  /** A slice of a string that does not contain `p` does not contain it either. */
  lemma NotContainsSlice(s: string, p: string, lo: nat, hi: nat)
    requires lo <= hi <= |s|
    requires !Contains(s, p)
    ensures !Contains(s[lo..hi], p)
  {
    if Contains(s[lo..hi], p) {
      OccursInSlice(s, p, lo, hi, Find(s[lo..hi], p).value);
      assert false;
    }
  }

  /** Stripping cannot create an occurrence of `p`. */
  lemma StripKeepsAbsent(s: string, p: string)
    requires !Contains(s, p)
    ensures !Contains(Strip(s), p)
  {
    var i, r := LeftEnd(s), Strip(s);
    NotContainsSlice(s, p, i, i + |r|);
  }

  /** The text before the first occurrence of `p` does not contain `p`. */
  lemma PrefixBeforeFirst(s: string, p: string)
    requires p != [] && Contains(s, p)
    ensures !Contains(s[..Find(s, p).value], p)
  {
    var i := Find(s, p).value;
    if Contains(s[..i], p) {
      var j := Find(s[..i], p).value;
      assert s[0..i] == s[..i];
      OccursInSlice(s, p, 0, i, j);
    }
  }

  /** `s.split(sep)`: the pieces of `s` between the non-overlapping occurrences
      of `sep`, found left to right. */
  function Split(s: string, sep: string): (parts: seq<string>)
    requires sep != []
    ensures 1 <= |parts|
    ensures Contains(s, sep) <==> 2 <= |parts|
    ensures parts[0] == if Contains(s, sep) then s[..Find(s, sep).value] else s
    ensures forall k :: 0 <= k < |parts| ==> !Contains(parts[k], sep)
    decreases |s|
  {
    match Find(s, sep)
    case None => [s]
    case Some(i) =>
      PrefixBeforeFirst(s, sep);
      [s[..i]] + Split(s[i + |sep|..], sep)
  }

  /** The second piece of `s.split(sep)` is the text after the first `sep`
      up to the next one, or to the end when there is no next one. */
  lemma SplitSecond(s: string, sep: string)
    requires sep != [] && Contains(s, sep)
    ensures var rest := s[Find(s, sep).value + |sep|..];
            Split(s, sep)[1] == if Contains(rest, sep) then rest[..Find(rest, sep).value] else rest
  {
    var rest := s[Find(s, sep).value + |sep|..];
    assert Split(s, sep)[1] == Split(rest, sep)[0];
  }

  /** An occurrence with none before it is the one `Find` reports. */
  lemma FindFirst(s: string, p: string, i: nat)
    requires OccursAt(s, p, i)
    requires forall j :: 0 <= j < i ==> !OccursAt(s, p, j)
    ensures Find(s, p) == Some(i)
  {
  }

  /** Splitting at a first occurrence at `i`: the first piece is `s[..i]`
      and the second begins right after the separator. */
  lemma SplitAtFirst(s: string, sep: string, i: nat)
    requires sep != [] && OccursAt(s, sep, i)
    requires forall j :: 0 <= j < i ==> !OccursAt(s, sep, j)
    ensures Split(s, sep)[0] == s[..i]
    ensures Split(s, sep)[1] == Split(s[i + |sep|..], sep)[0]
  {
    FindFirst(s, sep, i);
    SplitSecond(s, sep);
  }

  /** The first piece of a string that holds no `sep` is the whole string. */
  lemma SplitHeadOfPiece(s: string, sep: string)
    requires sep != [] && !Contains(s, sep)
    ensures Split(s, sep)[0] == s
  {
  }

  /** `sep.join(parts)`. */
  function Join(sep: string, parts: seq<string>): (s: string)
    ensures |parts| == 1 ==> s == parts[0]
  {
    if parts == [] then ""
    else if |parts| == 1 then parts[0]
    else parts[0] + sep + Join(sep, parts[1..])
  }

  /** Splitting and joining with the same separator gives back the string. */
  lemma {:induction false} JoinSplit(s: string, sep: string)
    requires sep != []
    ensures Join(sep, Split(s, sep)) == s
    decreases |s|
  {
    match Find(s, sep)
    case None =>
    case Some(i) =>
      var rest := s[i + |sep|..];
      var tail := Split(rest, sep);
      JoinSplit(rest, sep);
      var parts := [s[..i]] + tail;
      assert Split(s, sep) == parts;
      assert parts[1..] == tail;
      assert Join(sep, parts) == s[..i] + sep + Join(sep, tail);
      assert s == s[..i] + s[i..i + |sep|] + rest;
  }
}
