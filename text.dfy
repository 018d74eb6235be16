/** The Python `str` operations the core relies on, on `seq<char>`:
    `strip`, `rstrip(c)`, `startswith`, `index(sub, start)`, `in`,
    `split(sep)`, `sep.join(parts)` and `replace(target, repl)`. */
module Text {
  import opened Outcomes

  /** `ch.isspace()`: the characters Python's argument-less `strip()` removes. */
  predicate IsSpace(ch: char) {
    || ch == ' '
    || ('\t' <= ch <= '\r')
    || ('\U{1c}' <= ch <= '\U{1f}')
    || ch == '\U{85}' || ch == '\U{a0}' || ch == '\U{1680}'
    || ('\U{2000}' <= ch <= '\U{200a}')
    || ch == '\U{2028}' || ch == '\U{2029}' || ch == '\U{202f}'
    || ch == '\U{205f}' || ch == '\U{3000}'
  }

  predicate IsSlash(ch: char) {
    ch == '/'
  }

  /** The end of the run of characters satisfying `drop` that starts at `i`. */
  function RunFrom(s: string, drop: char -> bool, i: nat): (n: nat)
    requires i <= |s|
    ensures i <= n <= |s|
    ensures forall k :: i <= k < n ==> drop(s[k])
    ensures n == |s| || !drop(s[n])
    decreases |s| - i
  {
    if i < |s| && drop(s[i]) then RunFrom(s, drop, i + 1) else i
  }

  /** The start of the run of characters satisfying `drop` that ends at `j`. */
  function RunTo(s: string, drop: char -> bool, j: nat): (n: nat)
    requires j <= |s|
    ensures n <= j
    ensures forall k :: n <= k < j ==> drop(s[k])
    ensures n == 0 || !drop(s[n - 1])
  {
    if j > 0 && drop(s[j - 1]) then RunTo(s, drop, j - 1) else j
  }

  /** Drops the leading characters that satisfy `drop`. */
  function TrimStart(s: string, drop: char -> bool): (r: string)
    ensures |r| <= |s| && r == s[|s| - |r|..]
    ensures forall k :: 0 <= k < |s| - |r| ==> drop(s[k])
    ensures r == [] || !drop(r[0])
  {
    s[RunFrom(s, drop, 0)..]
  }

  /** Drops the trailing characters that satisfy `drop`. */
  function TrimEnd(s: string, drop: char -> bool): (r: string)
    ensures |r| <= |s| && r == s[..|r|]
    ensures forall k :: |r| <= k < |s| ==> drop(s[k])
    ensures r == [] || !drop(r[|r| - 1])
  {
    s[..RunTo(s, drop, |s|)]
  }

  /** `s.strip()` */
  function Strip(s: string): string {
    TrimEnd(TrimStart(s, IsSpace), IsSpace)
  }

  /** `s.rstrip('/')` */
  function RStripSlash(s: string): string {
    TrimEnd(s, IsSlash)
  }

  /** Trimming both ends keeps a contiguous middle part, removes only
      characters that satisfy `drop`, and leaves none at either end. */
  lemma TrimMiddle(s: string, l: string, r: string, drop: char -> bool)
    requires |l| <= |s| && l == s[|s| - |l|..] && (l == [] || !drop(l[0]))
    requires |r| <= |l| && r == l[..|r|] && (r == [] || !drop(r[|r| - 1]))
    requires forall k :: |r| <= k < |l| ==> drop(l[k])
    ensures var i := |s| - |l|;
      && r == s[i..i + |r|]
      && (forall k :: i + |r| <= k < |s| ==> drop(s[k]))
      && (r == [] || !drop(r[0]))
  {
    var i := |s| - |l|;
    forall k | 0 <= k < |r| ensures r[k] == s[i + k] {
      assert r[k] == l[k];
    }
    assert r == s[i..i + |r|];
    forall k | i + |r| <= k < |s| ensures drop(s[k]) {
      assert s[k] == l[k - i];
    }
    if r != [] {
      assert r[0] == l[0];
    }
  }

  /** Strip keeps a contiguous middle part of its input, removes only white
      space around it, and leaves no white space at either end. */
  lemma StripSpec(s: string)
    ensures var r, i := Strip(s), |s| - |TrimStart(s, IsSpace)|;
      && 0 <= i <= |s| - |r| && r == s[i..i + |r|]
      && (forall k :: 0 <= k < i ==> IsSpace(s[k]))
      && (forall k :: i + |r| <= k < |s| ==> IsSpace(s[k]))
      && (r == [] || (!IsSpace(r[0]) && !IsSpace(r[|r| - 1])))
  {
    var l := TrimStart(s, IsSpace);
    TrimMiddle(s, l, TrimEnd(l, IsSpace), IsSpace);
  }

  /** Stripping twice is stripping once. */
  lemma StripIdempotent(s: string)
    ensures Strip(Strip(s)) == Strip(s)
  {
    var r := Strip(s);
    StripSpec(s);
    assert TrimStart(r, IsSpace) == r;
  }

  predicate StartsWith(s: string, prefix: string) {
    |prefix| <= |s| && s[..|prefix|] == prefix
  }

  /** `sub` occurs in `s` starting at position `j`. */
  predicate OccursAt(s: string, sub: string, j: nat) {
    j + |sub| <= |s| && s[j..j + |sub|] == sub
  }

  /** `s.index(sub, start)` (and `s.find`): the first occurrence of `sub`
      at or after `start`, or None where Python raises ValueError. */
  function IndexFrom(s: string, sub: string, start: nat): (r: Option<nat>)
    ensures r.Some? ==> start <= r.value && OccursAt(s, sub, r.value)
    ensures r.Some? ==> forall j: nat :: start <= j < r.value ==> !OccursAt(s, sub, j)
    ensures r.None? ==> forall j: nat :: start <= j ==> !OccursAt(s, sub, j)
    decreases |s| - start
  {
    if start + |sub| > |s| then None
    else if s[start..start + |sub|] == sub then Some(start)
    else IndexFrom(s, sub, start + 1)
  }

  /** The first occurrence at or after `start` is the value IndexFrom returns. */
  lemma IndexFromIs(s: string, sub: string, start: nat, k: nat)
    requires start <= k && OccursAt(s, sub, k)
    requires forall j: nat :: start <= j < k ==> !OccursAt(s, sub, j)
    ensures IndexFrom(s, sub, start) == Some(k)
  {
  }

  /** A string that lacks the first character of `sub` has no occurrence of it. */
  lemma NoLeadNoOccurrence(s: string, sub: string)
    requires |sub| > 0 && sub[0] !in s
    ensures forall j: nat :: !OccursAt(s, sub, j)
  {
    forall j: nat ensures !OccursAt(s, sub, j) {
      if j + |sub| <= |s| {
        assert s[j..j + |sub|][0] == s[j];
      }
    }
  }

  /** An occurrence inside a slice is an occurrence in the whole string. */
  lemma SliceOccurs(s: string, sub: string, lo: nat, hi: nat, j: nat)
    requires lo <= hi <= |s| && OccursAt(s[lo..hi], sub, j)
    ensures OccursAt(s, sub, lo + j)
  {
    var u, v := s[lo..hi][j..j + |sub|], s[lo + j..lo + j + |sub|];
    forall k | 0 <= k < |sub| ensures u[k] == v[k] {
      assert s[lo..hi][j + k] == s[lo + j + k];
    }
    assert u == v;
  }

  /** `sub` cannot start anywhere in `[lo, hi)` when the character it
      would need at offset `d` is missing from those shifted positions. */
  lemma NoOccurrenceIn(s: string, sub: string, lo: nat, hi: nat, d: nat)
    requires d < |sub|
    requires forall k :: lo + d <= k < hi + d && k < |s| ==> s[k] != sub[d]
    ensures forall j: nat :: lo <= j < hi ==> !OccursAt(s, sub, j)
  {
    forall j: nat | lo <= j < hi ensures !OccursAt(s, sub, j) {
      if j + |sub| <= |s| {
        assert s[j..j + |sub|][d] == s[j + d];
      }
    }
  }

  /** `sub in s`, the substring test. */
  predicate Contains(s: string, sub: string)
    ensures Contains(s, sub) <==> exists j: nat :: OccursAt(s, sub, j)
  {
    IndexFrom(s, sub, 0).Some?
  }

  /** `sep.join(parts)` */
  function Join(parts: seq<string>, sep: string): string {
    if |parts| == 0 then ""
    else if |parts| == 1 then parts[0]
    else parts[0] + sep + Join(parts[1..], sep)
  }

  /** `s.split(sep)` for a non-empty separator: the text between successive
      non-overlapping occurrences, scanning left to right. */
  function Split(s: string, sep: string): (parts: seq<string>)
    requires |sep| > 0
    ensures |parts| >= 1
    decreases |s|
  {
    match IndexFrom(s, sep, 0)
    case None => [s]
    case Some(i) => [s[..i]] + Split(s[i + |sep|..], sep)
  }

  /** The first piece of a split is the text before the first separator,
      or the whole string when there is none: `s.split(sep)[0]`. */
  lemma SplitFirst(s: string, sep: string)
    requires |sep| > 0
    ensures IndexFrom(s, sep, 0).None? ==> Split(s, sep) == [s]
    ensures IndexFrom(s, sep, 0).Some? ==> Split(s, sep)[0] == s[..IndexFrom(s, sep, 0).value]
  {
  }

  /** Joining the pieces of a split with the same separator gives back the input. */
  lemma {:induction false} SplitJoin(s: string, sep: string)
    requires |sep| > 0
    ensures Join(Split(s, sep), sep) == s
    decreases |s|
  {
    match IndexFrom(s, sep, 0)
    case None =>
    case Some(i) =>
      var rest := Split(s[i + |sep|..], sep);
      SplitJoin(s[i + |sep|..], sep);
      assert Split(s, sep) == [s[..i]] + rest;
      assert ([s[..i]] + rest)[1..] == rest;
      assert s == s[..i] + sep + s[i + |sep|..];
  }

  /** No piece of a split contains the separator. */
  lemma {:induction false} SplitPiecesFree(s: string, sep: string)
    requires |sep| > 0
    ensures forall k, j: nat :: 0 <= k < |Split(s, sep)| ==> !OccursAt(Split(s, sep)[k], sep, j)
    decreases |s|
  {
    match IndexFrom(s, sep, 0)
    case None =>
    case Some(i) =>
      var rest := Split(s[i + |sep|..], sep);
      SplitPiecesFree(s[i + |sep|..], sep);
      assert Split(s, sep) == [s[..i]] + rest;
      forall j: nat ensures !OccursAt(s[..i], sep, j) {
        if OccursAt(s[..i], sep, j) {
          assert j + |sep| <= i <= |s|;
          assert s[..i][j..j + |sep|] == s[j..j + |sep|];
          assert OccursAt(s, sep, j);
        }
      }
  }

  /** A string around exactly one separator splits into the two sides. */
  lemma SplitAround(h: string, sep: string, t: string)
    requires |sep| > 0
    requires forall j: nat :: j < |h| ==> !OccursAt(h + sep + t, sep, j)
    requires forall j: nat :: !OccursAt(t, sep, j)
    ensures Split(h + sep + t, sep) == [h, t]
  {
    var s := h + sep + t;
    assert OccursAt(s, sep, |h|) by { assert s[|h|..|h| + |sep|] == sep; }
    IndexFromIs(s, sep, 0, |h|);
    assert s[..|h|] == h;
    assert s[|h| + |sep|..] == t;
    assert IndexFrom(t, sep, 0).None?;
  }

  /** A character of a joined string comes from a piece or from the separator. */
  lemma {:induction false} JoinChars(parts: seq<string>, sep: string, ch: char)
    requires ch in Join(parts, sep)
    ensures ch in sep || exists k :: 0 <= k < |parts| && ch in parts[k]
  {
    if |parts| > 1 {
      var tail := Join(parts[1..], sep);
      assert Join(parts, sep) == parts[0] + sep + tail;
      if ch !in parts[0] && ch !in sep {
        JoinChars(parts[1..], sep, ch);
        var k :| 0 <= k < |parts[1..]| && ch in parts[1..][k];
        assert ch in parts[k + 1];
      }
    }
  }

  /** `s.replace(target, repl)`: every non-overlapping occurrence of `target`,
      scanning left to right, replaced by `repl`. */
  function Replace(s: string, target: string, repl: string): string
    requires |target| > 0
  {
    Join(Split(s, target), repl)
  }

  /** Replacing a separator that does not occur changes nothing. */
  lemma ReplaceAbsent(s: string, target: string, repl: string)
    requires |target| > 0
    requires forall j: nat :: !OccursAt(s, target, j)
    ensures Replace(s, target, repl) == s
  {
    assert IndexFrom(s, target, 0).None?;
  }

  /** Replacing the single occurrence of `target` substitutes `repl` for it. */
  lemma ReplaceAround(h: string, target: string, t: string, repl: string)
    requires |target| > 0
    requires forall j: nat :: j < |h| ==> !OccursAt(h + target + t, target, j)
    requires forall j: nat :: !OccursAt(t, target, j)
    ensures Replace(h + target + t, target, repl) == h + repl + t
  {
    SplitAround(h, target, t);
    assert Join([h, t], repl) == h + repl + Join([t], repl);
  }

  /** Replacing a one-character string by text without that character
      leaves none of it behind. */
  /** No piece of a split at a single character holds that character. */
  lemma SplitCharFree(s: string, ch: char)
    ensures forall k :: 0 <= k < |Split(s, [ch])| ==> ch !in Split(s, [ch])[k]
  {
    var parts := Split(s, [ch]);
    SplitPiecesFree(s, [ch]);
    forall k | 0 <= k < |parts| ensures ch !in parts[k] {
      if ch in parts[k] {
        var j :| 0 <= j < |parts[k]| && parts[k][j] == ch;
        assert OccursAt(parts[k], [ch], j);
      }
    }
  }

  lemma ReplaceRemovesChar(s: string, ch: char, repl: string)
    requires ch !in repl
    ensures ch !in Replace(s, [ch], repl)
  {
    var parts := Split(s, [ch]);
    SplitPiecesFree(s, [ch]);
    if ch in Replace(s, [ch], repl) {
      JoinChars(parts, repl, ch);
      var k :| 0 <= k < |parts| && ch in parts[k];
      var j :| 0 <= j < |parts[k]| && parts[k][j] == ch;
      assert OccursAt(parts[k], [ch], j);
    }
  }
}
