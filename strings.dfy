/** Python's string searching and splitting on `str` values. */
module Strings {
  import opened Wrappers

  /** `pat` occurs in `s` at index `i`. */
  predicate OccursAt(s: string, pat: string, i: nat) {
    i + |pat| <= |s| && s[i..i + |pat|] == pat
  }

  /** The first occurrence of `pat` in `s` at or after index `i`. */
  function FindFrom(s: string, pat: string, i: nat): (r: Option<nat>)
    ensures r.Some? ==> i <= r.value && r.value + |pat| <= |s|
    decreases |s| - i
  {
    if |s| < i + |pat| then None
    else if OccursAt(s, pat, i) then Some(i)
    else FindFrom(s, pat, i + 1)
  }

  /** `FindFrom` finds an occurrence, and the first one from `i` on. */
  lemma {:induction false} FindFromSpec(s: string, pat: string, i: nat)
    ensures var r := FindFrom(s, pat, i);
            && (r.Some? ==> OccursAt(s, pat, r.value))
            && (r.Some? ==> forall j: nat :: i <= j < r.value ==> !OccursAt(s, pat, j))
            && (r.None? ==> forall j: nat :: i <= j ==> !OccursAt(s, pat, j))
    decreases |s| - i
  {
    if |s| < i + |pat| {
    } else if !OccursAt(s, pat, i) {
      FindFromSpec(s, pat, i + 1);
    }
  }

  /** Python's `s.find(pat)`, with `None` for -1. */
  function Find(s: string, pat: string): (r: Option<nat>)
    ensures r.Some? ==> r.value + |pat| <= |s|
  {
    FindFrom(s, pat, 0)
  }

  /** `Find` gives the leftmost occurrence, and `None` only when there is none. */
  lemma FindSpec(s: string, pat: string)
    ensures Find(s, pat).Some? ==> OccursAt(s, pat, Find(s, pat).value)
    ensures Find(s, pat).Some? ==> forall j: nat :: j < Find(s, pat).value ==> !OccursAt(s, pat, j)
    ensures Find(s, pat).None? ==> forall j: nat :: !OccursAt(s, pat, j)
  {
    FindFromSpec(s, pat, 0);
  }

  /** Python's `pat in s`. */
  predicate Contains(s: string, pat: string) {
    Find(s, pat).Some?
  }

  /** The text before the first occurrence of `pat` does not contain it. */
  lemma FindPrefix(s: string, pat: string)
    requires |pat| > 0 && Find(s, pat).Some?
    ensures !Contains(s[..Find(s, pat).value], pat)
  {
    var i := Find(s, pat).value;
    var piece := s[..i];
    FindSpec(s, pat);
    assert !Contains(piece, pat) by {
      FindSpec(piece, pat);
      if Find(piece, pat).Some? {
        var j := Find(piece, pat).value;
        assert piece[j..j + |pat|] == s[j..j + |pat|];
        assert OccursAt(s, pat, j);
      }
    }
  }

  /** Python's `s.split(sep)` (and `re.split` on a literal pattern):
      cut at every leftmost, non-overlapping occurrence of `sep`. */
  function Split(s: string, sep: string): (r: seq<string>)
    requires |sep| > 0
    ensures |r| >= 1
    decreases |s|
  {
    match Find(s, sep)
    case None => [s]
    case Some(i) => [s[..i]] + Split(s[i + |sep|..], sep)
  }

  /** No piece of a split contains the separator. */
  lemma {:induction false} SplitPieces(s: string, sep: string)
    requires |sep| > 0
    ensures forall k :: 0 <= k < |Split(s, sep)| ==> !Contains(Split(s, sep)[k], sep)
    decreases |s|
  {
    FindSpec(s, sep);
    match Find(s, sep)
    case None =>
    case Some(i) =>
      FindPrefix(s, sep);
      SplitPieces(s[i + |sep|..], sep);
  }

  /** Python's `sep.join(parts)`. */
  function Join(parts: seq<string>, sep: string): string {
    if |parts| == 0 then ""
    else if |parts| == 1 then parts[0]
    else parts[0] + sep + Join(parts[1..], sep)
  }

  /** Python's `s.split(sep)[-1]`. */
  function LastPiece(s: string, sep: string): string
    requires |sep| > 0
  {
    var parts := Split(s, sep);
    parts[|parts| - 1]
  }

  /** Joining the pieces back with the separator gives the original text:
      splitting loses nothing but the separators. */
  lemma {:induction false} JoinSplit(s: string, sep: string)
    requires |sep| > 0
    ensures Join(Split(s, sep), sep) == s
    decreases |s|
  {
    FindSpec(s, sep);
    match Find(s, sep)
    case None =>
    case Some(i) =>
      var rest := s[i + |sep|..];
      var parts := Split(s, sep);
      JoinSplit(rest, sep);
      assert parts == [s[..i]] + Split(rest, sep);
      assert parts[1..] == Split(rest, sep);
      assert Join(parts, sep) == s[..i] + sep + Join(Split(rest, sep), sep);
      assert s == s[..i] + sep + rest;
  }

  /** With a one-character pattern, the first occurrence in `a + [c] + b`
      is the first one in `a`, or the `c` after `a`. */
  lemma FindAppendChar(a: string, c: char, b: string)
    ensures Find(a + [c] + b, [c]) == if Find(a, [c]).Some? then Find(a, [c]) else Some(|a|)
  {
    var s := a + [c] + b;
    FindSpec(a, [c]);
    FindSpec(s, [c]);
    var want: nat := if Find(a, [c]).Some? then Find(a, [c]).value else |a|;
    assert OccursAt(s, [c], want) by {
      if Find(a, [c]).Some? {
        assert a[want..want + 1] == s[want..want + 1];
      } else {
        assert s[|a|..|a| + 1] == [c];
      }
    }
    forall j: nat | j < want ensures !OccursAt(s, [c], j) {
      assert !OccursAt(a, [c], j);
      assert s[j..j + 1] == a[j..j + 1];
    }
    var r := Find(s, [c]);
    assert r.Some?;
    assert !(r.value < want);
    assert !(want < r.value);
  }

  /** With a one-character separator, an occurrence of it splits the text
      into the pieces of either side. */
  lemma {:induction false} SplitAppend(a: string, c: char, b: string)
    ensures Split(a + [c] + b, [c]) == Split(a, [c]) + Split(b, [c])
    decreases |a|
  {
    var s := a + [c] + b;
    FindAppendChar(a, c, b);
    match Find(a, [c])
    case None =>
      assert s[..|a|] == a && s[|a| + 1..] == b;
      assert Split(s, [c]) == [a] + Split(b, [c]);
    case Some(i) =>
      var a' := a[i + 1..];
      SplitAppend(a', c, b);
      assert s[..i] == a[..i];
      assert s[i + 1..] == a' + [c] + b;
      assert Split(s, [c]) == [a[..i]] + Split(a' + [c] + b, [c]);
      assert Split(a, [c]) == [a[..i]] + Split(a', [c]);
  }

  /** A text without the separator is one piece. */
  lemma SplitNone(s: string, sep: string)
    requires |sep| > 0 && !Contains(s, sep)
    ensures Split(s, sep) == [s]
  {
  }

  /** The last piece after a one-character separator is whatever follows its
      last occurrence. */
  lemma LastPieceAfter(a: string, c: char, b: string)
    requires !Contains(b, [c])
    ensures LastPiece(a + [c] + b, [c]) == b
  {
    SplitAppend(a, c, b);
    SplitNone(b, [c]);
  }

  /** A character `x` occurs in `s` iff `[x]` is contained in `s`. */
  lemma ContainsChar(s: string, x: char)
    ensures Contains(s, [x]) <==> x in s
  {
    if x in s {
      var j :| 0 <= j < |s| && s[j] == x;
      assert OccursAt(s, [x], j);
    }
    FindSpec(s, [x]);
    if Contains(s, [x]) {
      var j := Find(s, [x]).value;
      assert s[j..j + 1] == [x];
      assert s[j] == s[j..j + 1][0];
    }
  }
}
