/**
 * The few pieces of Rust's `str` API the core relies on: `trim`,
 * `trim_matches`, `is_empty` after trimming, `contains` on a substring,
 * `split_once` on a character and `lines`. Strings are sequences of Unicode
 * scalar values, as Rust's `char` is.
 */
module Text {
  import opened Results

  /** Rust's `char::is_whitespace`: the Unicode White_Space property. */
  predicate IsWhitespace(c: char) {
    || ('\U{0009}' <= c <= '\U{000D}')
    || c == ' '
    || c == '\U{0085}'
    || c == '\U{00A0}'
    || c == '\U{1680}'
    || ('\U{2000}' <= c <= '\U{200A}')
    || c == '\U{2028}'
    || c == '\U{2029}'
    || c == '\U{202F}'
    || c == '\U{205F}'
    || c == '\U{3000}'
  }

  predicate IsQuote(c: char) {
    c == '"'
  }

  /** `s[i..j]` is what is left of `s` once a prefix and a suffix made only of `p`-characters are cut off. */
  ghost predicate StrippedBy(s: string, p: char -> bool, i: int, j: int) {
    && 0 <= i <= j <= |s|
    && (forall k :: 0 <= k < i ==> p(s[k]))
    && (forall k :: j <= k < |s| ==> p(s[k]))
  }

  /** Rust's `trim_start_matches` with a character predicate. */
  function TrimStartBy(s: string, p: char -> bool): (r: string)
    ensures |r| <= |s| && r == s[|s| - |r|..]
    ensures StrippedBy(s, p, |s| - |r|, |s|)
    ensures |r| > 0 ==> !p(r[0])
    decreases |s|
  {
    if |s| > 0 && p(s[0]) then TrimStartBy(s[1..], p) else s
  }

  /** Rust's `trim_end_matches` with a character predicate. */
  function TrimEndBy(s: string, p: char -> bool): (r: string)
    ensures |r| <= |s| && r == s[..|r|]
    ensures StrippedBy(s, p, 0, |r|)
    ensures |r| > 0 ==> !p(r[|r| - 1])
    decreases |s|
  {
    if |s| > 0 && p(s[|s| - 1]) then TrimEndBy(s[..|s| - 1], p) else s
  }

  /** Both ends at once: Rust's `trim_matches`. */
  function TrimBy(s: string, p: char -> bool): (r: string)
    ensures exists i, j :: StrippedBy(s, p, i, j) && r == s[i..j]
    ensures |r| > 0 ==> !p(r[0]) && !p(r[|r| - 1])
  {
    var front := TrimStartBy(s, p);
    var r := TrimEndBy(front, p);
    StripBoth(s, p, front, r);
    r
  }

  /** Stripping the front and then the back of what is left strips `s` at both ends. */
  lemma StripBoth(s: string, p: char -> bool, front: string, r: string)
    requires |front| <= |s| && front == s[|s| - |front|..] && StrippedBy(s, p, |s| - |front|, |s|)
    requires |r| <= |front| && r == front[..|r|] && StrippedBy(front, p, 0, |r|)
    ensures StrippedBy(s, p, |s| - |front|, |s| - |front| + |r|) && r == s[|s| - |front|..|s| - |front| + |r|]
  {
    var i := |s| - |front|;
    forall k | i + |r| <= k < |s|
      ensures p(s[k])
    {
      assert s[k] == front[k - i];
    }
  }

  /** Rust's `str::trim`. */
  function Trim(s: string): (r: string)
    ensures exists i, j :: StrippedBy(s, IsWhitespace, i, j) && r == s[i..j]
    ensures |r| > 0 ==> !IsWhitespace(r[0]) && !IsWhitespace(r[|r| - 1])
  {
    TrimBy(s, IsWhitespace)
  }

  /**
   * Rust's `s.trim().is_empty()`, stated character by character;
   * `BlankIffTrimEmpty` ties it to `Trim`.
   */
  predicate IsBlank(s: string)
    decreases |s|
  {
    |s| == 0 || (IsWhitespace(s[0]) && IsBlank(s[1..]))
  }

  /** A string is blank exactly when every character of it is whitespace. */
  lemma {:induction false} BlankIffAllWhitespace(s: string)
    ensures IsBlank(s) <==> forall k :: 0 <= k < |s| ==> IsWhitespace(s[k])
    decreases |s|
  {
    if |s| > 0 {
      BlankIffAllWhitespace(s[1..]);
      assert forall k :: 0 < k < |s| ==> s[k] == s[1..][k - 1];
    }
  }

  /** Blank means trimming leaves nothing. */
  lemma BlankIffTrimEmpty(s: string)
    ensures IsBlank(s) <==> |Trim(s)| == 0
  {
    BlankIffAllWhitespace(s);
    var t := Trim(s);
    var i, j :| StrippedBy(s, IsWhitespace, i, j) && t == s[i..j];
    if |t| > 0 {
      assert !IsWhitespace(s[i]);
    }
  }

  /** Rust's `str::contains` with a string pattern. */
  predicate Contains(s: string, pattern: string) {
    exists i :: 0 <= i <= |s| && OccursAt(s, pattern, i)
  }

  predicate OccursAt(s: string, pattern: string, i: nat) {
    i + |pattern| <= |s| && s[i..i + |pattern|] == pattern
  }

  /** Position of the first occurrence of `c` in `s`, if any. */
  function IndexOf(s: string, c: char): (r: Option<nat>)
    ensures r.None? <==> c !in s
    ensures r.Some? ==> r.value < |s| && s[r.value] == c && c !in s[..r.value]
    decreases |s|
  {
    if |s| == 0 then None
    else if s[0] == c then Some(0)
    else match IndexOf(s[1..], c)
      case None => None
      case Some(i) => Some(i + 1)
  }

  /** Rust's `split_once` on a character: the text before and after its first occurrence. */
  function SplitOnce(s: string, c: char): (r: Option<(string, string)>)
    ensures r.None? <==> c !in s
    ensures r.Some? ==> s == r.value.0 + [c] + r.value.1 && c !in r.value.0
  {
    match IndexOf(s, c)
    case None => None
    case Some(i) =>
      assert s == s[..i] + [c] + s[i + 1..];
      Some((s[..i], s[i + 1..]))
  }

  /** The pieces of `s` between its newline characters; always at least one. */
  function SplitNewlines(s: string): (r: seq<string>)
    ensures |r| >= 1
    ensures forall k :: 0 <= k < |r| ==> '\n' !in r[k]
    decreases |s|
  {
    match SplitOnce(s, '\n')
    case None => [s]
    case Some((head, tail)) => [head] + SplitNewlines(tail)
  }

  /** The inverse of `SplitNewlines`: the pieces glued back with newlines. */
  function JoinNewlines(pieces: seq<string>): string
    requires |pieces| >= 1
  {
    if |pieces| == 1 then pieces[0] else pieces[0] + ['\n'] + JoinNewlines(pieces[1..])
  }

  lemma {:induction false} JoinSplitNewlines(s: string)
    ensures JoinNewlines(SplitNewlines(s)) == s
    decreases |s|
  {
    match SplitOnce(s, '\n')
    case None =>
    case Some((head, tail)) =>
      JoinSplitNewlines(tail);
      assert SplitNewlines(s)[1..] == SplitNewlines(tail);
  }

  lemma {:induction false} SplitJoinNewlines(pieces: seq<string>)
    requires |pieces| >= 1
    requires forall k :: 0 <= k < |pieces| ==> '\n' !in pieces[k]
    ensures SplitNewlines(JoinNewlines(pieces)) == pieces
    decreases |pieces|
  {
    if |pieces| > 1 {
      var rest := JoinNewlines(pieces[1..]);
      SplitOnceAt(pieces[0], '\n', rest);
      SplitJoinNewlines(pieces[1..]);
      assert pieces == [pieces[0]] + pieces[1..];
    }
  }

  /** Splitting `a + [c] + b` at `c` gives back `a` and `b` when `c` does not occur in `a`. */
  lemma SplitOnceAt(a: string, c: char, b: string)
    requires c !in a
    ensures SplitOnce(a + [c] + b, c) == Some((a, b))
  {
    var s := a + [c] + b;
    IndexOfFirst(s, c, |a|);
    assert s[..|a|] == a && s[|a| + 1..] == b;
  }

  /** The first occurrence is where `c` sits with no earlier copy. */
  lemma IndexOfFirst(s: string, c: char, k: nat)
    requires k < |s| && s[k] == c && c !in s[..k]
    ensures IndexOf(s, c) == Some(k)
  {
  }

  /** A line as `lines()` yields it: one trailing carriage return dropped. */
  function DropCarriageReturn(piece: string): string {
    if |piece| > 0 && piece[|piece| - 1] == '\r' then piece[..|piece| - 1] else piece
  }

  /** `DropCarriageReturn` applied to every piece. */
  function DropCarriageReturns(pieces: seq<string>): (r: seq<string>)
    ensures |r| == |pieces|
    ensures forall k :: 0 <= k < |r| ==> r[k] == DropCarriageReturn(pieces[k])
    decreases |pieces|
  {
    if |pieces| == 0 then []
    else
      var rest := DropCarriageReturns(pieces[1..]);
      assert forall k :: 0 < k < |pieces| ==> rest[k - 1] == DropCarriageReturn(pieces[k]);
      [DropCarriageReturn(pieces[0])] + rest
  }

  /**
   * Rust's `str::lines`: split at '\n', drop one '\r' before each '\n', and
   * yield no final empty line when the text is empty or ends with '\n'.
   */
  function Lines(s: string): (r: seq<string>)
    ensures var pieces := SplitNewlines(s);
      |r| == if |pieces[|pieces| - 1]| == 0 then |pieces| - 1 else |pieces|
    ensures forall k :: 0 <= k < |r| ==> '\n' !in r[k]
    ensures forall k :: 0 <= k < |r| ==>
      r[k] == SplitNewlines(s)[k] || (k < |SplitNewlines(s)| - 1 && r[k] + "\r" == SplitNewlines(s)[k])
    // every line but the last loses exactly the one '\r' its piece ends in, if any
    ensures forall k :: 0 <= k < |SplitNewlines(s)| - 1 ==> r[k] == DropCarriageReturn(SplitNewlines(s)[k])
    ensures |r| == |SplitNewlines(s)| ==> r[|r| - 1] == SplitNewlines(s)[|r| - 1]
  {
    var pieces := SplitNewlines(s);
    LinesOfPiecesShape(pieces);
    LinesOfPieces(pieces)
  }

  /** Each line is its piece, or its piece with the one trailing '\r' removed; no line gains a newline. */
  lemma LinesOfPiecesShape(pieces: seq<string>)
    requires |pieces| >= 1
    requires forall k :: 0 <= k < |pieces| ==> '\n' !in pieces[k]
    ensures var r := LinesOfPieces(pieces);
      forall k :: 0 <= k < |r| ==> '\n' !in r[k] && (r[k] == pieces[k] || (k < |pieces| - 1 && r[k] + "\r" == pieces[k]))
  {
    var r := LinesOfPieces(pieces);
    forall k | 0 <= k < |r|
      ensures '\n' !in r[k] && (r[k] == pieces[k] || (k < |pieces| - 1 && r[k] + "\r" == pieces[k]))
    {
      var piece := pieces[k];
      if k < |pieces| - 1 && |piece| > 0 && piece[|piece| - 1] == '\r' {
        assert r[k] == piece[..|piece| - 1];
        assert r[k] + "\r" == piece;
        assert forall c :: c in r[k] ==> c in piece;
      }
    }
  }

  /** The lines made of the pieces between newlines. */
  function LinesOfPieces(pieces: seq<string>): (r: seq<string>)
    requires |pieces| >= 1
    ensures |r| == if |pieces[|pieces| - 1]| == 0 then |pieces| - 1 else |pieces|
    ensures forall k :: 0 <= k < |pieces| - 1 ==> r[k] == DropCarriageReturn(pieces[k])
    ensures |pieces[|pieces| - 1]| > 0 ==> r[|pieces| - 1] == pieces[|pieces| - 1]
  {
    var last := pieces[|pieces| - 1];
    var body := DropCarriageReturns(pieces[..|pieces| - 1]);
    if |last| == 0 then body else body + [last]
  }

  /** Lines joined with '\n' come back from `Lines` unchanged when none ends in '\r' and the last is not empty. */
  lemma LinesOfJoin(pieces: seq<string>)
    requires |pieces| >= 1 && |pieces[|pieces| - 1]| > 0
    requires forall k :: 0 <= k < |pieces| ==> '\n' !in pieces[k]
    requires forall k :: 0 <= k < |pieces| ==> |pieces[k]| == 0 || pieces[k][|pieces[k]| - 1] != '\r'
    ensures Lines(JoinNewlines(pieces)) == pieces
  {
    SplitJoinNewlines(pieces);
    LinesOfCleanPieces(pieces);
  }

  /** No piece ends in '\r' and the last is not empty: the lines are the pieces. */
  lemma LinesOfCleanPieces(pieces: seq<string>)
    requires |pieces| >= 1 && |pieces[|pieces| - 1]| > 0
    requires forall k :: 0 <= k < |pieces| ==> |pieces[k]| == 0 || pieces[k][|pieces[k]| - 1] != '\r'
    ensures LinesOfPieces(pieces) == pieces
  {
    var n := |pieces| - 1;
    NothingToDrop(pieces[..n]);
    assert pieces == pieces[..n] + [pieces[n]];
  }

  /** Pieces that do not end in '\r' pass through `DropCarriageReturns` unchanged. */
  lemma {:induction false} NothingToDrop(pieces: seq<string>)
    requires forall k :: 0 <= k < |pieces| ==> |pieces[k]| == 0 || pieces[k][|pieces[k]| - 1] != '\r'
    ensures DropCarriageReturns(pieces) == pieces
    decreases |pieces|
  {
    if |pieces| > 0 {
      assert forall k :: 0 <= k < |pieces| - 1 ==> pieces[1..][k] == pieces[k + 1];
      NothingToDrop(pieces[1..]);
      assert pieces == [pieces[0]] + pieces[1..];
    }
  }
}
