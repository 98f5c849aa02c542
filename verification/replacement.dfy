/**
 Exact text replacement: which matches are replaced, how long the result is, and which edits are refused.

 Text is a sequence of bytes, written as characters.
 */
module Replacement {
  import opened Wrappers

  const MAX_TEXT_FILE_BYTES: nat := 4 * 1024 * 1024

  datatype ReplaceError = EmptyPattern | SameText | NotFound | Ambiguous | LengthOverflow | TooLong

  // ---------------------------------------------------------------- matching, left to right

  predicate StartsWith(text: string, pattern: string) {
    |pattern| <= |text| && text[..|pattern|] == pattern
  }

  /** The number of non-overlapping matches found from the left. */
  function MatchCount(text: string, pattern: string): (count: nat)
    requires pattern != []
  {
    if text == [] then 0
    else if StartsWith(text, pattern) then 1 + MatchCount(text[|pattern|..], pattern)
    else MatchCount(text[1..], pattern)
  }

  function ReplaceAll(text: string, pattern: string, replacement: string): string
    requires pattern != []
  {
    if text == [] then []
    else if StartsWith(text, pattern) then replacement + ReplaceAll(text[|pattern|..], pattern, replacement)
    else [text[0]] + ReplaceAll(text[1..], pattern, replacement)
  }

  /** At most the first `limit` matches. */
  function ReplaceN(text: string, pattern: string, replacement: string, limit: nat): string
    requires pattern != []
  {
    if text == [] || limit == 0 then text
    else if StartsWith(text, pattern) then replacement + ReplaceN(text[|pattern|..], pattern, replacement, limit - 1)
    else [text[0]] + ReplaceN(text[1..], pattern, replacement, limit)
  }

  // ---------------------------------------------------------------- the edit

  function CheckedMul(a: nat, b: nat, max: nat): Option<nat> {
    if a * b <= max then Some(a * b) else None
  }

  function CheckedSub(a: nat, b: nat): Option<nat> {
    if b <= a then Some(a - b) else None
  }

  function CheckedAdd(a: nat, b: nat, max: nat): Option<nat> {
    if a + b <= max then Some(a + b) else None
  }

  /** `max` is the largest machine word. */
  function ProjectedLength(inputLen: nat, matches: nat, patternLen: nat, replacementLen: nat, max: nat): Result<nat, ReplaceError> {
    var removed := CheckedMul(matches, patternLen, max);
    if removed.None? then Err(LengthOverflow)
    else
      var remaining := CheckedSub(inputLen, removed.value);
      if remaining.None? then Err(LengthOverflow)
      else
        var added := CheckedMul(matches, replacementLen, max);
        if added.None? then Err(LengthOverflow)
        else
          var total := CheckedAdd(remaining.value, added.value, max);
          if total.None? then Err(LengthOverflow) else Ok(total.value)
  }

  function ValidateFragments(pattern: string, replacement: string): Option<ReplaceError> {
    if pattern == [] then Some(EmptyPattern) else if pattern == replacement then Some(SameText) else None
  }

  function ValidateMatchCount(count: nat, replaceAll: bool): Option<ReplaceError> {
    if count == 0 then Some(NotFound) else if count > 1 && !replaceAll then Some(Ambiguous) else None
  }

  datatype Edit = Edit(text: string, count: nat)

  /** The new file content and the number of replacements, for the content that was read. */
  function Replace(content: string, pattern: string, replacement: string, replaceAll: bool, max: nat): Result<Edit, ReplaceError> {
    if ValidateFragments(pattern, replacement).Some? then Err(ValidateFragments(pattern, replacement).value)
    else
      var count := MatchCount(content, pattern);
      if ValidateMatchCount(count, replaceAll).Some? then Err(ValidateMatchCount(count, replaceAll).value)
      else
        var projected := ProjectedLength(|content|, count, |pattern|, |replacement|, max);
        if projected.Err? then Err(projected.error)
        else if projected.value > MAX_TEXT_FILE_BYTES then Err(TooLong)
        else Ok(Edit(if replaceAll then ReplaceAll(content, pattern, replacement) else ReplaceN(content, pattern, replacement, 1), count))
  }

  // ---------------------------------------------------------------- what leftmost matches are

  function Join(pieces: seq<string>, separator: string): string {
    if pieces == [] then []
    else if |pieces| == 1 then pieces[0]
    else pieces[0] + separator + Join(pieces[1..], separator)
  }

  predicate OccursAt(text: string, pattern: string, at: nat) {
    at + |pattern| <= |text| && text[at..at + |pattern|] == pattern
  }

  /** `pattern` ends `piece + pattern` and occurs nowhere before in it. */
  ghost predicate RunsUpTo(piece: string, pattern: string) {
    forall at: nat | at < |piece| :: !OccursAt(piece + pattern, pattern, at)
  }

  ghost predicate Lacks(piece: string, pattern: string) {
    forall at: nat :: !OccursAt(piece, pattern, at)
  }

  /** The text is cut at the leftmost occurrence, then at the leftmost one behind it, and so on. */
  ghost predicate LeftmostSplit(text: string, pattern: string, pieces: seq<string>) {
    && pieces != [] && text == Join(pieces, pattern)
    && (forall i | 0 <= i < |pieces| - 1 :: RunsUpTo(pieces[i], pattern))
    && Lacks(pieces[|pieces| - 1], pattern)
  }

  function Split(text: string, pattern: string): (pieces: seq<string>)
    requires pattern != []
    ensures pieces != []
  {
    if text == [] then [[]]
    else if StartsWith(text, pattern) then [[]] + Split(text[|pattern|..], pattern)
    else
      var rest := Split(text[1..], pattern);
      [[text[0]] + rest[0]] + rest[1..]
  }

  lemma JoinPrepend(c: char, pieces: seq<string>, separator: string)
    requires pieces != []
    ensures Join([[c] + pieces[0]] + pieces[1..], separator) == [c] + Join(pieces, separator)
  {
    var longer := [[c] + pieces[0]] + pieces[1..];
    assert longer[1..] == pieces[1..];
    if |pieces| > 1 {
      var tail := Join(pieces[1..], separator);
      assert [c] + pieces[0] + separator + tail == [c] + (pieces[0] + separator + tail);
    }
  }

  lemma JoinEmptyFirst(pieces: seq<string>, separator: string)
    requires pieces != []
    ensures Join([[]] + pieces, separator) == separator + Join(pieces, separator)
  {
    assert ([[]] + pieces)[1..] == pieces;
  }

  lemma {:induction false} JoinOfSplit(text: string, pattern: string, separator: string)
    requires pattern != []
    ensures Join(Split(text, pattern), separator) == ReplaceAll(text, pattern, separator)
    ensures |Split(text, pattern)| == MatchCount(text, pattern) + 1
    decreases text
  {
    hide Join;
    if text == [] {
      assert Join([[]], separator) == [] by { JoinOne(separator); }
    } else if StartsWith(text, pattern) {
      JoinOfSplit(text[|pattern|..], pattern, separator);
      JoinEmptyFirst(Split(text[|pattern|..], pattern), separator);
    } else {
      JoinOfSplit(text[1..], pattern, separator);
      JoinPrepend(text[0], Split(text[1..], pattern), separator);
    }
  }

  lemma JoinOne(separator: string)
    ensures Join([[]], separator) == []
  {
  }

  lemma {:induction false} ReplacingByItself(text: string, pattern: string)
    requires pattern != []
    ensures ReplaceAll(text, pattern, pattern) == text
    decreases text
  {
    if text != [] {
      if StartsWith(text, pattern) {
        ReplacingByItself(text[|pattern|..], pattern);
        assert text == text[..|pattern|] + text[|pattern|..];
      } else {
        ReplacingByItself(text[1..], pattern);
        assert text == [text[0]] + text[1..];
      }
    }
  }

  lemma {:induction false} SplitAtPiece(piece: string, pattern: string, rest: string)
    requires pattern != [] && RunsUpTo(piece, pattern)
    ensures Split(piece + pattern + rest, pattern) == [piece] + Split(rest, pattern)
    decreases piece
  {
    var text := piece + pattern + rest;
    if piece == [] {
      assert text[..|pattern|] == pattern && text[|pattern|..] == rest;
    } else {
      assert (piece + pattern)[0..|pattern|] == text[..|pattern|];
      assert !OccursAt(piece + pattern, pattern, 0);
      assert text[1..] == piece[1..] + pattern + rest;
      forall at: nat | at < |piece[1..]| ensures !OccursAt(piece[1..] + pattern, pattern, at) {
        assert !OccursAt(piece + pattern, pattern, at + 1);
        assert piece + pattern == [piece[0]] + (piece[1..] + pattern);
      }
      SplitAtPiece(piece[1..], pattern, rest);
      assert [text[0]] + piece[1..] == piece;
    }
  }

  lemma {:induction false} SplitWithoutMatch(text: string, pattern: string)
    requires pattern != [] && Lacks(text, pattern)
    ensures Split(text, pattern) == [text]
    decreases text
  {
    if text != [] {
      assert StartsWith(text, pattern) <==> OccursAt(text, pattern, 0);
      assert !OccursAt(text, pattern, 0);
      forall at: nat ensures !OccursAt(text[1..], pattern, at) {
        assert !OccursAt(text, pattern, at + 1);
        if at + |pattern| <= |text[1..]| {
          assert text[1..][at..at + |pattern|] == text[at + 1..at + 1 + |pattern|];
        }
      }
      SplitWithoutMatch(text[1..], pattern);
      assert [text[0]] + text[1..] == text;
    }
  }

  /** There is only one way to cut a text at its leftmost matches. */
  lemma {:induction false} LeftmostSplitIsUnique(text: string, pattern: string, pieces: seq<string>)
    requires pattern != [] && LeftmostSplit(text, pattern, pieces)
    ensures pieces == Split(text, pattern)
    decreases pieces
  {
    if |pieces| == 1 {
      SplitWithoutMatch(text, pattern);
    } else {
      var rest := Join(pieces[1..], pattern);
      assert RunsUpTo(pieces[0], pattern);
      forall i | 0 <= i < |pieces[1..]| - 1 ensures RunsUpTo(pieces[1..][i], pattern) {
        assert RunsUpTo(pieces[i + 1], pattern);
      }
      LeftmostSplitIsUnique(rest, pattern, pieces[1..]);
      SplitAtPiece(pieces[0], pattern, rest);
      assert pieces == [pieces[0]] + pieces[1..];
    }
  }

  lemma {:induction false} SplitIsLeftmost(text: string, pattern: string)
    requires pattern != []
    ensures LeftmostSplit(text, pattern, Split(text, pattern))
    decreases text
  {
    var pieces := Split(text, pattern);
    JoinOfSplit(text, pattern, pattern);
    ReplacingByItself(text, pattern);
    if text != [] {
      if StartsWith(text, pattern) {
        var rest := Split(text[|pattern|..], pattern);
        SplitIsLeftmost(text[|pattern|..], pattern);
        assert forall i | 0 < i < |pieces| :: pieces[i] == rest[i - 1];
      } else {
        SplitIsLeftmost(text[1..], pattern);
        var rest := Split(text[1..], pattern);
        assert forall i | 0 < i < |pieces| :: pieces[i] == rest[i];
        LongerPiece(text, pattern, rest);
      }
    }
  }

  /** A byte at which `pattern` does not start can be put in front of the first piece. */
  lemma LongerPiece(text: string, pattern: string, rest: seq<string>)
    requires pattern != [] && text != [] && !StartsWith(text, pattern) && LeftmostSplit(text[1..], pattern, rest)
    ensures |rest| > 1 ==> RunsUpTo([text[0]] + rest[0], pattern)
    ensures |rest| == 1 ==> Lacks([text[0]] + rest[0], pattern)
  {
    var piece := [text[0]] + rest[0];
    if |rest| > 1 {
      var tail := Join(rest[1..], pattern);
      assert text == [text[0]] + text[1..] == (piece + pattern) + tail;
      assert RunsUpTo(rest[0], pattern);
      forall at: nat | at < |piece| ensures !OccursAt(piece + pattern, pattern, at) {
        if at == 0 {
          assert (piece + pattern)[0..|pattern|] == text[..|pattern|];
        } else {
          assert !OccursAt(rest[0] + pattern, pattern, at - 1);
          assert (piece + pattern)[at..at + |pattern|] == (rest[0] + pattern)[at - 1..at - 1 + |pattern|];
        }
      }
    } else {
      assert piece == text;
      forall at: nat ensures !OccursAt(piece, pattern, at) {
        if at > 0 && at + |pattern| <= |piece| {
          assert !OccursAt(rest[0], pattern, at - 1);
          assert piece[at..at + |pattern|] == rest[0][at - 1..at - 1 + |pattern|];
        }
      }
    }
  }

  // ---------------------------------------------------------------- results

  /** Replacing all matches cuts the text at its leftmost matches and joins the pieces with the new text. */
  lemma ReplaceAllReplacesLeftmostMatches(text: string, pattern: string, replacement: string, pieces: seq<string>)
    requires pattern != []
    ensures
      LeftmostSplit(text, pattern, pieces) ==>
        ReplaceAll(text, pattern, replacement) == Join(pieces, replacement) && |pieces| == MatchCount(text, pattern) + 1
    ensures exists cut :: LeftmostSplit(text, pattern, cut)
  {
    SplitIsLeftmost(text, pattern);
    JoinOfSplit(text, pattern, replacement);
    if LeftmostSplit(text, pattern, pieces) {
      LeftmostSplitIsUnique(text, pattern, pieces);
    }
  }

  /** The matches fit into the text, and each changes its length by the same amount. */
  lemma {:induction false} ReplacedLength(text: string, pattern: string, replacement: string)
    requires pattern != []
    ensures MatchCount(text, pattern) * |pattern| <= |text|
    ensures |ReplaceAll(text, pattern, replacement)|
            == |text| - MatchCount(text, pattern) * |pattern| + MatchCount(text, pattern) * |replacement|
    decreases text
  {
    if text != [] {
      if StartsWith(text, pattern) {
        var rest := MatchCount(text[|pattern|..], pattern);
        ReplacedLength(text[|pattern|..], pattern, replacement);
        OneMore(rest, |pattern|);
        OneMore(rest, |replacement|);
      } else {
        ReplacedLength(text[1..], pattern, replacement);
      }
    }
  }

  lemma OneMore(n: nat, length: nat)
    ensures (1 + n) * length == length + n * length
  {
  }

  /**
   The projected length is the length of the result, for every content that fits a machine word: it is
   refused exactly when the result does not fit, whichever of the four checked operations reports it.
   The first two never do.
   */
  lemma ProjectedLengthIsExact(text: string, pattern: string, replacement: string, max: nat)
    requires pattern != [] && |text| <= max
    ensures
      var count := MatchCount(text, pattern);
      var length := |ReplaceAll(text, pattern, replacement)|;
      && ProjectedLength(|text|, count, |pattern|, |replacement|, max)
         == (if length <= max then Ok(length) else Err(LengthOverflow))
      && CheckedMul(count, |pattern|, max).Some?
      && CheckedSub(|text|, CheckedMul(count, |pattern|, max).value).Some?
  {
    ReplacedLength(text, pattern, replacement);
  }

  /** Replacing at most as many matches as there are, or more, replaces all of them. */
  lemma {:induction false} EnoughReplacesAll(text: string, pattern: string, replacement: string, limit: nat)
    requires pattern != [] && MatchCount(text, pattern) <= limit
    ensures ReplaceN(text, pattern, replacement, limit) == ReplaceAll(text, pattern, replacement)
    decreases text
  {
    if limit == 0 {
      NoMatchNoChange(text, pattern, replacement);
    } else if text != [] {
      if StartsWith(text, pattern) {
        EnoughReplacesAll(text[|pattern|..], pattern, replacement, limit - 1);
      } else {
        EnoughReplacesAll(text[1..], pattern, replacement, limit);
      }
    }
  }

  lemma {:induction false} NoMatchNoChange(text: string, pattern: string, replacement: string)
    requires pattern != [] && MatchCount(text, pattern) == 0
    ensures ReplaceAll(text, pattern, replacement) == text
    decreases text
  {
    if text != [] {
      NoMatchNoChange(text[1..], pattern, replacement);
      assert text == [text[0]] + text[1..];
    }
  }

  /** An edit is made exactly when it is unambiguous and fits; it is then the replacement of all matches. */
  lemma ReplaceIsExact(content: string, pattern: string, replacement: string, replaceAll: bool, max: nat, edit: Edit)
    requires |content| <= MAX_TEXT_FILE_BYTES <= max
    ensures
      Replace(content, pattern, replacement, replaceAll, max) == Ok(edit)
      <==>
        && pattern != [] && pattern != replacement
        && edit == Edit(ReplaceAll(content, pattern, replacement), MatchCount(content, pattern))
        && edit.count >= 1 && (edit.count == 1 || replaceAll)
        && |edit.text| <= 4194304
  {
    if pattern != [] {
      ProjectedLengthIsExact(content, pattern, replacement, max);
      if MatchCount(content, pattern) == 1 {
        EnoughReplacesAll(content, pattern, replacement, 1);
      }
    }
  }

  /** And when it is refused, the reason is the first that applies. */
  lemma RefusalIsExact(content: string, pattern: string, replacement: string, replaceAll: bool, max: nat)
    requires |content| <= MAX_TEXT_FILE_BYTES <= max
    ensures
      var refused := Replace(content, pattern, replacement, replaceAll, max);
      && (refused == Err(EmptyPattern) <==> pattern == [])
      && (refused == Err(SameText) <==> pattern != [] && pattern == replacement)
      && (pattern != [] ==>
            && (refused == Err(NotFound) <==> pattern != replacement && LeftmostSplit(content, pattern, [content]))
            && (refused == Err(Ambiguous) <==>
                  pattern != replacement && MatchCount(content, pattern) > 1 && !replaceAll)
            && (refused == Err(LengthOverflow) <==>
                  && pattern != replacement && (MatchCount(content, pattern) == 1 || (MatchCount(content, pattern) > 1 && replaceAll))
                  && |ReplaceAll(content, pattern, replacement)| > max)
            && (refused == Err(TooLong) <==>
                  && pattern != replacement && (MatchCount(content, pattern) == 1 || (MatchCount(content, pattern) > 1 && replaceAll))
                  && 4194304 < |ReplaceAll(content, pattern, replacement)| <= max))
  {
    if pattern != [] {
      ProjectedLengthIsExact(content, pattern, replacement, max);
      JoinOfSplit(content, pattern, replacement);
      if MatchCount(content, pattern) == 0 {
        SplitIsLeftmost(content, pattern);
        NoMatchNoChange(content, pattern, pattern);
        assert Split(content, pattern) == [content];
      }
      if LeftmostSplit(content, pattern, [content]) {
        LeftmostSplitIsUnique(content, pattern, [content]);
      }
    }
  }
}
