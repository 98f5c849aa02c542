/**
 What a secret looks like, letter by letter, and what the passes together do to a message: it comes out with
 some spans replaced, and every secret lies in one of them.
 */
module Masking {
  import opened Redaction
  import opened Wrappers

  // ---------------------------------------------------------------- secrets, letter by letter

  /** The letters of a keyword, each in both cases. */
  function Letters(pass: Pass): seq<string> {
    match pass
    case BearerTokens => ["bB", "eE", "aA", "rR", "eE", "rR"]
    case Authorization => ["aA", "uU", "tT", "hH", "oO", "rR", "iI", "zZ", "aA", "tT", "iI", "oO", "nN"]
    case ApiKey => ["xX", "-", "aA", "pP", "iI", "-", "kK", "eE", "yY"]
  }

  const ALPHANUMERIC: string := "abcdefghijklmnopqrstuvwxyz" + "ABCDEFGHIJKLMNOPQRSTUVWXYZ" + "0123456789"

  /** The word at `at` is a spelling of the keyword, and does not continue a longer one. */
  ghost predicate SpelledAt(m: Text, at: nat, pass: Pass) {
    && at + |Letters(pass)| <= |m|
    && (forall k: nat | k < |Letters(pass)| :: m[at + k] in Letters(pass)[k])
    && (at > 0 ==> m[at - 1] !in ALPHANUMERIC && m[at - 1] !in "-_")
  }

  /** Whitespace, then a whole run of at least sixteen token characters. */
  ghost predicate TokenBehind(m: Text, after: nat, start: nat, end: nat) {
    && after < start && start + 16 <= end <= |m|
    && (forall i | after <= i < start :: m[i] in " \t\n\r\U{000C}")
    && (forall i | start <= i < end :: m[i] in ALPHANUMERIC || m[i] in "._-")
    && (end < |m| ==> m[end] !in ALPHANUMERIC && m[end] !in "._-")
  }

  /** One colon among blanks, then everything up to the end of the line. */
  ghost predicate ValueBehind(m: Text, after: nat, colon: nat, start: nat, end: nat) {
    && after <= colon < start < end <= |m|
    && (forall i | after <= i < start :: if i == colon then m[i] == ':' else m[i] in " \t")
    && m[start] !in " \t"
    && (forall i | start <= i < end :: m[i] !in "\r\n")
    && (end < |m| ==> m[end] in "\r\n")
  }

  ghost predicate HeaderBehind(m: Text, after: nat, start: nat, end: nat) {
    exists colon: nat :: ValueBehind(m, after, colon, start, end)
  }

  /** The keyword at `at` announces the secret from `start` to `end`. */
  ghost predicate Announces(m: Text, at: nat, start: nat, end: nat, pass: Pass) {
    && SpelledAt(m, at, pass)
    && if pass.BearerTokens? then TokenBehind(m, at + |Letters(pass)|, start, end)
       else HeaderBehind(m, at + |Letters(pass)|, start, end)
  }

  lemma SpelledIsKeyword(m: Text, at: nat, pass: Pass)
    ensures |Letters(pass)| == |Keyword(pass)|
    ensures SpelledAt(m, at, pass) <==> KeywordAt(m, at, Keyword(pass))
  {
    hide Letters, Keyword, Lower, IsWord;
    LettersAreKeyword(pass);
    if at + |Keyword(pass)| <= |m| {
      forall k: nat | k < |Keyword(pass)|
        ensures m[at + k] in Letters(pass)[k] <==> Lower(m[at + k]) == Lower(Keyword(pass)[k])
      {
        BothCases(pass, k, m[at + k]);
      }
      if at > 0 {
        ClassesAreLiteral(m[at - 1]);
      }
    }
  }

  lemma LettersAreKeyword(pass: Pass)
    ensures |Letters(pass)| == |Keyword(pass)|
  {
  }

  lemma BothCases(pass: Pass, k: nat, c: char)
    requires k < |Letters(pass)| == |Keyword(pass)|
    ensures c in Letters(pass)[k] <==> Lower(c) == Lower(Keyword(pass)[k])
  {
  }

  lemma ClassesAreLiteral(c: char)
    ensures IsWord(c) <==> c in ALPHANUMERIC || c in "-_"
    ensures IsToken(c) <==> c in ALPHANUMERIC || c in "._-"
    ensures IsWhitespace(c) <==> c in " \t\n\r\U{000C}"
    ensures IsBlank(c) <==> c in " \t"
    ensures EndsLine(c) <==> c in "\r\n"
  {
  }

  lemma TokenIsLiteral(m: Text, after: nat, start: nat, end: nat)
    requires after <= |m|
    ensures BearerToken(m, after) == Some(Span(start, end)) <==> TokenBehind(m, after, start, end)
  {
    hide IsWhitespace, IsToken;
    forall i | 0 <= i < |m|
      ensures IsToken(m[i]) <==> m[i] in ALPHANUMERIC || m[i] in "._-"
      ensures IsWhitespace(m[i]) <==> m[i] in " \t\n\r\U{000C}"
    {
      ClassesAreLiteral(m[i]);
    }
    hide ALPHANUMERIC;
    if BearerToken(m, after) == Some(Span(start, end)) {
      BearerShape(m, after);
    }
    if TokenBehind(m, after, start, end) {
      NoTokenIsWhitespace(m[start]);
      RunEndIs(m, after, Whitespace, start);
      RunEndIs(m, start, Token, end);
    }
  }

  lemma NoTokenIsWhitespace(c: char)
    ensures !(IsToken(c) && IsWhitespace(c)) && !IsBlank(':') && !(IsBlank(c) && EndsLine(c))
  {
  }

  lemma HeaderIsLiteral(m: Text, after: nat, start: nat, end: nat)
    requires after <= |m|
    ensures HeaderValue(m, after) == Some(Span(start, end)) <==> HeaderBehind(m, after, start, end)
  {
    hide IsBlank, EndsLine, RunEnd;
    forall i | 0 <= i < |m|
      ensures IsBlank(m[i]) <==> m[i] in " \t"
      ensures EndsLine(m[i]) <==> m[i] in "\r\n"
    {
      ClassesAreLiteral(m[i]);
    }
    if HeaderValue(m, after) == Some(Span(start, end)) {
      var colon := RunEnd(m, after, Blank);
      RunIs(m, after, Blank);
      RunIs(m, colon + 1, Blank);
      RunIs(m, start, InLine);
      assert ValueBehind(m, after, colon, start, end);
    }
    if HeaderBehind(m, after, start, end) {
      var colon: nat :| ValueBehind(m, after, colon, start, end);
      NoTokenIsWhitespace(m[colon]);
      RunEndIs(m, after, Blank, colon);
      RunEndIs(m, colon + 1, Blank, start);
      RunEndIs(m, start, InLine, end);
    }
  }

  lemma RunIs(m: Text, from: nat, kind: Class)
    requires from <= |m|
    ensures from <= RunEnd(m, from, kind) <= |m|
    ensures forall i | from <= i < RunEnd(m, from, kind) :: In(m[i], kind)
    ensures RunEnd(m, from, kind) < |m| ==> !In(m[RunEnd(m, from, kind)], kind)
  {
  }

  /** The passes look for exactly these. */
  lemma SecretsAreLiteral(m: Text, at: nat, start: nat, end: nat, pass: Pass)
    ensures SecretAt(m, at, pass) == Some(Span(start, end)) <==> Announces(m, at, start, end, pass)
  {
    hide SpelledAt, TokenBehind, HeaderBehind, Keyword, KeywordAt, BearerToken, HeaderValue, Letters;
    SpelledIsKeyword(m, at, pass);
    if KeywordAt(m, at, Keyword(pass)) {
      KeywordFits(m, at, Keyword(pass));
      TokenIsLiteral(m, at + |Keyword(pass)|, start, end);
      HeaderIsLiteral(m, at + |Keyword(pass)|, start, end);
    }
  }

  // ---------------------------------------------------------------- texts with spans replaced

  /** The spans lie behind `p`, in order. */
  ghost predicate InOrder(m: Text, p: nat, spans: seq<Span>)
    decreases spans
  {
    && p <= |m|
    && (spans != [] ==> p <= spans[0].start < spans[0].end <= |m| && InOrder(m, spans[0].end, spans[1..]))
  }

  /** `m` from `p` on, with a placeholder in the place of each span. */
  function Masked(m: Text, p: nat, spans: seq<Span>): Text
    requires InOrder(m, p, spans)
    decreases spans
  {
    if spans == [] then m[p..]
    else m[p..spans[0].start] + "[redacted]" + Masked(m, spans[0].end, spans[1..])
  }

  /** Where position `i` of the text is found in the masked text. */
  function Image(p: nat, spans: seq<Span>, i: nat): int
    decreases spans
  {
    if spans == [] || i <= spans[0].start then i - p
    else spans[0].start - p + 10 + Image(spans[0].end, spans[1..], i)
  }

  /** `i` is not inside a span, but may be its start or its end. */
  ghost predicate Outside(i: nat, spans: seq<Span>) {
    forall span <- spans :: !(span.start < i < span.end)
  }

  /** The character at `i` is not in a span. */
  ghost predicate Bare(i: nat, spans: seq<Span>) {
    forall span <- spans :: !(span.start <= i < span.end)
  }

  /** A span of a masked text that begins and ends at no inner position of a placeholder. */
  ghost predicate Edged(t: Text, span: Span) {
    && span.start < span.end <= |t|
    && (span.start > 0 ==> t[span.start - 1] !in "[redacted]")
    && (span.end < |t| ==> t[span.end] !in "redacted]")
  }

  ghost predicate AllEdged(t: Text, spans: seq<Span>) {
    forall span <- spans :: Edged(t, span)
  }

  function Moved(spans: seq<Span>, shift: int): seq<Span>
    requires forall span <- spans :: span.start + shift >= 0 && span.end + shift >= 0
  {
    seq(|spans|, i requires 0 <= i < |spans| => Span(spans[i].start + shift, spans[i].end + shift))
  }

  lemma {:induction false} InOrderBounds(m: Text, p: nat, spans: seq<Span>)
    requires InOrder(m, p, spans)
    ensures forall span <- spans :: p <= span.start < span.end <= |m|
    decreases spans
  {
    if spans != [] {
      InOrderBounds(m, spans[0].end, spans[1..]);
    }
  }

  lemma {:induction false} ApartIsInOrder(m: Text, p: nat, spans: seq<Span>)
    requires Apart(m, p, spans)
    ensures InOrder(m, p, spans) && Masked(m, p, spans) == Spliced(m, p, spans)
    decreases spans
  {
    if spans != [] {
      ApartIsInOrder(m, spans[0].end, spans[1..]);
    }
  }

  lemma SliceMoved(m: Text, p: nat, t: Text, q: nat, from: nat, to: nat)
    requires p <= from <= to <= |m| && q <= |t| && m[p..] == t[q..]
    ensures |m| - p == |t| - q && m[from..to] == t[from + (q - p)..to + (q - p)]
    ensures m[from..] == t[from + (q - p)..]
  {
    assert |m| - p == |m[p..]| == |t[q..]| == |t| - q;
    SliceOfTail(m, p, from - p, to - p);
    SliceOfTail(t, q, from - p, to - p);
  }

  lemma SliceOfTail(m: Text, p: nat, from: nat, to: nat)
    requires p <= |m| && from <= to <= |m| - p
    ensures m[p..][from..to] == m[p + from..p + to]
    ensures m[p..][from..] == m[p + from..]
  {
  }

  lemma MaskedStep(m: Text, p: nat, spans: seq<Span>)
    requires InOrder(m, p, spans)
    ensures p <= |m| && (spans == [] ==> Masked(m, p, spans) == m[p..])
    ensures
      spans != [] ==>
        && p <= spans[0].start < spans[0].end <= |m| && InOrder(m, spans[0].end, spans[1..])
        && Masked(m, p, spans) == m[p..spans[0].start] + "[redacted]" + Masked(m, spans[0].end, spans[1..])
  {
  }

  lemma MaskedFrom(m: Text, p: nat, first: Span, rest: seq<Span>)
    requires p <= first.start < first.end <= |m| && InOrder(m, first.end, rest)
    ensures InOrder(m, p, [first] + rest)
    ensures Masked(m, p, [first] + rest) == m[p..first.start] + "[redacted]" + Masked(m, first.end, rest)
  {
    assert ([first] + rest)[1..] == rest;
  }

  /** A text that from `q` on is another one from `p` on. */
  lemma {:induction false} MovedInOrder(m: Text, p: nat, t: Text, q: nat, spans: seq<Span>)
    requires p <= |m| && q <= |t| && m[p..] == t[q..] && InOrder(m, p, spans)
    ensures forall span <- spans :: span.start + (q - p) >= 0 && span.end + (q - p) >= 0
    ensures InOrder(t, q, Moved(spans, q - p)) && Masked(t, q, Moved(spans, q - p)) == Masked(m, p, spans)
    decreases spans
  {
    hide InOrder, Masked;
    InOrderBounds(m, p, spans);
    MaskedStep(m, p, spans);
    if spans == [] {
      MaskedOfNone(t, q);
      assert Moved(spans, q - p) == [];
    } else {
      var Span(start, end) := spans[0];
      SliceMoved(m, p, t, q, p, start);
      SliceMoved(m, p, t, q, end, |m|);
      MovedInOrder(m, end, t, end + (q - p), spans[1..]);
      var first := Span(start + (q - p), end + (q - p));
      assert Moved(spans, q - p) == [first] + Moved(spans[1..], q - p);
      MaskedFrom(t, q, first, Moved(spans[1..], q - p));
    }
  }

  lemma MaskedOfNone(m: Text, p: nat)
    requires p <= |m|
    ensures InOrder(m, p, []) && Masked(m, p, []) == m[p..]
  {
  }

  /** Some span of the masked text reaches over what is left of `q` in it. */
  ghost predicate Reached(q: Span, p: nat, inner: seq<Span>, outer: seq<Span>) {
    && p <= q.start < q.end && Outside(q.start, inner) && Outside(q.end, inner)
    && exists span <- outer :: span.start <= Image(p, inner, q.start) && Image(p, inner, q.end) <= span.end
  }

  /** Position `i` lies in no span of either kind, and is found where `all` says it is. */
  ghost predicate SameImage(i: nat, p: nat, inner: seq<Span>, outer: seq<Span>, all: seq<Span>) {
    Outside(i, inner) && 0 <= Image(p, inner, i) && Outside(Image(p, inner, i), outer) ==>
      Outside(i, all) && Image(p, all, i) == Image(0, outer, Image(p, inner, i))
  }

  /** `all` has the effect of replacing `outer` in the text that has `inner` replaced, and covers what either does. */
  ghost predicate Merges(m: Text, p: nat, inner: seq<Span>, outer: seq<Span>, all: seq<Span>)
    requires InOrder(m, p, inner) && InOrder(Masked(m, p, inner), 0, outer)
  {
    && InOrder(m, p, all) && Masked(m, p, all) == Masked(Masked(m, p, inner), 0, outer)
    && (forall q: Span | q.start < q.end && (Covered(q, inner) || Reached(q, p, inner, outer)) :: Covered(q, all))
    && forall i: nat | p <= i :: SameImage(i, p, inner, outer, all)
  }

  lemma MergeNothing(m: Text, p: nat, inner: seq<Span>)
    requires InOrder(m, p, inner)
    ensures InOrder(Masked(m, p, inner), 0, []) && Merges(m, p, inner, [], inner)
  {
    var t := Masked(m, p, inner);
    assert t[0..] == t;
  }

  lemma MergeIntoPlain(m: Text, p: nat, outer: seq<Span>)
    requires p <= |m| && InOrder(m[p..], 0, outer)
    ensures InOrder(m, p, []) && Masked(m, p, []) == m[p..]
    ensures (forall span <- outer :: span.start + p >= 0 && span.end + p >= 0) && Merges(m, p, [], outer, Moved(outer, p))
  {
    hide InOrder, Masked, SameImage, Covered, Reached, Moved;
    var t := m[p..];
    assert t[0..] == m[p..];
    MaskedOfNone(m, p);
    MovedInOrder(t, 0, m, p, outer);
    forall i: nat | p <= i ensures SameImage(i, p, [], outer, Moved(outer, p)) {
      PlainImage(t, p, outer, i);
    }
    forall q: Span | Covered(q, []) || Reached(q, p, [], outer) ensures Covered(q, Moved(outer, p)) {
      PlainReached(p, outer, q);
    }
  }

  lemma PlainImage(t: Text, p: nat, outer: seq<Span>, i: nat)
    requires InOrder(t, 0, outer) && p <= i
    requires forall span <- outer :: span.start + p >= 0 && span.end + p >= 0
    ensures SameImage(i, p, [], outer, Moved(outer, p))
  {
    hide InOrder, Moved, Outside;
    MovedImage(t, 0, outer, i - p, p);
  }

  lemma PlainReached(p: nat, outer: seq<Span>, q: Span)
    requires Covered(q, []) || Reached(q, p, [], outer)
    requires forall span <- outer :: span.start + p >= 0 && span.end + p >= 0
    ensures Covered(q, Moved(outer, p))
  {
    assert !Covered(q, []);
    var k :| 0 <= k < |outer| && outer[k].start <= Image(p, [], q.start) && Image(p, [], q.end) <= outer[k].end;
    assert Moved(outer, p)[k] in Moved(outer, p);
  }

  /** Moving spans moves what they make of positions. */
  lemma {:induction false} MovedImage(t: Text, p: nat, spans: seq<Span>, i: nat, shift: int)
    requires InOrder(t, p, spans) && p <= i && 0 <= p + shift
    ensures forall span <- spans :: span.start + shift >= 0 && span.end + shift >= 0
    ensures Image(p + shift, Moved(spans, shift), i + shift) == Image(p, spans, i)
    ensures Outside(i, spans) <==> Outside(i + shift, Moved(spans, shift))
    decreases spans
  {
    hide InOrder, Outside;
    InOrderBounds(t, p, spans);
    MaskedStep(t, p, spans);
    var moved := Moved(spans, shift);
    if spans == [] {
      OutsideInFront(i, i, spans);
      OutsideInFront(i + shift, i + shift, moved);
    } else {
      assert moved[1..] == Moved(spans[1..], shift);
      OutsideSplit(i, spans);
      OutsideSplit(i + shift, moved);
      if i >= spans[0].end {
        MovedImage(t, spans[0].end, spans[1..], i, shift);
      } else {
        InOrderBounds(t, spans[0].end, spans[1..]);
        OutsideInFront(i, spans[0].end, spans[1..]);
        OutsideInFront(i + shift, spans[0].end + shift, moved[1..]);
        assert spans[1..] != [] ==> spans[1..][0] in spans[1..];
      }
    }
  }

  lemma OutsideSplit(i: nat, spans: seq<Span>)
    requires spans != []
    ensures Outside(i, spans) <==> !(spans[0].start < i < spans[0].end) && Outside(i, spans[1..])
  {
    assert forall span :: span in spans <==> span == spans[0] || span in spans[1..];
  }

  lemma OutsideInFront(i: nat, p: nat, spans: seq<Span>)
    requires i <= p && forall span <- spans :: p <= span.start
    ensures Outside(i, spans)
  {
  }

  /** A span in front of the first placeholder. */
  lemma MergeFront(m: Text, p: nat, inner: seq<Span>, outer: seq<Span>, rest: seq<Span>)
    requires InOrder(m, p, inner) && InOrder(Masked(m, p, inner), 0, outer) && inner != [] && outer != []
    requires outer[0].end <= inner[0].start - p
    requires InOrder(m, p + outer[0].end, inner)
    requires forall span <- outer[1..] :: span.start - outer[0].end >= 0 && span.end - outer[0].end >= 0
    requires InOrder(Masked(m, p + outer[0].end, inner), 0, Moved(outer[1..], 0 - outer[0].end))
    requires Merges(m, p + outer[0].end, inner, Moved(outer[1..], 0 - outer[0].end), rest)
    ensures Merges(m, p, inner, outer, [Span(p + outer[0].start, p + outer[0].end)] + rest)
  {
    hide InOrder, Masked, Covered;
    var t, first, cut := Masked(m, p, inner), outer[0], p + outer[0].end;
    var t1 := Masked(m, cut, inner);
    var all := [Span(p + first.start, cut)] + rest;
    MaskedStep(m, p, inner);
    MaskedStep(m, cut, inner);
    MaskedStep(t, 0, outer);
    assert m[p..inner[0].start] == m[p..cut] + m[cut..inner[0].start];
    assert t == m[p..cut] + t1;
    assert t[first.end..] == t1 == t1[0..];
    MovedInOrder(t, first.end, t1, 0, outer[1..]);
    MaskedFrom(m, p, Span(p + first.start, cut), rest);
    assert t[0..first.start] == m[p..p + first.start];
    forall i: nat | p <= i ensures SameImage(i, p, inner, outer, all) {
      assert cut <= i ==> SameImage(i, cut, inner, Moved(outer[1..], 0 - outer[0].end), rest);
      FrontImage(m, p, inner, outer, rest, i);
    }
    forall q: Span | q.start < q.end && (Covered(q, inner) || Reached(q, p, inner, outer)) ensures Covered(q, all) {
      if Covered(q, inner) {
        CoveredByMore(q, [Span(p + first.start, cut)], rest);
      } else {
        FrontReached(m, p, inner, outer, q);
        CoveredByMore(q, [Span(p + first.start, cut)], rest);
      }
    }
  }

  lemma FrontImage(m: Text, p: nat, inner: seq<Span>, outer: seq<Span>, rest: seq<Span>, i: nat)
    requires InOrder(m, p, inner) && InOrder(Masked(m, p, inner), 0, outer) && inner != [] && outer != []
    requires outer[0].end <= inner[0].start - p && p <= i && InOrder(m, p + outer[0].end, rest)
    requires forall span <- outer[1..] :: span.start - outer[0].end >= 0 && span.end - outer[0].end >= 0
    requires p + outer[0].end <= i ==>
               SameImage(i, p + outer[0].end, inner, Moved(outer[1..], 0 - outer[0].end), rest)
    ensures SameImage(i, p, inner, outer, [Span(p + outer[0].start, p + outer[0].end)] + rest)
  {
    hide InOrder, Masked, Outside;
    var t, first, cut := Masked(m, p, inner), outer[0], p + outer[0].end;
    var all := [Span(p + first.start, cut)] + rest;
    if Outside(i, inner) && 0 <= Image(p, inner, i) && Outside(Image(p, inner, i), outer) {
      MaskedStep(t, 0, outer);
      InOrderBounds(m, cut, rest);
      ImageIsBehind(m, p, inner, i);
      OutsideSplit(Image(p, inner, i), outer);
      OutsideSplit(i, all);
      assert all[1..] == rest;
      if cut <= i {
        MovedImage(t, first.end, outer[1..], Image(p, inner, i), 0 - first.end);
        BehindSpan(outer, Image(p, inner, i));
        BehindSpan(all, i);
        ImageFromCut(m, p, inner, cut, i);
      } else {
        OutsideInFront(i, cut, rest);
      }
    }
  }

  /** A position behind a span, or right at its end. */
  lemma BehindSpan(spans: seq<Span>, i: nat)
    requires spans != [] && spans[0].start < spans[0].end <= i
    ensures Image(0, spans, i) == spans[0].start + 10 + Image(spans[0].end, spans[1..], i)
    ensures forall p: nat :: Image(p, spans, i) == spans[0].start - p + 10 + Image(spans[0].end, spans[1..], i)
  {
  }

  lemma ImageFromCut(m: Text, p: nat, inner: seq<Span>, cut: nat, i: nat)
    requires InOrder(m, p, inner) && inner != [] && p <= cut <= inner[0].start && cut <= i
    ensures Image(cut, inner, i) == Image(p, inner, i) - (cut - p)
  {
  }

  lemma CoveredByMore(q: Span, first: seq<Span>, rest: seq<Span>)
    ensures Covered(q, first) || Covered(q, rest) ==> Covered(q, first + rest)
  {
    if Covered(q, first) {
      var span :| span in first && span.start <= q.start && q.end <= span.end;
      assert span in first + rest;
    }
    if Covered(q, rest) {
      var span :| span in rest && span.start <= q.start && q.end <= span.end;
      assert span in first + rest;
    }
  }

  lemma OneCovers(q: Span, span: Span)
    requires span.start <= q.start && q.end <= span.end
    ensures Covered(q, [span])
  {
    assert [span][0] in [span];
  }

  lemma FrontReached(m: Text, p: nat, inner: seq<Span>, outer: seq<Span>, q: Span)
    requires InOrder(m, p, inner) && inner != [] && outer != [] && outer[0].end <= inner[0].start - p
    requires InOrder(Masked(m, p, inner), 0, outer) && Reached(q, p, inner, outer)
    requires forall span <- outer[1..] :: span.start - outer[0].end >= 0 && span.end - outer[0].end >= 0
    ensures
      || Covered(q, [Span(p + outer[0].start, p + outer[0].end)])
      || Reached(q, p + outer[0].end, inner, Moved(outer[1..], 0 - outer[0].end))
  {
    hide InOrder, Masked, Covered;
    var first, cut := outer[0], p + outer[0].end;
    var k :| 0 <= k < |outer| && outer[k].start <= Image(p, inner, q.start) && Image(p, inner, q.end) <= outer[k].end;
    assert inner[0] in inner;
    if k == 0 {
      ImageIsBehind(m, p, inner, q.end);
      assert q.end <= inner[0].start;
      OneCovers(q, Span(p + first.start, cut));
    } else {
      OrderedSpans(Masked(m, p, inner), 0, outer, 0, k);
      var moved := Moved(outer[1..], 0 - first.end);
      assert moved[k - 1] == Span(outer[k].start - first.end, outer[k].end - first.end) && moved[k - 1] in moved;
    }
  }

  lemma {:induction false} OrderedSpans(m: Text, p: nat, spans: seq<Span>, i: nat, j: nat)
    requires InOrder(m, p, spans) && i < j < |spans|
    ensures p <= spans[i].start < spans[i].end <= spans[j].start < spans[j].end <= |m|
    decreases spans
  {
    InOrderBounds(m, p, spans);
    InOrderBounds(m, spans[0].end, spans[1..]);
    if i > 0 {
      OrderedSpans(m, spans[0].end, spans[1..], i - 1, j - 1);
    } else {
      assert spans[j] == spans[1..][j - 1];
      assert spans[0] in spans;
    }
  }

  /** Positions behind a span are behind its placeholder. */
  lemma ImageIsBehind(m: Text, p: nat, spans: seq<Span>, i: nat)
    requires InOrder(m, p, spans) && p <= i && Outside(i, spans)
    ensures 0 <= Image(p, spans, i)
    ensures spans != [] && i > spans[0].start ==>
              i >= spans[0].end && Image(p, spans, i) >= spans[0].start - p + 10
    decreases spans
  {
    if spans != [] && i > spans[0].start {
      assert spans[0] in spans;
      forall span | span in spans[1..] ensures !(span.start < i < span.end) {
        assert span in spans;
      }
      ImageIsBehind(m, spans[0].end, spans[1..], i);
    }
  }

  /** How long the front of a masked text is: up to its first span, and its placeholder. */
  function FrontLength(p: nat, inner: seq<Span>): int
    requires inner != []
  {
    inner[0].start - p + 10
  }

  /** A placeholder in front of the first span. */
  lemma MergeBack(m: Text, p: nat, inner: seq<Span>, outer: seq<Span>, rest: seq<Span>)
    requires InOrder(m, p, inner) && InOrder(Masked(m, p, inner), 0, outer) && inner != [] && outer != []
    requires FrontLength(p, inner) <= outer[0].start
    requires InOrder(m, inner[0].end, inner[1..])
    requires forall span <- outer :: span.start - FrontLength(p, inner) >= 0 && span.end - FrontLength(p, inner) >= 0
    requires InOrder(Masked(m, inner[0].end, inner[1..]), 0, Moved(outer, 0 - FrontLength(p, inner)))
    requires Merges(m, inner[0].end, inner[1..], Moved(outer, 0 - FrontLength(p, inner)), rest)
    ensures Merges(m, p, inner, outer, [inner[0]] + rest)
  {
    hide InOrder, Masked, Covered;
    var t, t1 := Masked(m, p, inner), Masked(m, inner[0].end, inner[1..]);
    var n := FrontLength(p, inner);
    MaskedStep(m, p, inner);
    MaskedStep(t, 0, outer);
    var front := m[p..inner[0].start] + "[redacted]";
    assert t == front + t1 && |front| == n;
    assert t[n..] == t1 == t1[0..];
    MaskedFrom(m, p, inner[0], rest);
    LaterFrom(t, n, outer);
    MovedInOrder(t, n, t1, 0, outer);
    assert t[..n] == front;
    forall i: nat | p <= i ensures SameImage(i, p, inner, outer, [inner[0]] + rest) {
      assert inner[0].end <= i ==> SameImage(i, inner[0].end, inner[1..], Moved(outer, 0 - n), rest);
      BackImage(m, p, inner, outer, rest, i);
    }
    forall q: Span | q.start < q.end && (Covered(q, inner) || Reached(q, p, inner, outer)) ensures Covered(q, [inner[0]] + rest) {
      if Covered(q, inner) {
        assert inner == [inner[0]] + inner[1..];
        CoveredSplit(q, [inner[0]], inner[1..]);
        CoveredByMore(q, [inner[0]], rest);
      } else {
        BackReached(m, p, inner, outer, q);
        CoveredByMore(q, [inner[0]], rest);
      }
    }
  }

  lemma BackImage(m: Text, p: nat, inner: seq<Span>, outer: seq<Span>, rest: seq<Span>, i: nat)
    requires InOrder(m, p, inner) && InOrder(Masked(m, p, inner), 0, outer) && inner != [] && outer != []
    requires FrontLength(p, inner) <= outer[0].start && p <= i && InOrder(m, inner[0].end, rest)
    requires inner[0].start < inner[0].end && p <= inner[0].start
    requires forall span <- outer :: span.start - FrontLength(p, inner) >= 0 && span.end - FrontLength(p, inner) >= 0
    requires inner[0].end <= i ==>
               SameImage(i, inner[0].end, inner[1..], Moved(outer, 0 - FrontLength(p, inner)), rest)
    ensures SameImage(i, p, inner, outer, [inner[0]] + rest)
  {
    hide InOrder, Masked, Outside;
    var t, all, n := Masked(m, p, inner), [inner[0]] + rest, FrontLength(p, inner);
    if Outside(i, inner) && 0 <= Image(p, inner, i) && Outside(Image(p, inner, i), outer) {
      InOrderBounds(m, inner[0].end, rest);
      OutsideSplit(i, inner);
      OutsideSplit(i, all);
      assert all[1..] == rest;
      if inner[0].end <= i {
        BehindSpan(inner, i);
        BehindSpan(all, i);
        ImageIsBehind(m, p, inner, i);
        LaterFrom(t, n, outer);
        MovedImage(t, n, outer, Image(p, inner, i), 0 - n);
        ImageFromCut(t, 0, outer, n, Image(p, inner, i));
      } else {
        OutsideInFront(i, inner[0].end, rest);
      }
    }
  }

  /** Masking spans that lie behind `n` leaves the text before alone. */
  lemma LaterFrom(t: Text, n: nat, outer: seq<Span>)
    requires InOrder(t, 0, outer) && outer != [] && n <= outer[0].start
    ensures n <= |t| && InOrder(t, n, outer) && Masked(t, 0, outer) == t[..n] + Masked(t, n, outer)
  {
    hide InOrder, Masked;
    MaskedStep(t, 0, outer);
    assert outer == [outer[0]] + outer[1..];
    MaskedFrom(t, n, outer[0], outer[1..]);
    var rest := Masked(t, outer[0].end, outer[1..]);
    assert t[0..outer[0].start] == t[..n] + t[n..outer[0].start];
    Concat(t[..n], t[n..outer[0].start], "[redacted]");
    Concat(t[..n], t[n..outer[0].start] + "[redacted]", rest);
  }

  lemma CoveredSplit(q: Span, first: seq<Span>, rest: seq<Span>)
    requires Covered(q, first + rest)
    ensures Covered(q, first) || Covered(q, rest)
  {
  }

  lemma BackReached(m: Text, p: nat, inner: seq<Span>, outer: seq<Span>, q: Span)
    requires InOrder(m, p, inner) && inner != [] && outer != [] && FrontLength(p, inner) <= outer[0].start
    requires InOrder(Masked(m, p, inner), 0, outer) && Reached(q, p, inner, outer)
    requires forall span <- outer :: span.start - FrontLength(p, inner) >= 0 && span.end - FrontLength(p, inner) >= 0
    ensures Reached(q, inner[0].end, inner[1..], Moved(outer, 0 - FrontLength(p, inner)))
  {
    hide InOrder, Masked;
    var n := FrontLength(p, inner);
    var k :| 0 <= k < |outer| && outer[k].start <= Image(p, inner, q.start) && Image(p, inner, q.end) <= outer[k].end;
    if k > 0 {
      OrderedSpans(Masked(m, p, inner), 0, outer, 0, k);
    }
    assert inner[0] in inner && forall span <- inner[1..] :: span in inner;
    MaskedStep(m, p, inner);
    assert q.start > inner[0].start && q.end > inner[0].start;
    var moved := Moved(outer, 0 - n);
    assert moved[k] == Span(outer[k].start - n, outer[k].end - n) && moved[k] in moved;
  }

  /** The span that takes the first placeholder in: its counterpart in the text where that was not replaced. */
  function Unmasked(p: nat, inner: seq<Span>, outer: seq<Span>): seq<Span>
    requires inner != [] && outer != []
    requires inner[0].start < inner[0].end && 10 <= outer[0].end && forall span <- outer[1..] :: 10 <= span.start && 10 <= span.end
  {
    var growth := inner[0].end - inner[0].start - 10;
    [Span(outer[0].start, outer[0].end + growth)] + Moved(outer[1..], growth)
  }

  lemma MergeOver(m: Text, p: nat, inner: seq<Span>, outer: seq<Span>, all: seq<Span>)
    requires InOrder(m, p, inner) && InOrder(Masked(m, p, inner), 0, outer) && inner != [] && outer != []
    requires inner[0].start < inner[0].end && outer[0].start <= inner[0].start - p && FrontLength(p, inner) <= outer[0].end
    requires 10 <= outer[0].end && forall span <- outer[1..] :: 10 <= span.start && 10 <= span.end
    requires InOrder(m, p, inner[1..]) && InOrder(Masked(m, p, inner[1..]), 0, Unmasked(p, inner, outer))
    requires Merges(m, p, inner[1..], Unmasked(p, inner, outer), all)
    ensures Merges(m, p, inner, outer, all)
  {
    hide InOrder, Masked, Covered, Unmasked, Reached;
    UnmaskedHasSameOutcome(m, p, inner, outer);
    forall i: nat | p <= i ensures SameImage(i, p, inner, outer, all) {
      assert SameImage(i, p, inner[1..], Unmasked(p, inner, outer), all);
      OverImage(m, p, inner, outer, all, i);
    }
    forall q: Span | q.start < q.end && (Covered(q, inner) || Reached(q, p, inner, outer)) ensures Covered(q, all) {
      if Covered(q, inner) {
        assert inner == [inner[0]] + inner[1..];
        CoveredSplit(q, [inner[0]], inner[1..]);
        if Covered(q, [inner[0]]) {
          CoveredIsReached(m, p, inner, outer, q);
        }
      } else {
        OverReached(m, p, inner, outer, q);
      }
    }
  }

  lemma OverImage(m: Text, p: nat, inner: seq<Span>, outer: seq<Span>, all: seq<Span>, i: nat)
    requires InOrder(m, p, inner) && InOrder(Masked(m, p, inner), 0, outer) && inner != [] && outer != [] && p <= i
    requires inner[0].start < inner[0].end && outer[0].start <= inner[0].start - p && FrontLength(p, inner) <= outer[0].end
    requires 10 <= outer[0].end && forall span <- outer[1..] :: 10 <= span.start && 10 <= span.end
    requires SameImage(i, p, inner[1..], Unmasked(p, inner, outer), all)
    ensures SameImage(i, p, inner, outer, all)
  {
    hide InOrder, Masked, Outside, Moved;
    var t, growth := Masked(m, p, inner), inner[0].end - inner[0].start - 10;
    var unmasked := Unmasked(p, inner, outer);
    if Outside(i, inner) && 0 <= Image(p, inner, i) && Outside(Image(p, inner, i), outer) {
      var x := Image(p, inner, i);
      MaskedStep(m, p, inner);
      MaskedStep(t, 0, outer);
      InOrderBounds(t, outer[0].end, outer[1..]);
      OutsideSplit(i, inner);
      ImageWithout(m, p, inner, i);
      ImageIsBehind(m, p, inner, i);
      OutsideSplit(x, outer);
      OutsideSplit(Image(p, inner[1..], i), unmasked);
      assert unmasked[1..] == Moved(outer[1..], growth);
      if i > inner[0].start {
        assert x >= FrontLength(p, inner) && x > outer[0].start;
        BehindSpan(outer, x);
        BehindSpan(unmasked, x + growth);
        MovedImage(t, outer[0].end, outer[1..], x, growth);
      } else {
        OutsideInFront(x, outer[0].end, outer[1..]);
        MovedOutside(x, outer[0].end, outer[1..], growth);
      }
    }
  }

  lemma MovedOutside(x: nat, p: nat, spans: seq<Span>, growth: int)
    requires x <= p && x <= p + growth && forall span <- spans :: p <= span.start && 0 <= span.start + growth && 0 <= span.end + growth
    ensures Outside(x, Moved(spans, growth))
  {
  }

  lemma UnmaskedHasSameOutcome(m: Text, p: nat, inner: seq<Span>, outer: seq<Span>)
    requires InOrder(m, p, inner) && InOrder(Masked(m, p, inner), 0, outer) && inner != [] && outer != []
    requires inner[0].start < inner[0].end && outer[0].start <= inner[0].start - p && FrontLength(p, inner) <= outer[0].end
    requires 10 <= outer[0].end && forall span <- outer[1..] :: 10 <= span.start && 10 <= span.end
    requires InOrder(m, p, inner[1..]) && InOrder(Masked(m, p, inner[1..]), 0, Unmasked(p, inner, outer))
    ensures Masked(Masked(m, p, inner), 0, outer) == Masked(Masked(m, p, inner[1..]), 0, Unmasked(p, inner, outer))
  {
    hide InOrder, Masked;
    var t, t3 := Masked(m, p, inner), Masked(m, p, inner[1..]);
    var unmasked := Unmasked(p, inner, outer);
    MaskedStep(t, 0, outer);
    UnmaskedText(m, p, inner, outer[0].start, outer[0].end);
    MovedInOrder(t, outer[0].end, t3, unmasked[0].end, outer[1..]);
    MaskedStep(t3, 0, unmasked);
    assert unmasked[1..] == Moved(outer[1..], unmasked[0].end - outer[0].end);
  }

  lemma EarlierMasked(m: Text, p: nat, r: nat, spans: seq<Span>)
    requires p <= r <= |m| && InOrder(m, r, spans)
    ensures InOrder(m, p, spans) && Masked(m, p, spans) == m[p..r] + Masked(m, r, spans)
  {
    hide InOrder, Masked;
    MaskedStep(m, r, spans);
    if spans == [] {
      MaskedOfNone(m, p);
      assert m[p..] == m[p..r] + m[r..];
    } else {
      assert spans == [spans[0]] + spans[1..];
      MaskedFrom(m, p, spans[0], spans[1..]);
      assert m[p..spans[0].start] == m[p..r] + m[r..spans[0].start];
      var rest := Masked(m, spans[0].end, spans[1..]);
      Concat(m[p..r], m[r..spans[0].start], "[redacted]");
      Concat(m[p..r], m[r..spans[0].start] + "[redacted]", rest);
    }
  }

  lemma UnmaskedText(m: Text, p: nat, inner: seq<Span>, from: nat, to: nat)
    requires InOrder(m, p, inner) && inner != [] && InOrder(m, p, inner[1..])
    requires from <= inner[0].start - p && FrontLength(p, inner) <= to <= |Masked(m, p, inner)|
    ensures
      var t, t3 := Masked(m, p, inner), Masked(m, p, inner[1..]);
      var growth := inner[0].end - inner[0].start - 10;
      && 0 <= to + growth <= |t3| && from <= |t3| && t[0..from] == t3[0..from] && t[to..] == t3[to + growth..]
  {
    hide InOrder, Masked;
    var Span(start, end) := inner[0];
    MaskedStep(m, p, inner);
    var t, t3, rest := Masked(m, p, inner), Masked(m, p, inner[1..]), Masked(m, end, inner[1..]);
    EarlierMasked(m, p, end, inner[1..]);
    var front := m[p..start] + "[redacted]";
    assert t == front + rest && t3 == m[p..end] + rest;
    assert t[0..from] == m[p..start][0..from] == m[p..end][0..from] == t3[0..from];
    assert t[to..] == rest[to - |front|..] == t3[to + (end - start - 10)..];
  }

  /** Behind a span, positions without it are further on by what it is longer than its placeholder. */
  lemma ImageWithout(m: Text, p: nat, inner: seq<Span>, i: nat)
    requires InOrder(m, p, inner) && inner != [] && p <= i && Outside(i, inner)
    ensures i <= inner[0].start ==> Image(p, inner[1..], i) == Image(p, inner, i) == i - p
    ensures i > inner[0].start ==>
              Image(p, inner[1..], i) == Image(p, inner, i) + (inner[0].end - inner[0].start - 10)
    ensures p <= i <= inner[0].end ==> Image(p, inner[1..], i) == i - p
  {
    assert inner[0] in inner;
  }

  lemma CoveredIsReached(m: Text, p: nat, inner: seq<Span>, outer: seq<Span>, q: Span)
    requires InOrder(m, p, inner) && inner != [] && outer != [] && q.start < q.end && Covered(q, [inner[0]])
    requires inner[0].start < inner[0].end && outer[0].start <= inner[0].start - p && FrontLength(p, inner) <= outer[0].end
    requires 10 <= outer[0].end && forall span <- outer[1..] :: 10 <= span.start && 10 <= span.end
    ensures Reached(q, p, inner[1..], Unmasked(p, inner, outer))
  {
    hide InOrder;
    MaskedStep(m, p, inner);
    InOrderBounds(m, inner[0].end, inner[1..]);
    var unmasked := Unmasked(p, inner, outer);
    assert unmasked[0] in unmasked;
    assert Image(p, inner[1..], q.start) == q.start - p && Image(p, inner[1..], q.end) == q.end - p by {
      assert inner[1..] != [] ==> inner[1..][0] in inner[1..];
    }
  }

  lemma OverReached(m: Text, p: nat, inner: seq<Span>, outer: seq<Span>, q: Span)
    requires InOrder(m, p, inner) && InOrder(Masked(m, p, inner), 0, outer) && inner != [] && outer != []
    requires inner[0].start < inner[0].end && outer[0].start <= inner[0].start - p && FrontLength(p, inner) <= outer[0].end
    requires 10 <= outer[0].end && forall span <- outer[1..] :: 10 <= span.start && 10 <= span.end
    requires Reached(q, p, inner, outer)
    ensures Reached(q, p, inner[1..], Unmasked(p, inner, outer))
  {
    hide InOrder, Masked;
    var k :| 0 <= k < |outer| && outer[k].start <= Image(p, inner, q.start) && Image(p, inner, q.end) <= outer[k].end;
    if k > 0 {
      OrderedSpans(Masked(m, p, inner), 0, outer, 0, k);
    }
    assert inner[0] in inner && forall span <- inner[1..] :: span in inner;
    MaskedStep(m, p, inner);
    OutsideSplit(q.start, inner);
    OutsideSplit(q.end, inner);
    ImageWithout(m, p, inner, q.start);
    ImageWithout(m, p, inner, q.end);
    ImageIsBehind(m, p, inner, q.start);
    ImageIsBehind(m, p, inner, q.end);
    hide Image, Outside;
    UnmaskedAt(p, inner, outer, k);
  }

  lemma UnmaskedAt(p: nat, inner: seq<Span>, outer: seq<Span>, k: nat)
    requires inner != [] && k < |outer|
    requires inner[0].start < inner[0].end && 10 <= outer[0].end && forall span <- outer[1..] :: 10 <= span.start && 10 <= span.end
    ensures
      var growth := inner[0].end - inner[0].start - 10;
      var (from, to) := (if k == 0 then outer[0].start else outer[k].start + growth, outer[k].end + growth);
      0 <= from && 0 <= to && Span(from, to) in Unmasked(p, inner, outer)
  {
    var unmasked, growth := Unmasked(p, inner, outer), inner[0].end - inner[0].start - 10;
    assert unmasked[k] in unmasked;
    if k > 0 {
      assert outer[1..][k - 1] == outer[k] && outer[k] in outer[1..];
    }
  }

  lemma FrontText(m: Text, p: nat, inner: seq<Span>, cut: nat)
    requires InOrder(m, p, inner) && inner != [] && p <= cut <= inner[0].start
    ensures InOrder(m, cut, inner) && Masked(m, p, inner) == m[p..cut] + Masked(m, cut, inner)
  {
    EarlierMasked(m, p, cut, inner);
  }

  lemma EdgedMoved(t: Text, p: nat, t1: Text, q: nat, span: Span)
    requires p <= |t| && q <= |t1| && t[p..] == t1[q..] && Edged(t, span) && p <= span.start && (p == span.start ==> q == 0)
    ensures Edged(t1, Span(span.start + (q - p), span.end + (q - p)))
  {
    assert |t| - p == |t[p..]| == |t1[q..]| == |t1| - q;
    assert p < span.start ==> t[span.start - 1] == t[p..][span.start - 1 - p] == t1[q..][span.start - 1 - p];
    assert span.end < |t| ==> t[span.end] == t[p..][span.end - p] == t1[q..][span.end - p];
  }

  lemma AllEdgedMoved(t: Text, p: nat, t1: Text, q: nat, spans: seq<Span>)
    requires p <= |t| && q <= |t1| && t[p..] == t1[q..] && AllEdged(t, spans)
    requires forall span <- spans :: p <= span.start && (p == span.start ==> q == 0)
    ensures forall span <- spans :: span.start + (q - p) >= 0 && span.end + (q - p) >= 0
    ensures AllEdged(t1, Moved(spans, q - p))
  {
    hide Edged;
    forall span <- spans ensures span.start <= span.end {
      assert span.start <= span.end by { EdgedBounds(t, span); }
    }
    var moved := Moved(spans, q - p);
    forall span | span in moved ensures Edged(t1, span) {
      var k :| 0 <= k < |moved| && span == moved[k];
      assert spans[k] in spans;
      EdgedMoved(t, p, t1, q, spans[k]);
    }
  }

  lemma EdgedBounds(t: Text, span: Span)
    requires Edged(t, span)
    ensures span.start < span.end <= |t|
  {
  }

  /** Such a span that overlaps the first placeholder takes all of it in. */
  lemma EdgedCoversPlaceholder(m: Text, p: nat, inner: seq<Span>, span: Span)
    requires InOrder(m, p, inner) && inner != [] && Edged(Masked(m, p, inner), span)
    requires inner[0].start - p < span.end
    ensures span.start <= inner[0].start - p || FrontLength(p, inner) < span.start
    ensures span.start < FrontLength(p, inner) ==> FrontLength(p, inner) <= span.end
  {
    hide InOrder, Masked;
    var t, x := Masked(m, p, inner), inner[0].start - p;
    MaskedStep(m, p, inner);
    forall j | x <= j < x + 10 ensures t[j] in "[redacted]" && (x < j ==> t[j] in "redacted]") {
      assert t[j] == "[redacted]"[j - x];
    }
  }

  lemma UnmaskedInOrder(m: Text, p: nat, inner: seq<Span>, outer: seq<Span>)
    requires InOrder(m, p, inner) && InOrder(Masked(m, p, inner), 0, outer) && inner != [] && outer != []
    requires inner[0].start < inner[0].end && outer[0].start <= inner[0].start - p && FrontLength(p, inner) <= outer[0].end
    ensures 10 <= outer[0].end && forall span <- outer[1..] :: 10 <= span.start && 10 <= span.end
    ensures InOrder(m, p, inner[1..])
    ensures InOrder(Masked(m, p, inner[1..]), 0, Unmasked(p, inner, outer))
  {
    hide InOrder, Masked;
    var t, first := Masked(m, p, inner), outer[0];
    var growth := inner[0].end - inner[0].start - 10;
    MaskedStep(m, p, inner);
    MaskedStep(t, 0, outer);
    InOrderBounds(t, first.end, outer[1..]);
    EarlierMasked(m, p, inner[0].end, inner[1..]);
    UnmaskedText(m, p, inner, first.start, first.end);
    var t3, end3 := Masked(m, p, inner[1..]), first.end + growth;
    MovedInOrder(t, first.end, t3, end3, outer[1..]);
    MaskedFrom(t3, 0, Span(first.start, end3), Moved(outer[1..], growth));
  }

  lemma RestStartsBehind(m: Text, p: nat, inner: seq<Span>, outer: seq<Span>)
    requires InOrder(m, p, inner) && InOrder(Masked(m, p, inner), 0, outer) && AllEdged(Masked(m, p, inner), outer)
    requires inner != [] && outer != [] && FrontLength(p, inner) <= outer[0].end
    ensures AllEdged(Masked(m, p, inner), outer[1..]) && forall span <- outer[1..] :: FrontLength(p, inner) < span.start
  {
    hide InOrder, Masked, Edged;
    var t := Masked(m, p, inner);
    MaskedStep(t, 0, outer);
    InOrderBounds(t, outer[0].end, outer[1..]);
    forall span <- outer[1..] ensures Edged(t, span) && FrontLength(p, inner) < span.start {
      assert span in outer;
      EdgedCoversPlaceholder(m, p, inner, span);
    }
  }

  lemma UnmaskedAllEdged(m: Text, p: nat, inner: seq<Span>, outer: seq<Span>)
    requires InOrder(m, p, inner) && InOrder(Masked(m, p, inner), 0, outer) && AllEdged(Masked(m, p, inner), outer)
    requires inner != [] && outer != [] && InOrder(m, p, inner[1..])
    requires inner[0].start < inner[0].end && outer[0].start <= inner[0].start - p && FrontLength(p, inner) <= outer[0].end
    requires 10 <= outer[0].end && forall span <- outer[1..] :: 10 <= span.start && 10 <= span.end
    ensures AllEdged(Masked(m, p, inner[1..]), Unmasked(p, inner, outer))
  {
    hide InOrder, Masked, Edged, Moved, AllEdged;
    var t, first := Masked(m, p, inner), outer[0];
    var n, growth := FrontLength(p, inner), inner[0].end - inner[0].start - 10;
    MaskedStep(m, p, inner);
    MaskedStep(t, 0, outer);
    UnmaskedText(m, p, inner, first.start, n);
    assert Edged(t, first) by { FirstIsEdged(t, outer); }
    var t3, end3 := Masked(m, p, inner[1..]), first.end + growth;
    var moved := Moved(outer[1..], growth);
    RestStartsBehind(m, p, inner, outer);
    AllEdgedMoved(t, n, t3, n + growth, outer[1..]);
    UnmaskedEdged(t, t3, first, end3, n, n + growth);
    FirstEdged(t3, Span(first.start, end3), moved);
  }

  lemma FirstIsEdged(t: Text, spans: seq<Span>)
    requires AllEdged(t, spans) && spans != []
    ensures Edged(t, spans[0])
  {
  }

  lemma FirstEdged(t: Text, first: Span, rest: seq<Span>)
    requires Edged(t, first) && AllEdged(t, rest)
    ensures AllEdged(t, [first] + rest)
  {
  }

  lemma UnmaskedEdged(t: Text, t3: Text, span: Span, end3: nat, n: nat, n3: nat)
    requires Edged(t, span) && n <= span.end && n <= |t| && n3 <= |t3| && t[n..] == t3[n3..] && end3 - n3 == span.end - n
    requires span.start < n && span.start < n3 && t[0..span.start] == t3[0..span.start] && span.start <= |t3|
    ensures Edged(t3, Span(span.start, end3))
  {
    assert |t| - n == |t[n..]| == |t3[n3..]| == |t3| - n3;
    assert span.start > 0 ==> t[span.start - 1] == t[0..span.start][span.start - 1] == t3[0..span.start][span.start - 1];
    assert span.end < |t| ==> t[span.end] == t[n..][span.end - n] == t3[n3..][span.end - n];
  }

  lemma FrontRest(m: Text, p: nat, inner: seq<Span>, outer: seq<Span>)
    requires InOrder(m, p, inner) && InOrder(Masked(m, p, inner), 0, outer) && AllEdged(Masked(m, p, inner), outer)
    requires inner != [] && outer != [] && outer[0].end <= inner[0].start - p
    ensures InOrder(m, p + outer[0].end, inner)
    ensures forall span <- outer[1..] :: span.start - outer[0].end >= 0 && span.end - outer[0].end >= 0
    ensures InOrder(Masked(m, p + outer[0].end, inner), 0, Moved(outer[1..], 0 - outer[0].end))
    ensures AllEdged(Masked(m, p + outer[0].end, inner), Moved(outer[1..], 0 - outer[0].end))
  {
    hide InOrder, Masked, Edged;
    var t, end := Masked(m, p, inner), outer[0].end;
    MaskedStep(m, p, inner);
    MaskedStep(t, 0, outer);
    FrontText(m, p, inner, p + end);
    var t1 := Masked(m, p + end, inner);
    assert t[end..] == t1 == t1[0..];
    MovedInOrder(t, end, t1, 0, outer[1..]);
    InOrderBounds(t, end, outer[1..]);
    assert AllEdged(t, outer[1..]) by {
      assert forall span <- outer[1..] :: span in outer;
    }
    AllEdgedMoved(t, end, t1, 0, outer[1..]);
  }

  lemma BackRest(m: Text, p: nat, inner: seq<Span>, outer: seq<Span>)
    requires InOrder(m, p, inner) && InOrder(Masked(m, p, inner), 0, outer) && AllEdged(Masked(m, p, inner), outer)
    requires inner != [] && outer != [] && FrontLength(p, inner) <= outer[0].start
    ensures InOrder(m, inner[0].end, inner[1..])
    ensures forall span <- outer :: span.start - FrontLength(p, inner) >= 0 && span.end - FrontLength(p, inner) >= 0
    ensures InOrder(Masked(m, inner[0].end, inner[1..]), 0, Moved(outer, 0 - FrontLength(p, inner)))
    ensures AllEdged(Masked(m, inner[0].end, inner[1..]), Moved(outer, 0 - FrontLength(p, inner)))
  {
    hide InOrder, Masked, Edged;
    MaskedStep(m, p, inner);
    var t, t1, n := Masked(m, p, inner), Masked(m, inner[0].end, inner[1..]), FrontLength(p, inner);
    assert t[n..] == t1 == t1[0..];
    LaterFrom(t, n, outer);
    MovedInOrder(t, n, t1, 0, outer);
    InOrderBounds(t, n, outer);
    AllEdgedMoved(t, n, t1, 0, outer);
  }

  /**
   Replacing spans twice is replacing spans once: if the second replacement cuts no placeholder in two, the
   outcome is the first text with some spans replaced, which cover whatever the two covered.
   */
  lemma {:induction false} MergedSpans(m: Text, p: nat, inner: seq<Span>, outer: seq<Span>) returns (all: seq<Span>)
    requires InOrder(m, p, inner) && InOrder(Masked(m, p, inner), 0, outer) && AllEdged(Masked(m, p, inner), outer)
    ensures Merges(m, p, inner, outer, all)
    decreases |inner| + |outer|, |inner|
  {
    hide InOrder, Masked, Merges, Edged;
    if outer == [] {
      MergeNothing(m, p, inner);
      all := inner;
    } else if inner == [] {
      MaskedStep(m, p, inner);
      MergeIntoPlain(m, p, outer);
      all := Moved(outer, p);
    } else {
      MaskedStep(m, p, inner);
      MaskedStep(Masked(m, p, inner), 0, outer);
      if outer[0].end <= inner[0].start - p {
        FrontRest(m, p, inner, outer);
        var rest := MergedSpans(m, p + outer[0].end, inner, Moved(outer[1..], 0 - outer[0].end));
        MergeFront(m, p, inner, outer, rest);
        all := [Span(p + outer[0].start, p + outer[0].end)] + rest;
      } else if FrontLength(p, inner) <= outer[0].start {
        BackRest(m, p, inner, outer);
        var rest := MergedSpans(m, inner[0].end, inner[1..], Moved(outer, 0 - FrontLength(p, inner)));
        MergeBack(m, p, inner, outer, rest);
        all := [inner[0]] + rest;
      } else {
        EdgedCoversPlaceholder(m, p, inner, outer[0]);
        UnmaskedInOrder(m, p, inner, outer);
        UnmaskedAllEdged(m, p, inner, outer);
        all := MergedSpans(m, p, inner[1..], Unmasked(p, inner, outer));
        MergeOver(m, p, inner, outer, all);
      }
    }
  }

  // ---------------------------------------------------------------- what masking leaves as it is

  lemma {:induction false} BareImage(m: Text, p: nat, spans: seq<Span>, i: nat)
    requires InOrder(m, p, spans) && p <= i < |m| && Bare(i, spans)
    ensures 0 <= Image(p, spans, i) < |Masked(m, p, spans)| && Masked(m, p, spans)[Image(p, spans, i)] == m[i]
    ensures Image(p, spans, i + 1) == Image(p, spans, i) + 1
    decreases spans
  {
    hide InOrder, Masked;
    MaskedStep(m, p, spans);
    if spans != [] {
      var front := m[p..spans[0].start] + "[redacted]";
      BareSplit(spans, i);
      if i >= spans[0].end {
        BareImage(m, spans[0].end, spans[1..], i);
        assert Masked(m, p, spans) == front + Masked(m, spans[0].end, spans[1..]);
      }
    }
  }

  lemma {:induction false} BareRun(m: Text, p: nat, spans: seq<Span>, i: nat, j: nat)
    requires InOrder(m, p, spans) && p <= i <= j <= |m| && forall k: nat | i <= k < j :: Bare(k, spans)
    ensures Image(p, spans, j) == Image(p, spans, i) + (j - i)
    decreases j - i
  {
    hide InOrder, Masked, Image, Bare;
    if i < j {
      BareImage(m, p, spans, j - 1);
      BareRun(m, p, spans, i, j - 1);
    }
  }

  /** A position at which a span starts, or that is bare. */
  lemma {:induction false} EdgeImage(m: Text, p: nat, spans: seq<Span>, i: nat)
    requires InOrder(m, p, spans) && p <= i < |m| && Outside(i, spans)
    ensures 0 <= Image(p, spans, i) < |Masked(m, p, spans)|
    ensures Masked(m, p, spans)[Image(p, spans, i)] == if Bare(i, spans) then m[i] else '['
    decreases spans
  {
    hide InOrder, Masked, Bare, Outside;
    MaskedStep(m, p, spans);
    if spans == [] {
      NothingIsBare(i);
    } else {
      BareSplit(spans, i);
      OutsideSplit(i, spans);
      var front := m[p..spans[0].start] + "[redacted]";
      assert Masked(m, p, spans) == front + Masked(m, spans[0].end, spans[1..]);
      if i >= spans[0].end {
        EdgeImage(m, spans[0].end, spans[1..], i);
      } else if i < spans[0].start {
        InOrderBounds(m, spans[0].end, spans[1..]);
        BareInFront(i, spans[0].end, spans[1..]);
      }
    }
  }

  lemma BareSplit(spans: seq<Span>, i: nat)
    requires spans != []
    ensures Bare(i, spans) <==> !(spans[0].start <= i < spans[0].end) && Bare(i, spans[1..])
  {
    assert forall span :: span in spans <==> span == spans[0] || span in spans[1..];
  }

  lemma {:induction false} EndImage(m: Text, p: nat, spans: seq<Span>)
    requires InOrder(m, p, spans)
    ensures Image(p, spans, |m|) == |Masked(m, p, spans)|
    decreases spans
  {
    if spans != [] {
      EndImage(m, spans[0].end, spans[1..]);
    }
  }

  lemma NothingIsBare(i: nat)
    ensures Bare(i, [])
  {
  }

  lemma BareInFront(i: nat, p: nat, spans: seq<Span>)
    requires i < p && forall span <- spans :: p <= span.start
    ensures Bare(i, spans)
  {
  }

  lemma ImageOfStart(m: Text, p: nat, spans: seq<Span>)
    requires InOrder(m, p, spans)
    ensures Image(p, spans, p) == 0
  {
  }

  /** In front of a bare position stands what stood there, or the end of a placeholder. */
  lemma {:induction false} BeforeImage(m: Text, p: nat, spans: seq<Span>, i: nat)
    requires InOrder(m, p, spans) && p < i <= |m| && Outside(i, spans)
    ensures 0 < Image(p, spans, i) <= |Masked(m, p, spans)|
    ensures Masked(m, p, spans)[Image(p, spans, i) - 1] == if Bare(i - 1, spans) then m[i - 1] else ']'
    decreases spans
  {
    hide InOrder, Masked, Bare;
    MaskedStep(m, p, spans);
    if spans == [] {
      assert Bare(i - 1, spans) by { NothingIsBare(i - 1); }
    } else {
      assert spans[0] in spans && forall span <- spans[1..] :: span in spans;
      BareSplit(spans, i - 1);
      var front := m[p..spans[0].start] + "[redacted]";
      assert Masked(m, p, spans) == front + Masked(m, spans[0].end, spans[1..]);
      if i > spans[0].end {
        BeforeImage(m, spans[0].end, spans[1..], i);
      } else if i == spans[0].end {
        ImageOfStart(m, i, spans[1..]);
      } else {
        InOrderBounds(m, spans[0].end, spans[1..]);
        BareInFront(i - 1, spans[0].end, spans[1..]);
      }
    }
  }

  /** A region that ends no line still ends none. */
  lemma {:induction false} RegionStaysInLine(m: Text, p: nat, spans: seq<Span>, x: nat, y: nat)
    requires InOrder(m, p, spans) && p <= x <= y <= |m| && Outside(x, spans) && Outside(y, spans)
    requires forall i | x <= i < y :: m[i] !in "\r\n"
    ensures 0 <= Image(p, spans, x) <= Image(p, spans, y) <= |Masked(m, p, spans)|
    ensures forall j | Image(p, spans, x) <= j < Image(p, spans, y) :: Masked(m, p, spans)[j] !in "\r\n"
    decreases spans
  {
    var t := Masked(m, p, spans);
    if spans != [] {
      var Span(start, end) := spans[0];
      assert spans[0] in spans && forall span <- spans[1..] :: span in spans;
      InOrderBounds(m, end, spans[1..]);
      var t1, n := Masked(m, end, spans[1..]), start - p + 10;
      assert forall j | 0 <= j < |t1| :: t[n + j] == t1[j];
      if x >= end {
        RegionStaysInLine(m, end, spans[1..], x, y);
        ShiftedRegion(t, n, t1, Image(end, spans[1..], x), Image(end, spans[1..], y));
      } else if y > start {
        RegionStaysInLine(m, end, spans[1..], end, y);
        ImageOfStart(m, end, spans[1..]);
        ShiftedRegion(t, n, t1, 0, Image(end, spans[1..], y));
      }
    }
  }

  lemma ShiftedRegion(t: Text, n: nat, t1: Text, from: nat, to: nat)
    requires from <= to <= |t1| && |t| == n + |t1| && forall j | 0 <= j < |t1| :: t[n + j] == t1[j]
    requires forall j | from <= j < to :: t1[j] !in "\r\n"
    ensures forall j | n + from <= j < n + to :: t[j] !in "\r\n"
  {
    forall j | n + from <= j < n + to ensures t[j] !in "\r\n" {
      assert t[n + (j - n)] == t1[j - n];
    }
  }

  // ---------------------------------------------------------------- secrets that a pass leaves for the next

  /** What announces a header value is found again behind a pass that touched none of it before the value. */
  lemma AnnouncementStays(m: Text, spans: seq<Span>, at: nat, start: nat, end: nat, header: Pass)
    requires InOrder(m, 0, spans) && !header.BearerTokens? && Announces(m, at, start, end, header)
    requires (forall i: nat | at <= i < start :: Bare(i, spans)) && Outside(start, spans) && Outside(end, spans)
    requires end < |m| ==> Bare(end, spans)
    ensures
      var (at1, start1, end1) := (Image(0, spans, at), Image(0, spans, start), Image(0, spans, end));
      0 <= at1 && 0 <= start1 && 0 <= end1 && Announces(Masked(m, 0, spans), at1, start1, end1, header)
  {
    hide InOrder, Masked, Image, Bare, Outside, ALPHANUMERIC, Letters, SameBytes, SpelledAt, HeaderBehind;
    hide Announces;
    AnnouncementParts(m, at, start, end, header);
    BareBytes(m, spans, at, start);
    BoundaryStays(m, spans, at);
    ValueImage(m, spans, start, end);
    PartsStay(m, Masked(m, 0, spans), at, start, end, header,
              Image(0, spans, at), Image(0, spans, start), Image(0, spans, end));
  }

  lemma PartsStay(m: Text, t: Text, at: nat, start: nat, end: nat, header: Pass, at1: nat, start1: nat, end1: nat)
    requires !header.BearerTokens? && SpelledAt(m, at, header) && HeaderBehind(m, at + |Letters(header)|, start, end)
    requires at + |Letters(header)| < start && SameBytes(m, at, t, at1, start - at)
    requires at1 > 0 ==> at1 <= |t| && t[at1 - 1] !in ALPHANUMERIC && t[at1 - 1] !in "-_"
    requires start1 == at1 + (start - at) < end1 <= |t| && t[start1] !in " \t"
    requires (forall i | start1 <= i < end1 :: t[i] !in "\r\n") && (end1 < |t| ==> t[end1] in "\r\n")
    ensures Announces(t, at1, start1, end1, header)
  {
    hide ALPHANUMERIC, Letters, SameBytes, SpelledAt, HeaderBehind;
    SpelledStays(m, t, at, at1, start - at, header);
    ValueStays(m, t, at, at1, |Letters(header)|, start, end, start1, end1);
  }

  lemma ValueImage(m: Text, spans: seq<Span>, start: nat, end: nat)
    requires InOrder(m, 0, spans) && start < end <= |m| && Outside(start, spans) && Outside(end, spans)
    requires end < |m| ==> Bare(end, spans)
    requires m[start] !in " \t" && (forall i | start <= i < end :: m[i] !in "\r\n") && (end < |m| ==> m[end] in "\r\n")
    ensures
      var t, start1, end1 := Masked(m, 0, spans), Image(0, spans, start), Image(0, spans, end);
      && 0 <= start1 < end1 <= |t| && t[start1] !in " \t"
      && (forall i | start1 <= i < end1 :: t[i] !in "\r\n") && (end1 < |t| ==> t[end1] in "\r\n")
  {
    hide InOrder, Masked, Image, Bare, Outside;
    EdgeImage(m, 0, spans, start);
    RegionStaysInLine(m, 0, spans, start, end);
    StrictImage(m, 0, spans, start, end);
    if end < |m| {
      BareImage(m, 0, spans, end);
    } else {
      EndImage(m, 0, spans);
    }
  }

  lemma AnnouncementParts(m: Text, at: nat, start: nat, end: nat, header: Pass)
    requires !header.BearerTokens? && Announces(m, at, start, end, header)
    ensures SpelledAt(m, at, header) && HeaderBehind(m, at + |Letters(header)|, start, end)
    ensures at + |Letters(header)| < start < end <= |m| && m[start] !in " \t" && 0 < |Letters(header)|
    ensures (forall i | start <= i < end :: m[i] !in "\r\n") && (end < |m| ==> m[end] in "\r\n")
    ensures at > 0 ==> m[at - 1] !in ALPHANUMERIC && m[at - 1] !in "-_"
  {
    hide ALPHANUMERIC;
    assert |Letters(header)| > 0;
  }

  lemma BareBytes(m: Text, spans: seq<Span>, at: nat, start: nat)
    requires InOrder(m, 0, spans) && at < start <= |m| && forall i: nat | at <= i < start :: Bare(i, spans)
    ensures 0 <= Image(0, spans, at) && SameBytes(m, at, Masked(m, 0, spans), Image(0, spans, at), start - at)
    ensures Image(0, spans, start) == Image(0, spans, at) + (start - at) && Bare(at, spans)
  {
    hide InOrder, Masked, Image, Bare, SameBytes;
    var t, at1 := Masked(m, 0, spans), Image(0, spans, at);
    BareRun(m, 0, spans, at, start);
    RunImage(m, spans, at, start, start - 1);
    forall j: nat | at1 <= j < at1 + (start - at) ensures j < |t| && t[j] == m[j - at1 + at] {
      RunImage(m, spans, at, start, j - at1 + at);
    }
    BytesAre(m, at, t, at1, start - at);
  }

  lemma BytesAre(m: Text, at: nat, t: Text, at1: nat, n: nat)
    requires at + n <= |m| && at1 + n <= |t| && forall j: nat | at1 <= j < at1 + n :: t[j] == m[j - at1 + at]
    ensures SameBytes(m, at, t, at1, n)
  {
  }

  lemma RunImage(m: Text, spans: seq<Span>, at: nat, start: nat, i: nat)
    requires InOrder(m, 0, spans) && at <= i < start <= |m| && forall k: nat | at <= k < start :: Bare(k, spans)
    ensures 0 <= Image(0, spans, at) && Image(0, spans, i) == Image(0, spans, at) + (i - at) < |Masked(m, 0, spans)|
    ensures Masked(m, 0, spans)[Image(0, spans, at) + (i - at)] == m[i]
  {
    hide InOrder, Masked, Image, Bare;
    BareImage(m, 0, spans, at);
    BareRun(m, 0, spans, at, i);
    BareImage(m, 0, spans, i);
  }

  lemma BoundaryStays(m: Text, spans: seq<Span>, at: nat)
    requires InOrder(m, 0, spans) && at < |m| && Bare(at, spans)
    requires at > 0 ==> m[at - 1] !in ALPHANUMERIC && m[at - 1] !in "-_"
    ensures 0 <= Image(0, spans, at) <= |Masked(m, 0, spans)|
    ensures
      var t, at1 := Masked(m, 0, spans), Image(0, spans, at);
      at1 > 0 ==> t[at1 - 1] !in ALPHANUMERIC && t[at1 - 1] !in "-_"
  {
    hide InOrder, Masked, Bare, Outside, ALPHANUMERIC;
    BareIsOutside(at, spans);
    ClassesAreLiteral(']');
    if at > 0 {
      BeforeImage(m, 0, spans, at);
    }
    BareImage(m, 0, spans, at);
    if at == 0 {
      ImageOfStart(m, 0, spans);
    }
  }

  lemma BareIsOutside(i: nat, spans: seq<Span>)
    requires Bare(i, spans)
    ensures Outside(i, spans)
  {
  }

  lemma SpelledStays(m: Text, t: Text, at: nat, at1: nat, length: nat, pass: Pass)
    requires SpelledAt(m, at, pass) && SameBytes(m, at, t, at1, length) && |Letters(pass)| <= length
    requires at1 > 0 ==> t[at1 - 1] !in ALPHANUMERIC && t[at1 - 1] !in "-_"
    ensures SpelledAt(t, at1, pass)
  {
    hide Letters, ALPHANUMERIC;
    forall k: nat | k < |Letters(pass)| ensures t[at1 + k] in Letters(pass)[k] {
      assert t[at1 + k] == m[at + k];
    }
  }

  lemma ValueStays(m: Text, t: Text, at: nat, at1: nat, n: nat, start: nat, end: nat, start1: nat, end1: nat)
    requires HeaderBehind(m, at + n, start, end) && at + n <= start && SameBytes(m, at, t, at1, start - at)
    requires start1 == at1 + (start - at) < end1 <= |t| && t[start1] !in " \t"
    requires (forall i | start1 <= i < end1 :: t[i] !in "\r\n") && (end1 < |t| ==> t[end1] in "\r\n")
    ensures HeaderBehind(t, at1 + n, start1, end1)
  {
    var colon: nat :| ValueBehind(m, at + n, colon, start, end);
    forall i | at1 + n <= i < start1
      ensures if i == at1 + (colon - at) then t[i] == ':' else t[i] in " \t"
    {
      assert t[i] == m[i - at1 + at];
    }
    assert ValueBehind(t, at1 + n, at1 + (colon - at), start1, end1);
  }

  /** A region that is not empty stays so. */
  lemma {:induction false} StrictImage(m: Text, p: nat, spans: seq<Span>, x: nat, y: nat)
    requires InOrder(m, p, spans) && p <= x < y <= |m| && Outside(x, spans) && Outside(y, spans)
    ensures Image(p, spans, x) < Image(p, spans, y)
    decreases spans
  {
    if spans != [] {
      OutsideSplit(x, spans);
      OutsideSplit(y, spans);
      ImageIsBehind(m, p, spans, y);
      if x >= spans[0].end {
        StrictImage(m, spans[0].end, spans[1..], x, y);
      }
    }
  }

  // ---------------------------------------------------------------- the spans of a pass

  lemma PassMasks(m: Text, pass: Pass)
    ensures InOrder(m, 0, Secrets(m, 0, pass)) && Masked(m, 0, Secrets(m, 0, pass)) == Redacted(m, pass)
  {
    hide Scan, Secrets;
    ScanIsSpliced(m, 0, pass);
    ApartIsInOrder(m, 0, Secrets(m, 0, pass));
  }

  /** The shape of what a pass replaces. */
  ghost predicate TokenSpan(m: Text, span: Span) {
    && 0 < span.start < span.end <= |m| && IsWhitespace(m[span.start - 1])
    && forall i | span.start <= i < span.end :: IsToken(m[i])
  }

  ghost predicate ValueSpan(m: Text, span: Span, at: nat, header: Pass) {
    && SecretAt(m, at, header) == Some(span)
    && at + |Keyword(header)| < span.start < span.end <= |m|
    && IsWord(m[at + |Keyword(header)| - 1])
    && (forall i | at + |Keyword(header)| <= i < span.start :: IsBlank(m[i]) || m[i] == ':')
    && (forall i | span.start <= i < span.end :: !EndsLine(m[i]))
    && (span.end < |m| ==> EndsLine(m[span.end]))
  }

  lemma SpanOfTokens(m: Text, span: Span)
    requires span in Secrets(m, 0, BearerTokens)
    ensures TokenSpan(m, span)
  {
    hide Secrets, SecretAt, BearerToken, KeywordAt;
    OnlySecretsAreReplaced(m, 0, BearerTokens, span);
    var at: nat :| SecretAt(m, at, BearerTokens) == Some(span);
    SecretIsAnnounced(m, at, BearerTokens);
    KeywordFits(m, at, Keyword(BearerTokens));
    SecretIsBearer(m, at);
    BearerShape(m, at + |Keyword(BearerTokens)|);
  }

  lemma SecretIsBearer(m: Text, at: nat)
    requires SecretAt(m, at, BearerTokens).Some? && at + |Keyword(BearerTokens)| <= |m|
    ensures SecretAt(m, at, BearerTokens) == BearerToken(m, at + |Keyword(BearerTokens)|)
  {
  }

  lemma SecretIsHeader(m: Text, at: nat, header: Pass)
    requires !header.BearerTokens? && SecretAt(m, at, header).Some? && at + |Keyword(header)| <= |m|
    ensures SecretAt(m, at, header) == HeaderValue(m, at + |Keyword(header)|)
  {
  }

  lemma SpanOfValues(m: Text, span: Span, header: Pass) returns (at: nat)
    requires !header.BearerTokens? && span in Secrets(m, 0, header)
    ensures ValueSpan(m, span, at, header)
  {
    hide Secrets, SecretAt, HeaderValue, MatchesAt, Keyword, IsWord;
    OnlySecretsAreReplaced(m, 0, header, span);
    at :| SecretAt(m, at, header) == Some(span);
    SecretIsAnnounced(m, at, header);
    KeywordFits(m, at, Keyword(header));
    SecretIsHeader(m, at, header);
    HeaderShape(m, at + |Keyword(header)|);
    KeywordIsWord(m, at, at + |Keyword(header)| - 1, header);
  }

  /** A header pass cuts no placeholder in two. */
  lemma ValuesAreEdged(m: Text, header: Pass)
    requires !header.BearerTokens?
    ensures AllEdged(m, Secrets(m, 0, header))
  {
    hide Secrets, SecretAt, Keyword;
    forall span <- Secrets(m, 0, header) ensures Edged(m, span) {
      var at := SpanOfValues(m, span, header);
      assert IsBlank(m[span.start - 1]) || m[span.start - 1] == ':';
    }
  }

  /** The span has nothing of an announcement that starts at `at`, and does not reach over the end of its value. */
  predicate Spares(span: Span, at: nat, start: nat, end: nat) {
    (span.end <= at || start <= span.start) && (span.end <= end || end < span.start)
  }

  lemma SparedBySpans(spans: seq<Span>, at: nat, start: nat, end: nat)
    requires at < start < end && forall span <- spans :: Spares(span, at, start, end)
    ensures (forall i: nat | at <= i < start :: Bare(i, spans)) && Outside(start, spans) && Outside(end, spans)
    ensures Bare(end, spans)
  {
  }

  /** A token that does not contain the start of an announcement spares it. */
  lemma TokensSpareHeaders(m: Text, at: nat, start: nat, end: nat, header: Pass)
    requires !header.BearerTokens? && Announces(m, at, start, end, header) && Bare(at, Secrets(m, 0, BearerTokens))
    ensures forall span <- Secrets(m, 0, BearerTokens) :: Spares(span, at, start, end)
  {
    hide Secrets, SecretAt, Announces;
    forall span <- Secrets(m, 0, BearerTokens) ensures Spares(span, at, start, end) {
      SpanOfTokens(m, span);
      AnnouncementChars(m, at, start, end, header, |Letters(header)|);
      TokenSpares(m, span, at, |Letters(header)|, start, end);
    }
  }

  lemma TokenSpares(m: Text, span: Span, at: nat, n: nat, start: nat, end: nat)
    requires TokenSpan(m, span) && !(span.start <= at < span.end) && at + n < start < end <= |m|
    requires forall i | at <= i < at + n :: IsWord(m[i])
    requires forall i | at + n <= i < start :: IsBlank(m[i]) || m[i] == ':'
    requires end < |m| ==> EndsLine(m[end])
    ensures Spares(span, at, start, end)
  {
    assert IsToken(m[span.start]) && IsWhitespace(m[span.start - 1]);
    assert forall i | span.start <= i < span.end :: !EndsLine(m[i]);
  }

  /** The kinds of characters of an announcement. */
  lemma AnnouncementChars(m: Text, at: nat, start: nat, end: nat, header: Pass, n: nat)
    requires !header.BearerTokens? && Announces(m, at, start, end, header) && n == |Letters(header)|
    ensures 0 < n && at + n < start < end <= |m|
    ensures forall i | at <= i < at + n :: IsWord(m[i])
    ensures forall i | at + n <= i < start :: IsBlank(m[i]) || m[i] == ':'
    ensures (forall i | start <= i < end :: !EndsLine(m[i])) && (end < |m| ==> EndsLine(m[end]))
  {
    hide SecretAt, Keyword, Letters, MatchesAt, IsWord, HeaderValue, Announces;
    SpelledIsKeyword(m, at, header);
    SecretsAreLiteral(m, at, start, end, header);
    SecretIsAnnounced(m, at, header);
    KeywordFits(m, at, Keyword(header));
    SecretIsHeader(m, at, header);
    HeaderShape(m, at + |Keyword(header)|);
    forall i | at <= i < at + n ensures IsWord(m[i]) {
      KeywordIsWord(m, at, i, header);
    }
  }

  /** An authorization value covers the value of an API key, or spares its announcement. */
  lemma ValueSparesOrCovers(m: Text, at: nat, start: nat, end: nat, span: Span)
    requires Announces(m, at, start, end, ApiKey) && span in Secrets(m, 0, Authorization)
    ensures (span.start <= start && end <= span.end) || Spares(span, at, start, end)
  {
    hide Secrets, SecretAt, Announces, Letters, Keyword;
    var n := |Letters(ApiKey)|;
    AnnouncementChars(m, at, start, end, ApiKey, n);
    var name := SpanOfValues(m, span, Authorization);
    assert SpelledAt(m, at, ApiKey) by { AnnouncementParts(m, at, start, end, ApiKey); }
    DifferentNames(m, at, name);
    CoversOrSpares(m, span, name + |Keyword(Authorization)|, at, n, start, end);
  }

  lemma CoversOrSpares(m: Text, span: Span, name: nat, at: nat, n: nat, start: nat, end: nat)
    requires 0 < n && at + n < start < end <= |m| && 0 < name < span.start < span.end <= |m| && name != at + n
    requires forall i | at <= i < at + n :: IsWord(m[i])
    requires forall i | at + n <= i < start :: IsBlank(m[i]) || m[i] == ':'
    requires (forall i | start <= i < end :: !EndsLine(m[i])) && (end < |m| ==> EndsLine(m[end]))
    requires IsWord(m[name - 1]) && (forall i | name <= i < span.start :: IsBlank(m[i]) || m[i] == ':')
    requires (forall i | span.start <= i < span.end :: !EndsLine(m[i])) && (span.end < |m| ==> EndsLine(m[span.end]))
    ensures (span.start <= start && end <= span.end) || Spares(span, at, start, end)
  {
    hide IsWord, IsBlank, EndsLine;
    WordsAreInLine();
    assert forall i | at <= i < end :: !EndsLine(m[i]);
    // Neither the last letter of the one name nor that of the other is a blank or a colon.
    assert IsWord(m[at + n - 1]) && IsWord(m[name - 1]);
    assert span.start <= at < span.end ==> end <= span.end;
  }

  lemma WordsAreInLine()
    ensures forall c: char {:trigger EndsLine(c)} :: IsWord(c) || IsBlank(c) || c == ':' ==> !EndsLine(c)
    ensures forall c: char {:trigger IsWord(c)} :: IsWord(c) ==> !IsBlank(c) && c != ':'
  {
  }

  /** The two header names do not end at the same place. */
  lemma DifferentNames(m: Text, at: nat, name: nat)
    requires SpelledAt(m, at, ApiKey) && SecretAt(m, name, Authorization).Some?
    ensures at + |Letters(ApiKey)| != name + |Keyword(Authorization)|
  {
    hide SecretAt, MatchesAt, KeywordAt;
    SecretIsAnnounced(m, name, Authorization);
    SpelledIsKeyword(m, name, Authorization);
    assert m[at + 8] in Letters(ApiKey)[8] && m[name + 12] in Letters(Authorization)[12];
  }

  // ---------------------------------------------------------------- results

  predicate FollowsNoDot(m: Text, at: nat) {
    0 < at <= |m| ==> m[at - 1] != '.'
  }

  /** A secret is not announced from inside a token that the first pass replaces. */
  lemma NotInsideToken(m: Text, at: nat, start: nat, end: nat, pass: Pass)
    requires Announces(m, at, start, end, pass) && FollowsNoDot(m, at)
    ensures Bare(at, Secrets(m, 0, BearerTokens))
  {
    hide Secrets, SecretAt, Letters;
    forall span <- Secrets(m, 0, BearerTokens) ensures !(span.start <= at < span.end) {
      SpanOfTokens(m, span);
      TokenStartsElsewhere(m, span, at, start, end, pass);
    }
  }

  lemma TokenStartsElsewhere(m: Text, span: Span, at: nat, start: nat, end: nat, pass: Pass)
    requires span in Secrets(m, 0, BearerTokens) && TokenSpan(m, span)
    requires Announces(m, at, start, end, pass) && FollowsNoDot(m, at)
    ensures !(span.start <= at < span.end)
  {
    hide Secrets, SecretAt, Letters, Keyword, MatchesAt, IsWord, IsToken;
    var n := |Letters(pass)|;
    SecretsAreLiteral(m, at, start, end, pass);
    SpelledIsKeyword(m, at, pass);
    TokensAreLong(m, span);
    if at > 0 {
      WordOrDot(m[at - 1]);
    }
    KeywordsAreShort(pass);
    BehindKeyword(m, at, start, end, pass);
  }

  lemma WordOrDot(c: char)
    ensures IsToken(c) <==> IsWord(c) || c == '.'
    ensures IsToken(c) ==> !IsWhitespace(c) && !IsBlank(c) && c != ':'
  {
  }

  lemma KeywordsAreShort(pass: Pass)
    ensures |Keyword(pass)| < 16 && |Letters(pass)| < 16
  {
  }

  lemma TokensAreLong(m: Text, span: Span)
    requires span in Secrets(m, 0, BearerTokens)
    ensures span.start + 16 <= span.end
  {
    hide Secrets, SecretAt, BearerToken, KeywordAt;
    OnlySecretsAreReplaced(m, 0, BearerTokens, span);
    var at: nat :| SecretAt(m, at, BearerTokens) == Some(span);
    SecretIsAnnounced(m, at, BearerTokens);
    KeywordFits(m, at, Keyword(BearerTokens));
    SecretIsBearer(m, at);
    BearerShape(m, at + |Keyword(BearerTokens)|);
  }

  /** Behind the keyword of an announcement stands no token character. */
  lemma BehindKeyword(m: Text, at: nat, start: nat, end: nat, pass: Pass)
    requires Announces(m, at, start, end, pass)
    ensures at + |Letters(pass)| < |m| && !IsToken(m[at + |Letters(pass)|])
  {
    hide SecretAt, IsWord, IsToken, ALPHANUMERIC;
    var after := at + |Letters(pass)|;
    if pass.BearerTokens? {
      ClassesAreLiteral(m[after]);
    } else {
      AnnouncementChars(m, at, start, end, pass, |Letters(pass)|);
    }
    WordOrDot(m[after]);
  }

  lemma TokenIsCovered(m: Text, at: nat, start: nat, end: nat)
    requires Announces(m, at, start, end, BearerTokens) && Bare(at, Secrets(m, 0, BearerTokens))
    ensures Covered(Span(start, end), Secrets(m, 0, BearerTokens))
  {
    hide Secrets, SecretAt, Announces;
    SecretsAreLiteral(m, at, start, end, BearerTokens);
    SecretSurvivesIff(m, 0, BearerTokens, at);
    forall span <- Secrets(m, 0, BearerTokens) ensures span.end != at + |Keyword(BearerTokens)| {
      TokensAreLong(m, span);
    }
  }

  lemma ValueIsCovered(m: Text, at: nat, start: nat, end: nat, header: Pass)
    requires !header.BearerTokens? && Announces(m, at, start, end, header)
    ensures Covered(Span(start, end), Secrets(m, 0, header))
  {
    hide Secrets, SecretAt, Announces;
    SecretsAreLiteral(m, at, start, end, header);
    SecretSurvivesIff(m, 0, header, at);
  }

  /** A covered image is reached. */
  lemma ImageIsReached(start: nat, end: nat, inner: seq<Span>, outer: seq<Span>)
    requires start < end && Outside(start, inner) && Outside(end, inner)
    requires 0 <= Image(0, inner, start) && 0 <= Image(0, inner, end)
    requires Covered(Span(Image(0, inner, start), Image(0, inner, end)), outer)
    ensures Reached(Span(start, end), 0, inner, outer)
  {
  }

  /** What the three passes replace, in terms of the original message. */
  lemma PassesMerge(m: Text) returns (first: seq<Span>, both: seq<Span>, all: seq<Span>)
    ensures first == Secrets(m, 0, BearerTokens) && InOrder(m, 0, first) && Masked(m, 0, first) == Redacted(m, BearerTokens)
    ensures
      var m1 := Redacted(m, BearerTokens);
      var second := Secrets(m1, 0, Authorization);
      && InOrder(m1, 0, second) && Masked(m1, 0, second) == Redacted(m1, Authorization)
      && Merges(m, 0, first, second, both)
      && var m2 := Redacted(m1, Authorization);
         var third := Secrets(m2, 0, ApiKey);
         && InOrder(m, 0, both) && Masked(m, 0, both) == m2
         && InOrder(m2, 0, third) && Masked(m2, 0, third) == Redacted(m2, ApiKey) == Uncapped(m)
         && Merges(m, 0, both, third, all)
  {
    hide Secrets, Redacted, InOrder, Masked, AllEdged;
    var m1 := Redacted(m, BearerTokens);
    var m2 := Redacted(m1, Authorization);
    PassMasks(m, BearerTokens);
    PassMasks(m1, Authorization);
    PassMasks(m2, ApiKey);
    ValuesAreEdged(m1, Authorization);
    ValuesAreEdged(m2, ApiKey);
    first := Secrets(m, 0, BearerTokens);
    both := MergedSpans(m, 0, first, Secrets(m1, 0, Authorization));
    all := MergedSpans(m, 0, both, Secrets(m2, 0, ApiKey));
  }

  lemma SecretIsMasked(
      m: Text, first: seq<Span>, both: seq<Span>, all: seq<Span>, at: nat, start: nat, end: nat, pass: Pass)
    requires first == Secrets(m, 0, BearerTokens) && InOrder(m, 0, first) && Masked(m, 0, first) == Redacted(m, BearerTokens)
    requires
      var m1 := Redacted(m, BearerTokens);
      var second := Secrets(m1, 0, Authorization);
      && InOrder(m1, 0, second) && Masked(m1, 0, second) == Redacted(m1, Authorization)
      && Merges(m, 0, first, second, both)
      && var m2 := Redacted(m1, Authorization);
         var third := Secrets(m2, 0, ApiKey);
         && InOrder(m, 0, both) && Masked(m, 0, both) == m2
         && InOrder(m2, 0, third) && Merges(m, 0, both, third, all)
    requires Announces(m, at, start, end, pass) && Bare(at, first)
    ensures Covered(Span(start, end), all)
  {
    hide Secrets, Redacted, InOrder, Masked, Announces, Merges, Covered, Reached;
    var q, m1 := Span(start, end), Redacted(m, BearerTokens);
    var second, m2 := Secrets(m1, 0, Authorization), Redacted(m1, Authorization);
    AnnouncedSpan(m, at, start, end, pass);
    if pass.BearerTokens? {
      TokenIsCovered(m, at, start, end);
      MergeCovers(m, first, second, both, q);
    } else {
      var at1, start1, end1 := AnnouncedBehindTokens(m, first, at, start, end, pass);
      AnnouncedSpan(m1, at1, start1, end1, pass);
      if pass == Authorization {
        ValueIsCovered(m1, at1, start1, end1, pass);
        ImageIsReached(start, end, first, second);
        MergeCovers(m, first, second, both, q);
      } else if Covered(Span(start1, end1), second) {
        ImageIsReached(start, end, first, second);
        MergeCovers(m, first, second, both, q);
      } else {
        KeyIsReached(m, m1, first, second, both, start, end, at1, start1, end1);
      }
    }
    if Covered(q, both) || Reached(q, 0, both, Secrets(m2, 0, ApiKey)) {
      MergeCovers(m, both, Secrets(m2, 0, ApiKey), all, q);
    }
  }

  lemma AnnouncedSpan(m: Text, at: nat, start: nat, end: nat, pass: Pass)
    requires Announces(m, at, start, end, pass)
    ensures at < start < end <= |m|
  {
    hide SecretAt;
    SecretsAreLiteral(m, at, start, end, pass);
    assert |Letters(pass)| > 0;
  }

  lemma MergeCovers(m: Text, inner: seq<Span>, outer: seq<Span>, all: seq<Span>, q: Span)
    requires InOrder(m, 0, inner) && InOrder(Masked(m, 0, inner), 0, outer) && Merges(m, 0, inner, outer, all)
    requires q.start < q.end && (Covered(q, inner) || Reached(q, 0, inner, outer))
    ensures Covered(q, all)
  {
  }

  /** A header value that is announced is still announced when the tokens have been replaced. */
  lemma AnnouncedBehindTokens(m: Text, first: seq<Span>, at: nat, start: nat, end: nat, header: Pass)
      returns (at1: nat, start1: nat, end1: nat)
    requires first == Secrets(m, 0, BearerTokens) && InOrder(m, 0, first) && Bare(at, first)
    requires !header.BearerTokens? && Announces(m, at, start, end, header)
    ensures Announces(Masked(m, 0, first), at1, start1, end1, header)
    ensures at1 == Image(0, first, at) && start1 == Image(0, first, start) && end1 == Image(0, first, end)
    ensures Outside(start, first) && Outside(end, first)
  {
    hide Secrets, InOrder, Masked, Announces, Image;
    TokensSpareHeaders(m, at, start, end, header);
    AnnouncedSpan(m, at, start, end, header);
    SparedBySpans(first, at, start, end);
    AnnouncementStays(m, first, at, start, end, header);
    at1, start1, end1 := Image(0, first, at), Image(0, first, start), Image(0, first, end);
  }

  /** An API key that no authorization value covers is replaced by the last pass. */
  lemma KeyIsReached(
      m: Text, m1: Text, first: seq<Span>, second: seq<Span>, both: seq<Span>,
      start: nat, end: nat, at1: nat, start1: nat, end1: nat)
    requires InOrder(m, 0, first) && Masked(m, 0, first) == m1 && second == Secrets(m1, 0, Authorization)
    requires InOrder(m1, 0, second) && Merges(m, 0, first, second, both)
    requires start < end && Outside(start, first) && Outside(end, first)
    requires start1 == Image(0, first, start) && end1 == Image(0, first, end)
    requires Announces(m1, at1, start1, end1, ApiKey) && !Covered(Span(start1, end1), second)
    ensures Reached(Span(start, end), 0, both, Secrets(Masked(m1, 0, second), 0, ApiKey))
  {
    hide Secrets, InOrder, Masked, Announces, Image;
    var m2 := Masked(m1, 0, second);
    AnnouncedSpan(m1, at1, start1, end1, ApiKey);
    forall span <- second ensures Spares(span, at1, start1, end1) {
      ValueSparesOrCovers(m1, at1, start1, end1, span);
    }
    SparedBySpans(second, at1, start1, end1);
    AnnouncementStays(m1, second, at1, start1, end1, ApiKey);
    ValueIsCovered(m2, Image(0, second, at1), Image(0, second, start1), Image(0, second, end1), ApiKey);
    assert SameImage(start, 0, first, second, both) && SameImage(end, 0, first, second, both);
    ImageIsReached(start, end, both, Secrets(m2, 0, ApiKey));
  }

  /**
   Before the cap, a message comes out as itself with some spans replaced by the placeholder, and each
   secret lies in one of them: for every spelling of a keyword that does not continue a longer word, and
   whatever it announces, unless the keyword is itself part of a token that is replaced. To be that it would
   have to follow a dot.
   */
  lemma EverySecretIsMasked(m: Text) returns (spans: seq<Span>)
    ensures InOrder(m, 0, spans) && Uncapped(m) == Masked(m, 0, spans)
    ensures
      forall at: nat, start: nat, end: nat, pass: Pass |
        Announces(m, at, start, end, pass) && Bare(at, Secrets(m, 0, BearerTokens)) :: Covered(Span(start, end), spans)
    ensures
      forall at: nat, start: nat, end: nat, pass: Pass |
        Announces(m, at, start, end, pass) && FollowsNoDot(m, at) :: Covered(Span(start, end), spans)
  {
    hide Secrets, Redacted, InOrder, Masked, Announces, Merges, Covered, Bare;
    var first, both, all := PassesMerge(m);
    spans := all;
    MergeOutcome(m, both, Secrets(Redacted(Redacted(m, BearerTokens), Authorization), 0, ApiKey), all);
    forall at: nat, start: nat, end: nat, pass: Pass |
        Announces(m, at, start, end, pass) && (FollowsNoDot(m, at) || Bare(at, first))
      ensures Covered(Span(start, end), spans)
    {
      if FollowsNoDot(m, at) {
        NotInsideToken(m, at, start, end, pass);
      }
      SecretIsMasked(m, first, both, all, at, start, end, pass);
    }
  }

  lemma MergeOutcome(m: Text, inner: seq<Span>, outer: seq<Span>, all: seq<Span>)
    requires InOrder(m, 0, inner) && InOrder(Masked(m, 0, inner), 0, outer) && Merges(m, 0, inner, outer, all)
    ensures InOrder(m, 0, all) && Masked(m, 0, all) == Masked(Masked(m, 0, inner), 0, outer)
  {
  }

  /** A message that announces nothing comes out as it is, up to the cap. */
  lemma SilentTextIsKept(m: Text)
    requires forall at: nat, start: nat, end: nat, pass: Pass :: !Announces(m, at, start, end, pass)
    ensures Uncapped(m) == m
  {
    hide Redacted, Announces, SecretAt, Scan;
    forall pass: Pass ensures Redacted(m, pass) == m {
      forall at: nat ensures SecretAt(m, at, pass).None? {
        if SecretAt(m, at, pass).Some? {
          var Span(start, end) := SecretAt(m, at, pass).value;
          SecretsAreLiteral(m, at, start, end, pass);
        }
      }
      SilentPass(m, pass);
    }
  }

  lemma SilentPass(m: Text, pass: Pass)
    requires forall at: nat :: SecretAt(m, at, pass).None?
    ensures Redacted(m, pass) == m
  {
    hide SecretAt, Scan;
    ScanOfClean(m, 0, pass);
    assert m[0..] == m;
  }

  /** What comes out announces no token any more, and no header value but the placeholder. */
  lemma NothingIsAnnounced(m: Text, at: nat, start: nat, end: nat, pass: Pass)
    requires Announces(Uncapped(m), at, start, end, pass)
    ensures !pass.BearerTokens? && start < end <= |Uncapped(m)|
    ensures Uncapped(m)[start..end] == "[redacted]"
  {
    hide Redacted, Uncapped, Announces, SecretAt, Sanitized;
    SanitizedTextIsClean(m);
    SecretsAreLiteral(Uncapped(m), at, start, end, pass);
    AnnouncedSpan(Uncapped(m), at, start, end, pass);
  }
}
