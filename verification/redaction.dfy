/**
 Redaction of provider-supplied error text: three scans that replace bearer tokens and secret header
 values by a placeholder, and the final size cap.

 Text is a sequence of bytes; a byte is written as the character with its code.
 */
module Redaction {
  import opened Numerals
  import opened Wrappers

  type Byte = char

  type Text = seq<Byte>

  const MAX_REMOTE_MESSAGE_BYTES: nat := 1024
  const MIN_BEARER_TOKEN_CHARS: nat := 16
  const REDACTED: Text := "[redacted]"

  datatype Pass = BearerTokens | Authorization | ApiKey

  const SECRET_HEADERS: seq<Pass> := [Authorization, ApiKey]

  function Keyword(pass: Pass): (keyword: Text)
    ensures |keyword| >= 2
  {
    match pass
    case BearerTokens => "bearer"
    case Authorization => "authorization"
    case ApiKey => "x-api-key"
  }

  // ---------------------------------------------------------------- bytes

  predicate IsAlphanumeric(b: Byte) {
    'a' <= b <= 'z' || 'A' <= b <= 'Z' || '0' <= b <= '9'
  }

  predicate IsWord(b: Byte) {
    IsAlphanumeric(b) || b == '-' || b == '_'
  }

  predicate IsToken(b: Byte) {
    IsAlphanumeric(b) || b == '.' || b == '_' || b == '-'
  }

  predicate IsWhitespace(b: Byte) {
    b == ' ' || b == '\t' || b == '\n' || b == '\U{000C}' || b == '\r'
  }

  predicate IsBlank(b: Byte) {
    b == ' ' || b == '\t'
  }

  predicate EndsLine(b: Byte) {
    b == '\r' || b == '\n'
  }

  function Lower(b: Byte): Byte {
    if 'A' <= b <= 'Z' then (b as int + 32) as char else b
  }

  datatype Class = Whitespace | Token | Blank | InLine

  predicate In(b: Byte, kind: Class) {
    match kind
    case Whitespace => IsWhitespace(b)
    case Token => IsToken(b)
    case Blank => IsBlank(b)
    case InLine => !EndsLine(b)
  }

  /** Where the run of bytes of one class that starts at `from` ends. */
  function RunEnd(m: Text, from: nat, kind: Class): (end: nat)
    requires from <= |m|
    ensures from <= end <= |m|
    ensures forall i | from <= i < end :: In(m[i], kind)
    ensures end < |m| ==> !In(m[end], kind)
    decreases |m| - from
  {
    if from < |m| && In(m[from], kind) then RunEnd(m, from + 1, kind) else from
  }

  // ---------------------------------------------------------------- secrets

  predicate MatchesAt(m: Text, at: nat, keyword: Text) {
    at + |keyword| <= |m| && forall k | 0 <= k < |keyword| :: Lower(m[at + k]) == Lower(keyword[k])
  }

  /** An occurrence that does not continue a longer word. */
  predicate KeywordAt(m: Text, at: nat, keyword: Text) {
    MatchesAt(m, at, keyword) && (at > 0 ==> !IsWord(m[at - 1]))
  }

  datatype Span = Span(start: nat, end: nat)

  function BearerToken(m: Text, afterKeyword: nat): Option<Span>
    requires afterKeyword <= |m|
  {
    var start := RunEnd(m, afterKeyword, Whitespace);
    var end := RunEnd(m, start, Token);
    if start == afterKeyword || end - start < MIN_BEARER_TOKEN_CHARS then None else Some(Span(start, end))
  }

  function HeaderValue(m: Text, afterName: nat): Option<Span>
    requires afterName <= |m|
  {
    var colon := RunEnd(m, afterName, Blank);
    if colon == |m| || m[colon] != ':' then None
    else
      var start := RunEnd(m, colon + 1, Blank);
      if start == |m| || EndsLine(m[start]) then None else Some(Span(start, RunEnd(m, start, InLine)))
  }

  /** The secret that an occurrence of the keyword at `at` announces. */
  function SecretAt(m: Text, at: nat, pass: Pass): (secret: Option<Span>)
    ensures secret.Some? ==> at + |Keyword(pass)| < secret.value.start < secret.value.end <= |m|
  {
    if !KeywordAt(m, at, Keyword(pass)) then None
    else if pass.BearerTokens? then BearerToken(m, at + |Keyword(pass)|)
    else HeaderValue(m, at + |Keyword(pass)|)
  }

  // ---------------------------------------------------------------- redaction as a scan

  predicate Pending(m: Text, p: nat, pending: Option<Span>) {
    p <= |m| && (pending.Some? ==> p <= pending.value.start < pending.value.end <= |m|)
  }

  /**
   The text from `p` on with its secrets replaced, looking for the keyword at every position; `pending` is
   the secret announced by a keyword that was just passed.
   */
  function Scan(m: Text, p: nat, pending: Option<Span>, pass: Pass): Text
    requires Pending(m, p, pending)
    decreases |m| - p, if pending.Some? then 0 else 1
  {
    if pending.Some? then
      if p == pending.value.start then REDACTED + Scan(m, pending.value.end, None, pass)
      else [m[p]] + Scan(m, p + 1, pending, pass)
    else if p == |m| then []
    else [m[p]] + Scan(m, p + 1, SecretAt(m, p, pass), pass)
  }

  function Redacted(m: Text, pass: Pass): Text {
    Scan(m, 0, None, pass)
  }

  lemma Concat(a: Text, b: Text, c: Text)
    ensures (a + b) + c == a + (b + c)
  {
  }

  lemma PendingStep(m: Text, p: nat, span: Span, pass: Pass)
    requires Pending(m, p, Some(span))
    ensures Scan(m, p, Some(span), pass) ==
            if p == span.start then REDACTED + Scan(m, span.end, None, pass)
            else [m[p]] + Scan(m, p + 1, Some(span), pass)
  {
    hide SecretAt;
  }

  lemma {:induction false} ScanToSecret(m: Text, p: nat, span: Span, pass: Pass)
    requires Pending(m, p, Some(span))
    ensures Scan(m, p, Some(span), pass) == m[p..span.start] + (REDACTED + Scan(m, span.end, None, pass))
    decreases span.start - p
  {
    hide Scan;
    var rest := REDACTED + Scan(m, span.end, None, pass);
    PendingStep(m, p, span, pass);
    if p == span.start {
      assert m[p..p] == [];
      assert [] + rest == rest;
    } else {
      ScanToSecret(m, p + 1, span, pass);
      assert m[p..span.start] == [m[p]] + m[p + 1..span.start];
      Concat([m[p]], m[p + 1..span.start], rest);
    }
  }

  lemma ScanStep(m: Text, p: nat, pass: Pass)
    requires p < |m| && SecretAt(m, p, pass).None?
    ensures Scan(m, p, None, pass) == [m[p]] + Scan(m, p + 1, None, pass)
  {
  }

  predicate Prose(m: Text, from: nat, to: nat, pass: Pass) {
    forall p: nat | from <= p < to :: SecretAt(m, p, pass).None?
  }

  lemma {:induction false} ScanOverProse(m: Text, from: nat, to: nat, pass: Pass)
    requires from <= to <= |m| && Prose(m, from, to, pass)
    ensures Scan(m, from, None, pass) == m[from..to] + Scan(m, to, None, pass)
    decreases |m| - from
  {
    hide SecretAt;
    var rest := Scan(m, to, None, pass);
    if from == to {
      assert m[from..to] == [];
      assert [] + rest == rest;
    } else {
      ScanStep(m, from, pass);
      ScanOverProse(m, from + 1, to, pass);
      assert m[from..to] == [m[from]] + m[from + 1..to];
      Concat([m[from]], m[from + 1..to], rest);
    }
  }

  lemma ScanOne(m: Text, p: nat, pass: Pass)
    requires p < |m|
    ensures Pending(m, p + 1, SecretAt(m, p, pass))
    ensures Scan(m, p, None, pass) == [m[p]] + Scan(m, p + 1, SecretAt(m, p, pass), pass)
  {
    hide KeywordAt, BearerToken, HeaderValue;
  }

  lemma ScanSecret(m: Text, p: nat, pass: Pass)
    requires SecretAt(m, p, pass).Some?
    ensures
      var secret := SecretAt(m, p, pass).value;
      && p < secret.start < secret.end <= |m|
      && Scan(m, p, None, pass) == m[p..secret.start] + (REDACTED + Scan(m, secret.end, None, pass))
  {
    hide SecretAt, Scan;
    var secret := SecretAt(m, p, pass).value;
    ScanOne(m, p, pass);
    ScanToSecret(m, p + 1, secret, pass);
    assert m[p..secret.start] == [m[p]] + m[p + 1..secret.start];
    Concat([m[p]], m[p + 1..secret.start], REDACTED + Scan(m, secret.end, None, pass));
  }

  // ---------------------------------------------------------------- the code

  predicate Free(m: Text, from: nat, to: nat, keyword: Text) {
    forall p: nat | from <= p < to :: !KeywordAt(m, p, keyword)
  }

  method FirstWindow(m: Text, keyword: Text, from: nat) returns (found: Option<nat>)
    requires from <= |m| && keyword != []
    ensures found.Some? ==> from <= found.value && MatchesAt(m, found.value, keyword)
    ensures forall p | from <= p < (if found.Some? then found.value else |m|) :: !MatchesAt(m, p, keyword)
  {
    var at := from;
    while at + |keyword| <= |m|
      invariant from <= at
      invariant forall p | from <= p < at :: !MatchesAt(m, p, keyword)
    {
      if MatchesAt(m, at, keyword) {
        return Some(at);
      }
      at := at + 1;
    }
    found := None;
  }

  method FindAsciiKeyword(m: Text, keyword: Text, from: nat) returns (found: Option<nat>)
    requires from <= |m| && keyword != []
    ensures found.Some? ==> from <= found.value && KeywordAt(m, found.value, keyword)
    ensures Free(m, from, if found.Some? then found.value else |m|, keyword)
  {
    var start := from;
    while start + |keyword| <= |m|
      invariant from <= start <= |m|
      invariant Free(m, from, start, keyword)
    {
      var window := FirstWindow(m, keyword, start);
      if window.None? {
        return None;
      }
      if window.value == 0 || !IsWord(m[window.value - 1]) {
        return window;
      }
      start := window.value + 1;
    }
    found := None;
  }

  method FindRunEnd(m: Text, from: nat, kind: Class) returns (end: nat)
    requires from <= |m|
    ensures end == RunEnd(m, from, kind)
  {
    end := from;
    while end < |m| && In(m[end], kind)
      invariant from <= end <= |m| && RunEnd(m, end, kind) == RunEnd(m, from, kind)
    {
      end := end + 1;
    }
  }

  method BearerTokenSpan(m: Text, afterKeyword: nat) returns (span: Option<Span>)
    requires afterKeyword <= |m|
    ensures span == BearerToken(m, afterKeyword)
  {
    if afterKeyword >= |m| || !IsWhitespace(m[afterKeyword]) {
      return None;
    }
    var start := FindRunEnd(m, afterKeyword, Whitespace);
    var end := FindRunEnd(m, start, Token);
    span := if end - start >= MIN_BEARER_TOKEN_CHARS then Some(Span(start, end)) else None;
  }

  method HeaderValueStart(m: Text, afterName: nat) returns (start: Option<nat>)
    requires afterName <= |m|
    ensures start.Some? <==> HeaderValue(m, afterName).Some?
    ensures start.Some? ==>
              start.value < |m| && HeaderValue(m, afterName).value == Span(start.value, RunEnd(m, start.value, InLine))
  {
    var cursor := FindRunEnd(m, afterName, Blank);
    if cursor == |m| || m[cursor] != ':' {
      return None;
    }
    cursor := FindRunEnd(m, cursor + 1, Blank);
    if cursor == |m| || EndsLine(m[cursor]) {
      return None;
    }
    start := Some(cursor);
  }

  /** Inside an occurrence of a keyword no other occurrence starts. */
  lemma KeywordsDoNotOverlap(m: Text, at: nat, p: nat, pass: Pass, other: Pass)
    requires MatchesAt(m, at, Keyword(pass)) && at < p < at + |Keyword(pass)|
    ensures !KeywordAt(m, p, Keyword(other))
  {
    assert IsWord(Keyword(pass)[p - 1 - at]);
    assert Lower(m[at + (p - 1 - at)]) == Lower(Keyword(pass)[p - 1 - at]);
    assert IsWord(m[p - 1]);
  }

  lemma FreeIsProse(m: Text, from: nat, to: nat, pass: Pass)
    requires Free(m, from, to, Keyword(pass))
    ensures Prose(m, from, to, pass)
  {
    hide KeywordAt;
  }

  /** A keyword that announces nothing is prose too. */
  lemma EmptyThreat(m: Text, at: nat, pass: Pass)
    requires KeywordAt(m, at, Keyword(pass)) && SecretAt(m, at, pass).None?
    ensures Prose(m, at, at + |Keyword(pass)|, pass)
  {
    hide BearerToken, HeaderValue;
    forall p: nat | at < p < at + |Keyword(pass)| ensures SecretAt(m, p, pass).None? {
      KeywordsDoNotOverlap(m, at, p, pass, pass);
    }
  }

  /** What the loop of a pass has written so far, and what is left to scan. */
  predicate Progress(m: Text, sanitized: Text, cursor: nat, pass: Pass) {
    cursor <= |m| && sanitized + Scan(m, cursor, None, pass) == Redacted(m, pass)
  }

  lemma CopyProse(m: Text, sanitized: Text, cursor: nat, to: nat, pass: Pass)
    requires Progress(m, sanitized, cursor, pass) && cursor <= to <= |m| && Prose(m, cursor, to, pass)
    ensures Progress(m, sanitized + m[cursor..to], to, pass)
  {
    hide SecretAt, Prose, Scan;
    ScanOverProse(m, cursor, to, pass);
    Concat(sanitized, m[cursor..to], Scan(m, to, None, pass));
  }

  lemma ReplaceSecret(m: Text, sanitized: Text, cursor: nat, at: nat, pass: Pass)
    requires Progress(m, sanitized, cursor, pass) && cursor <= at <= |m| && Prose(m, cursor, at, pass)
    requires SecretAt(m, at, pass).Some?
    ensures
      var secret := SecretAt(m, at, pass).value;
      && at < secret.start < secret.end <= |m|
      && Progress(m, sanitized + m[cursor..secret.start] + REDACTED, secret.end, pass)
  {
    hide SecretAt, Prose, Scan;
    ScanSecret(m, at, pass);
    var secret := SecretAt(m, at, pass).value;
    var rest := Scan(m, secret.end, None, pass);
    CopyProse(m, sanitized, cursor, at, pass);
    assert m[cursor..secret.start] == m[cursor..at] + m[at..secret.start];
    Concat(sanitized, m[cursor..at], m[at..secret.start]);
    Concat(sanitized + m[cursor..at], m[at..secret.start], REDACTED + rest);
    Concat(sanitized + m[cursor..secret.start], REDACTED, rest);
  }

  lemma KeywordFits(m: Text, at: nat, keyword: Text)
    requires KeywordAt(m, at, keyword)
    ensures at + |keyword| <= |m|
  {
  }

  lemma ProseJoins(m: Text, from: nat, mid: nat, to: nat, pass: Pass)
    requires Prose(m, from, mid, pass) && Prose(m, mid, to, pass)
    ensures Prose(m, from, to, pass)
  {
    hide SecretAt;
  }

  lemma ScanEnds(m: Text, pass: Pass)
    ensures Scan(m, |m|, None, pass) == []
  {
  }

  method RedactBearerTokens(m: Text) returns (sanitized: Text)
    ensures sanitized == Redacted(m, BearerTokens)
  {
    hide KeywordAt, BearerToken, Scan, Prose;
    var keyword := Keyword(BearerTokens);
    sanitized := [];
    var cursor := 0;
    var found := FindAsciiKeyword(m, keyword, cursor);
    while found.Some?
      invariant Progress(m, sanitized, cursor, BearerTokens)
      invariant found.Some? ==> cursor <= found.value && KeywordAt(m, found.value, keyword)
      invariant Free(m, cursor, if found.Some? then found.value else |m|, keyword)
      decreases |m| - cursor
    {
      var start := found.value;
      KeywordFits(m, start, keyword);
      FreeIsProse(m, cursor, start, BearerTokens);
      var span := BearerTokenSpan(m, start + |keyword|);
      if span.Some? {
        ReplaceSecret(m, sanitized, cursor, start, BearerTokens);
        sanitized := sanitized + m[cursor..span.value.start] + REDACTED;
        cursor := span.value.end;
      } else {
        EmptyThreat(m, start, BearerTokens);
        ProseJoins(m, cursor, start, start + |keyword|, BearerTokens);
        CopyProse(m, sanitized, cursor, start + |keyword|, BearerTokens);
        sanitized := sanitized + m[cursor..start + |keyword|];
        cursor := start + |keyword|;
      }
      found := FindAsciiKeyword(m, keyword, cursor);
    }
    FreeIsProse(m, cursor, |m|, BearerTokens);
    CopyProse(m, sanitized, cursor, |m|, BearerTokens);
    assert m[cursor..|m|] == m[cursor..];
    sanitized := sanitized + m[cursor..];
    ScanEnds(m, BearerTokens);
  }

  method RedactHeaderValue(m: Text, header: Pass) returns (sanitized: Text)
    requires !header.BearerTokens?
    ensures sanitized == Redacted(m, header)
  {
    hide KeywordAt, HeaderValue, Scan, Prose;
    var keyword := Keyword(header);
    sanitized := [];
    var cursor := 0;
    var found := FindAsciiKeyword(m, keyword, cursor);
    while found.Some?
      invariant Progress(m, sanitized, cursor, header)
      invariant found.Some? ==> cursor <= found.value && KeywordAt(m, found.value, keyword)
      invariant Free(m, cursor, if found.Some? then found.value else |m|, keyword)
      decreases |m| - cursor
    {
      var start := found.value;
      KeywordFits(m, start, keyword);
      FreeIsProse(m, cursor, start, header);
      var value := HeaderValueStart(m, start + |keyword|);
      if value.Some? {
        var end := FindRunEnd(m, value.value, InLine);
        ReplaceSecret(m, sanitized, cursor, start, header);
        sanitized := sanitized + m[cursor..value.value] + REDACTED;
        cursor := end;
      } else {
        EmptyThreat(m, start, header);
        ProseJoins(m, cursor, start, start + |keyword|, header);
        CopyProse(m, sanitized, cursor, start + |keyword|, header);
        sanitized := sanitized + m[cursor..start + |keyword|];
        cursor := start + |keyword|;
      }
      found := FindAsciiKeyword(m, keyword, cursor);
    }
    FreeIsProse(m, cursor, |m|, header);
    CopyProse(m, sanitized, cursor, |m|, header);
    assert m[cursor..|m|] == m[cursor..];
    sanitized := sanitized + m[cursor..];
    ScanEnds(m, header);
  }

  // ---------------------------------------------------------------- shape of secrets

  lemma RunEndIs(m: Text, from: nat, kind: Class, end: nat)
    requires from <= end <= |m| && (forall i | from <= i < end :: In(m[i], kind)) && (end < |m| ==> !In(m[end], kind))
    ensures RunEnd(m, from, kind) == end
  {
  }

  lemma BearerShape(m: Text, after: nat)
    requires after <= |m| && BearerToken(m, after).Some?
    ensures
      var Span(start, end) := BearerToken(m, after).value;
      && after < start && start + MIN_BEARER_TOKEN_CHARS <= end <= |m|
      && (forall i | after <= i < start :: IsWhitespace(m[i]))
      && (forall i | start <= i < end :: IsToken(m[i]))
      && (end < |m| ==> !IsToken(m[end]))
  {
    var start := RunEnd(m, after, Whitespace);
    assert forall i | after <= i < start :: In(m[i], Whitespace);
    assert forall i | start <= i < RunEnd(m, start, Token) :: In(m[i], Token);
  }

  lemma HeaderShape(m: Text, after: nat)
    requires after <= |m| && HeaderValue(m, after).Some?
    ensures
      var Span(start, end) := HeaderValue(m, after).value;
      && after < start < end <= |m|
      && (forall i | after <= i < start :: IsBlank(m[i]) || m[i] == ':')
      && !IsBlank(m[start])
      && (forall i | start <= i < end :: !EndsLine(m[i]))
      && (end < |m| ==> EndsLine(m[end]))
  {
    var colon := RunEnd(m, after, Blank);
    var start := RunEnd(m, colon + 1, Blank);
    assert forall i | after <= i < colon :: In(m[i], Blank);
    assert forall i | colon + 1 <= i < start :: In(m[i], Blank);
    assert start < |m| ==> !In(m[start], Blank);
    assert forall i | start <= i < RunEnd(m, start, InLine) :: In(m[i], InLine);
  }

  lemma KeywordIsWord(m: Text, at: nat, p: nat, pass: Pass)
    requires MatchesAt(m, at, Keyword(pass)) && at <= p < at + |Keyword(pass)|
    ensures p < |m| && IsWord(m[p]) && m[p] != '['
  {
    assert IsWord(Keyword(pass)[p - at]);
    assert Lower(m[at + (p - at)]) == Lower(Keyword(pass)[p - at]);
  }

  /** What surrounds a secret. */
  lemma SecretShape(m: Text, at: nat, pass: Pass)
    requires SecretAt(m, at, pass).Some?
    ensures
      var Span(start, end) := SecretAt(m, at, pass).value;
      && MatchesAt(m, at, Keyword(pass))
      && at + |Keyword(pass)| < start < end <= |m|
      && (forall i | at + |Keyword(pass)| <= i < start :: IsWhitespace(m[i]) || m[i] == ':')
      && !IsBlank(m[start]) && !EndsLine(m[start])
      && (end < |m| ==> !IsWord(m[end]))
      && (!pass.BearerTokens? && end < |m| ==> EndsLine(m[end]))
      && (!pass.BearerTokens? ==> forall i | start <= i < end :: !EndsLine(m[i]))
  {
    hide RunEnd, BearerToken, HeaderValue, MatchesAt;
    KeywordFits(m, at, Keyword(pass));
    if pass.BearerTokens? {
      BearerShape(m, at + |Keyword(pass)|);
    } else {
      HeaderShape(m, at + |Keyword(pass)|);
    }
  }

  /** Between the first byte of a keyword and its secret no word starts. */
  lemma NoWordStartsBeforeSecret(m: Text, at: nat, p: nat, pass: Pass)
    requires SecretAt(m, at, pass).Some? && at < p < SecretAt(m, at, pass).value.start
    ensures IsWord(m[p - 1]) || !IsWord(m[p])
  {
    hide SecretAt, MatchesAt;
    SecretShape(m, at, pass);
    if p < at + |Keyword(pass)| {
      KeywordIsWord(m, at, p - 1, pass);
    }
  }

  lemma NoKeywordInPlaceholder(rest: Text, i: nat, pass: Pass)
    requires i < |REDACTED|
    ensures !MatchesAt(REDACTED + rest, i, Keyword(pass))
  {
    var text, keyword := REDACTED + rest, Keyword(pass);
    assert text[i] == REDACTED[i];
    if i + 1 < |REDACTED| {
      assert text[i + 1] == REDACTED[i + 1];
      assert Lower(text[i + 0]) != Lower(keyword[0]) || Lower(text[i + 1]) != Lower(keyword[1]);
    } else {
      assert Lower(text[i + 0]) != Lower(keyword[0]);
    }
  }

  // ---------------------------------------------------------------- where the output comes from

  /** `pending` was announced by the keyword at `origin`, before `p`. */
  ghost predicate Announced(m: Text, p: nat, pending: Option<Span>, pass: Pass, origin: nat) {
    && Pending(m, p, pending)
    && (pending.Some? ==> origin < p && SecretAt(m, origin, pass) == pending)
  }

  predicate Copies(m: Text, p: nat, pending: Option<Span>)
    requires Pending(m, p, pending)
  {
    if pending.Some? then p < pending.value.start else p < |m|
  }

  function Next(m: Text, p: nat, pending: Option<Span>, pass: Pass): Option<Span>
    requires Pending(m, p, pending)
  {
    if pending.Some? then pending else SecretAt(m, p, pass)
  }

  /** A step that copies a byte. */
  lemma ScanCopies(m: Text, p: nat, pending: Option<Span>, pass: Pass, origin: nat) returns (nextOrigin: nat)
    requires Announced(m, p, pending, pass, origin) && Copies(m, p, pending)
    ensures Announced(m, p + 1, Next(m, p, pending, pass), pass, nextOrigin)
    ensures Scan(m, p, pending, pass) == [m[p]] + Scan(m, p + 1, Next(m, p, pending, pass), pass)
  {
    hide SecretAt;
    nextOrigin := if pending.Some? then origin else p;
    if pending.None? && SecretAt(m, p, pass).Some? {
      SecretShape(m, p, pass);
    }
  }

  lemma CopiedByte(m: Text, p: nat, pending: Option<Span>, pass: Pass, origin: nat)
    requires Announced(m, p, pending, pass, origin) && Copies(m, p, pending)
    ensures p < |m| && Scan(m, p, pending, pass) != [] && Scan(m, p, pending, pass)[0] == m[p]
  {
    hide SecretAt, Scan;
    var _ := ScanCopies(m, p, pending, pass, origin);
    var later := Scan(m, p + 1, Next(m, p, pending, pass), pass);
    assert Scan(m, p, pending, pass) == [m[p]] + later;
  }

  /** The two other kinds of step: the end of the text and the start of a secret. */
  lemma ScanStops(m: Text, p: nat, pending: Option<Span>, pass: Pass)
    requires Pending(m, p, pending) && !Copies(m, p, pending)
    ensures Scan(m, p, pending, pass) ==
            if pending.None? then [] else REDACTED + Scan(m, pending.value.end, None, pass)
  {
    hide SecretAt;
  }

  lemma MatchesLater(a: Text, b: Text, i: nat, keyword: Text)
    requires MatchesAt(a + b, i, keyword) && |a| <= i
    ensures MatchesAt(b, i - |a|, keyword)
  {
    forall k | 0 <= k < |keyword| ensures Lower(b[i - |a| + k]) == Lower(keyword[k]) {
      assert (a + b)[i + k] == b[i - |a| + k];
    }
  }

  /** A word-boundary occurrence that starts behind a placeholder starts strictly behind it. */
  lemma BehindPlaceholder(m: Text, origin: nat, pass: Pass, rest: Text, i: nat, other: Pass)
    requires SecretAt(m, origin, pass).Some? && rest == Scan(m, SecretAt(m, origin, pass).value.end, None, pass)
    requires MatchesAt(REDACTED + rest, i, Keyword(other))
    ensures |REDACTED| < i && MatchesAt(rest, i - |REDACTED|, Keyword(other))
    ensures (REDACTED + rest)[i - 1] == rest[i - |REDACTED| - 1] && (REDACTED + rest)[i..] == rest[i - |REDACTED|..]
  {
    hide SecretAt, IsWord, Keyword;
    var Span(_, end) := SecretAt(m, origin, pass).value;
    SecretShape(m, origin, pass);
    if i < |REDACTED| {
      NoKeywordInPlaceholder(rest, i, other);
    }
    MatchesLater(REDACTED, rest, i, Keyword(other));
    KeywordIsWord(rest, i - |REDACTED|, i - |REDACTED|, other);
    assert end < |m| ==> rest[0] == m[end];
  }

  lemma OneByteOn(first: Byte, rest: Text, output: Text, i: nat)
    requires output == [first] + rest && 1 <= i <= |output|
    ensures output[i - 1] == (if i == 1 then first else rest[i - 2]) && output[i..] == rest[i - 1..]
  {
  }

  /** A word-boundary occurrence in the output is copied from the input, and scanning resumes right there. */
  lemma {:induction false} Locate(m: Text, p: nat, pending: Option<Span>, pass: Pass, origin: nat, i: nat, other: Pass)
      returns (source: nat)
    requires Announced(m, p, pending, pass, origin)
    requires MatchesAt(Scan(m, p, pending, pass), i, Keyword(other))
    requires if i == 0 then p > 0 ==> !IsWord(m[p - 1]) else !IsWord(Scan(m, p, pending, pass)[i - 1])
    ensures p <= source <= |m| && (source > 0 ==> !IsWord(m[source - 1]))
    ensures Scan(m, p, pending, pass)[i..] == Scan(m, source, None, pass)
    decreases |m| - p, if pending.Some? then 0 else 1
  {
    hide SecretAt, MatchesAt, IsWord, Keyword, Scan, Evidence, SameBytes;
    var output := Scan(m, p, pending, pass);
    KeywordIsWord(output, i, i, other);
    if i == 0 && pending.None? {
      source := p;
    } else if Copies(m, p, pending) {
      var next := Next(m, p, pending, pass);
      var nextOrigin := ScanCopies(m, p, pending, pass, origin);
      var rest := Scan(m, p + 1, next, pass);
      if i == 0 {
        NoWordStartsBeforeSecret(m, origin, p, pass);
        assert false;
      } else {
        MatchesLater([m[p]], rest, i, Keyword(other));
        OneByteOn(m[p], rest, output, i);
        source := Locate(m, p + 1, next, pass, nextOrigin, i - 1, other);
      }
    } else {
      ScanStops(m, p, pending, pass);
      var end := pending.value.end;
      var rest := Scan(m, end, None, pass);
      BehindPlaceholder(m, origin, pass, rest, i, other);
      source := Locate(m, end, None, pass, origin, i - |REDACTED|, other);
    }
  }

  lemma FirstByteCopied(m: Text, p: nat, pending: Option<Span>, pass: Pass)
    requires Pending(m, p, pending) && Scan(m, p, pending, pass) != [] && Scan(m, p, pending, pass)[0] != '['
    ensures Copies(m, p, pending)
  {
    hide SecretAt;
  }

  /** Output bytes before the first bracket are copied. */
  lemma {:induction false} CopiedPrefix(m: Text, p: nat, pending: Option<Span>, pass: Pass, origin: nat, n: nat)
      returns (rest: Option<Span>, restOrigin: nat)
    requires Announced(m, p, pending, pass, origin)
    requires n <= |Scan(m, p, pending, pass)|
    requires forall k | 0 <= k < n :: Scan(m, p, pending, pass)[k] != '['
    ensures p + n <= |m| && m[p..p + n] == Scan(m, p, pending, pass)[..n]
    ensures Announced(m, p + n, rest, pass, restOrigin)
    ensures Scan(m, p, pending, pass)[n..] == Scan(m, p + n, rest, pass)
    decreases n
  {
    hide SecretAt, Scan;
    var output := Scan(m, p, pending, pass);
    if n == 0 {
      rest, restOrigin := pending, origin;
    } else {
      FirstByteCopied(m, p, pending, pass);
      var next := Next(m, p, pending, pass);
      var nextOrigin := ScanCopies(m, p, pending, pass, origin);
      var later := Scan(m, p + 1, next, pass);
      assert forall k | 0 <= k < n - 1 :: later[k] == output[k + 1];
      rest, restOrigin := CopiedPrefix(m, p + 1, next, pass, nextOrigin, n - 1);
      assert output[n..] == later[n - 1..];
      assert output[..n] == [m[p]] + later[..n - 1];
      assert m[p..p + n] == [m[p]] + m[p + 1..p + n];
    }
  }

  // ---------------------------------------------------------------- secrets are made of bytes

  /** The `n` bytes of `a` from `i` on and the `n` bytes of `b` from `r` on are the same. */
  ghost predicate SameBytes(a: Text, i: nat, b: Text, r: nat, n: nat) {
    && i + n <= |a| && r + n <= |b|
    && (forall j | r <= j < r + n :: b[j] == a[j - r + i])
  }

  lemma SameBytesLater(a: Text, i: nat, b: Text, r: nat, n: nat, k: nat)
    requires SameBytes(a, i, b, r, n) && k <= n
    ensures SameBytes(a, i + k, b, r + k, n - k) && i + k <= |a| && r + k <= |b|
  {
  }

  lemma SameBytesFromSlices(a: Text, i: nat, b: Text, r: nat, n: nat)
    requires i + n <= |a| && r + n <= |b| && a[i..i + n] == b[r..r + n]
    ensures SameBytes(a, i, b, r, n)
  {
    forall j | r <= j < r + n ensures b[j] == a[j - r + i] {
      assert b[r..r + n][j - r] == a[i..i + n][j - r];
    }
  }

  lemma KeywordByBytes(a: Text, i: nat, b: Text, r: nat, n: nat, keyword: Text)
    requires MatchesAt(a, i, keyword) && |keyword| <= n && SameBytes(a, i, b, r, n)
    requires r > 0 ==> !IsWord(b[r - 1])
    ensures KeywordAt(b, r, keyword)
  {
    hide IsWord;
    forall k | 0 <= k < |keyword| ensures Lower(b[r + k]) == Lower(keyword[k]) {
      assert b[r + k] == a[i + k];
    }
  }

  lemma RunByBytes(a: Text, i: nat, b: Text, r: nat, n: nat, from: nat, kind: Class)
    requires SameBytes(a, i, b, r, n) && i <= from && RunEndsBefore(a, from, kind, i + n)
    ensures RunEnd(b, from - i + r, kind) == RunEnd(a, from, kind) - i + r
  {
    hide In;
    RunEndIs(b, from - i + r, kind, RunEnd(a, from, kind) - i + r);
  }

  predicate RunEndsBefore(m: Text, from: nat, kind: Class, limit: nat) {
    from < limit <= |m| && RunEnd(m, from, kind) < limit
  }

  lemma RunReaches(m: Text, from: nat, kind: Class, to: nat)
    requires from <= to <= |m| && forall i | from <= i < to :: In(m[i], kind)
    ensures to <= RunEnd(m, from, kind)
  {
    hide In;
  }

  /** The blanks and sixteen token bytes are enough to be a bearer token. */
  lemma BearerByBytes(a: Text, i: nat, b: Text, r: nat)
    requires i <= |a| && BearerToken(a, i).Some?
    requires SameBytes(a, i, b, r, BearerToken(a, i).value.start - i + MIN_BEARER_TOKEN_CHARS)
    ensures BearerToken(b, r).Some? && BearerToken(b, r).value.start == BearerToken(a, i).value.start - i + r
  {
    var start := BearerToken(a, i).value.start;
    var n := start - i + MIN_BEARER_TOKEN_CHARS;
    BearerShape(a, i);
    RunByBytes(a, i, b, r, n, i, Whitespace);
    assert forall j | start - i + r <= j < r + n :: In(b[j], Token);
    RunReaches(b, start - i + r, Token, r + n);
  }

  /** The colon, the blanks and one byte are enough to be a header value. */
  lemma HeaderByBytes(a: Text, i: nat, b: Text, r: nat)
    requires i <= |a| && HeaderValue(a, i).Some?
    requires SameBytes(a, i, b, r, HeaderValue(a, i).value.start - i + 1)
    ensures HeaderValue(b, r).Some? && HeaderValue(b, r).value.start == HeaderValue(a, i).value.start - i + r
  {
    var n := HeaderValue(a, i).value.start - i + 1;
    var colon := RunEnd(a, i, Blank);
    RunByBytes(a, i, b, r, n, i, Blank);
    RunByBytes(a, i, b, r, n, colon + 1, Blank);
  }

  /** How much of a text it takes to see that a secret is announced at `i`. */
  function Evidence(m: Text, i: nat, pass: Pass): nat
    requires SecretAt(m, i, pass).Some?
  {
    SecretAt(m, i, pass).value.start - i + if pass.BearerTokens? then MIN_BEARER_TOKEN_CHARS else 1
  }

  lemma SecretByBytes(a: Text, i: nat, b: Text, r: nat, pass: Pass)
    requires SecretAt(a, i, pass).Some? && SameBytes(a, i, b, r, Evidence(a, i, pass))
    requires r > 0 ==> !IsWord(b[r - 1])
    ensures SecretAt(b, r, pass).Some? && SecretAt(b, r, pass).value.start == SecretAt(a, i, pass).value.start - i + r
  {
    hide MatchesAt, BearerToken, HeaderValue, Keyword, IsWord, RunEnd, SameBytes;
    var length := |Keyword(pass)|;
    SecretBytes(a, i, pass);
    SecretShape(a, i, pass);
    KeywordByBytes(a, i, b, r, Evidence(a, i, pass), Keyword(pass));
    SameBytesLater(a, i, b, r, Evidence(a, i, pass), length);
    if pass.BearerTokens? {
      BearerByBytes(a, i + length, b, r + length);
    } else {
      HeaderByBytes(a, i + length, b, r + length);
    }
  }

  /** No byte of a keyword, of what separates it from its secret, or of a bearer token is a bracket. */
  lemma SecretBytes(m: Text, i: nat, pass: Pass)
    requires SecretAt(m, i, pass).Some?
    ensures MatchesAt(m, i, Keyword(pass)) && (i > 0 ==> !IsWord(m[i - 1]))
    ensures
      var Span(start, end) := SecretAt(m, i, pass).value;
      && i < start < end <= |m| && i + Evidence(m, i, pass) <= |m|
      && (forall k | i <= k < start :: m[k] != '[')
      && (pass.BearerTokens? ==> forall k | start <= k < start + MIN_BEARER_TOKEN_CHARS :: m[k] != '[')
  {
    hide MatchesAt, RunEnd;
    SecretShape(m, i, pass);
    forall k | i <= k < SecretAt(m, i, pass).value.start ensures m[k] != '[' {
      if k < i + |Keyword(pass)| {
        KeywordIsWord(m, i, k, pass);
      }
    }
    if pass.BearerTokens? {
      BearerShape(m, i + |Keyword(pass)|);
    }
  }

  // ---------------------------------------------------------------- what the passes remove

  ghost predicate NoBearer(m: Text) {
    forall i: nat :: SecretAt(m, i, BearerTokens).None?
  }

  /** Every header-shaped value is the placeholder up to the end of its line. */
  ghost predicate HeadersMasked(m: Text, header: Pass) {
    forall i: nat ::
      SecretAt(m, i, header).Some? ==>
        m[SecretAt(m, i, header).value.start..SecretAt(m, i, header).value.end] == REDACTED
  }

  lemma SecretIsReplaced(m: Text, at: nat, pass: Pass)
    requires SecretAt(m, at, pass).Some?
    ensures
      var offset := SecretAt(m, at, pass).value.start - at;
      && 0 < offset < |Scan(m, at, None, pass)| && Scan(m, at, None, pass)[offset] == '['
  {
    hide SecretAt, Scan;
    ScanSecret(m, at, pass);
  }

  /** A bearer secret in the output of any pass is, byte for byte, one in its input. */
  lemma BearerIsCopied(m: Text, pass: Pass, i: nat) returns (source: nat)
    requires SecretAt(Redacted(m, pass), i, BearerTokens).Some?
    ensures SecretAt(m, source, BearerTokens).Some? && !pass.BearerTokens?
  {
    hide SecretAt, Scan, Keyword, MatchesAt;
    var output := Redacted(m, pass);
    var start := SecretAt(output, i, BearerTokens).value.start;
    var n := Evidence(output, i, BearerTokens);
    SecretBytes(output, i, BearerTokens);
    source := Locate(m, 0, None, pass, 0, i, BearerTokens);
    var scanned := Scan(m, source, None, pass);
    assert forall k | 0 <= k < n :: scanned[k] == output[i + k];
    var rest, restOrigin := CopiedPrefix(m, source, None, pass, 0, n);
    assert scanned[..n] == output[i..i + n];
    SameBytesFromSlices(output, i, m, source, n);
    SecretByBytes(output, i, m, source, BearerTokens);
    assert scanned[start - i] != '[';
    if pass.BearerTokens? {
      SecretIsReplaced(m, source, pass);
    }
  }

  /** A placeholder in the input is copied as it is: no keyword starts in it, and no secret starts behind its first byte. */
  lemma OverPlaceholder(m: Text, x: nat, rest: Option<Span>, pass: Pass, origin: nat)
    requires x + |REDACTED| <= |m| && m[x..x + |REDACTED|] == REDACTED
    requires Announced(m, x, rest, pass, origin) && (rest.Some? ==> x < rest.value.start)
    ensures Announced(m, x + |REDACTED|, rest, pass, origin)
    ensures Scan(m, x, rest, pass) == REDACTED + Scan(m, x + |REDACTED|, rest, pass)
  {
    hide SecretAt, Scan;
    var y := x + |REDACTED|;
    if rest.None? {
      forall p: nat | x <= p < y ensures SecretAt(m, p, pass).None? {
        NoSecretInPlaceholder(m, x, p - x, pass);
        assert x + (p - x) == p;
      }
      ScanOverProse(m, x, y, pass);
    } else {
      var start := rest.value.start;
      SecretStartsBehind(m, x, origin, pass);
      ScanToSecret(m, x, rest.value, pass);
      ScanToSecret(m, y, rest.value, pass);
      assert m[x..start] == m[x..y] + m[y..start];
      Concat(m[x..y], m[y..start], REDACTED + Scan(m, rest.value.end, None, pass));
    }
  }

  lemma SecretStartsBehind(m: Text, x: nat, origin: nat, pass: Pass)
    requires x + |REDACTED| <= |m| && m[x..x + |REDACTED|] == REDACTED
    requires SecretAt(m, origin, pass).Some? && x < SecretAt(m, origin, pass).value.start
    ensures x + |REDACTED| <= SecretAt(m, origin, pass).value.start
  {
    hide SecretAt;
    SecretShape(m, origin, pass);
    forall j | x <= j < x + |REDACTED| ensures !IsWhitespace(m[j]) && m[j] != ':' {
      assert m[j] == m[x..x + |REDACTED|][j - x] == REDACTED[j - x];
    }
    var start := SecretAt(m, origin, pass).value.start;
    assert m[start - 1] == ':' || IsWhitespace(m[start - 1]);
  }

  ghost predicate NoSecretInside(m: Text, x: nat, k: nat, pass: Pass) {
    SecretAt(m, x + k, pass).None?
  }

  lemma NoSecretInPlaceholder(m: Text, x: nat, k: nat, pass: Pass)
    requires k < |REDACTED| && x + |REDACTED| <= |m| && m[x..x + |REDACTED|] == REDACTED
    ensures NoSecretInside(m, x, k, pass)
  {
    hide BearerToken, HeaderValue, MatchesAt, Keyword;
    var rest := m[x + |REDACTED|..];
    assert m[x..] == m[x..x + |REDACTED|] + rest;
    NoKeywordInPlaceholder(rest, k, pass);
    if MatchesAt(m, x + k, Keyword(pass)) {
      MatchesInTail(m, x, k, Keyword(pass));
    }
  }

  lemma MatchesInTail(m: Text, x: nat, k: nat, keyword: Text)
    requires x <= |m| && MatchesAt(m, x + k, keyword)
    ensures MatchesAt(m[x..], k, keyword)
  {
    forall l | 0 <= l < |keyword| ensures Lower(m[x..][k + l]) == Lower(keyword[l]) {
      assert m[x..][k + l] == m[x + k + l];
    }
  }

  lemma ValueEndsAtLine(m: Text, i: nat, header: Pass)
    requires !header.BearerTokens? && SecretAt(m, i, header).Some?
    ensures
      var Span(start, end) := SecretAt(m, i, header).value;
      && start < end <= |m|
      && (forall j | start <= j < end :: !EndsLine(m[j]))
      && (end < |m| ==> EndsLine(m[end]))
  {
    hide SecretAt;
    SecretShape(m, i, header);
  }

  /** A value that reads as the placeholder and the end of a line is the placeholder. */
  lemma PlaceholderIsValue(m: Text, i: nat, header: Pass, rest: Text)
    requires !header.BearerTokens? && SecretAt(m, i, header).Some?
    requires m[SecretAt(m, i, header).value.start..] == REDACTED + rest && (rest == [] || EndsLine(rest[0]))
    ensures
      var Span(start, end) := SecretAt(m, i, header).value;
      m[start..end] == REDACTED
  {
    hide SecretAt;
    var Span(start, end) := SecretAt(m, i, header).value;
    ValueEndsAtLine(m, i, header);
    var tail := m[start..];
    forall j | start <= j < start + |REDACTED| ensures m[j] == REDACTED[j - start] && !EndsLine(m[j]) {
      assert m[j] == tail[j - start];
    }
    assert rest != [] ==> m[start + |REDACTED|] == tail[|REDACTED|] == rest[0];
    assert end == start + |REDACTED|;
    assert m[start..end] == tail[..|REDACTED|];
  }

  /** The text is used up, or the next output byte ends the line. */
  ghost predicate AtLineEnd(m: Text, e: nat) {
    e <= |m| && (e < |m| ==> EndsLine(m[e]))
  }

  lemma ScanFromLineEnd(m: Text, e: nat, rest: Option<Span>, pass: Pass, origin: nat)
    requires AtLineEnd(m, e) && Announced(m, e, rest, pass, origin)
    ensures Scan(m, e, rest, pass) == [] || EndsLine(Scan(m, e, rest, pass)[0])
  {
    hide SecretAt, Scan;
    if e == |m| {
      ScanStops(m, e, rest, pass);
    } else {
      if rest.Some? {
        SecretShape(m, origin, pass);
      }
      CopiedByte(m, e, rest, pass, origin);
    }
  }

  /** Where a header value in the output of a header pass comes from: the output from its start on. */
  lemma HeaderValueInOutput(m: Text, source: nat, header: Pass, pass: Pass, x: nat, rest: Option<Span>, origin: nat)
      returns (z: Text)
    requires !header.BearerTokens? && !pass.BearerTokens? && (pass == header || HeadersMasked(m, header))
    requires Announced(m, x, rest, pass, origin)
    requires source <= x && Scan(m, source, None, pass)[..] != [] 
    requires x - source <= |Scan(m, source, None, pass)|
    requires Scan(m, source, None, pass)[x - source..] == Scan(m, x, rest, pass)
    requires Copies(m, x, rest) ==> SecretAt(m, source, header).Some? && SecretAt(m, source, header).value.start == x
    requires Copies(m, x, rest) || rest.Some?
    ensures Scan(m, x, rest, pass) == REDACTED + z && (z == [] || EndsLine(z[0]))
  {
    hide SecretAt, Scan, MatchesAt;
    if !Copies(m, x, rest) {
      ScanStops(m, x, rest, pass);
      SecretShape(m, origin, pass);
      z := Scan(m, rest.value.end, None, pass);
      ScanFromLineEnd(m, rest.value.end, None, pass, 0);
    } else {
      SecretShape(m, source, header);
      var end := SecretAt(m, source, header).value.end;
      if pass == header {
        ScanSecret(m, source, pass);
        z := Scan(m, end, None, pass);
        ScanFromLineEnd(m, end, None, pass, 0);
      } else {
        assert m[x..end] == REDACTED;
        assert end == x + |REDACTED|;
        OverPlaceholder(m, x, rest, pass, origin);
        z := Scan(m, end, rest, pass);
        ScanFromLineEnd(m, end, rest, pass, origin);
      }
    }
  }

  lemma SameBytesOneMore(a: Text, i: nat, b: Text, r: nat, n: nat)
    requires SameBytes(a, i, b, r, n) && i + n < |a| && r + n < |b| && a[i + n] == b[r + n]
    ensures SameBytes(a, i, b, r, n + 1)
  {
  }

  lemma TailOf(output: Text, i: nat, tail: Text, n: nat)
    requires i <= |output| && tail == output[i..] && n <= |tail|
    ensures tail[..n] == output[i..i + n] && tail[n..] == output[i + n..]
    ensures forall k | 0 <= k < |tail| :: tail[k] == output[i + k]
  {
  }

  lemma HeaderIsMasked(m: Text, pass: Pass, i: nat, header: Pass)
    requires !header.BearerTokens? && !pass.BearerTokens? && (pass == header || HeadersMasked(m, header))
    requires SecretAt(Redacted(m, pass), i, header).Some?
    ensures
      var Span(start, end) := SecretAt(Redacted(m, pass), i, header).value;
      start < end <= |Redacted(m, pass)| && Redacted(m, pass)[start..end] == REDACTED
  {
    hide SecretAt, Scan, Keyword, MatchesAt, HeadersMasked, SameBytes, IsWord, IsBlank, EndsLine;
    var output := Redacted(m, pass);
    var start := SecretAt(output, i, header).value.start;
    var n := start - i;
    SecretBytes(output, i, header);
    SecretShape(output, i, header);
    var source := Locate(m, 0, None, pass, 0, i, header);
    var scanned := Scan(m, source, None, pass);
    TailOf(output, i, scanned, n);
    var rest, origin := CopiedPrefix(m, source, None, pass, 0, n);
    var x := source + n;
    SameBytesFromSlices(output, i, m, source, n);
    if Copies(m, x, rest) {
      CopiedByte(m, x, rest, pass, origin);
      assert scanned[n] == output[i + n];
      SameBytesOneMore(output, i, m, source, n);
      SecretByBytes(output, i, m, source, header);
    } else {
      ScanStops(m, x, rest, pass);
    }
    var z := HeaderValueInOutput(m, source, header, pass, x, rest, origin);
    PlaceholderIsValue(output, i, header, z);
  }

  // ---------------------------------------------------------------- results about one pass

  /** The bearer pass leaves no bearer secret, and no later pass makes a new one. */
  lemma BearerPassCleans(m: Text, pass: Pass)
    requires pass.BearerTokens? || NoBearer(m)
    ensures NoBearer(Redacted(m, pass))
  {
    hide SecretAt, Redacted;
    forall i: nat ensures SecretAt(Redacted(m, pass), i, BearerTokens).None? {
      if SecretAt(Redacted(m, pass), i, BearerTokens).Some? {
        var source := BearerIsCopied(m, pass, i);
      }
    }
  }

  /** A header pass masks every value of its header, and the other one makes no new value. */
  lemma HeaderPassMasks(m: Text, pass: Pass, header: Pass)
    requires !header.BearerTokens? && !pass.BearerTokens? && (pass == header || HeadersMasked(m, header))
    ensures HeadersMasked(Redacted(m, pass), header)
  {
    hide SecretAt, Redacted;
    forall i: nat | SecretAt(Redacted(m, pass), i, header).Some?
      ensures
        var secret := SecretAt(Redacted(m, pass), i, header).value;
        Redacted(m, pass)[secret.start..secret.end] == REDACTED
    {
      HeaderIsMasked(m, pass, i, header);
    }
  }

  /** Nothing is left for a pass to do: no bearer secret, or only masked values of its header. */
  ghost predicate Clean(m: Text, pass: Pass) {
    if pass.BearerTokens? then NoBearer(m) else HeadersMasked(m, pass)
  }

  lemma {:induction false} ScanOfClean(m: Text, p: nat, pass: Pass)
    requires Clean(m, pass) && p <= |m|
    ensures Scan(m, p, None, pass) == m[p..]
    decreases |m| - p
  {
    hide SecretAt, Scan;
    if p == |m| {
      ScanEnds(m, pass);
    } else if SecretAt(m, p, pass).None? {
      ScanStep(m, p, pass);
      ScanOfClean(m, p + 1, pass);
      assert m[p..] == [m[p]] + m[p + 1..];
    } else {
      ScanSecret(m, p, pass);
      var Span(start, end) := SecretAt(m, p, pass).value;
      ScanOfClean(m, end, pass);
      assert m[p..] == m[p..start] + (m[start..end] + m[end..]);
    }
  }

  /** Running a pass twice is running it once. */
  lemma PassIsIdempotent(m: Text, pass: Pass)
    ensures Redacted(Redacted(m, pass), pass) == Redacted(m, pass)
  {
    hide Scan, NoBearer, HeadersMasked;
    if pass.BearerTokens? {
      BearerPassCleans(m, pass);
    } else {
      HeaderPassMasks(m, pass, pass);
    }
    ScanOfClean(Redacted(m, pass), 0, pass);
  }

  // ---------------------------------------------------------------- what a pass replaces

  function Secrets(m: Text, p: nat, pass: Pass): seq<Span>
    requires p <= |m|
    decreases |m| - p
  {
    if p == |m| then []
    else if SecretAt(m, p, pass).None? then Secrets(m, p + 1, pass)
    else [SecretAt(m, p, pass).value] + Secrets(m, SecretAt(m, p, pass).value.end, pass)
  }

  /** The spans lie behind `p`, one after the other, with something between them. */
  ghost predicate Apart(m: Text, p: nat, spans: seq<Span>)
    decreases spans
  {
    && p <= |m|
    && (spans != [] ==> p < spans[0].start < spans[0].end <= |m| && Apart(m, spans[0].end, spans[1..]))
  }

  /** `m` from `p` on, with exactly the bytes of the spans replaced. */
  function Spliced(m: Text, p: nat, spans: seq<Span>): Text
    requires Apart(m, p, spans)
    decreases spans
  {
    if spans == [] then m[p..]
    else m[p..spans[0].start] + REDACTED + Spliced(m, spans[0].end, spans[1..])
  }

  /** The pass replaces disjoint spans and leaves the text outside them as it is. */
  lemma {:induction false} ScanIsSpliced(m: Text, p: nat, pass: Pass)
    requires p <= |m|
    ensures Apart(m, p, Secrets(m, p, pass)) && Scan(m, p, None, pass) == Spliced(m, p, Secrets(m, p, pass))
    decreases |m| - p
  {
    hide SecretAt, Scan;
    if p == |m| {
      ScanEnds(m, pass);
    } else if SecretAt(m, p, pass).None? {
      ScanStep(m, p, pass);
      ScanIsSpliced(m, p + 1, pass);
      var spans := Secrets(m, p + 1, pass);
      if spans == [] {
        assert m[p..] == [m[p]] + m[p + 1..];
      } else {
        assert m[p..spans[0].start] == [m[p]] + m[p + 1..spans[0].start];
        Concat([m[p]], m[p + 1..spans[0].start], REDACTED + Spliced(m, spans[0].end, spans[1..]));
        Concat(m[p..spans[0].start], REDACTED, Spliced(m, spans[0].end, spans[1..]));
        Concat(m[p + 1..spans[0].start], REDACTED, Spliced(m, spans[0].end, spans[1..]));
      }
    } else {
      ScanSecret(m, p, pass);
      var secret := SecretAt(m, p, pass).value;
      ScanIsSpliced(m, secret.end, pass);
      var spans := Secrets(m, p, pass);
      assert spans[1..] == Secrets(m, secret.end, pass);
      Concat(m[p..secret.start], REDACTED, Spliced(m, secret.end, spans[1..]));
    }
  }

  /** Exactly the secrets are replaced: each span is one, and an announced one is a span or starts inside one. */
  lemma {:induction false} SecretsAreExact(m: Text, p: nat, pass: Pass, at: nat)
    requires p <= at && SecretAt(m, at, pass).Some? && p <= |m|
    ensures exists span <- Secrets(m, p, pass) :: span == SecretAt(m, at, pass).value || span.start <= at < span.end
    decreases |m| - p
  {
    hide SecretAt;
    SecretShape(m, at, pass);
    var found := SecretAt(m, p, pass);
    if found.None? {
      SecretsAreExact(m, p + 1, pass, at);
      assert Secrets(m, p, pass) == Secrets(m, p + 1, pass);
    } else if at == p {
      assert found.value in Secrets(m, p, pass);
    } else {
      SecretShape(m, p, pass);
      var Span(start, end) := found.value;
      var spans := Secrets(m, p, pass);
      assert spans[1..] == Secrets(m, end, pass) && spans[0] == found.value;
      if at < start {
        NoWordStartsBeforeSecret(m, p, at, pass);
        SecretBytes(m, at, pass);
        KeywordIsWord(m, at, at, pass);
      } else if at >= end {
        SecretsAreExact(m, end, pass, at);
        var span :| span in Secrets(m, end, pass) && (span == SecretAt(m, at, pass).value || span.start <= at < span.end);
        assert span in spans[1..];
        assert span in spans;
      }
    }
  }

  lemma {:induction false} SpansLieBehind(m: Text, p: nat, pass: Pass)
    requires p <= |m|
    ensures forall span <- Secrets(m, p, pass) :: p < span.start < span.end <= |m|
    decreases |m| - p
  {
    hide SecretAt;
    if p < |m| {
      SpansLieBehind(m, if SecretAt(m, p, pass).Some? then SecretAt(m, p, pass).value.end else p + 1, pass);
    }
  }

  /** A secret announced inside another one: the keyword ends the token, or the value runs to the same line end. */
  lemma SecretInsideSecret(m: Text, p: nat, at: nat, pass: Pass)
    requires SecretAt(m, p, pass).Some? && SecretAt(m, at, pass).Some?
    requires SecretAt(m, p, pass).value.start <= at < SecretAt(m, p, pass).value.end
    ensures
      SecretAt(m, p, pass).value.end
      == if pass.BearerTokens? then at + |Keyword(pass)| else SecretAt(m, at, pass).value.end
  {
    hide RunEnd, MatchesAt, BearerToken, HeaderValue;
    var Span(start, end) := SecretAt(m, p, pass).value;
    var after := at + |Keyword(pass)|;
    SecretShape(m, p, pass);
    SecretShape(m, at, pass);
    KeywordFits(m, p, Keyword(pass));
    if pass.BearerTokens? {
      BearerShape(m, p + |Keyword(pass)|);
      assert IsWhitespace(m[after]) || m[after] == ':';
      if end < after {
        KeywordIsWord(m, at, end, pass);
      }
    } else if end < SecretAt(m, at, pass).value.end {
      if end < after {
        KeywordIsWord(m, at, end, pass);
      } else {
        BlanksBeforeValue(m, at, pass, end);
      }
    }
  }

  lemma BlanksBeforeValue(m: Text, at: nat, header: Pass, i: nat)
    requires !header.BearerTokens? && SecretAt(m, at, header).Some?
    requires at + |Keyword(header)| <= i < SecretAt(m, at, header).value.end
    ensures !EndsLine(m[i])
  {
    hide RunEnd, MatchesAt, HeaderValue;
    KeywordFits(m, at, Keyword(header));
    HeaderShape(m, at + |Keyword(header)|);
  }

  predicate Overlap(a: Span, b: Span) {
    a.start < b.end && b.start < a.end
  }

  ghost predicate Untouched(secret: Span, spans: seq<Span>) {
    forall span <- spans :: !Overlap(span, secret)
  }

  ghost predicate Covered(secret: Span, spans: seq<Span>) {
    exists span <- spans :: span.start <= secret.start && secret.end <= span.end
  }

  /** Behind its keyword the scan never comes back to a bearer token. */
  lemma {:induction false} ScanPassesToken(m: Text, p: nat, at: nat)
    requires SecretAt(m, at, BearerTokens).Some? && at + |Keyword(BearerTokens)| <= p <= |m|
    ensures Untouched(SecretAt(m, at, BearerTokens).value, Secrets(m, p, BearerTokens))
    decreases |m| - p
  {
    hide SecretAt;
    var pass, secret := BearerTokens, SecretAt(m, at, BearerTokens).value;
    SpansLieBehind(m, p, pass);
    if p < secret.end {
      var found := SecretAt(m, p, pass);
      if found.None? {
        ScanPassesToken(m, p + 1, at);
      } else {
        SecretBytes(m, p, pass);
        KeywordIsWord(m, p, p, pass);
        if p < secret.start {
          NoWordStartsBeforeSecret(m, at, p, pass);
        } else {
          SecretInsideSecret(m, at, p, pass);
          SecretShape(m, p, pass);
          SpansLieBehind(m, found.value.end, pass);
        }
      }
    }
  }

  /**
   An announced secret is either replaced as a whole or not at all, and it survives exactly if it is a
   bearer token whose keyword is the end of another token that is replaced.
   */
  lemma {:induction false} SecretSurvivesIff(m: Text, p: nat, pass: Pass, at: nat)
    requires p <= at && SecretAt(m, at, pass).Some? && p <= |m|
    ensures
      var secret, spans := SecretAt(m, at, pass).value, Secrets(m, p, pass);
      && (Untouched(secret, spans) <==> !Covered(secret, spans))
      && (Untouched(secret, spans) <==>
            pass.BearerTokens? && exists span <- spans :: span.end == at + |Keyword(pass)|)
    decreases |m| - p
  {
    hide SecretAt;
    var secret, found := SecretAt(m, at, pass).value, SecretAt(m, p, pass);
    var spans := Secrets(m, p, pass);
    SecretShape(m, at, pass);
    if found.None? {
      SecretSurvivesIff(m, p + 1, pass, at);
    } else {
      var Span(start, end) := found.value;
      SecretShape(m, p, pass);
      SpansLieBehind(m, end, pass);
      var rest := Secrets(m, end, pass);
      assert spans == [found.value] + rest && found.value in spans;
      if at == p {
        assert Covered(secret, spans) && !Untouched(secret, spans);
      } else if at < start {
        NoWordStartsBeforeSecret(m, p, at, pass);
        SecretBytes(m, at, pass);
        KeywordIsWord(m, at, at, pass);
      } else if at >= end {
        SecretSurvivesIff(m, end, pass, at);
        OneMoreSpan(secret, found.value, rest, at + |Keyword(pass)|);
      } else {
        SecretInsideSecret(m, p, at, pass);
        if pass.BearerTokens? {
          ScanPassesToken(m, end, at);
          OneMoreSpan(secret, found.value, rest, end);
        }
      }
    }
  }

  lemma OneMoreSpan(secret: Span, span: Span, rest: seq<Span>, end: nat)
    ensures Untouched(secret, [span] + rest) <==> !Overlap(span, secret) && Untouched(secret, rest)
    ensures
      Covered(secret, [span] + rest) <==>
        (span.start <= secret.start && secret.end <= span.end) || Covered(secret, rest)
    ensures (exists s <- [span] + rest :: s.end == end) <==> span.end == end || exists s <- rest :: s.end == end
  {
    assert forall s :: s in [span] + rest <==> s == span || s in rest;
  }

  /** A secret that is not touched stands in the output as it is. */
  lemma {:induction false} SurvivorIsCopied(m: Text, p: nat, spans: seq<Span>, secret: Span) returns (at: nat)
    requires Apart(m, p, spans) && Untouched(secret, spans) && p <= secret.start < secret.end <= |m|
    ensures
      var length := secret.end - secret.start;
      at + length <= |Spliced(m, p, spans)| && Spliced(m, p, spans)[at..at + length] == m[secret.start..secret.end]
    decreases spans
  {
    hide Spliced, Apart;
    var length := secret.end - secret.start;
    SplicedStep(m, p, spans);
    if spans == [] {
      at := secret.start - p;
      SliceOfRest(m, p, secret, m[p..], []);
    } else {
      var front, copied := m[p..spans[0].start], Spliced(m, spans[0].end, spans[1..]);
      assert spans[0] in spans;
      if secret.end <= spans[0].start {
        at := secret.start - p;
        SliceOfRest(m, p, secret, front, REDACTED + copied);
      } else {
        var behind := SurvivorIsCopied(m, spans[0].end, spans[1..], secret);
        at := |front + REDACTED| + behind;
        Concat(front, REDACTED, copied);
        SliceBehind(front + REDACTED, copied, behind, length);
      }
    }
  }

  lemma SplicedStep(m: Text, p: nat, spans: seq<Span>)
    requires Apart(m, p, spans)
    ensures p <= |m| && (spans == [] ==> Spliced(m, p, spans) == m[p..] + [])
    ensures
      spans != [] ==>
        && p < spans[0].start < spans[0].end <= |m| && Apart(m, spans[0].end, spans[1..])
        && Spliced(m, p, spans) == m[p..spans[0].start] + (REDACTED + Spliced(m, spans[0].end, spans[1..]))
  {
    if spans != [] {
      Concat(m[p..spans[0].start], REDACTED, Spliced(m, spans[0].end, spans[1..]));
    }
  }

  lemma SliceOfRest(m: Text, p: nat, span: Span, front: Text, behind: Text)
    requires p <= span.start < span.end <= p + |front| <= |m| && front == m[p..p + |front|]
    ensures (front + behind)[span.start - p..span.end - p] == m[span.start..span.end]
  {
    var slice := (front + behind)[span.start - p..span.end - p];
    forall k | 0 <= k < span.end - span.start ensures slice[k] == m[span.start..span.end][k] {
      assert slice[k] == front[span.start - p + k];
    }
  }

  lemma SliceBehind(skipped: Text, copied: Text, at: nat, length: nat)
    requires at + length <= |copied|
    ensures (skipped + copied)[|skipped| + at..|skipped| + at + length] == copied[at..at + length]
  {
  }

  /** So of two tokens that are announced like this, only the first is replaced. */
  lemma SecondTokenSurvives(m: Text, first: Text, second: Text)
    requires m == "bearer " + first + ".bearer " + second
    requires |first| >= MIN_BEARER_TOKEN_CHARS && (forall i | 0 <= i < |first| :: IsToken(first[i]))
    requires |second| >= MIN_BEARER_TOKEN_CHARS && (forall i | 0 <= i < |second| :: IsToken(second[i]))
    ensures SecretAt(m, |first| + 8, BearerTokens) == Some(Span(|first| + 15, |m|))
    ensures Untouched(Span(|first| + 15, |m|), Secrets(m, 0, BearerTokens))
  {
    hide SecretAt, Secrets, IsToken;
    FirstOfTwo(m, first, second);
    SecondOfTwo(m, first, second);
    FirstIsReplaced(m, BearerTokens);
    SecretSurvivesIff(m, 0, BearerTokens, |first| + 8);
  }

  lemma FirstOfTwo(m: Text, first: Text, second: Text)
    requires m == "bearer " + first + ".bearer " + second
    requires |first| >= MIN_BEARER_TOKEN_CHARS && (forall i | 0 <= i < |first| :: IsToken(first[i]))
    ensures SecretAt(m, 0, BearerTokens) == Some(Span(7, |first| + 14))
  {
    TokensWithKeyword(first);
    hide SecretAt, IsToken, IsWord;
    var token := first + ".bearer";
    assert first + ".bearer " == token + " ";
    assert [] + "bearer " + token + (" " + second) == m;
    BearerIs(m, 0, [], token, " " + second);
  }

  lemma SecondOfTwo(m: Text, first: Text, second: Text)
    requires m == "bearer " + first + ".bearer " + second
    requires |second| >= MIN_BEARER_TOKEN_CHARS && (forall i | 0 <= i < |second| :: IsToken(second[i]))
    ensures |m| == |first| + 15 + |second| && SecretAt(m, |first| + 8, BearerTokens) == Some(Span(|first| + 15, |m|))
  {
    assert !IsWord('.');
    hide SecretAt, IsToken, IsWord;
    var front := "bearer " + first + ".";
    assert ".bearer " == "." + "bearer ";
    assert front + "bearer " + second + [] == m;
    BearerIs(m, |first| + 8, front, second, []);
  }

  lemma TokensWithKeyword(token: Text)
    requires forall i | 0 <= i < |token| :: IsToken(token[i])
    ensures forall i | 0 <= i < |token + ".bearer"| :: IsToken((token + ".bearer")[i])
    ensures !IsToken(' ') && !IsWord('.')
  {
    forall i | 0 <= i < |token + ".bearer"| ensures IsToken((token + ".bearer")[i]) {
      if i >= |token| {
        assert (token + ".bearer")[i] == ".bearer"[i - |token|];
      }
    }
  }

  lemma FirstIsReplaced(m: Text, pass: Pass)
    requires SecretAt(m, 0, pass).Some?
    ensures SecretAt(m, 0, pass).value in Secrets(m, 0, pass)
  {
    hide SecretAt;
  }

  lemma WrittenMatches(m: Text, front: Text, keyword: Text, rest: Text)
    requires m == front + keyword + rest
    ensures MatchesAt(m, |front|, keyword)
  {
    assert forall k | 0 <= k < |keyword| :: m[|front| + k] == keyword[k];
  }

  lemma BearerIs(m: Text, at: nat, front: Text, token: Text, rest: Text)
    requires m == front + "bearer " + token + rest && at == |front| && (at > 0 ==> !IsWord(front[at - 1]))
    requires |token| >= MIN_BEARER_TOKEN_CHARS && (forall i | 0 <= i < |token| :: IsToken(token[i]))
    requires rest != [] ==> !IsToken(rest[0])
    ensures SecretAt(m, at, BearerTokens) == Some(Span(at + 7, at + 7 + |token|))
  {
    hide MatchesAt, IsToken, SecretAt;
    assert m == front + "bearer" + (" " + token + rest);
    WrittenMatches(m, front, "bearer", " " + token + rest);
    var text := front + "bearer ";
    assert m == text + (token + rest) && |text| == at + 7 && text[at + 6] == ' ';
    forall i | at + 7 <= i < at + 7 + |token| ensures IsToken(m[i]) {
      assert m[i] == token[i - |text|];
    }
    assert at + 7 + |token| < |m| ==> m[at + 7 + |token|] == rest[0];
    TokenBehind(m, at, at + 7 + |token|);
  }

  lemma TokenBehind(m: Text, at: nat, end: nat)
    requires KeywordAt(m, at, Keyword(BearerTokens)) && at + 7 + MIN_BEARER_TOKEN_CHARS <= end <= |m|
    requires m[at + 6] == ' ' && (forall i | at + 7 <= i < end :: IsToken(m[i])) && (end < |m| ==> !IsToken(m[end]))
    ensures SecretAt(m, at, BearerTokens) == Some(Span(at + 7, end))
  {
    hide RunEnd, KeywordAt;
    RunEndIs(m, at + 6, Whitespace, at + 7);
    RunEndIs(m, at + 7, Token, end);
  }

  lemma {:induction false} OnlySecretsAreReplaced(m: Text, p: nat, pass: Pass, span: Span)
    requires p <= |m|
    ensures span in Secrets(m, p, pass) ==> exists at: nat :: SecretAt(m, at, pass) == Some(span)
    decreases |m| - p
  {
    hide SecretAt;
    if p < |m| {
      var secret := SecretAt(m, p, pass);
      OnlySecretsAreReplaced(m, if secret.Some? then secret.value.end else p + 1, pass, span);
    }
  }

  // ---------------------------------------------------------------- character boundaries

  predicate IsContinuation(b: Byte) {
    '\U{0080}' <= b < '\U{00C0}'
  }

  /** No continuation byte starts the text or follows an ASCII byte, as in every UTF-8 text. */
  ghost predicate Whole(m: Text) {
    forall i: nat | i < |m| && IsContinuation(m[i]) :: i > 0 && m[i - 1] >= '\U{0080}'
  }

  predicate Boundary(m: Text, at: nat) {
    at <= |m| && (at < |m| ==> !IsContinuation(m[at]))
  }

  /** All positions at which a pass cuts its input are character boundaries. */
  lemma CutsAreBoundaries(m: Text, at: nat, pass: Pass)
    requires Whole(m) && KeywordAt(m, at, Keyword(pass))
    ensures Boundary(m, at + |Keyword(pass)|)
    ensures SecretAt(m, at, pass).Some? ==>
              Boundary(m, SecretAt(m, at, pass).value.start) && Boundary(m, SecretAt(m, at, pass).value.end)
  {
    hide RunEnd, MatchesAt, Keyword;
    KeywordFits(m, at, Keyword(pass));
    KeywordIsWord(m, at, at + |Keyword(pass)| - 1, pass);
    if SecretAt(m, at, pass).Some? {
      SecretShape(m, at, pass);
      var Span(start, end) := SecretAt(m, at, pass).value;
      assert IsWhitespace(m[start - 1]) || m[start - 1] == ':';
      if pass.BearerTokens? {
        BearerShape(m, at + |Keyword(pass)|);
        assert IsToken(m[end - 1]);
      }
    }
  }

  lemma {:induction false} WholeScan(m: Text, p: nat, pending: Option<Span>, pass: Pass, origin: nat)
    requires Whole(m) && Announced(m, p, pending, pass, origin)
    ensures
      var output := Scan(m, p, pending, pass);
      && (output != [] && IsContinuation(output[0]) ==> p < |m| && m[p] == output[0])
      && (forall i: nat | 0 < i < |output| && IsContinuation(output[i]) :: output[i - 1] >= '\U{0080}')
    decreases |m| - p, if pending.Some? then 0 else 1
  {
    hide SecretAt, Scan, KeywordAt;
    var output := Scan(m, p, pending, pass);
    if Copies(m, p, pending) {
      var nextOrigin := ScanCopies(m, p, pending, pass, origin);
      var later := Scan(m, p + 1, Next(m, p, pending, pass), pass);
      WholeScan(m, p + 1, Next(m, p, pending, pass), pass, nextOrigin);
      assert output == [m[p]] + later;
      forall i: nat | 0 < i < |output| && IsContinuation(output[i]) ensures output[i - 1] >= '\U{0080}' {
        assert output[i] == later[i - 1];
        assert i > 1 ==> output[i - 1] == later[i - 2];
      }
    } else {
      ScanStops(m, p, pending, pass);
      if pending.Some? {
        var end := pending.value.end;
        var later := Scan(m, end, None, pass);
        SecretIsAnnounced(m, origin, pass);
        CutsAreBoundaries(m, origin, pass);
        WholeScan(m, end, None, pass, 0);
        assert forall k | 0 <= k < |REDACTED| :: output[k] == REDACTED[k] && !IsContinuation(REDACTED[k]);
        forall i: nat | 0 < i < |output| && IsContinuation(output[i]) ensures output[i - 1] >= '\U{0080}' {
          assert output[i] == later[i - |REDACTED|];
          assert i > |REDACTED| ==> output[i - 1] == later[i - |REDACTED| - 1];
        }
      }
    }
  }

  lemma SecretIsAnnounced(m: Text, at: nat, pass: Pass)
    requires SecretAt(m, at, pass).Some?
    ensures KeywordAt(m, at, Keyword(pass))
  {
  }

  lemma RedactedIsWhole(m: Text, pass: Pass)
    requires Whole(m)
    ensures Whole(Redacted(m, pass))
  {
    hide Scan;
    WholeScan(m, 0, None, pass, 0);
  }

  // ---------------------------------------------------------------- truncation

  function Marker(end: nat, length: nat): Text {
    "\n[... " + "truncated" + ": showing" + " the first " + Decimal(end) + " of " + Decimal(length) + " bytes ...]"
  }

  /** The last character boundary up to `end`. */
  function CutPoint(m: Text, end: nat): (cut: nat)
    requires end < |m|
    ensures cut <= end && (cut > 0 ==> Boundary(m, cut))
    ensures forall p | cut < p <= end :: !Boundary(m, p)
  {
    if end == 0 || !IsContinuation(m[end]) then end else CutPoint(m, end - 1)
  }

  function Truncated(m: Text): Text {
    if |m| <= MAX_REMOTE_MESSAGE_BYTES then m
    else
      var cut := CutPoint(m, MAX_REMOTE_MESSAGE_BYTES);
      m[..cut] + Marker(cut, |m|)
  }

  method TruncateMessage(m: Text) returns (truncated: Text)
    requires Whole(m)
    ensures truncated == Truncated(m)
  {
    if |m| <= MAX_REMOTE_MESSAGE_BYTES {
      return m;
    }
    var end := MAX_REMOTE_MESSAGE_BYTES;
    while IsContinuation(m[end])
      invariant 0 <= end < |m| && CutPoint(m, end) == CutPoint(m, MAX_REMOTE_MESSAGE_BYTES)
      decreases end
    {
      end := end - 1;
    }
    truncated := m[..end] + Marker(end, |m|);
  }

  /** The three passes, before the cap. */
  function Uncapped(m: Text): Text {
    Redacted(Redacted(Redacted(m, BearerTokens), Authorization), ApiKey)
  }

  function Sanitized(m: Text): Text {
    Truncated(Uncapped(m))
  }

  method SanitizeRemoteMessage(m: Text) returns (sanitized: Text)
    requires Whole(m)
    ensures sanitized == Sanitized(m)
  {
    hide Redacted, Truncated;
    sanitized := RedactBearerTokens(m);
    RedactedIsWhole(m, BearerTokens);
    ghost var bare := sanitized;
    var i := 0;
    while i < |SECRET_HEADERS|
      invariant i <= 2 && Whole(sanitized)
      invariant i == 0 ==> sanitized == bare
      invariant i == 1 ==> sanitized == Redacted(bare, Authorization)
      invariant i == 2 ==> sanitized == Redacted(Redacted(bare, Authorization), ApiKey)
    {
      RedactedIsWhole(sanitized, SECRET_HEADERS[i]);
      sanitized := RedactHeaderValue(sanitized, SECRET_HEADERS[i]);
      i := i + 1;
    }
    sanitized := TruncateMessage(sanitized);
  }

  predicate HarmlessAt(t: Text, j: nat)
    requires j < |t|
  {
    var b := t[j];
    && b != 'x' && b != 'X' && b != 'B' && b != 'A'
    && (b == 'b' ==> j + 1 < |t| && t[j + 1] == 'y')
    && (b == 'a' ==> j + 1 < |t| && t[j + 1] == 't')
  }

  /** A text in which no keyword can start: each letter that starts one is followed by another than its second. */
  ghost predicate Harmless(t: Text) {
    forall j: nat | j < |t| :: HarmlessAt(t, j)
  }

  lemma HarmlessConcat(a: Text, b: Text)
    requires Harmless(a) && Harmless(b)
    ensures Harmless(a + b)
  {
    var t := a + b;
    forall j: nat | j < |t| ensures HarmlessAt(t, j) {
      if j < |a| {
        assert HarmlessAt(a, j);
        assert t[j] == a[j];
        assert j + 1 < |a| ==> t[j + 1] == a[j + 1];
      } else {
        assert HarmlessAt(b, j - |a|);
        assert t[j] == b[j - |a|];
        assert j + 1 < |t| ==> t[j + 1] == b[j + 1 - |a|];
      }
    }
  }

  lemma DecimalIsHarmless(n: nat)
    ensures Harmless(Decimal(n))
  {
    hide Decimal;
    forall j: nat | j < |Decimal(n)| ensures HarmlessAt(Decimal(n), j) {
      assert Decimal(n)[j] in Decimal(n);
    }
  }

  lemma MarkerIsHarmless(end: nat, length: nat)
    ensures Harmless(Marker(end, length)) && |Marker(end, length)| >= 2
    ensures Marker(end, length)[0] == '\n' && Marker(end, length)[1] == '['
  {
    hide Harmless, Decimal;
    LiteralsAreHarmless();
    DecimalIsHarmless(end);
    DecimalIsHarmless(length);
    var front: Text := "\n[... " + "truncated" + ": showing" + " the first ";
    HarmlessConcat("\n[... ", "truncated");
    HarmlessConcat("\n[... " + "truncated", ": showing");
    HarmlessConcat("\n[... " + "truncated" + ": showing", " the first ");
    HarmlessConcat(front, Decimal(end));
    HarmlessConcat(front + Decimal(end), " of ");
    HarmlessConcat(front + Decimal(end) + " of ", Decimal(length));
    HarmlessConcat(front + Decimal(end) + " of " + Decimal(length), " bytes ...]");
  }

  lemma LiteralsAreHarmless()
    ensures Harmless("\n[... ") && Harmless("truncated") && Harmless(": showing") && Harmless(" the first ")
    ensures Harmless(" of ") && Harmless(" bytes ...]")
  {
    assert Harmless("\n[... ") by { }
    assert Harmless("truncated") by { }
    assert Harmless(": showing") by { }
    assert Harmless(" the first ") by { }
    assert Harmless(" of ") by { }
    assert Harmless(" bytes ...]") by { }
  }

  lemma HarmlessHasNoKeyword(t: Text, i: nat, pass: Pass)
    requires Harmless(t)
    ensures !MatchesAt(t, i, Keyword(pass))
  {
    var keyword := Keyword(pass);
    if i + |keyword| <= |t| {
      assert HarmlessAt(t, i);
      assert Lower(t[i + 0]) != Lower(keyword[0]) || Lower(t[i + 1]) != Lower(keyword[1]);
    }
  }

  // ---------------------------------------------------------------- results about sanitized text

  /** A secret in the truncated text was there before: its evidence lies before the cut. */
  lemma EvidenceBeforeCut(m: Text, cut: nat, marker: Text, i: nat, pass: Pass)
    requires cut <= |m| && Harmless(marker) && |marker| >= 2 && marker[0] == '\n' && marker[1] == '['
    requires SecretAt(m[..cut] + marker, i, pass).Some?
    ensures SecretAt(m, i, pass).Some?
    ensures SecretAt(m, i, pass).value.start == SecretAt(m[..cut] + marker, i, pass).value.start < cut
  {
    hide SecretAt, MatchesAt, Harmless, Keyword;
    var t := m[..cut] + marker;
    var Span(start, end) := SecretAt(t, i, pass).value;
    var name := i + |Keyword(pass)|;
    SecretBytes(t, i, pass);
    SecretShape(t, i, pass);
    if i >= cut {
      MatchesLater(m[..cut], marker, i, Keyword(pass));
      HarmlessHasNoKeyword(marker, i - cut, pass);
    }
    assert t[cut] == '\n' && t[cut + 1] == '[';
    if cut < name {
      KeywordIsWord(t, i, cut, pass);
    }
    SeparatorsAvoidCut(t, i, pass, cut);
    assert SameBytes(t, i, m, i, Evidence(t, i, pass));
    assert i > 0 ==> m[i - 1] == t[i - 1];
    SecretByBytes(t, i, m, i, pass);
  }

  lemma SeparatorsAvoidCut(t: Text, i: nat, pass: Pass, cut: nat)
    requires SecretAt(t, i, pass).Some? && i + |Keyword(pass)| <= cut && cut + 1 < |t|
    requires t[cut] == '\n' && t[cut + 1] == '['
    ensures i + Evidence(t, i, pass) <= cut
  {
    hide MatchesAt, Keyword, RunEnd;
    var start := SecretAt(t, i, pass).value.start;
    if pass.BearerTokens? {
      BearerShape(t, i + |Keyword(pass)|);
      assert !IsWhitespace(t[cut + 1]) && !IsToken(t[cut + 1]) && !IsToken(t[cut]);
    } else {
      HeaderShape(t, i + |Keyword(pass)|);
      assert !IsBlank(t[cut]) && EndsLine(t[cut]);
    }
  }

  /** Every header-shaped value is the placeholder, or what is left of one at the cut. */
  ghost predicate HeadersMaskedUpToCut(m: Text, header: Pass) {
    forall i: nat ::
      SecretAt(m, i, header).Some? ==>
        m[SecretAt(m, i, header).value.start..SecretAt(m, i, header).value.end] <= REDACTED
  }

  lemma TruncationKeepsNoBearer(m: Text)
    requires NoBearer(m)
    ensures NoBearer(Truncated(m))
  {
    hide SecretAt, Marker, CutPoint;
    if |m| > MAX_REMOTE_MESSAGE_BYTES {
      var cut := CutPoint(m, MAX_REMOTE_MESSAGE_BYTES);
      MarkerIsHarmless(cut, |m|);
      forall i: nat ensures SecretAt(Truncated(m), i, BearerTokens).None? {
        if SecretAt(Truncated(m), i, BearerTokens).Some? {
          EvidenceBeforeCut(m, cut, Marker(cut, |m|), i, BearerTokens);
        }
      }
    }
  }

  lemma ValueUpToCut(m: Text, cut: nat, marker: Text, i: nat, header: Pass)
    requires cut <= |m| && |marker| >= 2 && marker[0] == '\n' && !header.BearerTokens?
    requires SecretAt(m[..cut] + marker, i, header).Some? && SecretAt(m, i, header).Some?
    requires SecretAt(m, i, header).value.start == SecretAt(m[..cut] + marker, i, header).value.start < cut
    ensures
      var Span(start, end) := SecretAt(m[..cut] + marker, i, header).value;
      var value := SecretAt(m, i, header).value;
      (m[..cut] + marker)[start..end] <= m[start..value.end]
  {
    hide SecretAt, MatchesAt, IsBlank;
    var t := m[..cut] + marker;
    var Span(start, end) := SecretAt(t, i, header).value;
    var Span(_, valueEnd) := SecretAt(m, i, header).value;
    SecretShape(t, i, header);
    SecretShape(m, i, header);
    assert t[cut] == '\n';
    assert end <= cut;
    assert t[start..end] == m[start..end];
    assert valueEnd < cut ==> t[valueEnd] == m[valueEnd];
    assert end <= valueEnd;
    assert m[start..valueEnd] == m[start..end] + m[end..valueEnd];
  }

  lemma TruncationKeepsHeadersMasked(m: Text, header: Pass)
    requires !header.BearerTokens? && HeadersMasked(m, header)
    ensures HeadersMaskedUpToCut(Truncated(m), header)
  {
    hide SecretAt, Marker, CutPoint;
    if |m| > MAX_REMOTE_MESSAGE_BYTES {
      var cut := CutPoint(m, MAX_REMOTE_MESSAGE_BYTES);
      MarkerIsHarmless(cut, |m|);
      forall i: nat | SecretAt(Truncated(m), i, header).Some?
        ensures
          var secret := SecretAt(Truncated(m), i, header).value;
          Truncated(m)[secret.start..secret.end] <= REDACTED
      {
        EvidenceBeforeCut(m, cut, Marker(cut, |m|), i, header);
        ValueUpToCut(m, cut, Marker(cut, |m|), i, header);
      }
    }
  }

  /**
   What is cut: a message of at most 1024 bytes is kept. A longer one is kept up to its last character
   boundary within them, which is at most 1024 bytes in, followed by a marker that says so.
   */
  lemma TruncationIsExact(m: Text, cut: nat)
    ensures |m| <= 1024 ==> Truncated(m) == m
    ensures
      |m| > 1024 && cut <= 1024 && !('\U{0080}' <= m[cut] < '\U{00C0}')
      && (forall p | cut < p <= 1024 :: '\U{0080}' <= m[p] < '\U{00C0}') ==>
        Truncated(m)
        == m[..cut] + ("\n[... truncated: showing the first " + Decimal(cut) + " of " + Decimal(|m|) + " bytes ...]")
  {
    hide Decimal, CutPoint, Marker;
    if |m| > 1024 && cut <= 1024 && !IsContinuation(m[cut]) && forall p | cut < p <= 1024 :: IsContinuation(m[p]) {
      CutPointIs(m, 1024, cut);
      MarkerReads(cut, |m|);
    }
  }

  lemma MarkerReads(end: nat, length: nat)
    ensures Marker(end, length)
         == "\n[... truncated: showing the first " + Decimal(end) + " of " + Decimal(length) + " bytes ...]"
  {
    hide Decimal;
    assert "\n[... " + "truncated" + ": showing" + " the first " == "\n[... truncated: showing the first ";
  }

  lemma {:induction false} CutPointIs(m: Text, end: nat, cut: nat)
    requires cut <= end < |m| && !IsContinuation(m[cut]) && forall p | cut < p <= end :: IsContinuation(m[p])
    ensures CutPoint(m, end) == cut
  {
    if cut < end {
      CutPointIs(m, end - 1, cut);
    }
  }

  /**
   Before truncation the text holds no bearer secret and all header values are the placeholder: the later
   passes undo nothing. Truncation makes no new secret either; it only may cut a placeholder short.
   */
  lemma SanitizedTextIsClean(m: Text)
    ensures
      NoBearer(Uncapped(m)) && HeadersMasked(Uncapped(m), Authorization) && HeadersMasked(Uncapped(m), ApiKey)
    ensures NoBearer(Sanitized(m))
    ensures HeadersMaskedUpToCut(Sanitized(m), Authorization) && HeadersMaskedUpToCut(Sanitized(m), ApiKey)
  {
    hide Redacted, NoBearer, HeadersMasked, HeadersMaskedUpToCut, Truncated;
    var first := Redacted(m, BearerTokens);
    var second := Redacted(first, Authorization);
    BearerPassCleans(m, BearerTokens);
    BearerPassCleans(first, Authorization);
    BearerPassCleans(second, ApiKey);
    HeaderPassMasks(first, Authorization, Authorization);
    HeaderPassMasks(second, ApiKey, Authorization);
    HeaderPassMasks(second, ApiKey, ApiKey);
    var redacted := Redacted(second, ApiKey);
    TruncationKeepsNoBearer(redacted);
    TruncationKeepsHeadersMasked(redacted, Authorization);
    TruncationKeepsHeadersMasked(redacted, ApiKey);
  }
}
