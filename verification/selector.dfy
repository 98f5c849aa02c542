/**
 The catalog-independent model selector `provider/model[:thinking]`: printing, parsing, and the escaping
 that lets a model name hold the separators.
 */
module Selector {
  import opened Wrappers

  datatype ModelRef = ModelRef(provider: string, model: string)

  datatype ModelProfile = ModelProfile(model: ModelRef, thinking: Option<string>)

  datatype ModelSelectorError = MissingProviderSeparator | EmptyComponent | EmptyThinking | InvalidComponent

  const MAX_THINKING_BYTES: nat := 64

  // ---------------------------------------------------------------- strings

  function ReplaceChar(value: string, c: char, replacement: string): string {
    if value == [] then []
    else (if value[0] == c then replacement else [value[0]]) + ReplaceChar(value[1..], c, replacement)
  }

  /** Around the first occurrence. */
  function SplitOnce(value: string, c: char): (parts: Option<(string, string)>)
    ensures parts.None? <==> c !in value
    ensures parts.Some? ==> value == parts.value.0 + [c] + parts.value.1 && c !in parts.value.0
  {
    if value == [] then None
    else if value[0] == c then Some(([], value[1..]))
    else
      var rest := SplitOnce(value[1..], c);
      if rest.None? then None
      else
        assert value == [value[0]] + rest.value.0 + [c] + rest.value.1;
        Some(([value[0]] + rest.value.0, rest.value.1))
  }

  /** Around the last occurrence. */
  function RSplitOnce(value: string, c: char): (parts: Option<(string, string)>)
    ensures parts.None? <==> c !in value
    ensures parts.Some? ==> value == parts.value.0 + [c] + parts.value.1 && c !in parts.value.1
  {
    if value == [] then None
    else
      var last := |value| - 1;
      if value[last] == c then Some((value[..last], []))
      else
        var rest := RSplitOnce(value[..last], c);
        if rest.None? then None
        else
          assert value == rest.value.0 + [c] + (rest.value.1 + [value[last]]);
          Some((rest.value.0, rest.value.1 + [value[last]]))
  }

  lemma SplitIsUnique(a: string, c: char, b: string)
    requires c !in a
    ensures SplitOnce(a + [c] + b, c) == Some((a, b))
  {
    var value := a + [c] + b;
    assert value[|a|] == c;
    var (front, back) := SplitOnce(value, c).value;
    assert value[|front|] == c;
    assert forall j | 0 <= j < |a| :: value[j] == a[j] && a[j] != c;
    assert forall j | 0 <= j < |front| :: value[j] == front[j] && front[j] != c;
    assert front == value[..|a|] == a;
    assert back == value[|a| + 1..] == b;
  }

  lemma LaterByte(value: string, i: nat, j: nat)
    requires i < |value| && j < |value|
    ensures i < j ==> value[j] in value[i + 1..]
  {
    assert i < j ==> value[j] == value[i + 1..][j - i - 1];
  }

  lemma RSplitIsUnique(a: string, c: char, b: string)
    requires c !in b
    ensures RSplitOnce(a + [c] + b, c) == Some((a, b))
  {
    var value := a + [c] + b;
    assert value[|a|] == c;
    var (front, back) := RSplitOnce(value, c).value;
    assert value[|front|] == c;
    assert value[|a| + 1..] == b && value[|front| + 1..] == back;
    LaterByte(value, |a|, |front|);
    LaterByte(value, |front|, |a|);
    assert |front| == |a|;
    assert front == value[..|a|] == a;
    assert back == value[|a| + 1..] == b;
  }

  // ---------------------------------------------------------------- escaping

  function EscapeModelComponent(value: string): string {
    ReplaceChar(ReplaceChar(value, '%', "%25"), ':', "%3A")
  }

  /** What the decoding loop computes. */
  function Unescaped(value: string): Result<string, ModelSelectorError> {
    if value == [] then Ok([])
    else if value[0] != '%' then Prefixed(value[0], Unescaped(value[1..]))
    else if |value| >= 3 && value[1] == '2' && value[2] == '5' then Prefixed('%', Unescaped(value[3..]))
    else if |value| >= 3 && value[1] == '3' && (value[2] == 'A' || value[2] == 'a') then Prefixed(':', Unescaped(value[3..]))
    else Err(InvalidComponent)
  }

  function Prefixed(c: char, rest: Result<string, ModelSelectorError>): Result<string, ModelSelectorError> {
    if rest.Ok? then Ok([c] + rest.value) else rest
  }

  function PrefixedAll(front: string, rest: Result<string, ModelSelectorError>): Result<string, ModelSelectorError> {
    if rest.Ok? then Ok(front + rest.value) else rest
  }

  method UnescapeModelComponent(value: string) returns (result: Result<string, ModelSelectorError>)
    ensures result == Unescaped(value)
  {
    var output: string := [];
    var i := 0;
    assert value[0..] == value && forall tail: string :: output + tail == tail;
    while i < |value|
      invariant i <= |value|
      invariant Unescaped(value) == PrefixedAll(output, Unescaped(value[i..]))
    {
      var rest := value[i..];
      var decoded;
      if value[i] != '%' {
        decoded := value[i];
        assert rest[1..] == value[i + 1..];
        i := i + 1;
      } else if i + 2 < |value| && value[i + 1] == '2' && value[i + 2] == '5' {
        decoded := '%';
        assert rest[3..] == value[i + 3..];
        i := i + 3;
      } else if i + 2 < |value| && value[i + 1] == '3' && (value[i + 2] == 'A' || value[i + 2] == 'a') {
        decoded := ':';
        assert rest[3..] == value[i + 3..];
        i := i + 3;
      } else {
        return Err(InvalidComponent);
      }
      assert forall tail: string :: output + ([decoded] + tail) == (output + [decoded]) + tail;
      output := output + [decoded];
    }
    assert value[i..] == [] && output + [] == output;
    result := Ok(output);
  }

  function Escape(c: char): string {
    if c == '%' then "%25" else if c == ':' then "%3A" else [c]
  }

  lemma ReplaceCharAppend(a: string, b: string, c: char, replacement: string)
    ensures ReplaceChar(a + b, c, replacement) == ReplaceChar(a, c, replacement) + ReplaceChar(b, c, replacement)
  {
    if a == [] {
      assert a + b == b;
    } else {
      assert (a + b)[1..] == a[1..] + b;
    }
  }

  /** The two replacements do not get in each other's way. */
  lemma EscapeStep(value: string)
    requires value != []
    ensures EscapeModelComponent(value) == Escape(value[0]) + EscapeModelComponent(value[1..])
  {
    var front := if value[0] == '%' then "%25" else [value[0]];
    ReplaceCharAppend(front, ReplaceChar(value[1..], '%', "%25"), ':', "%3A");
    assert ReplaceChar(front, ':', "%3A") == Escape(value[0]) by {
      if value[0] == '%' {
        assert front[1..] == "25" && front[1..][1..] == "5" && front[1..][1..][1..] == "";
      } else {
        assert front[1..] == "";
      }
    }
  }

  /** Escaping hides every `:` and decoding undoes it, for every text. */
  lemma {:induction false} UnescapeUndoesEscape(value: string)
    ensures Unescaped(EscapeModelComponent(value)) == Ok(value)
    ensures ':' !in EscapeModelComponent(value)
    ensures EscapeModelComponent(value) == [] <==> value == []
  {
    if value != [] {
      EscapeStep(value);
      UnescapeUndoesEscape(value[1..]);
      var escaped, rest := EscapeModelComponent(value), EscapeModelComponent(value[1..]);
      assert escaped[|Escape(value[0])|..] == rest;
      assert value == [value[0]] + value[1..];
    }
  }

  // ---------------------------------------------------------------- print and parse

  predicate IsThinkingByte(c: char) {
    'a' <= c <= 'z' || '0' <= c <= '9' || c == '_' || c == '-'
  }

  predicate ValidThinkingId(value: string) {
    && 1 <= |value| <= MAX_THINKING_BYTES
    && ('a' <= value[0] <= 'z' || '0' <= value[0] <= '9')
    && forall c <- value :: IsThinkingByte(c)
  }

  function Print(profile: ModelProfile): string {
    var model := EscapeModelComponent(profile.model.model);
    if profile.thinking.Some? then profile.model.provider + "/" + model + ":" + profile.thinking.value
    else profile.model.provider + "/" + model
  }

  function Parse(value: string): Result<ModelProfile, ModelSelectorError> {
    var split := SplitOnce(value, '/');
    if split.None? then Err(MissingProviderSeparator)
    else
      var (provider, rest) := split.value;
      if provider == [] || rest == [] then Err(EmptyComponent)
      else
        var thinkingSplit := RSplitOnce(rest, ':');
        if thinkingSplit.Some? && thinkingSplit.value.1 == [] then Err(EmptyThinking)
        else
          var rawModel := if thinkingSplit.Some? then thinkingSplit.value.0 else rest;
          var thinking := if thinkingSplit.Some? then Some(thinkingSplit.value.1) else None;
          if rawModel == [] then Err(EmptyComponent)
          else
            var model := Unescaped(rawModel);
            if model.Err? then Err(model.error)
            else if model.value == [] || (thinking.Some? && !ValidThinkingId(thinking.value)) then Err(InvalidComponent)
            else Ok(ModelProfile(ModelRef(provider, model.value), thinking))
  }

  // ---------------------------------------------------------------- results

  /** The profiles a selector can stand for. */
  predicate Selectable(profile: ModelProfile) {
    && profile.model.provider != [] && '/' !in profile.model.provider
    && profile.model.model != []
    && (profile.thinking.Some? ==> ValidThinkingId(profile.thinking.value))
  }

  /** `raw` spells the model of the profile inside a selector; only a printed thinking level makes `:` readable. */
  ghost predicate Spells(profile: ModelProfile, raw: string) {
    && Unescaped(raw) == Ok(profile.model.model)
    && (profile.thinking.None? ==> ':' !in raw)
  }

  function Written(profile: ModelProfile, raw: string): string {
    profile.model.provider + "/" + (raw + if profile.thinking.Some? then ":" + profile.thinking.value else "")
  }

  lemma ParseWritten(profile: ModelProfile, raw: string)
    requires Selectable(profile) && Spells(profile, raw)
    ensures Parse(Written(profile, raw)) == Ok(profile)
  {
    var rest := raw + if profile.thinking.Some? then ":" + profile.thinking.value else "";
    SplitIsUnique(profile.model.provider, '/', rest);
    if profile.thinking.Some? {
      var thinking := profile.thinking.value;
      assert ':' !in thinking;
      RSplitIsUnique(raw, ':', thinking);
      assert rest == raw + [':'] + thinking;
    } else {
      assert rest == raw;
    }
  }

  /** What the parser accepts, and as what: exactly the spellings of selectable profiles. */
  lemma ParseAcceptsExactlySpellings(value: string, profile: ModelProfile)
    ensures
      Parse(value) == Ok(profile)
      <==> Selectable(profile) && exists raw :: Spells(profile, raw) && value == Written(profile, raw)
  {
    if Parse(value) == Ok(profile) {
      var (provider, rest) := SplitOnce(value, '/').value;
      var split := RSplitOnce(rest, ':');
      var raw := if split.Some? then split.value.0 else rest;
      assert Spells(profile, raw);
      assert value == provider + "/" + rest;
      if split.Some? {
        assert rest == raw + [':'] + split.value.1 == raw + (":" + split.value.1);
      } else {
        assert rest == raw + "";
      }
      assert value == Written(profile, raw);
    }
    if Selectable(profile) && exists raw :: Spells(profile, raw) && value == Written(profile, raw) {
      var raw :| Spells(profile, raw) && value == Written(profile, raw);
      ParseWritten(profile, raw);
    }
  }

  /** Parsing a printed profile gives it back exactly when the profile is selectable. */
  lemma RoundTrip(profile: ModelProfile)
    ensures Parse(Print(profile)) == Ok(profile) <==> Selectable(profile)
  {
    var raw := EscapeModelComponent(profile.model.model);
    UnescapeUndoesEscape(profile.model.model);
    assert Spells(profile, raw);
    assert Print(profile) == Written(profile, raw) by {
      if profile.thinking.Some? {
        assert profile.model.provider + "/" + raw + ":" + profile.thinking.value
            == profile.model.provider + "/" + (raw + (":" + profile.thinking.value));
      } else {
        assert raw + "" == raw;
      }
    }
    ParseAcceptsExactlySpellings(Print(profile), profile);
  }

  /** Different selectable profiles print differently. */
  lemma PrintIsInjective(a: ModelProfile, b: ModelProfile)
    requires Selectable(a) && Selectable(b) && Print(a) == Print(b)
    ensures a == b
  {
    RoundTrip(a);
    RoundTrip(b);
  }

  /** Printing what was parsed is a canonical form: it parses to the same profile and prints as itself. */
  lemma Canonicalization(value: string)
    requires Parse(value).Ok?
    ensures
      var canonical := Print(Parse(value).value);
      Parse(canonical) == Parse(value) && Print(Parse(canonical).value) == canonical
  {
    ParseAcceptsExactlySpellings(value, Parse(value).value);
    RoundTrip(Parse(value).value);
  }

  /** Two texts select the same profile exactly when they have the same canonical form. */
  lemma SameProfileIffSameCanonicalForm(a: string, b: string)
    requires Parse(a).Ok? && Parse(b).Ok?
    ensures Parse(a) == Parse(b) <==> Print(Parse(a).value) == Print(Parse(b).value)
  {
    Canonicalization(a);
    Canonicalization(b);
  }

  /** Before the first slash, and behind it. */
  predicate Divides(value: string, provider: string, rest: string) {
    '/' !in provider && value == provider + ['/'] + rest
  }

  /** What a selector is refused for, up to the errors inside a component. */
  lemma RefusalIsExact(value: string, provider: string, rest: string)
    ensures Parse(value) == Err(MissingProviderSeparator) <==> '/' !in value
    ensures Divides(value, provider, rest) ==>
              && (Parse(value) == Err(EmptyThinking) <==> provider != [] && rest != [] && rest[|rest| - 1] == ':')
              && (Parse(value) == Err(EmptyComponent) <==>
                    || provider == [] || rest == []
                    || (rest[0] == ':' && ':' !in rest[1..] && rest[1..] != []))
  {
    if '/' in value {
      var behind := SplitOnce(value, '/').value.1;
      var split := RSplitOnce(behind, ':');
      UnescapeReports(if split.Some? then split.value.0 else behind);
    }
    if Divides(value, provider, rest) {
      SplitIsUnique(provider, '/', rest);
      if rest != [] {
        var split := RSplitOnce(rest, ':');
        if rest[|rest| - 1] == ':' {
          RSplitIsUnique(rest[..|rest| - 1], ':', []);
          assert rest == rest[..|rest| - 1] + [':'] + [];
        }
        if rest[0] == ':' && ':' !in rest[1..] {
          RSplitIsUnique([], ':', rest[1..]);
          assert rest == [] + [':'] + rest[1..];
        }
        if split.Some? && split.value.0 == [] {
          assert rest[1..] == split.value.1;
        }
        if split.Some? && split.value.1 == [] {
          assert rest == split.value.0 + [':'];
        }
      }
    }
  }

  lemma {:induction false} UnescapeReports(raw: string)
    ensures Unescaped(raw).Err? ==> Unescaped(raw).error == InvalidComponent
  {
    if raw != [] {
      UnescapeReports(raw[1..]);
      if |raw| >= 3 {
        UnescapeReports(raw[3..]);
      }
    }
  }

  // ---------------------------------------------------------------- components, character by character

  function Flat(pieces: seq<string>): string {
    if pieces == [] then [] else pieces[0] + Flat(pieces[1..])
  }

  /** How a character of a model name may be written. */
  predicate Writes(piece: string, c: char) {
    || (piece == [c] && c != '%')
    || (piece == "%25" && c == '%')
    || ((piece == "%3A" || piece == "%3a") && c == ':')
  }

  ghost predicate WrittenAs(raw: string, value: string, pieces: seq<string>) {
    |pieces| == |value| && raw == Flat(pieces) && forall i | 0 <= i < |value| :: Writes(pieces[i], value[i])
  }

  lemma {:induction false} PiecesDecode(raw: string, value: string, pieces: seq<string>)
    requires WrittenAs(raw, value, pieces)
    ensures Unescaped(raw) == Ok(value)
    decreases pieces
  {
    if pieces != [] {
      var rest := Flat(pieces[1..]);
      assert WrittenAs(rest, value[1..], pieces[1..]);
      PiecesDecode(rest, value[1..], pieces[1..]);
      assert Writes(pieces[0], value[0]);
      assert raw[|pieces[0]|..] == rest;
      assert value == [value[0]] + value[1..];
    }
  }

  lemma {:induction false} DecodedPieces(raw: string) returns (pieces: seq<string>)
    requires Unescaped(raw).Ok?
    ensures WrittenAs(raw, Unescaped(raw).value, pieces)
  {
    if raw == [] {
      pieces := [];
    } else {
      var n := if raw[0] == '%' then 3 else 1;
      var rest := DecodedPieces(raw[n..]);
      pieces := [raw[..n]] + rest;
      assert pieces[1..] == rest;
      assert raw == raw[..n] + raw[n..];
      var value := Unescaped(raw).value;
      assert value == [value[0]] + Unescaped(raw[n..]).value;
      assert Writes(raw[..n], value[0]);
      forall i | 0 <= i < |value| ensures Writes(pieces[i], value[i]) {
        assert i > 0 ==> Writes(rest[i - 1], Unescaped(raw[n..]).value[i - 1]);
      }
    }
  }

  /**
   A component decodes to a name exactly if it writes it character by character: `%25` for a percent sign,
   `%3A` or `%3a` or itself for a colon, and every other character as itself. Any other text is invalid.
   */
  lemma UnescapedIsExact(raw: string, value: string)
    ensures Unescaped(raw) == Ok(value) <==> exists pieces :: WrittenAs(raw, value, pieces)
    ensures (forall v, pieces :: !WrittenAs(raw, v, pieces)) ==> Unescaped(raw) == Err(InvalidComponent)
  {
    UnescapeReports(raw);
    if Unescaped(raw).Ok? {
      var pieces := DecodedPieces(raw);
      assert WrittenAs(raw, Unescaped(raw).value, pieces);
    }
    if exists pieces :: WrittenAs(raw, value, pieces) {
      var pieces :| WrittenAs(raw, value, pieces);
      PiecesDecode(raw, value, pieces);
    }
  }

  /** A name is printed with `%25` for each percent sign, `%3A` for each colon, and all else as it is. */
  lemma {:induction false} EscapedPieces(value: string) returns (pieces: seq<string>)
    ensures |pieces| == |value| && EscapeModelComponent(value) == Flat(pieces)
    ensures
      forall i | 0 <= i < |value| ::
        pieces[i] == if value[i] == '%' then "%25" else if value[i] == ':' then "%3A" else [value[i]]
  {
    pieces := [];
    if value != [] {
      EscapeStep(value);
      var rest := EscapedPieces(value[1..]);
      pieces := [Escape(value[0])] + rest;
      assert pieces[1..] == rest;
    }
  }

  const LOWER_OR_DIGIT: string := "abcdefghijklmnopqrstuvwxyz" + "0123456789"

  /** A thinking level has one to 64 small letters, digits, underscores and dashes, the first a letter or digit. */
  lemma ThinkingLevels(value: string)
    ensures
      ValidThinkingId(value) <==>
        && 1 <= |value| <= 64 && value[0] in LOWER_OR_DIGIT
        && forall i | 0 <= i < |value| :: value[i] in LOWER_OR_DIGIT || value[i] in "_-"
  {
    forall i | 0 <= i < |value|
      ensures value[i] in LOWER_OR_DIGIT <==> 'a' <= value[i] <= 'z' || '0' <= value[i] <= '9'
      ensures value[i] in "_-" <==> value[i] == '_' || value[i] == '-'
    {
      SmallLetters(value[i]);
    }
    hide LOWER_OR_DIGIT;
    assert (forall c <- value :: IsThinkingByte(c)) <==> forall i | 0 <= i < |value| :: IsThinkingByte(value[i]);
  }

  lemma SmallLetters(c: char)
    ensures c in LOWER_OR_DIGIT <==> 'a' <= c <= 'z' || '0' <= c <= '9'
    ensures c in "_-" <==> c == '_' || c == '-'
  {
  }
}
