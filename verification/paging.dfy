/**
 Paged reading of a text file: the line spans of its content, one page of lines, and the walk that follows
 the offset each page names for the next one.
 */
module Paging {
  import opened Numerals
  import opened Wrappers

  datatype Span = Span(start: nat, end: nat)

  datatype BoundedText = BoundedText(content: string, readBoundaryReached: bool)

  datatype Terminal = NextOffset(offset: nat) | ReadBoundaryReached | EndOfFile

  /** A page without its formatting; `range` are the first and the last line, `newlineAdded` closes an open line. */
  datatype Page = Page(offset: nat, range: Option<(nat, nat)>, body: string, newlineAdded: bool, terminal: Terminal)

  // ---------------------------------------------------------------- lines

  /** Just behind the first newline at or after `from`, or the end of the content. */
  function LineEnd(content: string, from: nat): (end: nat)
    requires from < |content|
    ensures from < end <= |content|
    ensures forall k | from <= k < end - 1 :: content[k] != '\n'
    ensures content[end - 1] == '\n' || end == |content|
    decreases |content| - from
  {
    if content[from] == '\n' || from + 1 == |content| then from + 1 else LineEnd(content, from + 1)
  }

  function LinesFrom(content: string, start: nat): seq<Span>
    requires start <= |content|
    decreases |content| - start
  {
    if start == |content| then []
    else [Span(start, LineEnd(content, start))] + LinesFrom(content, LineEnd(content, start))
  }

  lemma LineEndIs(content: string, from: nat, end: nat)
    requires from < end <= |content| && (forall k | from <= k < end - 1 :: content[k] != '\n')
    requires content[end - 1] == '\n' || end == |content|
    ensures LineEnd(content, from) == end
  {
  }

  method LineSpans(content: string) returns (spans: seq<Span>)
    ensures spans == LinesFrom(content, 0)
  {
    spans := [];
    var start := 0;
    var index := 0;
    while index < |content|
      invariant start <= index <= |content|
      invariant forall k | start <= k < index :: content[k] != '\n'
      invariant spans + LinesFrom(content, start) == LinesFrom(content, 0)
    {
      if content[index] == '\n' {
        LineEndIs(content, start, index + 1);
        spans := spans + [Span(start, index + 1)];
        start := index + 1;
      }
      index := index + 1;
    }
    if start < |content| {
      LineEndIs(content, start, |content|);
      spans := spans + [Span(start, |content|)];
    }
  }

  /** One span: no newline but at its end, followed by the next span or, behind the last one, by nothing. */
  ghost predicate LineAt(content: string, spans: seq<Span>, i: nat)
    requires i < |spans|
  {
    var Span(start, end) := spans[i];
    && start < end <= |content|
    && (forall k | start <= k < end - 1 :: content[k] != '\n')
    && (if i + 1 < |spans| then content[end - 1] == '\n' && spans[i + 1].start == end else end == |content|)
  }

  /** The spans cover the content from `start` on, with no gap and no overlap, and each newline ends a span. */
  ghost predicate LineTiling(content: string, start: nat, spans: seq<Span>) {
    && start <= |content| && (spans == [] <==> start == |content|)
    && (spans != [] ==> spans[0].start == start)
    && (forall i: nat | i < |spans| :: LineAt(content, spans, i))
  }

  lemma {:induction false} LinesTile(content: string, start: nat)
    requires start <= |content|
    ensures LineTiling(content, start, LinesFrom(content, start))
    decreases |content| - start
  {
    if start < |content| {
      var end := LineEnd(content, start);
      LinesTile(content, end);
      var rest := LinesFrom(content, end);
      var spans := LinesFrom(content, start);
      forall i: nat | i < |spans| ensures LineAt(content, spans, i) {
        if i > 0 {
          assert spans[i] == rest[i - 1];
          assert LineAt(content, rest, i - 1);
        }
      }
    }
  }

  /** And they are the only such spans. */
  lemma {:induction false} TilingIsUnique(content: string, start: nat, spans: seq<Span>)
    requires LineTiling(content, start, spans)
    ensures spans == LinesFrom(content, start)
    decreases spans
  {
    if spans != [] {
      var end := spans[0].end;
      var rest := spans[1..];
      assert LineAt(content, spans, 0);
      LineEndIs(content, start, end);
      if rest != [] {
        assert LineAt(content, spans, 1);
      }
      forall i: nat | i < |rest| ensures LineAt(content, rest, i) {
        assert LineAt(content, spans, i + 1);
      }
      TilingIsUnique(content, end, rest);
      assert spans == [spans[0]] + rest;
    }
  }

  // ---------------------------------------------------------------- one page

  function Min(a: nat, b: nat): nat {
    if a <= b then a else b
  }

  function Selected(spans: seq<Span>, offset: nat, limit: nat): seq<Span> {
    if offset == 0 || offset - 1 > |spans| then []
    else spans[offset - 1..][..Min(|spans| - (offset - 1), limit)]
  }

  predicate Inside(content: string, spans: seq<Span>) {
    forall span <- spans :: span.start <= span.end <= |content|
  }

  function Body(content: string, selected: seq<Span>): string
    requires Inside(content, selected)
  {
    if selected == [] then []
    else content[selected[0].start..selected[0].end] + Body(content, selected[1..])
  }

  function PageOf(projection: BoundedText, offset: nat, limit: nat): Page {
    var spans := LinesFrom(projection.content, 0);
    var selected := Selected(spans, offset, limit);
    SelectedInside(projection.content, offset, limit);
    var body := Body(projection.content, selected);
    Page(
      offset,
      if selected == [] then None else Some((offset, offset + |selected| - 1)),
      body,
      body != [] && body[|body| - 1] != '\n',
      if offset > 0 && offset - 1 + |selected| < |spans| then NextOffset(offset + |selected|)
      else if projection.readBoundaryReached then ReadBoundaryReached
      else EndOfFile)
  }

  lemma {:induction false} LinesInside(content: string, start: nat)
    requires start <= |content|
    ensures Inside(content, LinesFrom(content, start))
    decreases |content| - start
  {
    if start < |content| {
      LinesInside(content, LineEnd(content, start));
    }
  }

  lemma SelectedInside(content: string, offset: nat, limit: nat)
    ensures Inside(content, Selected(LinesFrom(content, 0), offset, limit))
  {
    hide LinesFrom;
    LinesInside(content, 0);
    assert forall span <- Selected(LinesFrom(content, 0), offset, limit) :: span in LinesFrom(content, 0);
  }

  lemma {:induction false} BodySnoc(content: string, selected: seq<Span>, span: Span)
    requires Inside(content, selected) && span.start <= span.end <= |content|
    ensures Inside(content, selected + [span])
    ensures Body(content, selected + [span]) == Body(content, selected) + content[span.start..span.end]
  {
    if selected == [] {
      assert Body(content, [span]) == content[span.start..span.end] + Body(content, []);
    } else {
      assert (selected + [span])[1..] == selected[1..] + [span];
      BodySnoc(content, selected[1..], span);
      var first := content[selected[0].start..selected[0].end];
      assert first + (Body(content, selected[1..]) + content[span.start..span.end])
          == first + Body(content, selected[1..]) + content[span.start..span.end];
    }
  }

  lemma BodyOfNothing(content: string)
    ensures Body(content, []) == []
  {
  }

  function RangeText(range: Option<(nat, nat)>): string {
    if range.None? then "empty" else Decimal(range.value.0) + "-" + Decimal(range.value.1)
  }

  function TerminalText(terminal: Terminal): string {
    match terminal
    case NextOffset(offset) => "next_offset=" + Decimal(offset)
    case ReadBoundaryReached => "read_boundary_reached"
    case EndOfFile => "end_of_file"
  }

  function Header(page: Page): string {
    "[read_file page offset=" + Decimal(page.offset) + " range=" + RangeText(page.range) + "]\n"
  }

  /** The page as the tool returns it: a header line, the lines, and a footer on a line of its own. */
  function Text(page: Page): string {
    Header(page) + page.body + (if page.newlineAdded then "\n" else "") + ("[" + TerminalText(page.terminal) + "]")
  }

  method FormatPage(projection: BoundedText, offset: nat, limit: nat) returns (page: Page, text: string)
    ensures page == PageOf(projection, offset, limit)
    ensures text == Text(page)
  {
    hide LinesFrom, Selected, Body;
    var content := projection.content;
    var spans := LineSpans(content);
    var selected := Selected(spans, offset, limit);
    SelectedInside(content, offset, limit);
    var range := if selected == [] then None else Some((offset, offset + |selected| - 1));
    var body := [];
    var i := 0;
    assert body == Body(content, selected[..0]) by { BodyOfNothing(content); }
    while i < |selected|
      invariant i <= |selected| && Inside(content, selected[..i])
      invariant body == Body(content, selected[..i])
    {
      assert selected[..i + 1] == selected[..i] + [selected[i]];
      BodySnoc(content, selected[..i], selected[i]);
      body := body + content[selected[i].start..selected[i].end];
      i := i + 1;
    }
    assert selected[..i] == selected;
    text := "[read_file page offset=" + Decimal(offset) + " range=" + RangeText(range) + "]\n" + body;
    var newlineAdded := text[|text| - 1] != '\n';
    if newlineAdded {
      text := text + "\n";
    }
    assert text == Header(Page(offset, range, body, newlineAdded, EndOfFile)) + body + (if newlineAdded then "\n" else "");
    var terminal := EndOfFile;
    if offset > 0 && offset - 1 + |selected| < |spans| {
      terminal := NextOffset(offset + |selected|);
    } else if projection.readBoundaryReached {
      terminal := ReadBoundaryReached;
    }
    text := text + ("[" + TerminalText(terminal) + "]");
    page := Page(offset, range, body, newlineAdded, terminal);
  }

  // ---------------------------------------------------------------- results

  /** Where line `index` starts; behind the last line, the end of the content. */
  function LineStart(content: string, spans: seq<Span>, index: nat): nat
    requires index <= |spans|
  {
    if index < |spans| then spans[index].start else |content|
  }

  lemma {:induction false} BodyOfLines(content: string, spans: seq<Span>, from: nat, to: nat)
    requires from <= to <= |spans|
    requires LineTiling(content, 0, spans)
    ensures Inside(content, spans[from..to])
    ensures LineStart(content, spans, from) <= LineStart(content, spans, to) <= |content|
    ensures Body(content, spans[from..to]) == content[LineStart(content, spans, from)..LineStart(content, spans, to)]
    decreases |spans| - from
  {
    if from < to {
      BodyOfLines(content, spans, from + 1, to);
      assert LineAt(content, spans, from);
      assert spans[from..to] == [spans[from]] + spans[from + 1..to];
      var start, middle, end := LineStart(content, spans, from), spans[from].end, LineStart(content, spans, to);
      assert middle == LineStart(content, spans, from + 1);
      assert content[start..middle] + content[middle..end] == content[start..end];
    } else if from < |spans| {
      assert LineAt(content, spans, from);
    }
  }

  /** A page holds the consecutive lines from its offset on: as many as there are, up to the limit. */
  lemma PageHoldsLines(projection: BoundedText, offset: nat, limit: nat)
    requires 1 <= offset <= |LinesFrom(projection.content, 0)| + 1
    ensures
      var content := projection.content;
      var spans := LinesFrom(content, 0);
      var last := Min(|spans|, offset - 1 + limit);
      var page := PageOf(projection, offset, limit);
      && LineStart(content, spans, offset - 1) <= LineStart(content, spans, last) <= |content|
      && page.body == content[LineStart(content, spans, offset - 1)..LineStart(content, spans, last)]
      && page.range == (if last < offset then None else Some((offset, last)))
      && (page.terminal.NextOffset? <==> last < |spans|)
      && (page.terminal.NextOffset? ==> page.terminal.offset == last + 1)
  {
    hide LinesFrom, LineTiling, Body, Inside;
    var content := projection.content;
    var spans := LinesFrom(content, 0);
    var last := Min(|spans|, offset - 1 + limit);
    LinesTile(content, 0);
    BodyOfLines(content, spans, offset - 1, last);
    assert Selected(spans, offset, limit) == spans[offset - 1..last];
  }

  /** Outside the content a page is empty and is the last one. */
  lemma PageOutsideIsEmpty(projection: BoundedText, offset: nat, limit: nat)
    requires offset == 0 || offset > |LinesFrom(projection.content, 0)| + 1
    ensures
      var page := PageOf(projection, offset, limit);
      && page.body == [] && page.range.None? && !page.newlineAdded
      && page.terminal == (if projection.readBoundaryReached then ReadBoundaryReached else EndOfFile)
  {
    hide LinesFrom;
  }

  /** A newline is only ever added behind the last line, and only if the content does not end with one. */
  lemma OnlyAnOpenLineIsClosed(projection: BoundedText, offset: nat, limit: nat)
    requires 1 <= offset <= |LinesFrom(projection.content, 0)| + 1
    ensures
      var content := projection.content;
      var page := PageOf(projection, offset, limit);
      page.newlineAdded <==>
        page.body != [] && offset - 1 + limit >= |LinesFrom(content, 0)| && content[|content| - 1] != '\n'
  {
    hide LinesFrom, Body, Inside;
    var content := projection.content;
    var spans := LinesFrom(content, 0);
    var last := Min(|spans|, offset - 1 + limit);
    var page := PageOf(projection, offset, limit);
    PageHoldsLines(projection, offset, limit);
    LinesTile(content, 0);
    if page.body != [] {
      assert page.body[|page.body| - 1] == content[LineStart(content, spans, last) - 1];
      assert last > 0;
      assert LineAt(content, spans, last - 1);
      assert LineStart(content, spans, last) == spans[last - 1].end;
    }
  }

  /** The footer of a page stands on a line of its own, behind the header and the unchanged lines. */
  lemma FooterStandsAlone(projection: BoundedText, offset: nat, limit: nat)
    ensures
      var page := PageOf(projection, offset, limit);
      var front := Header(page) + page.body + (if page.newlineAdded then "\n" else "");
      && Text(page) == front + ("[" + TerminalText(page.terminal) + "]")
      && front[|front| - 1] == '\n'
  {
    hide Decimal, LinesFrom;
    var page := PageOf(projection, offset, limit);
    assert Header(page)[|Header(page)| - 1] == '\n';
  }

  /** The bodies of the pages read by following the named offsets. */
  function Walk(projection: BoundedText, offset: nat, limit: nat): seq<Page>
    requires 1 <= offset <= |LinesFrom(projection.content, 0)| + 1 && limit >= 1
    decreases |LinesFrom(projection.content, 0)| + 1 - offset
  {
    var page := PageOf(projection, offset, limit);
    PageHoldsLines(projection, offset, limit);
    if page.terminal.NextOffset? then [page] + Walk(projection, page.terminal.offset, limit) else [page]
  }

  function Bodies(pages: seq<Page>): string {
    if pages == [] then [] else pages[0].body + Bodies(pages[1..])
  }

  lemma BodiesCons(page: Page, pages: seq<Page>)
    ensures Bodies([page] + pages) == page.body + Bodies(pages)
  {
    assert ([page] + pages)[1..] == pages;
  }

  lemma {:induction false} WalkBodies(projection: BoundedText, offset: nat, limit: nat)
    requires 1 <= offset <= |LinesFrom(projection.content, 0)| + 1 && limit >= 1
    ensures
      var from := LineStart(projection.content, LinesFrom(projection.content, 0), offset - 1);
      from <= |projection.content| && Bodies(Walk(projection, offset, limit)) == projection.content[from..]
    decreases |LinesFrom(projection.content, 0)| + 1 - offset
  {
    hide LinesFrom, PageOf, Bodies;
    var content := projection.content;
    var spans := LinesFrom(content, 0);
    var page := PageOf(projection, offset, limit);
    var last := Min(|spans|, offset - 1 + limit);
    var start, middle := LineStart(content, spans, offset - 1), LineStart(content, spans, last);
    PageHoldsLines(projection, offset, limit);
    if page.terminal.NextOffset? {
      WalkBodies(projection, last + 1, limit);
      BodiesCons(page, Walk(projection, last + 1, limit));
      assert content[start..middle] + content[middle..] == content[start..];
    } else {
      BodiesCons(page, []);
      assert [page] + [] == [page];
      assert Bodies([]) == [] by { NoBodies(); }
    }
  }

  lemma NoBodies()
    ensures Bodies([]) == []
  {
  }

  lemma {:induction false} WalkOffsets(projection: BoundedText, offset: nat, limit: nat)
    requires 1 <= offset <= |LinesFrom(projection.content, 0)| + 1 && limit >= 1
    ensures
      var pages := Walk(projection, offset, limit);
      && pages != []
      && pages[|pages| - 1].terminal == (if projection.readBoundaryReached then ReadBoundaryReached else EndOfFile)
      && forall i | 0 <= i < |pages| - 1 ::
           pages[i].terminal.NextOffset? && pages[i].terminal.offset <= |LinesFrom(projection.content, 0)|
    decreases |LinesFrom(projection.content, 0)| + 1 - offset
  {
    hide LinesFrom;
    var page := PageOf(projection, offset, limit);
    var pages := Walk(projection, offset, limit);
    PageHoldsLines(projection, offset, limit);
    if page.terminal.NextOffset? {
      var rest := Walk(projection, page.terminal.offset, limit);
      WalkOffsets(projection, page.terminal.offset, limit);
      assert pages == [page] + rest;
      assert forall i | 0 < i < |pages| :: pages[i] == rest[i - 1];
    }
  }

  /**
   Reading from offset 1 with any limit of at least one line gives the whole content, page by page; no
   offset on the way exceeds the number of lines, and the last page says whether the content was complete.
   */
  lemma WalkReconstructsContent(projection: BoundedText, limit: nat)
    requires limit >= 1
    ensures
      var pages := Walk(projection, 1, limit);
      && Bodies(pages) == projection.content
      && pages != []
      && pages[|pages| - 1].terminal == (if projection.readBoundaryReached then ReadBoundaryReached else EndOfFile)
      && (forall i | 0 <= i < |pages| - 1 ::
            pages[i].terminal.NextOffset? && pages[i].terminal.offset <= |LinesFrom(projection.content, 0)|)
  {
    hide LinesFrom;
    LinesTile(projection.content, 0);
    WalkBodies(projection, 1, limit);
    WalkOffsets(projection, 1, limit);
    assert projection.content[0..] == projection.content;
  }

  /** A page names a next offset that is not its own exactly when the limit lets it hold a line. */
  lemma PageAdvancesIffLimitIsPositive(projection: BoundedText, offset: nat, limit: nat)
    requires PageOf(projection, offset, limit).terminal.NextOffset?
    ensures PageOf(projection, offset, limit).terminal.offset > offset <==> limit >= 1
  {
  }

  /**
   What the text of a page says: the offset that was asked for, the first and the last line it holds, or that
   it holds none, those lines, and the offset of the next line or why there is none.
   */
  lemma PageSays(projection: BoundedText, offset: nat, limit: nat) returns (asked: string, last: string, next: string)
    requires 1 <= offset <= |LinesFrom(projection.content, 0)| + 1
    ensures
      var count := |LinesFrom(projection.content, 0)|;
      var end := Min(count, offset - 1 + limit);
      var page := PageOf(projection, offset, limit);
      && Value(asked) == offset && Value(last) == end && Value(next) == end + 1
      && Text(page)
         == "[read_file page offset=" + asked + " range=" + (if end < offset then "empty" else asked + "-" + last) + "]\n"
            + page.body + (if page.newlineAdded then "\n" else "")
            + ("[" + (if end < count then "next_offset=" + next
                      else if projection.readBoundaryReached then "read_boundary_reached"
                      else "end_of_file") + "]")
  {
    hide LinesFrom, Decimal, PageOf, Text, Value;
    var end := Min(|LinesFrom(projection.content, 0)|, offset - 1 + limit);
    TextOf(PageOf(projection, offset, limit));
    asked, last, next := Decimal(offset), Decimal(end), Decimal(end + 1);
    DecimalDenotes(offset);
    DecimalDenotes(end);
    DecimalDenotes(end + 1);
    PageHoldsLines(projection, offset, limit);
    LastPageSaysWhy(projection, offset, limit);
  }

  lemma TextOf(page: Page)
    ensures
      Text(page)
      == "[read_file page offset=" + Decimal(page.offset) + " range=" + RangeText(page.range) + "]\n"
         + page.body + (if page.newlineAdded then "\n" else "") + ("[" + TerminalText(page.terminal) + "]")
  {
    hide Decimal, RangeText, TerminalText;
  }

  lemma LastPageSaysWhy(projection: BoundedText, offset: nat, limit: nat)
    ensures
      var page := PageOf(projection, offset, limit);
      && page.offset == offset
      && (!page.terminal.NextOffset? ==>
            page.terminal == if projection.readBoundaryReached then ReadBoundaryReached else EndOfFile)
  {
    hide LinesFrom;
  }
}
