/**
 The append-only session log: its records, the replay that rebuilds a conversation from them, and the
 projection of the canonical transcript that a compaction checkpoint stands for.
 */
module SessionLog {
  import opened Wrappers

  type Image = string

  datatype Role = System | User | Assistant | Tool

  datatype ToolResult = ToolResult(callId: string, content: string, images: seq<Image>, isError: bool)

  datatype Entry = Entry(role: Role, content: string, images: seq<Image>, calls: string, results: seq<ToolResult>)

  datatype Todo = Todo(title: string, status: nat)

  datatype Checkpoint = Checkpoint(
    summary: string, firstKept: nat, tokensBefore: nat, tokensAfter: nat, trigger: string, historyLen: nat)

  datatype Record =
    | HistoryEntry(entry: Entry)
    | ModelChange(model: string, thinking: Option<string>)
    | ThinkingChange(thinking: Option<string>)
    | Compaction(checkpoint: Checkpoint)
    | TodoListUpdate(todos: seq<Todo>)

  /**
   A line that cannot be read as text (an I/O error, or bytes that are not UTF-8), one that is no envelope,
   or an envelope whose record may be unknown to this build.
   */
  datatype Line = Unreadable | Torn | Line(ordinal: nat, record: Option<Record>)

  datatype Loaded = Loaded(
    history: seq<Entry>,
    active: seq<Entry>,
    todos: seq<Todo>,
    compactions: seq<Checkpoint>,
    model: Option<string>,
    thinking: Option<string>,
    nextOrdinal: nat)

  // ---------------------------------------------------------------- projection

  const SUMMARY_PREFIX: string := "Previous context was compacted.\n\n"

  function SummaryEntry(summary: string): Entry {
    Entry(User, SUMMARY_PREFIX + summary, [], "", [])
  }

  /** Everything from index `n` on; nothing when there is no such index. */
  function Skip(history: seq<Entry>, n: nat): seq<Entry> {
    if n <= |history| then history[n..] else []
  }

  function ProjectedHistory(history: seq<Entry>, checkpoint: Checkpoint): seq<Entry> {
    [SummaryEntry(checkpoint.summary)] + Skip(history, checkpoint.firstKept)
  }

  // ---------------------------------------------------------------- replay

  function EmptySession(model: Option<string>): Loaded {
    Loaded([], [], [], [], model, None, 1)
  }

  function Replayed(loaded: Loaded, record: Record): Loaded {
    match record
    case HistoryEntry(entry) => loaded.(history := loaded.history + [entry], active := loaded.active + [entry])
    case ModelChange(model, thinking) => loaded.(model := Some(model), thinking := thinking)
    case ThinkingChange(thinking) => loaded.(thinking := thinking)
    case Compaction(checkpoint) =>
      loaded.(active := ProjectedHistory(loaded.history, checkpoint), compactions := loaded.compactions + [checkpoint])
    case TodoListUpdate(todos) => loaded.(todos := todos)
  }

  function ReplayedLine(loaded: Loaded, line: Line): Loaded {
    match line
    case Unreadable => loaded
    case Torn => loaded
    case Line(ordinal, record) =>
      var counted := loaded.(nextOrdinal := if loaded.nextOrdinal <= ordinal then ordinal + 1 else loaded.nextOrdinal);
      if record.None? then counted else Replayed(counted, record.value)
  }

  /** The conversation a session file stands for; nothing behind an unreadable line is part of it. */
  function Replay(model: Option<string>, lines: seq<Line>): Loaded {
    if lines == [] then EmptySession(model)
    else
      var before, last := lines[..|lines| - 1], lines[|lines| - 1];
      if Unreadable in before then Replay(model, before) else ReplayedLine(Replay(model, before), last)
  }

  lemma ReplaySnoc(model: Option<string>, lines: seq<Line>, line: Line)
    ensures Replay(model, lines + [line])
         == if Unreadable in lines then Replay(model, lines) else ReplayedLine(Replay(model, lines), line)
  {
    assert (lines + [line])[..|lines|] == lines;
  }

  /** The loading loop, over the lines after the header. */
  method LoadPath(model: Option<string>, lines: seq<Line>) returns (loaded: Loaded)
    ensures loaded == Replay(model, lines)
  {
    var history, active, todos := [], [], [];
    var compactions: seq<Checkpoint> := [];
    var selected, thinking := model, None;
    var nextOrdinal: nat := 1;
    var i := 0;
    while i < |lines| && lines[i] != Unreadable
      invariant 0 <= i <= |lines| && Unreadable !in lines[..i]
      invariant Loaded(history, active, todos, compactions, selected, thinking, nextOrdinal) == Replay(model, lines[..i])
    {
      assert lines[..i + 1] == lines[..i] + [lines[i]];
      ReplaySnoc(model, lines[..i], lines[i]);
      if lines[i].Line? {
        if nextOrdinal < lines[i].ordinal + 1 {
          nextOrdinal := lines[i].ordinal + 1;
        }
        if lines[i].record.Some? {
          match lines[i].record.value {
            case HistoryEntry(entry) =>
              history := history + [entry];
              active := active + [entry];
            case ModelChange(changed, changedThinking) =>
              selected, thinking := Some(changed), changedThinking;
            case ThinkingChange(changed) =>
              thinking := changed;
            case Compaction(checkpoint) =>
              active := ProjectedHistory(history, checkpoint);
              compactions := compactions + [checkpoint];
            case TodoListUpdate(updated) =>
              todos := updated;
          }
        }
      }
      i := i + 1;
    }
    loaded := Loaded(history, active, todos, compactions, selected, thinking, nextOrdinal);
    if i < |lines| {
      assert lines == lines[..i] + [Unreadable] + lines[i + 1..];
      UnreadableEndsTheReplay(model, lines[..i], lines[i + 1..]);
    } else {
      assert lines[..i] == lines;
    }
  }

  /** An unreadable line ends the replay: all that follows it, however well-formed, is dropped. */
  lemma {:induction false} UnreadableEndsTheReplay(model: Option<string>, before: seq<Line>, after: seq<Line>)
    ensures Replay(model, before + [Unreadable] + after) == Replay(model, before)
  {
    if after == [] {
      assert before + [Unreadable] + after == before + [Unreadable];
      ReplaySnoc(model, before, Unreadable);
    } else {
      var rest, last := after[..|after| - 1], after[|after| - 1];
      assert before + [Unreadable] + after == (before + [Unreadable] + rest) + [last];
      assert (before + [Unreadable] + rest)[|before|] == Unreadable;
      ReplaySnoc(model, before + [Unreadable] + rest, last);
      UnreadableEndsTheReplay(model, before, rest);
    }
  }

  /** So replay sees exactly the lines before the first unreadable one. */
  lemma ReplayReadsUpToUnreadable(model: Option<string>, lines: seq<Line>, first: nat)
    requires first <= |lines| && Unreadable !in lines[..first] && (first < |lines| ==> lines[first] == Unreadable)
    ensures Replay(model, lines) == Replay(model, lines[..first])
  {
    if first < |lines| {
      assert lines == lines[..first] + [Unreadable] + lines[first + 1..];
      UnreadableEndsTheReplay(model, lines[..first], lines[first + 1..]);
    } else {
      assert lines[..first] == lines;
    }
  }

  /** A line that is readable text but no envelope changes nothing that is replayed, wherever it stands. */
  lemma {:induction false} TornLinesAreSkipped(model: Option<string>, before: seq<Line>, after: seq<Line>)
    ensures Replay(model, before + [Torn] + after) == Replay(model, before + after)
  {
    if after == [] {
      assert before + [Torn] + after == before + [Torn] && before + after == before;
      ReplaySnoc(model, before, Torn);
    } else {
      var rest, last := after[..|after| - 1], after[|after| - 1];
      assert before + [Torn] + after == (before + [Torn] + rest) + [last];
      assert before + after == (before + rest) + [last];
      ReplaySnoc(model, before + [Torn] + rest, last);
      ReplaySnoc(model, before + rest, last);
      assert Unreadable in before + [Torn] + rest <==> Unreadable in before + rest by {
        assert forall line :: line in before + [Torn] + rest <==> line == Torn || line in before + rest;
      }
      TornLinesAreSkipped(model, before, rest);
    }
  }

  // ---------------------------------------------------------------- user turns

  /** The position of the last user entry. */
  function LastUser(history: seq<Entry>): (index: Option<nat>)
    ensures index.Some? ==> index.value < |history| && history[index.value].role == User
  {
    if history == [] then None
    else if history[|history| - 1].role == User then Some(|history| - 1)
    else LastUser(history[..|history| - 1])
  }

  /** Where the preserved tail starts: the user entry before the last user entry. */
  function PreservedTailStart(history: seq<Entry>): (index: Option<nat>)
    ensures index.Some? ==> index.value < |history| && history[index.value].role == User
  {
    var last := LastUser(history);
    if last.None? then None else LastUser(history[..last.value])
  }

  function Users(history: seq<Entry>): nat {
    if history == [] then 0
    else Users(history[..|history| - 1]) + if history[|history| - 1].role == User then 1 else 0
  }

  lemma {:induction false} UsersAppend(a: seq<Entry>, b: seq<Entry>)
    ensures Users(a + b) == Users(a) + Users(b)
  {
    if b == [] {
      assert a + b == a;
    } else {
      assert (a + b)[..|a + b| - 1] == a + b[..|b| - 1];
      UsersAppend(a, b[..|b| - 1]);
    }
  }

  lemma {:induction false} LastUserIsLast(history: seq<Entry>)
    ensures LastUser(history).None? <==> Users(history) == 0
    ensures LastUser(history).Some? ==> Users(history[LastUser(history).value..]) == 1
  {
    if history != [] {
      var last := |history| - 1;
      if history[last].role == User {
        assert history[last..] == [history[last]];
        assert [history[last]][..0] == [];
      } else {
        LastUserIsLast(history[..last]);
        var index := LastUser(history[..last]);
        if index.Some? {
          assert history[index.value..] == history[..last][index.value..] + [history[last]];
          UsersAppend(history[..last][index.value..], [history[last]]);
          assert [history[last]][..0] == [];
        }
      }
    }
  }

  /** The preserved tail starts at a user entry and holds exactly two user turns. */
  lemma PreservedTailHoldsTwoTurns(history: seq<Entry>)
    ensures PreservedTailStart(history).None? <==> Users(history) < 2
    ensures PreservedTailStart(history).Some? ==> Users(history[PreservedTailStart(history).value..]) == 2
  {
    LastUserIsLast(history);
    var last := LastUser(history);
    if last.Some? {
      LastUserIsLast(history[..last.value]);
      assert history == history[..last.value] + history[last.value..];
      UsersAppend(history[..last.value], history[last.value..]);
      var start := LastUser(history[..last.value]);
      if start.Some? {
        assert history[start.value..] == history[..last.value][start.value..] + history[last.value..];
        UsersAppend(history[..last.value][start.value..], history[last.value..]);
      }
    }
  }

  lemma EarlierUserAddsOne(history: seq<Entry>, i: nat, j: nat)
    requires i < j < |history| && history[i].role == User
    ensures Users(history[i..]) >= 1 + Users(history[j..])
  {
    var first, middle := [history[i]], history[i + 1..j];
    assert history[i..] == first + (middle + history[j..]);
    UsersAppend(first, middle + history[j..]);
    UsersAppend(middle, history[j..]);
    assert first[..0] == [];
  }

  /** Those two facts pin the start down. */
  lemma PreservedTailIsUnique(history: seq<Entry>, index: nat)
    requires index < |history| && history[index].role == User && Users(history[index..]) == 2
    ensures PreservedTailStart(history) == Some(index)
  {
    hide Users, LastUser, PreservedTailStart;
    PreservedTailHoldsTwoTurns(history);
    assert history == history[..index] + history[index..];
    UsersAppend(history[..index], history[index..]);
    var start := PreservedTailStart(history).value;
    if start < index {
      EarlierUserAddsOne(history, start, index);
    } else if index < start {
      EarlierUserAddsOne(history, index, start);
    }
  }

  // ---------------------------------------------------------------- images

  function WithoutResultImages(results: seq<ToolResult>): (bare: seq<ToolResult>)
    ensures |bare| == |results|
  {
    seq(|results|, i requires 0 <= i < |results| => results[i].(images := []))
  }

  function WithoutImages(entry: Entry): Entry {
    entry.(images := [], results := WithoutResultImages(entry.results))
  }

  function Erased(history: seq<Entry>): (erased: seq<Entry>)
    ensures |erased| == |history|
  {
    seq(|history|, i requires 0 <= i < |history| => WithoutImages(history[i]))
  }

  /** The same conversation up to image attachments. */
  ghost predicate SameText(a: seq<Entry>, b: seq<Entry>) {
    Erased(a) == Erased(b)
  }

  lemma ErasedAt(history: seq<Entry>, i: nat)
    requires i < |history|
    ensures Erased(history)[i] == WithoutImages(history[i])
  {
  }

  lemma SameTextAt(a: seq<Entry>, b: seq<Entry>, i: nat)
    requires SameText(a, b) && i < |a|
    ensures |a| == |b| && WithoutImages(a[i]) == WithoutImages(b[i]) && a[i].role == b[i].role
  {
    assert |Erased(a)| == |Erased(b)|;
    ErasedAt(a, i);
    ErasedAt(b, i);
  }

  lemma SameTextFromEntries(a: seq<Entry>, b: seq<Entry>)
    requires |a| == |b| && forall i | 0 <= i < |a| :: WithoutImages(a[i]) == WithoutImages(b[i])
    ensures SameText(a, b)
  {
    assert Erased(a) == Erased(b);
  }

  lemma ErasingTwice(history: seq<Entry>)
    ensures SameText(Erased(history), history)
  {
    forall i | 0 <= i < |history| ensures WithoutImages(Erased(history)[i]) == WithoutImages(history[i]) {
      ErasedAt(history, i);
      var results := history[i].results;
      assert WithoutResultImages(WithoutResultImages(results)) == WithoutResultImages(results);
    }
    SameTextFromEntries(Erased(history), history);
  }

  lemma SameTextAppend(a: seq<Entry>, b: seq<Entry>, c: seq<Entry>)
    requires SameText(a, b)
    ensures SameText(a + c, b + c)
  {
    assert |Erased(a)| == |Erased(b)|;
    forall i | 0 <= i < |a + c| ensures WithoutImages((a + c)[i]) == WithoutImages((b + c)[i]) {
      if i < |a| {
        SameTextAt(a, b, i);
      }
    }
    SameTextFromEntries(a + c, b + c);
  }

  lemma SameTextFront(entry: Entry, a: seq<Entry>, b: seq<Entry>)
    requires SameText(a, b)
    ensures SameText([entry] + a, [entry] + b)
  {
    assert |Erased(a)| == |Erased(b)|;
    forall i | 0 <= i <= |a| ensures WithoutImages(([entry] + a)[i]) == WithoutImages(([entry] + b)[i]) {
      if i > 0 {
        SameTextAt(a, b, i - 1);
      }
    }
    SameTextFromEntries([entry] + a, [entry] + b);
  }

  lemma SameTextSlice(a: seq<Entry>, b: seq<Entry>, from: nat, to: nat)
    requires SameText(a, b) && from <= to <= |a|
    ensures |a| == |b| && SameText(a[from..to], b[from..to])
  {
    assert |Erased(a)| == |Erased(b)|;
    forall i | 0 <= i < to - from ensures WithoutImages(a[from..to][i]) == WithoutImages(b[from..to][i]) {
      SameTextAt(a, b, from + i);
    }
    SameTextFromEntries(a[from..to], b[from..to]);
  }

  /** Images play no part in where user turns are. */
  lemma {:induction false} SameTextSameUsers(a: seq<Entry>, b: seq<Entry>)
    requires SameText(a, b)
    ensures |a| == |b| && LastUser(a) == LastUser(b) && Users(a) == Users(b)
  {
    assert |Erased(a)| == |Erased(b)|;
    if a != [] {
      SameTextAt(a, b, |a| - 1);
      SameTextSlice(a, b, 0, |a| - 1);
      SameTextSameUsers(a[..|a| - 1], b[..|b| - 1]);
    }
  }

  lemma SameTextSameTail(a: seq<Entry>, b: seq<Entry>)
    requires SameText(a, b)
    ensures PreservedTailStart(a) == PreservedTailStart(b)
  {
    SameTextSameUsers(a, b);
    if LastUser(a).Some? {
      SameTextSlice(a, b, 0, LastUser(a).value);
      SameTextSameUsers(a[..LastUser(a).value], b[..LastUser(a).value]);
    }
  }

  // ---------------------------------------------------------------- the selection and the numbering of a file

  predicate ChangesModel(line: Line) {
    line.Line? && line.record.Some? && line.record.value.ModelChange?
  }

  predicate ChangesThinking(line: Line) {
    line.Line? && line.record.Some? && (line.record.value.ModelChange? || line.record.value.ThinkingChange?)
  }

  /** The model is that of the last record that changes it, or else the one of the header. */
  lemma {:induction false} ModelIsTheLastOne(model: Option<string>, lines: seq<Line>, i: nat)
    requires Unreadable !in lines && i <= |lines| && forall j | i < j < |lines| :: !ChangesModel(lines[j])
    requires i < |lines| ==> ChangesModel(lines[i])
    requires i == |lines| ==> forall j | 0 <= j < |lines| :: !ChangesModel(lines[j])
    ensures Replay(model, lines).model == if i < |lines| then Some(lines[i].record.value.model) else model
  {
    if lines != [] && i != |lines| - 1 {
      ModelIsTheLastOne(model, lines[..|lines| - 1], if i < |lines| then i else |lines| - 1);
    }
  }

  /** The thinking level is that of the last record that changes the model or the level, or else none. */
  lemma {:induction false} ThinkingIsTheLastOne(model: Option<string>, lines: seq<Line>, i: nat)
    requires Unreadable !in lines && i <= |lines| && forall j | i < j < |lines| :: !ChangesThinking(lines[j])
    requires i < |lines| ==> ChangesThinking(lines[i])
    requires i == |lines| ==> forall j | 0 <= j < |lines| :: !ChangesThinking(lines[j])
    ensures Replay(model, lines).thinking == if i < |lines| then lines[i].record.value.thinking else None
  {
    if lines != [] && i != |lines| - 1 {
      ThinkingIsTheLastOne(model, lines[..|lines| - 1], if i < |lines| then i else |lines| - 1);
    }
  }

  /** The next ordinal is above all that were read, by one, and 1 if there were none. */
  lemma {:induction false} NextOrdinalIsExact(model: Option<string>, lines: seq<Line>)
    requires Unreadable !in lines
    ensures forall i | 0 <= i < |lines| && lines[i].Line? :: lines[i].ordinal < Replay(model, lines).nextOrdinal
    ensures
      var next := Replay(model, lines).nextOrdinal;
      next == 1 || exists i :: 0 <= i < |lines| && lines[i].Line? && next == lines[i].ordinal + 1
  {
    if lines != [] {
      NextOrdinalIsExact(model, lines[..|lines| - 1]);
    }
  }

  /** Clearing images takes all of them, from entries and results, and nothing else. */
  lemma ErasedIsExact(history: seq<Entry>, i: nat)
    requires i < |history|
    ensures
      var (entry, bare) := (history[i], Erased(history)[i]);
      && bare.images == [] && bare.role == entry.role && bare.content == entry.content && bare.calls == entry.calls
      && |bare.results| == |entry.results|
      && forall j | 0 <= j < |entry.results| ::
           && bare.results[j].images == [] && bare.results[j].callId == entry.results[j].callId
           && bare.results[j].content == entry.results[j].content && bare.results[j].isError == entry.results[j].isError
  {
    ErasedAt(history, i);
  }
}
