/** Machines that read a text one character at a time. */
module Folds {

  /** The state after a text. */
  function Fold<S>(next: (S, char) -> S, s: S, text: string): S {
    if text == "" then s else next(Fold(next, s, text[..|text| - 1]), text[|text| - 1])
  }

  /** Everything put out on the way. */
  function Emits<S, E>(next: (S, char) -> S, given: (S, char) -> seq<E>, s: S, text: string): seq<E> {
    if text == "" then []
    else
      var init, c := text[..|text| - 1], text[|text| - 1];
      Emits(next, given, s, init) + given(Fold(next, s, init), c)
  }

  lemma AppendAssociates<T>(a: seq<T>, b: seq<T>, c: seq<T>)
    ensures (a + b) + c == a + (b + c)
  {
  }

  /** Reading a text in two pieces is reading it whole. */
  lemma {:induction false} FoldConcat<S>(next: (S, char) -> S, s: S, a: string, b: string)
    ensures Fold(next, s, a + b) == Fold(next, Fold(next, s, a), b)
    decreases |b|
  {
    if b == "" {
      assert a + b == a;
    } else {
      FoldConcat(next, s, a, b[..|b| - 1]);
      assert (a + b)[..|a + b| - 1] == a + b[..|b| - 1];
    }
  }

  lemma {:induction false} EmitsConcat<S, E>(next: (S, char) -> S, given: (S, char) -> seq<E>, s: S,
                                             a: string, b: string)
    ensures Emits(next, given, s, a + b) == Emits(next, given, s, a) + Emits(next, given, Fold(next, s, a), b)
    decreases |b|
  {
    if b == "" {
      assert a + b == a;
    } else {
      var init, c := b[..|b| - 1], b[|b| - 1];
      EmitsConcat(next, given, s, a, init);
      FoldConcat(next, s, a, init);
      assert (a + b)[..|a + b| - 1] == a + init;
      AppendAssociates(Emits(next, given, s, a), Emits(next, given, Fold(next, s, a), init),
                       given(Fold(next, Fold(next, s, a), init), c));
    }
  }

  /** indexOf of one character. */
  function IndexOf(s: string, c: char): (i: int)
    ensures -1 <= i < |s|
    ensures i >= 0 ==> s[i] == c && c !in s[..i]
    ensures i == -1 ==> c !in s
  {
    if s == "" then -1
    else if s[0] == c then 0
    else
      var rest := IndexOf(s[1..], c);
      if rest == -1 then -1 else rest + 1
  }

  /** Line by line, the rest of a text leads from f to g, with a last part behind all line ends and these outputs. */
  ghost predicate LeadsTo<F, E>(next: (F, string) -> F, given: (F, string) -> seq<E>, f: F, rest: string, out: seq<E>,
                                g: F, last: string, all: seq<E>)
    decreases |rest|
  {
    var n := IndexOf(rest, '\n');
    if n == -1 then g == f && last == rest && all == out
    else LeadsTo(next, given, next(f, rest[..n]), rest[n + 1..], out + given(f, rest[..n]), g, last, all)
  }

  lemma LeadsOn<F, E>(next: (F, string) -> F, given: (F, string) -> seq<E>, f: F, rest: string, out: seq<E>,
                      g: F, last: string, all: seq<E>, n: nat)
    requires n == IndexOf(rest, '\n')
    ensures LeadsTo(next, given, f, rest, out, g, last, all) <==>
              LeadsTo(next, given, next(f, rest[..n]), rest[n + 1..], out + given(f, rest[..n]), g, last, all)
  {
  }
}

/**
 Server-sent events as text: createSseParser, the client's incremental parser over arbitrary pieces of
 text, and encode_sse, the server's one way of writing an event.
 */
module SseParser {
  import opened Common
  import opened Folds

  datatype SseEvent = SseEvent(event: string, data: string, id: Option<string>)

  /** What has been read of the event under way. */
  datatype Fields = Fields(name: string, data: seq<string>, id: Option<string>)

  /** The unfinished line, and the fields of the lines before it. */
  datatype State = State(buffer: string, fields: Fields)

  const NO_FIELDS := Fields("", [], None)

  const START := State("", NO_FIELDS)

  // ----- one line -----

  function JoinLines(lines: seq<string>): string {
    if lines == [] then ""
    else if |lines| == 1 then lines[0]
    else JoinLines(lines[..|lines| - 1]) + "\n" + lines[|lines| - 1]
  }

  predicate IsEmpty(f: Fields) {
    f.name == "" && f.data == [] && f.id.None?
  }

  /** The event the fields amount to, if there are any. */
  function Emitted(f: Fields): seq<SseEvent> {
    if IsEmpty(f) then []
    else [SseEvent(if f.name == "" then "message" else f.name, JoinLines(f.data), f.id)]
  }

  function WithoutSpace(value: string): string {
    if value != "" && value[0] == ' ' then value[1..] else value
  }

  function FieldOf(line: string): string {
    var colon := IndexOf(line, ':');
    if colon == -1 then line else line[..colon]
  }

  function ValueOf(line: string): string {
    var colon := IndexOf(line, ':');
    if colon == -1 then "" else WithoutSpace(line[colon + 1..])
  }

  function SetField(f: Fields, field: string, value: string): Fields {
    if field == "event" then f.(name := value)
    else if field == "data" then f.(data := f.data + [value])
    else if field == "id" && '\0' !in value then f.(id := Some(value))
    else f
  }

  /** A blank line ends the event, a comment is skipped, any other line sets a field. */
  function FieldsAfter(f: Fields, line: string): Fields {
    if line == "" then NO_FIELDS
    else if line[0] == ':' then f
    else SetField(f, FieldOf(line), ValueOf(line))
  }

  function LineEvents(f: Fields, line: string): seq<SseEvent> {
    if line == "" then Emitted(f) else []
  }

  /** A line as the loop over the lines takes it: without a trailing carriage return. */
  function AfterLine(f: Fields, line: string): Fields {
    FieldsAfter(f, WithoutReturn(line))
  }

  function GivenBy(f: Fields, line: string): seq<SseEvent> {
    LineEvents(f, WithoutReturn(line))
  }

  function WithoutReturn(line: string): string {
    if line != "" && line[|line| - 1] == '\r' then line[..|line| - 1] else line
  }

  // ----- text -----

  /** One character more. */
  function Next(s: State, c: char): State {
    if c == '\n' then State("", FieldsAfter(s.fields, WithoutReturn(s.buffer)))
    else s.(buffer := s.buffer + [c])
  }

  function Given(s: State, c: char): seq<SseEvent> {
    if c == '\n' then LineEvents(s.fields, WithoutReturn(s.buffer)) else []
  }

  /** The state after a text. */
  function After(s: State, text: string): State {
    Fold(Next, s, text)
  }

  /** The events a text completes. */
  function Events(s: State, text: string): seq<SseEvent> {
    Emits(Next, Given, s, text)
  }

  /** What the end of the text makes of the unfinished event. */
  function Flushed(s: State): seq<SseEvent> {
    if s.buffer == "" then Emitted(s.fields) else Given(s, '\n') + Emitted(Next(s, '\n').fields)
  }

  class Parser {
    var buffer: string
    var eventName: string
    var dataLines: seq<string>
    var eventId: Option<string>

    predicate Valid()
      reads this
    {
      '\n' !in buffer
    }

    ghost function Now(): State
      reads this
    {
      State(buffer, Fields(eventName, dataLines, eventId))
    }

    constructor ()
      ensures Valid() && Now() == START
    {
      buffer, eventName, dataLines, eventId := "", "", [], None;
    }

    method ResetFields()
      modifies this`eventName, this`dataLines, this`eventId
      ensures Now() == State(buffer, NO_FIELDS)
    {
      eventName, dataLines, eventId := "", [], None;
    }

    method EmitCurrent() returns (event: Option<SseEvent>)
      modifies this`eventName, this`dataLines, this`eventId
      ensures Now() == State(buffer, NO_FIELDS)
      ensures (if event.Some? then [event.value] else []) == Emitted(old(Now()).fields)
    {
      if eventName == "" && dataLines == [] && eventId.None? {
        return None;
      }
      var data := JoinLines(dataLines);
      event := Some(SseEvent(if eventName != "" then eventName else "message", data, eventId));
      ResetFields();
    }

    method ProcessLine(line: string) returns (event: Option<SseEvent>)
      modifies this`eventName, this`dataLines, this`eventId
      ensures Now() == State(buffer, FieldsAfter(old(Now()).fields, line))
      ensures (if event.Some? then [event.value] else []) == LineEvents(old(Now()).fields, line)
    {
      if line != "" && line[0] == ':' {
        return None;
      }
      if line == "" {
        event := EmitCurrent();
        return;
      }
      var colonIndex := IndexOf(line, ':');
      var field, value := line, "";
      if colonIndex != -1 {
        field, value := line[..colonIndex], line[colonIndex + 1..];
        if value != "" && value[0] == ' ' {
          value := value[1..];
        }
      }
      if field == "event" {
        eventName := value;
      } else if field == "data" {
        dataLines := dataLines + [value];
      } else if field == "id" {
        if '\0' !in value {
          eventId := Some(value);
        }
      }
      event := None;
    }

    /** One turn of the loop below: a trailing carriage return is dropped, and the event, if any, is kept. */
    method ConsumeLine(whole: string, before: seq<SseEvent>) returns (events: seq<SseEvent>)
      modifies this`eventName, this`dataLines, this`eventId
      ensures Now() == State(buffer, AfterLine(old(Now()).fields, whole))
      ensures events == before + GivenBy(old(Now()).fields, whole)
    {
      var line := whole;
      if line != "" && line[|line| - 1] == '\r' {
        line := line[..|line| - 1];
      }
      events := before;
      var emitted := ProcessLine(line);
      AppendEvent(before, emitted, LineEvents(old(Now()).fields, line));
      if emitted.Some? {
        events := events + [emitted.value];
      }
    }

    method ConsumeCompleteLines(from: string) returns (events: seq<SseEvent>, rest: string)
      modifies this`eventName, this`dataLines, this`eventId
      ensures buffer == old(buffer) && '\n' !in rest
      ensures var begun := State("", old(Now()).fields);
              State(rest, Now().fields) == After(begun, from) && events == Events(begun, from)
    {
      ghost var s, es := After(State("", Now().fields), from), Events(State("", Now().fields), from);
      events, rest := [], from;
      TextByLines(Now().fields, from);
      var newlineIndex := IndexOf(rest, '\n');
      while newlineIndex != -1
        invariant buffer == old(buffer)
        invariant newlineIndex == IndexOf(rest, '\n')
        invariant LeadsTo(AfterLine, GivenBy, Now().fields, rest, events, s.fields, s.buffer, es)
        decreases |rest|
      {
        LeadsOn(AfterLine, GivenBy, Now().fields, rest, events, s.fields, s.buffer, es, newlineIndex);
        var line := rest[..newlineIndex];
        rest := rest[newlineIndex + 1..];
        events := ConsumeLine(line, events);
        newlineIndex := IndexOf(rest, '\n');
      }
    }

    /** The next piece of the text: the events it completes. */
    method Push(chunk: string) returns (events: seq<SseEvent>)
      requires Valid()
      modifies this
      ensures Valid() && Now() == After(old(Now()), chunk) && events == Events(old(Now()), chunk)
    {
      BufferAndChunk(Now(), chunk);
      buffer := buffer + chunk;
      var rest;
      events, rest := ConsumeCompleteLines(buffer);
      buffer := rest;
    }

    /** The end of the text. */
    method Flush() returns (events: seq<SseEvent>)
      requires Valid()
      modifies this
      ensures Valid() && Now() == START && events == Flushed(old(Now()))
    {
      events := [];
      if |buffer| > 0 {
        LineIsProcessed(Now().fields, buffer);
        var fromBuffer, rest := ConsumeCompleteLines(buffer + "\n");
        events := events + fromBuffer;
        buffer := rest;
      }
      var trailing := EmitCurrent();
      if trailing.Some? {
        events := events + [trailing.value];
      }
      buffer := "";
    }
  }

  // ----- the pieces do not matter -----

  /** Feeding a text in two pieces is feeding it whole. */
  lemma FeedConcat(s: State, a: string, b: string)
    ensures After(s, a + b) == After(After(s, a), b)
    ensures Events(s, a + b) == Events(s, a) + Events(After(s, a), b)
  {
    FoldConcat(Next, s, a, b);
    EmitsConcat(Next, Given, s, a, b);
  }

  /** A text without a line end only lengthens the unfinished line. */
  lemma {:induction false} PartOfLine(s: State, part: string)
    requires '\n' !in part
    ensures After(s, part) == s.(buffer := s.buffer + part) && Events(s, part) == []
  {
    if part == "" {
      assert s.buffer + part == s.buffer;
    } else {
      PartOfLine(s, part[..|part| - 1]);
      assert s.buffer + part == (s.buffer + part[..|part| - 1]) + [part[|part| - 1]];
    }
  }

  lemma LineIsProcessed(f: Fields, line: string)
    requires '\n' !in line
    ensures After(State("", f), line + "\n") == State("", FieldsAfter(f, WithoutReturn(line)))
    ensures Events(State("", f), line + "\n") == LineEvents(f, WithoutReturn(line))
  {
    PartOfLine(State("", f), line);
    assert (line + "\n")[..|line|] == line;
    assert "" + line == line;
  }

  lemma AppendEvent(events: seq<SseEvent>, emitted: Option<SseEvent>, given: seq<SseEvent>)
    requires given == if emitted.Some? then [emitted.value] else []
    ensures events + given == if emitted.Some? then events + [emitted.value] else events
  {
  }

  /** A whole line, and what is behind it. */
  lemma FirstLine(f: Fields, line: string, rest: string)
    requires '\n' !in line
    ensures After(State("", f), (line + "\n") + rest) == After(State("", AfterLine(f, line)), rest)
    ensures Events(State("", f), (line + "\n") + rest) == GivenBy(f, line) + Events(State("", AfterLine(f, line)), rest)
  {
    LineIsProcessed(f, line);
    FeedConcat(State("", f), line + "\n", rest);
  }

  lemma AtLineEnd(text: string, n: nat) returns (line: string, rest: string)
    requires n == IndexOf(text, '\n')
    ensures line == text[..n] && rest == text[n + 1..] && text == (line + "\n") + rest && '\n' !in line
  {
    line, rest := text[..n], text[n + 1..];
  }

  lemma LastLine(f: Fields, text: string, events: seq<SseEvent>)
    requires '\n' !in text
    ensures After(State("", f), text) == State(text, f) && events + Events(State("", f), text) == events
  {
    PartOfLine(State("", f), text);
    assert "" + text == text;
  }

  /** Reading a text line by line is reading it character by character. */
  lemma {:induction false} LinesAreRead(f: Fields, text: string, events: seq<SseEvent>)
    ensures var s, es := After(State("", f), text), events + Events(State("", f), text);
            LeadsTo(AfterLine, GivenBy, f, text, events, s.fields, s.buffer, es)
    decreases |text|
  {
    var n := IndexOf(text, '\n');
    if n == -1 {
      LastLine(f, text, events);
    } else {
      var line, rest := AtLineEnd(text, n);
      var g, given := AfterLine(f, line), GivenBy(f, line);
      FirstLine(f, line, rest);
      LinesAreRead(g, rest, events + given);
      AppendAssociates(events, given, Events(State("", g), rest));
      var s := After(State("", f), text);
      LeadsOn(AfterLine, GivenBy, f, text, events, s.fields, s.buffer, events + Events(State("", f), text), n);
    }
  }

  lemma TextByLines(f: Fields, text: string)
    ensures var s := After(State("", f), text);
            LeadsTo(AfterLine, GivenBy, f, text, [], s.fields, s.buffer, Events(State("", f), text))
  {
    LinesAreRead(f, text, []);
    assert [] + Events(State("", f), text) == Events(State("", f), text);
  }

  lemma BufferIsReadAgain(s: State)
    requires '\n' !in s.buffer
    ensures After(State("", s.fields), s.buffer) == s && Events(State("", s.fields), s.buffer) == []
  {
    PartOfLine(State("", s.fields), s.buffer);
    assert "" + s.buffer == s.buffer;
  }

  /** Working through the unfinished line again, together with the next piece, is going on with that piece. */
  lemma BufferAndChunk(s: State, chunk: string)
    requires '\n' !in s.buffer
    ensures After(State("", s.fields), s.buffer + chunk) == After(s, chunk)
    ensures Events(State("", s.fields), s.buffer + chunk) == Events(s, chunk)
  {
    BufferIsReadAgain(s);
    FeedConcat(State("", s.fields), s.buffer, chunk);
    assert [] + Events(s, chunk) == Events(s, chunk);
  }

  /** The state and the events after pushing these pieces one by one. */
  function PushedState(s: State, chunks: seq<string>): State {
    if chunks == [] then s else After(PushedState(s, chunks[..|chunks| - 1]), chunks[|chunks| - 1])
  }

  function PushedEvents(s: State, chunks: seq<string>): seq<SseEvent> {
    if chunks == [] then []
    else
      var init, last := chunks[..|chunks| - 1], chunks[|chunks| - 1];
      PushedEvents(s, init) + Events(PushedState(s, init), last)
  }

  /** However a body is cut into pieces, the parser hands out the same events and ends in the same state. */
  lemma {:induction false} PiecesDoNotMatter(s: State, chunks: seq<string>)
    ensures PushedState(s, chunks) == After(s, Concat(chunks))
    ensures PushedEvents(s, chunks) == Events(s, Concat(chunks))
  {
    if chunks != [] {
      PiecesDoNotMatter(s, chunks[..|chunks| - 1]);
      FeedConcat(s, Concat(chunks[..|chunks| - 1]), chunks[|chunks| - 1]);
    }
  }

  /** The end of the text adds at most one event. */
  lemma FlushGivesAtMostOne(s: State)
    ensures |Flushed(s)| <= 1
  {
  }

  // ----- encode_sse -----

  function EventLine(name: string): string {
    "event" + ": " + name
  }

  function DataLine(payload: string): string {
    "data" + ": " + payload
  }

  /** One event as the server writes it. */
  function EncodeSse(name: string, payload: string): string {
    (EventLine(name) + "\n") + ((DataLine(payload) + "\n") + "\n")
  }

  /** No line ends, and no carriage returns that a line end would swallow. */
  predicate IsClean(s: string) {
    '\n' !in s && '\r' !in s
  }

  /** A part of a header line: a part of the field's name and nothing, or the name and a part of the value. */
  lemma PartOfHeader(field: string, value: string, n: nat)
    requires ':' !in field && n <= |field + ": " + value|
    ensures var line := (field + ": " + value)[..n];
            && (n <= |field| ==> FieldOf(line) == field[..n] && ValueOf(line) == "")
            && (n == |field| + 1 ==> FieldOf(line) == field && ValueOf(line) == "")
            && (n >= |field| + 2 ==> FieldOf(line) == field && ValueOf(line) == value[..n - |field| - 2])
  {
    var line := (field + ": " + value)[..n];
    if n <= |field| {
      assert line == field[..n];
    } else {
      assert line[..|field|] == field && line[|field|] == ':';
      assert IndexOf(line, ':') == |field|;
      if n == |field| + 1 {
        assert line[|field| + 1..] == "";
      } else {
        assert line[|field| + 1..] == " " + value[..n - |field| - 2];
      }
    }
  }

  /** What a flush makes of an unfinished line that is no comment. */
  lemma FlushedLine(line: string, f: Fields)
    requires IsClean(line) && line != "" && line[0] != ':'
    ensures Flushed(State(line, f)) == Emitted(SetField(f, FieldOf(line), ValueOf(line)))
  {
    assert WithoutReturn(line) == line;
  }

  lemma PartOfEventField(f: Fields, n: nat)
    requires n < 5
    ensures SetField(f, "event"[..n], "") == f
  {
    assert |"event"[..n]| == n && (n > 0 ==> "event"[..n][0] == 'e');
  }

  lemma PartOfDataField(f: Fields, n: nat)
    requires n < 4
    ensures SetField(f, "data"[..n], "") == f
  {
    assert |"data"[..n]| == n && (n > 0 ==> "data"[..n][0] == 'd');
  }

  lemma PartIsClean(field: string, value: string, n: nat)
    requires field != "" && IsClean(field) && IsClean(value) && 0 < n <= |field + ": " + value|
    ensures var line := (field + ": " + value)[..n];
            IsClean(line) && line != "" && line[0] == field[0]
  {
  }

  /** What a flush makes of part of the line that sets the name, or of the line that sets the data. */
  lemma FlushedHeader(field: string, value: string, n: nat, f: Fields)
    requires ':' !in field && field != "" && IsClean(field) && IsClean(value) && 0 < n <= |field + ": " + value|
    ensures Flushed(State((field + ": " + value)[..n], f))
         == Emitted(if n <= |field| then SetField(f, field[..n], "")
                    else SetField(f, field, if n <= |field| + 2 then "" else value[..n - |field| - 2]))
  {
    var line := (field + ": " + value)[..n];
    PartOfHeader(field, value, n);
    PartIsClean(field, value, n);
    FlushedLine(line, f);
  }

  lemma PartOfEventLine(name: string, n: nat)
    requires IsClean(name) && n <= |EventLine(name)|
    ensures Flushed(State(EventLine(name)[..n], NO_FIELDS))
         == if n <= 7 then [] else [SseEvent(name[..n - 7], "", None)]
  {
    if n > 0 {
      FlushedHeader("event", name, n, NO_FIELDS);
      if n < 5 {
        PartOfEventField(NO_FIELDS, n);
      } else if n == 5 {
        assert "event"[..5] == "event";
      }
    }
  }

  lemma PartOfDataLine(name: string, payload: string, n: nat)
    requires IsClean(payload) && name != "" && n <= |DataLine(payload)|
    ensures Flushed(State(DataLine(payload)[..n], Fields(name, [], None)))
         == [SseEvent(name, if n <= 6 then "" else payload[..n - 6], None)]
  {
    var f := Fields(name, [], None);
    if n > 0 {
      FlushedHeader("data", payload, n, f);
      if n < 4 {
        PartOfDataField(f, n);
      } else if n == 4 {
        assert "data"[..4] == "data";
      }
    }
  }

  lemma EventLineSets(name: string)
    requires IsClean(name)
    ensures FieldsAfter(NO_FIELDS, WithoutReturn(EventLine(name))) == Fields(name, [], None)
    ensures LineEvents(NO_FIELDS, WithoutReturn(EventLine(name))) == []
  {
    var line := EventLine(name);
    assert line[..|line|] == line && name[..|name|] == name && WithoutReturn(line) == line;
    PartOfHeader("event", name, |line|);
  }

  lemma DataLineSets(f: Fields, payload: string)
    requires IsClean(payload)
    ensures FieldsAfter(f, WithoutReturn(DataLine(payload))) == f.(data := f.data + [payload])
    ensures LineEvents(f, WithoutReturn(DataLine(payload))) == []
  {
    var line := DataLine(payload);
    assert line[..|line|] == line && payload[..|payload|] == payload && WithoutReturn(line) == line;
    PartOfHeader("data", payload, |line|);
  }

  lemma AfterEventLine(name: string)
    requires IsClean(name)
    ensures After(START, EventLine(name) + "\n") == State("", Fields(name, [], None))
    ensures Events(START, EventLine(name) + "\n") == []
  {
    LineIsProcessed(NO_FIELDS, EventLine(name));
    EventLineSets(name);
  }

  lemma AfterDataLine(f: Fields, payload: string)
    requires IsClean(payload)
    ensures After(State("", f), DataLine(payload) + "\n") == State("", f.(data := f.data + [payload]))
    ensures Events(State("", f), DataLine(payload) + "\n") == []
  {
    LineIsProcessed(f, DataLine(payload));
    DataLineSets(f, payload);
  }

  lemma AfterBlankLine(f: Fields)
    ensures After(State("", f), "\n") == START && Events(State("", f), "\n") == Emitted(f)
  {
    LineIsProcessed(f, "");
    assert "" + "\n" == "\n";
  }

  /** What the server writes for one event is read as that event, and leaves nothing behind. */
  lemma EncodedIsRead(name: string, payload: string)
    requires IsClean(name) && IsClean(payload) && name != ""
    ensures After(START, EncodeSse(name, payload)) == START
    ensures Events(START, EncodeSse(name, payload)) == [SseEvent(name, payload, None)]
  {
    var f := Fields(name, [], None);
    AfterEventLine(name);
    AfterDataLine(f, payload);
    AfterBlankLine(Fields(name, [payload], None));
    FeedConcat(State("", f), DataLine(payload) + "\n", "\n");
    FeedConcat(START, EventLine(name) + "\n", (DataLine(payload) + "\n") + "\n");
  }

  /** What a flush gives when only n characters of an event have arrived. */
  function PartAt(name: string, payload: string, n: nat): seq<SseEvent> {
    if n <= 7 then []
    else if n <= |name| + 7 then [SseEvent(name[..n - 7], "", None)]
    else if n <= |name| + 14 then [SseEvent(name, "", None)]
    else if n <= |name| + |payload| + 14 then [SseEvent(name, payload[..n - |name| - 14], None)]
    else [SseEvent(name, payload, None)]
  }

  lemma EncodedLength(name: string, payload: string)
    ensures |EncodeSse(name, payload)| == |name| + |payload| + 16
  {
  }

  lemma TextInName(name: string, payload: string, n: nat)
    requires n <= |EventLine(name)|
    ensures n < |EncodeSse(name, payload)| && EncodeSse(name, payload)[..n] == EventLine(name)[..n]
    ensures IsClean(name) ==> IsClean(EventLine(name)[..n])
  {
  }

  lemma AfterPartOfName(part: string)
    requires '\n' !in part
    ensures After(START, part) == State(part, NO_FIELDS) && Events(START, part) == []
  {
    PartOfLine(START, part);
    assert "" + part == part;
  }

  lemma CutInName(name: string, payload: string, n: nat)
    requires IsClean(name) && n <= |name| + 7
    ensures n < |EncodeSse(name, payload)| && Events(START, EncodeSse(name, payload)[..n]) == []
    ensures Flushed(After(START, EncodeSse(name, payload)[..n])) == PartAt(name, payload, n)
  {
    TextInName(name, payload, n);
    AfterPartOfName(EventLine(name)[..n]);
    PartOfEventLine(name, n);
  }

  lemma TextInData(name: string, payload: string, k: nat)
    requires k <= |DataLine(payload)|
    ensures |name| + 8 + k < |EncodeSse(name, payload)|
    ensures EncodeSse(name, payload)[..|name| + 8 + k] == (EventLine(name) + "\n") + DataLine(payload)[..k]
  {
  }

  lemma AfterPartOfData(name: string, part: string)
    requires IsClean(name) && '\n' !in part
    ensures After(START, (EventLine(name) + "\n") + part) == State(part, Fields(name, [], None))
    ensures Events(START, (EventLine(name) + "\n") + part) == []
  {
    AfterEventLine(name);
    PartOfLine(State("", Fields(name, [], None)), part);
    assert "" + part == part;
    FeedConcat(START, EventLine(name) + "\n", part);
  }

  lemma CutInData(name: string, payload: string, n: nat)
    requires IsClean(name) && IsClean(payload) && name != "" && |name| + 8 <= n <= |name| + |payload| + 14
    ensures n < |EncodeSse(name, payload)| && Events(START, EncodeSse(name, payload)[..n]) == []
    ensures Flushed(After(START, EncodeSse(name, payload)[..n])) == PartAt(name, payload, n)
  {
    var k := n - |name| - 8;
    TextInData(name, payload, k);
    AfterPartOfData(name, DataLine(payload)[..k]);
    PartOfDataLine(name, payload, k);
  }

  lemma CutBeforeBlank(name: string, payload: string, n: nat)
    requires IsClean(name) && IsClean(payload) && name != "" && n == |name| + |payload| + 15
    ensures n < |EncodeSse(name, payload)| && Events(START, EncodeSse(name, payload)[..n]) == []
    ensures Flushed(After(START, EncodeSse(name, payload)[..n])) == PartAt(name, payload, n)
  {
    var f := Fields(name, [], None);
    assert EncodeSse(name, payload)[..n] == (EventLine(name) + "\n") + (DataLine(payload) + "\n");
    AfterEventLine(name);
    AfterDataLine(f, payload);
    FeedConcat(START, EventLine(name) + "\n", DataLine(payload) + "\n");
  }

  /** Wherever the text of an event is cut off, nothing is given before the flush, and then a part of it at most. */
  lemma CutGivesPart(name: string, payload: string, n: nat)
    requires IsClean(name) && IsClean(payload) && name != "" && n <= |name| + |payload| + 15
    ensures n < |EncodeSse(name, payload)| && Events(START, EncodeSse(name, payload)[..n]) == []
    ensures Flushed(After(START, EncodeSse(name, payload)[..n])) == PartAt(name, payload, n)
  {
    if n <= |name| + 7 {
      CutInName(name, payload, n);
    } else if n <= |name| + |payload| + 14 {
      CutInData(name, payload, n);
    } else {
      CutBeforeBlank(name, payload, n);
    }
  }

  // ----- what else a text of events may hold -----

  /** The lines of a text that may hold line ends, each as a data field. */
  function DataText(data: string): string
    decreases |data|
  {
    var n := IndexOf(data, '\n');
    if n == -1 then DataLine(data) + "\n" else (DataLine(data[..n]) + "\n") + DataText(data[n + 1..])
  }

  function Lines(data: string): seq<string>
    decreases |data|
  {
    var n := IndexOf(data, '\n');
    if n == -1 then [data] else [data[..n]] + Lines(data[n + 1..])
  }

  lemma {:induction false} JoinCons(first: string, lines: seq<string>)
    requires lines != []
    ensures JoinLines([first] + lines) == first + "\n" + JoinLines(lines)
    decreases |lines|
  {
    var all, init, last := [first] + lines, lines[..|lines| - 1], lines[|lines| - 1];
    assert all[..|all| - 1] == [first] + init && all[|all| - 1] == last;
    if init == [] {
      assert JoinLines([first]) == first && JoinLines(lines) == last;
    } else {
      JoinCons(first, init);
      assert JoinLines(lines) == JoinLines(init) + "\n" + last;
      assert (first + "\n" + JoinLines(init)) + "\n" + last == first + "\n" + (JoinLines(init) + "\n" + last);
    }
  }

  lemma DataSplits(data: string) returns (first: string, rest: string)
    requires '\n' in data
    ensures data == first + "\n" + rest && Lines(data) == [first] + Lines(rest)
  {
    var n := IndexOf(data, '\n');
    first, rest := data[..n], data[n + 1..];
  }

  lemma {:induction false} LinesJoin(data: string)
    ensures Lines(data) != [] && JoinLines(Lines(data)) == data
    decreases |data|
  {
    if '\n' in data {
      var first, rest := DataSplits(data);
      LinesJoin(rest);
      JoinCons(first, Lines(rest));
    } else {
      assert Lines(data) == [data];
    }
  }

  /** The fields with these data lines more. */
  function WithData(f: Fields, lines: seq<string>): Fields {
    f.(data := f.data + lines)
  }

  lemma WithMoreData(f: Fields, first: string, lines: seq<string>)
    ensures WithData(WithData(f, [first]), lines) == WithData(f, [first] + lines)
  {
    assert f.data + [first] + lines == f.data + ([first] + lines);
  }

  /** The first line of the data, and what is behind it. */
  lemma DataParts(f: Fields, data: string) returns (line: string, rest: string, first: string, more: string)
    requires '\n' in data && '\r' !in data
    ensures DataText(data) == first + more && more == DataText(rest) && Lines(data) == [line] + Lines(rest)
    ensures |rest| < |data| && '\r' !in rest
    ensures ReadsSilently(f, first, WithData(f, [line]))
  {
    var n := IndexOf(data, '\n');
    line, rest := data[..n], data[n + 1..];
    first, more := DataLine(line) + "\n", DataText(rest);
    AfterDataLine(f, line);
  }

  /** The text leads from fields to fields, and no event comes of it. */
  ghost predicate ReadsSilently(f: Fields, text: string, g: Fields) {
    After(State("", f), text) == State("", g) && Events(State("", f), text) == []
  }

  lemma ReadsOn(f: Fields, first: string, g: Fields, more: string, h: Fields)
    requires ReadsSilently(f, first, g) && ReadsSilently(g, more, h)
    ensures ReadsSilently(f, first + more, h)
  {
    FeedConcat(State("", f), first, more);
  }

  lemma OneLineIsRead(f: Fields, data: string)
    requires '\n' !in data && '\r' !in data
    ensures ReadsSilently(f, DataText(data), WithData(f, Lines(data)))
  {
    AfterDataLine(f, data);
  }

  lemma {:induction false} DataTextIsRead(f: Fields, data: string)
    requires '\r' !in data
    ensures ReadsSilently(f, DataText(data), WithData(f, Lines(data)))
    decreases |data|
  {
    if '\n' in data {
      var line, rest, first, more := DataParts(f, data);
      var g := WithData(f, [line]);
      DataTextIsRead(g, rest);
      ReadsOn(f, first, g, more, WithData(g, Lines(rest)));
      WithMoreData(f, line, Lines(rest));
    } else {
      OneLineIsRead(f, data);
    }
  }

  function IdText(id: Option<string>): string {
    if id.Some? then ("id" + ": " + id.value) + "\n" else ""
  }

  lemma AfterIdText(f: Fields, id: Option<string>)
    requires id.Some? ==> IsClean(id.value)
    ensures After(State("", f), IdText(id))
         == State("", if id.Some? && '\0' !in id.value then f.(id := id) else f)
    ensures Events(State("", f), IdText(id)) == []
  {
    if id.Some? {
      var line := "id" + ": " + id.value;
      assert line[..|line|] == line && id.value[..|id.value|] == id.value && WithoutReturn(line) == line;
      PartOfHeader("id", id.value, |line|);
      LineIsProcessed(f, line);
    }
  }

  function AllDataText(data: Option<string>): string {
    if data.Some? then DataText(data.value) else ""
  }

  lemma AfterAllDataText(f: Fields, data: Option<string>)
    requires f.data == [] && (data.Some? ==> '\r' !in data.value)
    ensures ReadsSilently(f, AllDataText(data), f.(data := if data.Some? then Lines(data.value) else []))
  {
    if data.Some? {
      DataTextIsRead(f, data.value);
      assert f.data + Lines(data.value) == Lines(data.value);
    }
  }

  /** The id a parser takes: one without a NUL. */
  function TakenId(id: Option<string>): Option<string> {
    if id.Some? && '\0' !in id.value then id else None
  }

  lemma FieldsEmit(name: string, id: Option<string>, data: Option<string>)
    ensures var f := Fields(name, if data.Some? then Lines(data.value) else [], id);
            Emitted(f) == if name == "" && id.None? && data.None? then []
                          else [SseEvent(if name == "" then "message" else name,
                                         if data.Some? then data.value else "", id)]
  {
    if data.Some? {
      LinesJoin(data.value);
    }
  }

  /**
   An event with any name, any id or none, and data of any number of lines or none reads as that event: the data as
   the text whose lines the data fields are. With an empty name it is a message, an id that holds a NUL is none, and
   with nothing else there is no event.
   */
  lemma FieldsAreRead(name: string, id: Option<string>, data: Option<string>)
    requires IsClean(name) && (id.Some? ==> IsClean(id.value)) && (data.Some? ==> '\r' !in data.value)
    ensures var text := (EventLine(name) + "\n") + (IdText(id) + (AllDataText(data) + "\n"));
            && After(START, text) == START
            && Events(START, text) ==
                 if name == "" && TakenId(id).None? && data.None? then []
                 else [SseEvent(if name == "" then "message" else name, if data.Some? then data.value else "",
                                TakenId(id))]
  {
    var named, known := Fields(name, [], None), Fields(name, [], TakenId(id));
    var full := known.(data := if data.Some? then Lines(data.value) else []);
    AfterEventLine(name);
    AfterIdText(named, id);
    AfterAllDataText(known, data);
    AfterBlankLine(full);
    FieldsEmit(name, TakenId(id), data);
    FeedConcat(State("", known), AllDataText(data), "\n");
    FeedConcat(State("", named), IdText(id), AllDataText(data) + "\n");
    FeedConcat(START, EventLine(name) + "\n", IdText(id) + (AllDataText(data) + "\n"));
  }

  predicate IsKnownField(field: string) {
    field == "event" || field == "data" || field == "id"
  }

  lemma IgnoredLine(f: Fields, field: string, rest: string)
    requires ':' !in field && !IsKnownField(field)
    ensures FieldsAfter(f, WithoutReturn(field + ":" + rest)) == f
    ensures LineEvents(f, WithoutReturn(field + ":" + rest)) == []
  {
    var line := WithoutReturn(field + ":" + rest);
    assert line[..|field|] == field && line[|field|] == ':';
    if field != "" {
      assert line[0] == field[0];
      assert IndexOf(line, ':') == |field|;
    }
  }

  /** The text is at the beginning of a line. */
  predicate AtLineStart(text: string) {
    text == "" || text[|text| - 1] == '\n'
  }

  lemma NothingUnfinished(text: string)
    requires AtLineStart(text)
    ensures After(START, text) == State("", After(START, text).fields)
  {
  }

  /** A comment line, or a line for a field the parser does not know, changes nothing wherever it stands. */
  lemma IgnoredLineChangesNothing(before: string, field: string, rest: string, behind: string)
    requires AtLineStart(before) && ':' !in field && !IsKnownField(field) && '\n' !in field && '\n' !in rest
    ensures var line := (field + ":" + rest) + "\n";
            && After(START, (before + line) + behind) == After(START, before + behind)
            && Events(START, (before + line) + behind) == Events(START, before + behind)
  {
    var line := (field + ":" + rest) + "\n";
    var f := After(START, before).fields;
    NothingUnfinished(before);
    LineIsProcessed(f, field + ":" + rest);
    IgnoredLine(f, field, rest);
    FeedConcat(START, before, line);
    FeedConcat(START, before + line, behind);
    FeedConcat(START, before, behind);
    assert Events(START, before) + [] == Events(START, before);
  }

  lemma UnfinishedEndsText(text: string)
    ensures var line := After(START, text).buffer;
            line != "" ==> text != "" && line[|line| - 1] == text[|text| - 1]
  {
  }

  lemma ReturnBeforeLineEnd(s: State)
    requires s.buffer == "" || s.buffer[|s.buffer| - 1] != '\r'
    ensures After(s, "\r\n") == After(s, "\n") && Events(s, "\r\n") == Events(s, "\n")
  {
    assert "\r\n"[..1] == "\r" && "\r"[..0] == "" && "\n"[..0] == "";
    assert After(s, "\r") == Next(s, '\r') && Events(s, "\r") == [];
    assert WithoutReturn(s.buffer + ['\r']) == s.buffer == WithoutReturn(s.buffer);
  }

  /** A carriage return before a line end changes nothing, unless another one stands before it. */
  lemma ReturnChangesNothing(before: string, behind: string)
    requires before == "" || before[|before| - 1] != '\r'
    ensures After(START, (before + "\r\n") + behind) == After(START, (before + "\n") + behind)
    ensures Events(START, (before + "\r\n") + behind) == Events(START, (before + "\n") + behind)
  {
    UnfinishedEndsText(before);
    ReturnBeforeLineEnd(After(START, before));
    FeedConcat(START, before, "\r\n");
    FeedConcat(START, before, "\n");
    FeedConcat(START, before + "\r\n", behind);
    FeedConcat(START, before + "\n", behind);
  }
}
