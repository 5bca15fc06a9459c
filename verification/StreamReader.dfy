/** The client's end of a chat stream: readChatSseBody over the chunks of a response body. */
module StreamReader {
  import opened Common
  import opened Folds
  import opened StreamEvents
  import opened EventReading
  import opened BodySplits
  import opened ChatWire
  import SseParser

  /** The parser, and parseChatSseData on what it hands out. */
  function Client(w: Wire): Machine<SseParser.State> {
    Machine(SseParser.START, SseParser.Next,
            (s, c) => ParseAll(w, SseParser.Given(s, c)),
            s => ParseAll(w, SseParser.Flushed(s)))
  }

  lemma ClientIsOrderly(w: Wire)
    ensures Orderly(Client(w))
  {
    forall s
      ensures |Client(w).flushed(s)| <= 1
    {
      SseParser.FlushGivesAtMostOne(s);
    }
  }

  lemma {:induction false} ClientEvents(w: Wire, text: string)
    ensures StateOf(Client(w), text) == SseParser.After(SseParser.START, text)
    ensures EventsOf(Client(w), text) == ParseAll(w, SseParser.Events(SseParser.START, text))
  {
    if text != "" {
      var init, c := text[..|text| - 1], text[|text| - 1];
      ClientEvents(w, init);
      var state, events := SseParser.After(SseParser.START, init), SseParser.Events(SseParser.START, init);
      ParseConcat(w, events, SseParser.Given(state, c));
    }
  }

  // ----- the reading loop -----

  /** The inner for loop of one push: it breaks at the first terminal event. */
  method ReadBatch(w: Wire, batch: seq<SseParser.SseEvent>) returns (terminal: Terminal, calls: seq<Event>)
    ensures calls == Calls(Upto(ParseAll(w, batch))) && terminal == LastTerminal(Upto(ParseAll(w, batch)))
  {
    ghost var es := ParseAll(w, batch);
    terminal, calls := None, [];
    var j := 0;
    while j < |batch|
      invariant 0 <= j <= |batch|
      invariant calls == Calls(es[..j])
      invariant terminal.None? && LastTerminal(es[..j]).None?
    {
      var (made, next) := ApplyEvent(Parse(w, batch[j]));
      calls := calls + made;
      assert es[..j + 1][..j] == es[..j];
      if next.Some? {
        terminal := next;
        UptoFirst(es[..j + 1], es);
        break;
      }
      j := j + 1;
    }
    if terminal.None? {
      assert es[..j] == es;
      UptoAll(es);
    }
  }

  /** The for loop over the flushed events: it has no break. */
  method ReadFlushed(w: Wire, flushed: seq<SseParser.SseEvent>) returns (terminal: Terminal, calls: seq<Event>)
    ensures calls == Calls(ParseAll(w, flushed)) && terminal == LastTerminal(ParseAll(w, flushed))
  {
    ghost var es := ParseAll(w, flushed);
    terminal, calls := None, [];
    var k := 0;
    while k < |flushed|
      invariant 0 <= k <= |flushed|
      invariant calls == Calls(es[..k]) && terminal == LastTerminal(es[..k])
    {
      var (made, next) := ApplyEvent(Parse(w, flushed[k]));
      calls := calls + made;
      assert es[..k + 1][..k] == es[..k];
      if next.Some? {
        terminal := next;
      }
      k := k + 1;
    }
    assert es[..k] == es;
  }

  lemma ConcatSome(chunks: seq<string>, i: nat)
    requires i < |chunks|
    ensures Concat(chunks[..i + 1]) == Concat(chunks[..i]) + chunks[i]
    ensures chunks[..i + 1][..i] == chunks[..i]
  {
    assert chunks[..i + 1][..i] == chunks[..i];
  }

  /** What one more chunk does, as long as no terminal event has been pushed. */
  lemma NextChunk(w: Wire, chunks: seq<string>, i: nat)
    requires i < |chunks| && Pushed(Client(w), chunks[..i]) == Concat(chunks[..i])
    requires !HasTerminal(Client(w), Concat(chunks[..i]))
    ensures Pushed(Client(w), chunks[..i + 1]) == Concat(chunks[..i + 1])
    ensures var m, text := Client(w), Concat(chunks[..i]);
            var batch := ParseAll(w, SseParser.Events(SseParser.After(SseParser.START, text), chunks[i]));
            EventsOf(m, Concat(chunks[..i + 1])) == EventsOf(m, text) + batch
  {
    var text := Concat(chunks[..i]);
    ConcatSome(chunks, i);
    SseParser.FeedConcat(SseParser.START, text, chunks[i]);
    ClientEvents(w, text);
    ClientEvents(w, text + chunks[i]);
    ParseConcat(w, SseParser.Events(SseParser.START, text),
                SseParser.Events(SseParser.After(SseParser.START, text), chunks[i]));
  }

  /** Chunks behind the one with the terminal event are not pushed. */
  lemma {:induction false} PushedStays<S>(m: Machine<S>, chunks: seq<string>, n: nat)
    requires n <= |chunks| && HasTerminal(m, Pushed(m, chunks[..n]))
    ensures Pushed(m, chunks) == Pushed(m, chunks[..n])
  {
    if n == |chunks| {
      assert chunks[..n] == chunks;
    } else {
      var init := chunks[..|chunks| - 1];
      assert init[..n] == chunks[..n];
      PushedStays(m, init, n);
    }
  }

  method ReadChatSseBody(w: Wire, parser: SseParser.Parser, body: seq<string>)
    returns (terminal: Terminal, calls: seq<Event>)
    requires parser.Valid() && parser.Now() == SseParser.START
    modifies parser
    ensures calls == Calls(Reading(Client(w), body)) && terminal == LastTerminal(Reading(Client(w), body))
  {
    ghost var m := Client(w);
    ghost var text := "";
    terminal, calls := None, [];
    ClientEvents(w, "");
    assert body[..0] == [];
    var i := 0;
    while i < |body|
      invariant 0 <= i <= |body| && parser.Valid()
      invariant text == Concat(body[..i]) == Pushed(m, body[..i])
      invariant parser.Now() == SseParser.After(SseParser.START, text)
      invariant calls == Calls(EventsOf(m, text)) && terminal.None? && !HasTerminal(m, text)
    {
      var batch := parser.Push(body[i]);
      var next, made := ReadBatch(w, batch);
      calls := calls + made;
      NextChunk(w, body, i);
      ConcatSome(body, i);
      SseParser.FeedConcat(SseParser.START, text, body[i]);
      BatchCounts(EventsOf(m, text), ParseAll(w, batch));
      text := text + body[i];
      if next.Some? {
        terminal := next;
        PushedStays(m, body, i + 1);
        break;
      }
      i := i + 1;
    }
    if terminal.None? {
      assert body[..i] == body;
      UptoAll(EventsOf(m, text));
    }
    ClientEvents(w, text);
    var flushed := parser.Flush();
    var last, made := ReadFlushed(w, flushed);
    CallsAppend(Upto(EventsOf(m, text)), ParseAll(w, flushed));
    calls := calls + made;
    if last.Some? {
      terminal := last;
    }
  }

  /** What a batch adds to events without a terminal one. */
  lemma BatchCounts(es: seq<Event>, batch: seq<Event>)
    requires LastTerminal(es).None?
    ensures Calls(es) + Calls(Upto(batch)) == Calls(Upto(es + batch))
    ensures LastTerminal(Upto(batch)) == LastTerminal(Upto(es + batch))
    ensures LastTerminal(Upto(batch)).None? ==> LastTerminal(es + batch).None? && Upto(batch) == batch
    ensures LastTerminal(Upto(batch)).Some? ==> LastTerminal(es + batch).Some?
    ensures LastTerminal(Upto(batch)).None? ==> Calls(Upto(es + batch)) == Calls(es + batch)
  {
    UptoConcat(es, batch);
    CallsAppend(es, Upto(batch));
    CallsAppend(es, batch);
    UptoKeepsTerminal(batch);
    if LastTerminal(batch).None? {
      UptoAll(batch);
    }
  }

  // ----- bodies that hold whole events -----

  /** encode_sse of one event; the server writes no unknown ones. */
  function Writer(w: Wire): Event -> string {
    (e: Event) => if e.Unknown? then "" else Encode(w, e)
  }

  ghost predicate Writable(es: seq<Event>) {
    forall i :: 0 <= i < |es| ==> !es[i].Unknown?
  }

  /** What the client is left with after n characters of anything that encode_sse writes. */
  lemma CutLeft(w: Wire, name: string, payload: string, n: nat)
    requires SseParser.IsClean(name) && SseParser.IsClean(payload) && name != "" && n <= |name| + |payload| + 15
    ensures n < |SseParser.EncodeSse(name, payload)|
    ensures EventsOf(Client(w), SseParser.EncodeSse(name, payload)[..n]) == []
    ensures LeftOf(Client(w), SseParser.EncodeSse(name, payload)[..n])
         == ParseAll(w, SseParser.PartAt(name, payload, n))
  {
    SseParser.CutGivesPart(name, payload, n);
    ClientEvents(w, SseParser.EncodeSse(name, payload)[..n]);
  }

  /** What the client is left with after n characters of an event. */
  lemma PartLeft(w: Wire, e: Event, n: nat)
    requires Sane(w) && !e.Unknown? && n < |Encode(w, e)|
    ensures EventsOf(Client(w), Encode(w, e)[..n]) == []
    ensures LeftOf(Client(w), Encode(w, e)[..n]) == SeenAt(w, e, n)
  {
    SseParser.EncodedLength(w.name(KindOf(e)), w.payload(e));
    SaneEvent(w, e);
    CutLeft(w, w.name(KindOf(e)), w.payload(e), n);
    PartsAreSeen(w, e, n);
  }

  /** The client reads what the server writes. */
  lemma EncodedIsFramed(w: Wire, e: Event)
    requires Sane(w) && !e.Unknown?
    ensures Framed(Client(w), Writer(w), e)
  {
    ClientEvents(w, Encode(w, e));
    SaneEvent(w, e);
    SseParser.EncodedIsRead(w.name(KindOf(e)), w.payload(e));
    EncodedParses(w, e);
    forall n | 0 <= n < |Encode(w, e)|
      ensures EventsOf(Client(w), Encode(w, e)[..n]) == []
    {
      PartLeft(w, e, n);
    }
  }

  lemma NothingLeftAtStart(w: Wire)
    ensures Client(w).flushed(Client(w).start) == []
  {
  }

  /** However much of it has arrived, this event makes no call and leaves the terminal as it is. */
  predicate IsQuietEvent(w: Wire, terminal: Terminal, late: Event) {
    IsQuiet(terminal, late) && (late.Error? ==> late.failure == w.failure)
  }

  ghost predicate QuietEvents(w: Wire, es: seq<Event>) {
    forall i :: |Upto(es)| <= i < |es| ==> IsQuietEvent(w, LastTerminal(Upto(es)), es[i])
  }

  /** What is left after n characters of an event. */
  function Seen(w: Wire, e: Event): nat -> seq<Event>
    requires !e.Unknown?
  {
    (n: nat) => SeenAt(w, e, n)
  }

  lemma QuietPartsAre(w: Wire, terminal: Terminal, late: Event)
    requires Sane(w) && !late.Unknown?
    ensures QuietParts(Client(w), Writer(w), terminal, late)
       <==> AllQuiet(Seen(w, late), |w.name(KindOf(late))| + |w.payload(late)| + 16, terminal)
  {
    SseParser.EncodedLength(w.name(KindOf(late)), w.payload(late));
    forall n | 0 <= n < |Writer(w)(late)|
      ensures LeftOf(Client(w), Writer(w)(late)[..n]) == Seen(w, late)(n)
    {
      PartLeft(w, late, n);
    }
    QuietPartsBy(Client(w), Writer(w), terminal, late, Seen(w, late));
  }

  lemma AllSeenQuietIff(w: Wire, terminal: Terminal, late: Event, length: nat)
    requires !late.Unknown? && length == |w.name(KindOf(late))| + |w.payload(late)| + 16
    ensures AllQuiet(Seen(w, late), length, terminal) <==> IsQuietEvent(w, terminal, late)
  {
    var seen := Seen(w, late);
    assert seen(length - 1) == [late] && seen(|w.name(KindOf(late))| + 8) == [Shortened(w, late)];
    if AllQuiet(seen, length, terminal) {
      assert late in seen(length - 1) && IsQuiet(terminal, late);
      assert Shortened(w, late) in seen(|w.name(KindOf(late))| + 8) && IsQuiet(terminal, Shortened(w, late));
    }
    if IsQuietEvent(w, terminal, late) {
      forall n, e | 0 <= n < length && e in seen(n)
        ensures IsQuiet(terminal, e)
      {
        assert e in SeenAt(w, late, n);
        assert e == Unknown || e == late || e == Shortened(w, late);
      }
    }
  }

  lemma QuietPartsIff(w: Wire, terminal: Terminal, late: Event)
    requires Sane(w) && !late.Unknown?
    ensures QuietParts(Client(w), Writer(w), terminal, late) <==> IsQuietEvent(w, terminal, late)
  {
    QuietPartsAre(w, terminal, late);
    AllSeenQuietIff(w, terminal, late, |w.name(KindOf(late))| + |w.payload(late)| + 16);
  }

  /**
   For a body that holds whole events, the split into chunks does not matter exactly when every event
   behind the first terminal one is not handled, is no other terminal, and is no error but the default one.
   */
  lemma SplitOfEventsIff(w: Wire, es: seq<Event>)
    requires Sane(w) && Writable(es)
    ensures SplitIndependent(Client(w), TextOf(Writer(w), es)) <==> QuietEvents(w, es)
  {
    ClientIsOrderly(w);
    NothingLeftAtStart(w);
    forall i | 0 <= i < |es|
      ensures Framed(Client(w), Writer(w), es[i])
      ensures QuietParts(Client(w), Writer(w), LastTerminal(Upto(es)), es[i])
         <==> IsQuietEvent(w, LastTerminal(Upto(es)), es[i])
    {
      EncodedIsFramed(w, es[i]);
      QuietPartsIff(w, LastTerminal(Upto(es)), es[i]);
    }
    SplitOfFramedIff(Client(w), Writer(w), es);
  }

  lemma LateIsNotQuiet(w: Wire, terminal: Event, late: Event, more: seq<Event>)
    requires IsTerminal(terminal) && !IsQuietEvent(w, Some(terminal), late)
    ensures !QuietEvents(w, [terminal, late] + more)
  {
    var es := [terminal, late] + more;
    assert [terminal][..0] == [];
    UptoFirst([terminal], es);
    assert !IsQuietEvent(w, LastTerminal(Upto(es)), es[1]);
  }

  /** Behind a terminal event, one that is handled or leaves another terminal counts or not, depending on the split. */
  lemma SplitCanMatter(w: Wire, terminal: Event, late: Event, more: seq<Event>)
    requires Sane(w) && Writable(more)
    requires IsTerminal(terminal) && late != terminal && (IsHandled(late) || IsTerminal(late))
    ensures !SplitIndependent(Client(w), TextOf(Writer(w), [terminal, late] + more))
  {
    LateIsNotQuiet(w, terminal, late, more);
    SplitOfEventsIff(w, [terminal, late] + more);
  }

  /** The same error twice: a second one of which only a part has arrived reads as the default error. */
  lemma RepeatedErrorCanMatter(w: Wire, failure: Failure, more: seq<Event>)
    requires Sane(w) && failure != w.failure && Writable(more)
    ensures !SplitIndependent(Client(w), TextOf(Writer(w), [Error(failure), Error(failure)] + more))
  {
    LateIsNotQuiet(w, Error(failure), Error(failure), more);
    SplitOfEventsIff(w, [Error(failure), Error(failure)] + more);
  }

  lemma LongerNamePart(w: Wire, suffix: string, data: string)
    requires Sane(w)
    ensures var n := |w.name(ErrorKind)| + 7;
            ParseAll(w, SseParser.PartAt(w.name(ErrorKind) + suffix, data, n)) == [Error(w.failure)]
  {
    assert (w.name(ErrorKind) + suffix)[..|w.name(ErrorKind)|] == w.name(ErrorKind);
    SaneEvent(w, Heartbeat);
    PartHoldsNothing(w, Heartbeat, "");
    NamePicks(w, ErrorKind, "");
  }

  /** A part of an unknown event whose name begins like that of an error. */
  lemma LongerNameReads(w: Wire, suffix: string, data: string) returns (n: nat)
    requires Sane(w) && SseParser.IsClean(suffix) && SseParser.IsClean(data)
    ensures var text := SseParser.EncodeSse(w.name(ErrorKind) + suffix, data);
            n < |text| && EventsOf(Client(w), text[..n]) == [] && LeftOf(Client(w), text[..n]) == [Error(w.failure)]
  {
    n := |w.name(ErrorKind)| + 7;
    SaneEvent(w, Error(w.failure));
    CutLeft(w, w.name(ErrorKind) + suffix, data, n);
    LongerNamePart(w, suffix, data);
  }

  /** An unknown event whose name begins with that of an error can read as one, and so replace the terminal. */
  lemma LongerNameCanMatter(w: Wire, terminal: Event, suffix: string, data: string)
    requires Sane(w) && IsTerminal(terminal) && terminal != Error(w.failure)
    requires SseParser.IsClean(suffix) && SseParser.IsClean(data)
    ensures !SplitIndependent(Client(w), Encode(w, terminal) + SseParser.EncodeSse(w.name(ErrorKind) + suffix, data))
  {
    var m, first, second := Client(w), Encode(w, terminal), SseParser.EncodeSse(w.name(ErrorKind) + suffix, data);
    var n := LongerNameReads(w, suffix, data);
    EncodedIsFramed(w, terminal);
    assert Writer(w)(terminal) == first;
    TextBehind(m, first, second[..n]);
    ErrorReplacesTerminal(m, terminal, first, second, n, Error(w.failure));
    ClientIsOrderly(w);
    SplitIndependentIff(m, first + second);
  }

  lemma ErrorReplacesTerminal<S>(m: Machine<S>, terminal: Event, first: string, second: string, n: nat, seen: Event)
    requires IsTerminal(terminal) && IsTerminal(seen) && seen != terminal && n <= |second|
    requires EventsOf(m, first + second[..n]) == [terminal] + [] && LeftOf(m, first + second[..n]) == [seen]
    ensures !QuietBehindTerminal(m, first + second)
  {
    var text, k := first + second, |first| + n;
    assert text[..k] == first + second[..n];
    assert [terminal][..0] == [] && [terminal] + [] == [terminal];
    EventsOfPrefix(m, text, k);
    UptoFirst([terminal], EventsOf(m, text));
    assert HasTerminal(m, text[..k]) && seen in LeftOf(m, text[..k]);
    assert !IsQuiet(LastTerminal(Upto(EventsOf(m, text))), seen);
  }
}
