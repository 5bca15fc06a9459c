/**
 When the way a body is split into chunks matters: a reader that feeds an incremental parser, stops
 at the first terminal event and then flushes the parser. The parser is any machine over characters.
 */
module BodySplits {
  import opened Common
  import opened Folds
  import opened StreamEvents
  import opened EventReading

  /** given: the events a character completes. flushed: what the end of the text makes of the rest. */
  datatype Machine<!S> = Machine(
    start: S,
    next: (S, char) -> S,
    given: (S, char) -> seq<Event>,
    flushed: S -> seq<Event>)

  /** One event at a time, and nothing left over right behind an event. */
  ghost predicate Orderly<S(!new)>(m: Machine<S>) {
    && (forall s :: |m.flushed(s)| <= 1)
    && (forall s, c :: |m.given(s, c)| <= 1)
    && (forall s, c :: m.given(s, c) != [] ==> m.flushed(m.next(s, c)) == [])
  }

  function StateOf<S>(m: Machine<S>, text: string): S {
    Fold(m.next, m.start, text)
  }

  function EventsOf<S>(m: Machine<S>, text: string): seq<Event> {
    Emits(m.next, m.given, m.start, text)
  }

  function LeftOf<S>(m: Machine<S>, text: string): seq<Event> {
    m.flushed(StateOf(m, text))
  }

  predicate HasTerminal<S>(m: Machine<S>, text: string) {
    LastTerminal(EventsOf(m, text)).Some?
  }

  /** The text of the chunks that are pushed: none behind the one that completes a terminal event. */
  function Pushed<S>(m: Machine<S>, chunks: seq<string>): string {
    if chunks == [] then ""
    else
      var before := Pushed(m, chunks[..|chunks| - 1]);
      if HasTerminal(m, before) then before else before + chunks[|chunks| - 1]
  }

  /** The events that count when this text has been pushed: up to the first terminal one, and what the flush gives. */
  function Counted<S>(m: Machine<S>, text: string): seq<Event> {
    Upto(EventsOf(m, text)) + LeftOf(m, text)
  }

  function Reading<S>(m: Machine<S>, chunks: seq<string>): seq<Event> {
    Counted(m, Pushed(m, chunks))
  }

  /** Every way of cutting the text into chunks has the outcome of the one in which all of it comes at once. */
  ghost predicate SplitIndependent<S>(m: Machine<S>, text: string) {
    forall chunks :: Concat(chunks) == text ==> SameOutcome(Reading(m, chunks), Reading(m, [text]))
  }

  /** The event makes no call and leaves the terminal as it is. */
  predicate IsQuiet(terminal: Terminal, late: Event) {
    !IsHandled(late) && (IsTerminal(late) ==> terminal == Some(late))
  }

  /** Wherever the text is cut behind its first terminal event, the flush gives nothing but quiet events. */
  ghost predicate QuietBehindTerminal<S>(m: Machine<S>, text: string) {
    var terminal := LastTerminal(Upto(EventsOf(m, text)));
    forall n, e :: 0 <= n <= |text| && HasTerminal(m, text[..n]) && e in LeftOf(m, text[..n]) ==> IsQuiet(terminal, e)
  }

  lemma EventsOfPrefix<S>(m: Machine<S>, text: string, n: nat)
    requires n <= |text|
    ensures EventsOf(m, text[..n]) <= EventsOf(m, text)
  {
    EmitsConcat(m.next, m.given, m.start, text[..n], text[n..]);
    assert text == text[..n] + text[n..];
  }

  lemma {:induction false} PushedIsPrefix<S>(m: Machine<S>, chunks: seq<string>)
    ensures Pushed(m, chunks) <= Concat(chunks)
    ensures Pushed(m, chunks) == Concat(chunks) || HasTerminal(m, Pushed(m, chunks))
  {
    if chunks != [] {
      PushedIsPrefix(m, chunks[..|chunks| - 1]);
    }
  }

  lemma PushedAtOnce<S>(m: Machine<S>, text: string)
    ensures Pushed(m, [text]) == text && Concat([text]) == text
  {
    assert [text][..0] == [];
    assert "" + text == text;
  }

  /** A reader that gets the first n characters, a terminal event among them, does not look at the rest. */
  lemma PushedInTwo<S>(m: Machine<S>, text: string, n: nat) returns (chunks: seq<string>)
    requires n <= |text| && HasTerminal(m, text[..n])
    ensures Pushed(m, chunks) == text[..n] && Concat(chunks) == text
  {
    chunks := [text[..n], text[n..]];
    assert chunks[..1] == [text[..n]];
    PushedAtOnce(m, text[..n]);
    assert text == text[..n] + text[n..];
  }

  lemma LeftIsQuiet(es: seq<Event>, left: seq<Event>)
    requires |left| <= 1 && forall e :: e in left ==> IsQuiet(LastTerminal(es), e)
    ensures SameOutcome(es + left, es)
  {
    if left != [] {
      assert left == [left[0]] && left[0] in left;
      SingleEvent(es, left[0]);
      assert Calls(es) + [] == Calls(es);
    } else {
      assert es + left == es;
    }
  }

  lemma QuietLeft(es: seq<Event>, left: seq<Event>, e: Event)
    requires |left| <= 1 && e in left && SameOutcome(es + left, es)
    ensures IsQuiet(LastTerminal(es), e)
  {
    SingleEvent(es, e);
    assert left == [e];
  }

  /** Right behind the first terminal event there is nothing to flush. */
  lemma {:induction false} TerminalEndsClean<S(!new)>(m: Machine<S>, text: string) returns (n: nat)
    requires Orderly(m) && HasTerminal(m, text)
    ensures n <= |text| && HasTerminal(m, text[..n]) && LeftOf(m, text[..n]) == []
  {
    var init := text[..|text| - 1];
    if HasTerminal(m, init) {
      n := TerminalEndsClean(m, init);
      assert init[..n] == text[..n];
    } else {
      n := |text|;
      assert text[..n] == text;
      CallsAppend(EventsOf(m, init), m.given(StateOf(m, init), text[|text| - 1]));
    }
  }

  /** Behind the first terminal event the same events count, and what the flush gives. */
  lemma CountedBehindTerminal<S>(m: Machine<S>, text: string, n: nat)
    requires n <= |text| && HasTerminal(m, text[..n])
    ensures Counted(m, text[..n]) == Upto(EventsOf(m, text)) + LeftOf(m, text[..n])
  {
    EventsOfPrefix(m, text, n);
    UptoOfPrefix(EventsOf(m, text[..n]), EventsOf(m, text));
  }

  lemma QuietCounted<S(!new)>(m: Machine<S>, text: string, n: nat)
    requires Orderly(m) && QuietBehindTerminal(m, text) && n <= |text| && HasTerminal(m, text[..n])
    ensures SameOutcome(Counted(m, text[..n]), Upto(EventsOf(m, text)))
  {
    CountedBehindTerminal(m, text, n);
    LeftIsQuiet(Upto(EventsOf(m, text)), LeftOf(m, text[..n]));
  }

  lemma QuietMakesIndependent<S(!new)>(m: Machine<S>, text: string, chunks: seq<string>)
    requires Orderly(m) && QuietBehindTerminal(m, text) && Concat(chunks) == text
    ensures SameOutcome(Reading(m, chunks), Reading(m, [text]))
  {
    PushedIsPrefix(m, chunks);
    PushedAtOnce(m, text);
    var pushed := Pushed(m, chunks);
    if HasTerminal(m, pushed) {
      var n := |pushed|;
      assert pushed == text[..n] && text[..|text|] == text;
      EventsOfPrefix(m, text, n);
      UptoOfPrefix(EventsOf(m, pushed), EventsOf(m, text));
      QuietCounted(m, text, n);
      QuietCounted(m, text, |text|);
    }
  }

  /** Stopping anywhere behind the first terminal event is one of the readings. */
  lemma StopIsReading<S>(m: Machine<S>, text: string, n: nat)
    requires SplitIndependent(m, text) && n <= |text| && HasTerminal(m, text[..n])
    ensures SameOutcome(Counted(m, text[..n]), Reading(m, [text]))
  {
    var chunks := PushedInTwo(m, text, n);
    assert SameOutcome(Reading(m, chunks), Reading(m, [text]));
  }

  lemma IndependentMakesQuiet<S(!new)>(m: Machine<S>, text: string, n: nat, e: Event)
    requires Orderly(m) && SplitIndependent(m, text)
    requires n <= |text| && HasTerminal(m, text[..n]) && e in LeftOf(m, text[..n])
    ensures IsQuiet(LastTerminal(Upto(EventsOf(m, text))), e)
  {
    var k := TerminalEndsClean(m, text[..n]);
    assert text[..n][..k] == text[..k];
    StopIsReading(m, text, n);
    StopIsReading(m, text, k);
    CountedBehindTerminal(m, text, n);
    CountedBehindTerminal(m, text, k);
    var cut := Upto(EventsOf(m, text));
    assert cut + [] == cut;
    QuietLeft(cut, LeftOf(m, text[..n]), e);
  }

  /** The exact condition under which the way a body is split into chunks does not matter. */
  lemma SplitIndependentIff<S(!new)>(m: Machine<S>, text: string)
    requires Orderly(m)
    ensures SplitIndependent(m, text) <==> QuietBehindTerminal(m, text)
  {
    if SplitIndependent(m, text) {
      var terminal := LastTerminal(Upto(EventsOf(m, text)));
      forall n, e | 0 <= n <= |text| && HasTerminal(m, text[..n]) && e in LeftOf(m, text[..n])
        ensures IsQuiet(terminal, e)
      {
        IndependentMakesQuiet(m, text, n, e);
      }
    }
    if QuietBehindTerminal(m, text) {
      forall chunks | Concat(chunks) == text
        ensures SameOutcome(Reading(m, chunks), Reading(m, [text]))
      {
        QuietMakesIndependent(m, text, chunks);
      }
    }
  }

  // ----- texts that hold whole events -----

  function TextOf(write: Event -> string, es: seq<Event>): string {
    if es == [] then "" else TextOf(write, es[..|es| - 1]) + write(es[|es| - 1])
  }

  /** The machine reads what is written for this event as this event, at its last character. */
  ghost predicate Framed<S>(m: Machine<S>, write: Event -> string, e: Event) {
    && StateOf(m, write(e)) == m.start && EventsOf(m, write(e)) == [e]
    && forall n :: 0 <= n < |write(e)| ==> EventsOf(m, write(e)[..n]) == []
  }

  ghost predicate AllFramed<S>(m: Machine<S>, write: Event -> string, es: seq<Event>) {
    forall i :: 0 <= i < |es| ==> Framed(m, write, es[i])
  }

  lemma TextBehind<S>(m: Machine<S>, first: string, text: string)
    requires StateOf(m, first) == m.start
    ensures StateOf(m, first + text) == StateOf(m, text)
    ensures EventsOf(m, first + text) == EventsOf(m, first) + EventsOf(m, text)
  {
    FoldConcat(m.next, m.start, first, text);
    EmitsConcat(m.next, m.given, m.start, first, text);
  }

  /** Whole events are read as they were written, and leave nothing behind. */
  lemma {:induction false} WrittenIsRead<S>(m: Machine<S>, write: Event -> string, es: seq<Event>)
    requires AllFramed(m, write, es)
    ensures StateOf(m, TextOf(write, es)) == m.start && EventsOf(m, TextOf(write, es)) == es
  {
    if es != [] {
      var init, last := es[..|es| - 1], es[|es| - 1];
      WrittenIsRead(m, write, init);
      assert Framed(m, write, last);
      TextBehind(m, TextOf(write, init), write(last));
    }
  }

  /** A cut falls behind some whole events, into the next one. */
  ghost predicate CutsInto(write: Event -> string, es: seq<Event>, text: string, i: nat, n: nat) {
    && i < |es| && n < |write(es[i])|
    && text == TextOf(write, es[..i]) + write(es[i])[..n]
  }

  lemma {:induction false} TextUpto(write: Event -> string, es: seq<Event>, i: nat)
    requires i < |es|
    ensures TextOf(write, es[..i]) + write(es[i]) <= TextOf(write, es)
  {
    if i + 1 < |es| {
      var init := es[..|es| - 1];
      TextUpto(write, init, i);
      assert init[..i] == es[..i];
    }
  }

  lemma {:induction false} WhereItCuts(write: Event -> string, es: seq<Event>, n: nat) returns (i: nat, k: nat)
    requires n < |TextOf(write, es)|
    ensures CutsInto(write, es, TextOf(write, es)[..n], i, k)
  {
    var init, last := es[..|es| - 1], es[|es| - 1];
    if n < |TextOf(write, init)| {
      i, k := WhereItCuts(write, init, n);
      assert init[..i] == es[..i] && TextOf(write, es)[..n] == TextOf(write, init)[..n];
    } else {
      i, k := |init|, n - |TextOf(write, init)|;
    }
  }

  /** A text that is cut within an event gives the events before it, and leaves what that event's part leaves. */
  lemma CutIsRead<S>(m: Machine<S>, write: Event -> string, es: seq<Event>, text: string, i: nat, n: nat)
    requires AllFramed(m, write, es) && CutsInto(write, es, text, i, n)
    ensures EventsOf(m, text) == es[..i] && LeftOf(m, text) == LeftOf(m, write(es[i])[..n])
  {
    WrittenIsRead(m, write, es[..i]);
    TextBehind(m, TextOf(write, es[..i]), write(es[i])[..n]);
    assert Framed(m, write, es[i]);
    assert es[..i] + [] == es[..i];
  }

  /** Wherever this event is cut, the flush gives nothing but quiet events. */
  ghost predicate QuietParts<S>(m: Machine<S>, write: Event -> string, terminal: Terminal, late: Event) {
    forall n, e :: 0 <= n < |write(late)| && e in LeftOf(m, write(late)[..n]) ==> IsQuiet(terminal, e)
  }

  ghost predicate AllQuiet(parts: nat -> seq<Event>, length: nat, terminal: Terminal) {
    forall n, e :: 0 <= n < length && e in parts(n) ==> IsQuiet(terminal, e)
  }

  lemma QuietPartsBy<S>(m: Machine<S>, write: Event -> string, terminal: Terminal, late: Event,
                        parts: nat -> seq<Event>)
    requires forall n :: 0 <= n < |write(late)| ==> LeftOf(m, write(late)[..n]) == parts(n)
    ensures QuietParts(m, write, terminal, late) <==> AllQuiet(parts, |write(late)|, terminal)
  {
    if QuietParts(m, write, terminal, late) {
      forall n, e | 0 <= n < |write(late)| && e in parts(n)
        ensures IsQuiet(terminal, e)
      {
        assert e in LeftOf(m, write(late)[..n]);
      }
    }
  }

  ghost predicate QuietLateEvents<S>(m: Machine<S>, write: Event -> string, es: seq<Event>) {
    forall i :: |Upto(es)| <= i < |es| ==> QuietParts(m, write, LastTerminal(Upto(es)), es[i])
  }

  lemma LateHasTerminal(es: seq<Event>, i: nat)
    requires |Upto(es)| <= i < |es|
    ensures LastTerminal(es[..i]).Some?
  {
    if LastTerminal(es).None? {
      UptoAll(es);
    }
    UptoKeepsTerminal(es);
    UptoAppend(Upto(es), es[|Upto(es)|..i]);
    assert es[..i] == Upto(es) + es[|Upto(es)|..i];
  }

  lemma TerminalIsBefore(es: seq<Event>, i: nat)
    requires i < |es| && LastTerminal(es[..i]).Some?
    ensures |Upto(es)| <= i
  {
    UptoOfPrefix(es[..i], es);
  }

  lemma QuietEventsMakeQuiet<S>(m: Machine<S>, write: Event -> string, es: seq<Event>, n: nat, e: Event)
    requires AllFramed(m, write, es) && m.flushed(m.start) == [] && QuietLateEvents(m, write, es)
    requires n <= |TextOf(write, es)|
    requires HasTerminal(m, TextOf(write, es)[..n]) && e in LeftOf(m, TextOf(write, es)[..n])
    ensures IsQuiet(LastTerminal(Upto(es)), e)
  {
    if n == |TextOf(write, es)| {
      assert TextOf(write, es)[..n] == TextOf(write, es);
      WrittenIsRead(m, write, es);
    } else {
      var i, k := WhereItCuts(write, es, n);
      CutIsRead(m, write, es, TextOf(write, es)[..n], i, k);
      TerminalIsBefore(es, i);
      assert QuietParts(m, write, LastTerminal(Upto(es)), es[i]);
    }
  }

  lemma CutBehind(write: Event -> string, es: seq<Event>, i: nat, n: nat) returns (k: nat)
    requires i < |es| && n < |write(es[i])|
    ensures k <= |TextOf(write, es)| && CutsInto(write, es, TextOf(write, es)[..k], i, n)
  {
    TextUpto(write, es, i);
    k := |TextOf(write, es[..i])| + n;
  }

  lemma QuietMakesQuietEvents<S>(m: Machine<S>, write: Event -> string, es: seq<Event>, i: nat, n: nat, e: Event)
    requires AllFramed(m, write, es) && QuietBehindTerminal(m, TextOf(write, es))
    requires |Upto(es)| <= i < |es| && n < |write(es[i])| && e in LeftOf(m, write(es[i])[..n])
    ensures IsQuiet(LastTerminal(Upto(es)), e)
  {
    var k := CutBehind(write, es, i, n);
    CutIsRead(m, write, es, TextOf(write, es)[..k], i, n);
    LateHasTerminal(es, i);
    WrittenIsRead(m, write, es);
  }

  /** For a text that holds whole events, the condition is one on each event behind the first terminal one. */
  lemma SplitOfFramedIff<S(!new)>(m: Machine<S>, write: Event -> string, es: seq<Event>)
    requires Orderly(m) && AllFramed(m, write, es) && m.flushed(m.start) == []
    ensures SplitIndependent(m, TextOf(write, es)) <==> QuietLateEvents(m, write, es)
  {
    SplitIndependentIff(m, TextOf(write, es));
    WrittenIsRead(m, write, es);
    var terminal := LastTerminal(Upto(es));
    if QuietBehindTerminal(m, TextOf(write, es)) {
      forall i, n, e | |Upto(es)| <= i < |es| && 0 <= n < |write(es[i])| && e in LeftOf(m, write(es[i])[..n])
        ensures IsQuiet(terminal, e)
      {
        QuietMakesQuietEvents(m, write, es, i, n, e);
      }
    }
    if QuietLateEvents(m, write, es) {
      var text := TextOf(write, es);
      forall n, e | 0 <= n <= |text| && HasTerminal(m, text[..n]) && e in LeftOf(m, text[..n])
        ensures IsQuiet(terminal, e)
      {
        QuietEventsMakeQuiet(m, write, es, n, e);
      }
    }
  }
}
