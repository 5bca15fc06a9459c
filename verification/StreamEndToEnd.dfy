/** Server and client together. */
module StreamEndToEnd {
  import opened Common
  import opened StreamEvents
  import opened EventReading
  import opened BodySplits
  import opened ChatWire
  import opened ChatStream
  import opened ChatStreamProofs
  import opened StreamReader

  lemma {:induction false} TokensOfCalls(es: seq<Event>)
    ensures Tokens(Calls(es)) == Tokens(es)
  {
    if es != [] {
      var init, last := es[..|es| - 1], es[|es| - 1];
      TokensOfCalls(init);
      if IsHandled(last) {
        TokensSnoc(Calls(init), last);
      } else {
        assert Calls(es) == Calls(init);
      }
    }
  }

  lemma {:induction false} TerminalIsLast(es: seq<Event>)
    requires forall i :: 0 <= i < |es| - 1 ==> !IsTerminal(es[i])
    ensures Upto(es) == es
    ensures LastTerminal(es) == if es != [] && IsTerminal(es[|es| - 1]) then Some(es[|es| - 1]) else None
  {
    if es != [] {
      var init := es[..|es| - 1];
      TerminalIsLast(init);
      assert init != [] ==> init[|init| - 1] == es[|es| - 2];
    }
  }

  /** What has arrived of the server's events: some of them, and perhaps a part of the next one that reads as none. */
  ghost predicate Arrived(emitted: seq<Event>, es: seq<Event>) {
    es <= emitted || (0 < |es| <= |emitted| && es[|es| - 1] == Unknown && es[..|es| - 1] <= emitted)
  }

  lemma EmittedIsWritable(p: Params, s: State)
    requires Reachable(p, s)
    ensures Writable(s.emitted)
  {
    EmittedStreamIsSound(p, s);
  }

  lemma EmittedIsFramed(w: Wire, es: seq<Event>)
    requires Sane(w) && Writable(es)
    ensures AllFramed(Client(w), Writer(w), es)
  {
    forall i | 0 <= i < |es|
      ensures Framed(Client(w), Writer(w), es[i])
    {
      EncodedIsFramed(w, es[i]);
    }
  }

  /** A part of an event of this server reads as nothing or as all of it. */
  lemma SeenOfEmitted(p: Params, s: State, w: Wire, i: nat, n: nat)
    requires Reachable(p, s) && w.failure == p.failure && i < |s.emitted| && !s.emitted[i].Unknown?
    ensures var seen := SeenAt(w, s.emitted[i], n);
            seen == [] || seen == [Unknown] || seen == [s.emitted[i]]
  {
    OnlyOneFailure(p, s);
  }

  lemma PartOfEmitted(w: Wire, e: Event, n: nat)
    requires Sane(w) && !e.Unknown? && n < |Writer(w)(e)|
    ensures LeftOf(Client(w), Writer(w)(e)[..n]) == SeenAt(w, e, n)
  {
    PartLeft(w, e, n);
  }

  /** The events before a cut of the server's text, none of them terminal, and what is left of the next one. */
  lemma CutText(p: Params, s: State, w: Wire, n: nat)
    requires Reachable(p, s) && Sane(w) && w.failure == p.failure && n < |TextOf(Writer(w), s.emitted)|
    ensures var m, text := Client(w), TextOf(Writer(w), s.emitted)[..n];
            && !HasTerminal(m, text) && Upto(EventsOf(m, text)) == EventsOf(m, text)
            && Arrived(s.emitted, EventsOf(m, text) + LeftOf(m, text))
  {
    EmittedIsWritable(p, s);
    EmittedIsFramed(w, s.emitted);
    var m, text := Client(w), TextOf(Writer(w), s.emitted)[..n];
    var i, k := WhereItCuts(Writer(w), s.emitted, n);
    CutIsRead(m, Writer(w), s.emitted, text, i, k);
    PartOfEmitted(w, s.emitted[i], k);
    SeenOfEmitted(p, s, w, i, k);
    BeforeTheLast(p, s, i);
    LeftArrives(s.emitted, i, LeftOf(m, text));
  }

  lemma BeforeTheLast(p: Params, s: State, i: nat)
    requires Reachable(p, s) && i < |s.emitted|
    ensures LastTerminal(s.emitted[..i]).None? && Upto(s.emitted[..i]) == s.emitted[..i]
  {
    EmittedStreamIsSound(p, s);
    TerminalIsLast(s.emitted[..i]);
  }

  lemma LeftArrives(emitted: seq<Event>, i: nat, left: seq<Event>)
    requires i < |emitted| && (left == [] || left == [Unknown] || left == [emitted[i]])
    ensures Arrived(emitted, emitted[..i] + left)
  {
    var es := emitted[..i] + left;
    if left == [] {
      assert es == emitted[..i];
    } else {
      assert es[..|es| - 1] == emitted[..i];
      assert left == [emitted[i]] ==> es == emitted[..i + 1];
    }
  }

  /** However the text that has arrived is cut into chunks, all of it is pushed, and counts. */
  lemma ReadingOfArrived(p: Params, s: State, w: Wire, chunks: seq<string>)
    requires Reachable(p, s) && Sane(w) && w.failure == p.failure
    requires Concat(chunks) <= TextOf(Writer(w), s.emitted)
    ensures Reading(Client(w), chunks) == EventsOf(Client(w), Concat(chunks)) + LeftOf(Client(w), Concat(chunks))
    ensures Arrived(s.emitted, Reading(Client(w), chunks))
  {
    var m, all, pushed := Client(w), TextOf(Writer(w), s.emitted), Pushed(Client(w), chunks);
    PushedIsPrefix(m, chunks);
    assert pushed == all[..|pushed|];
    if |pushed| < |all| {
      CutText(p, s, w, |pushed|);
    } else {
      AllArrived(p, s, w);
      assert pushed == all;
    }
  }

  lemma WholeTextIsRead(w: Wire, es: seq<Event>)
    requires Sane(w) && Writable(es)
    ensures EventsOf(Client(w), TextOf(Writer(w), es)) == es && LeftOf(Client(w), TextOf(Writer(w), es)) == []
  {
    EmittedIsFramed(w, es);
    WrittenIsRead(Client(w), Writer(w), es);
    NothingLeftAtStart(w);
  }

  lemma EmittedUpto(p: Params, s: State)
    requires Reachable(p, s)
    ensures Upto(s.emitted) == s.emitted && s.emitted + [] == s.emitted
  {
    EmittedStreamIsSound(p, s);
    TerminalIsLast(s.emitted);
  }

  lemma AllArrived(p: Params, s: State, w: Wire)
    requires Reachable(p, s) && Sane(w)
    ensures var m, text := Client(w), TextOf(Writer(w), s.emitted);
            && EventsOf(m, text) == s.emitted && LeftOf(m, text) == [] && Upto(s.emitted) == s.emitted
            && s.emitted + [] == s.emitted
  {
    EmittedIsWritable(p, s);
    WholeTextIsRead(w, s.emitted);
    EmittedUpto(p, s);
  }

  lemma ArrivedTokens(emitted: seq<Event>, es: seq<Event>)
    requires Arrived(emitted, es)
    ensures Tokens(es) <= Tokens(emitted)
  {
    if es <= emitted {
      assert es == emitted[..|es|];
      TokensOfPrefix(emitted, |es|);
    } else {
      var init := es[..|es| - 1];
      assert init == emitted[..|init|];
      assert Tokens(es) == Tokens(init) + [];
      TokensOfPrefix(emitted, |init|);
    }
  }

  /** A terminal event that arrives is the last of what the server emitted, and everything before it has arrived. */
  lemma ArrivedTerminal(p: Params, s: State, es: seq<Event>)
    requires Reachable(p, s) && Arrived(s.emitted, es) && LastTerminal(es).Some?
    ensures es == s.emitted && es != [] && LastTerminal(es) == Some(es[|es| - 1])
  {
    EmittedStreamIsSound(p, s);
    TerminalIsLast(es);
    assert es <= s.emitted;
    assert IsTerminal(s.emitted[|es| - 1]);
  }

  /**
   For every run of the server, every part of its text that arrives and every way of cutting that into
   chunks: the outcome does not depend on the cutting; the text the client shows is a prefix of the
   provider's answer; and a completed terminal names the one message the producer committed, whose
   content is that text.
   */
  lemma ClientShowsWhatWasCommitted(p: Params, s: State, w: Wire, chunks: seq<string>)
    requires Reachable(p, s) && Sane(w) && w.failure == p.failure
    requires Concat(chunks) <= TextOf(Writer(w), s.emitted)
    ensures SplitIndependent(Client(w), Concat(chunks))
    ensures var calls, terminal := Calls(Reading(Client(w), chunks)), LastTerminal(Reading(Client(w), chunks));
            && Tokens(calls) <= s.provided
            && (terminal.Some? && terminal.value.Completed? ==>
                  s.committed == [Message(terminal.value.messageId, Concat(Tokens(calls)))])
            && (terminal.Some? && terminal.value.Error? ==> s.committed == [])
  {
    ReadingsAgree(p, s, w, Concat(chunks));
    ReadingOfArrived(p, s, w, chunks);
    var es := Reading(Client(w), chunks);
    TokensOfCalls(es);
    ArrivedTokens(s.emitted, es);
    EmittedStreamIsSound(p, s);
    if LastTerminal(es).Some? {
      ArrivedTerminal(p, s, es);
    }
  }

  lemma ReadingsAgree(p: Params, s: State, w: Wire, text: string)
    requires Reachable(p, s) && Sane(w) && w.failure == p.failure && text <= TextOf(Writer(w), s.emitted)
    ensures SplitIndependent(Client(w), text)
  {
    PushedAtOnce(Client(w), text);
    ReadingOfArrived(p, s, w, [text]);
    forall chunks | Concat(chunks) == text
      ensures SameOutcome(Reading(Client(w), chunks), Reading(Client(w), [text]))
    {
      ReadingOfArrived(p, s, w, chunks);
    }
  }

  // ----- nothing that has arrived is held back -----

  lemma {:induction false} TextOfSome(write: Event -> string, es: seq<Event>, i: nat)
    requires i <= |es|
    ensures TextOf(write, es[..i]) <= TextOf(write, es)
  {
    if i < |es| {
      var init := es[..|es| - 1];
      TextOfSome(write, init, i);
      assert init[..i] == es[..i];
    } else {
      assert es[..i] == es;
    }
  }

  lemma PartOfText(write: Event -> string, es: seq<Event>, text: string, i: nat)
    requires i <= |es| && text <= TextOf(write, es) && |TextOf(write, es[..i])| <= |text|
    ensures text[..|TextOf(write, es[..i])|] == TextOf(write, es[..i])
  {
    TextOfSome(write, es, i);
  }

  lemma ArrivedPartIsRead(p: Params, s: State, w: Wire, text: string, i: nat)
    requires Reachable(p, s) && Sane(w) && text <= TextOf(Writer(w), s.emitted)
    requires i <= |s.emitted| && |TextOf(Writer(w), s.emitted[..i])| <= |text|
    ensures s.emitted[..i] <= EventsOf(Client(w), text)
  {
    var part := TextOf(Writer(w), s.emitted[..i]);
    EmittedIsWritable(p, s);
    WholeTextIsRead(w, s.emitted[..i]);
    PartOfText(Writer(w), s.emitted, text, i);
    EventsOfPrefix(Client(w), text, |part|);
  }

  lemma CallsOfPrefix(part: seq<Event>, es: seq<Event>)
    requires part <= es
    ensures Calls(part) <= Calls(es)
  {
    CallsAppend(part, es[|part|..]);
    assert es == part + es[|part|..];
  }

  lemma ArrivedTerminalIsKnown(p: Params, s: State, es: seq<Event>, i: nat)
    requires Reachable(p, s) && Arrived(s.emitted, es)
    requires 0 < i <= |s.emitted| && s.emitted[..i] <= es && IsTerminal(s.emitted[i - 1])
    ensures LastTerminal(es) == Some(s.emitted[i - 1])
  {
    TerminalStays(s.emitted[..i], es);
    ArrivedTerminal(p, s, es);
    EmittedStreamIsSound(p, s);
  }

  /**
   The client holds nothing back: once the text of the first i events has arrived, in whatever chunks, their handler
   calls have been made, and the terminal event is known if it is among them.
   */
  lemma ArrivedEventsTakeEffect(p: Params, s: State, w: Wire, chunks: seq<string>, i: nat)
    requires Reachable(p, s) && Sane(w) && w.failure == p.failure
    requires Concat(chunks) <= TextOf(Writer(w), s.emitted)
    requires i <= |s.emitted| && |TextOf(Writer(w), s.emitted[..i])| <= |Concat(chunks)|
    ensures var reading := Reading(Client(w), chunks);
            && s.emitted[..i] <= reading && Calls(s.emitted[..i]) <= Calls(reading)
            && (i > 0 && IsTerminal(s.emitted[i - 1]) ==> LastTerminal(reading) == Some(s.emitted[i - 1]))
  {
    ReadingOfArrived(p, s, w, chunks);
    ArrivedPartIsRead(p, s, w, Concat(chunks), i);
    var reading := Reading(Client(w), chunks);
    CallsOfPrefix(s.emitted[..i], reading);
    if i > 0 && IsTerminal(s.emitted[i - 1]) {
      ArrivedTerminalIsKnown(p, s, reading, i);
    }
  }

  lemma {:induction false} ConversationThenTokens(id: string, es: seq<Event>)
    requires es != [] ==> es[0] == Conversation(id)
    requires forall i :: 0 < i < |es| ==> !es[i].Conversation?
    ensures es != [] ==> Calls(es) != [] && Calls(es)[0] == Conversation(id)
    ensures forall i :: 0 < i < |Calls(es)| ==> Calls(es)[i].Token?
  {
    if es != [] {
      ConversationThenTokens(id, es[..|es| - 1]);
    }
  }

  lemma CallsOfArrived(p: Params, emitted: seq<Event>, es: seq<Event>)
    requires WellOrdered(p, emitted) && Arrived(emitted, es)
    ensures Calls(es) != [] ==> Calls(es)[0] == Conversation(p.conversationId)
    ensures forall i :: 0 < i < |Calls(es)| ==> Calls(es)[i].Token?
  {
    if es <= emitted {
      assert forall i :: 0 <= i < |es| ==> es[i] == emitted[i];
      ConversationThenTokens(p.conversationId, es);
    } else {
      var init := es[..|es| - 1];
      assert forall i :: 0 <= i < |init| ==> init[i] == emitted[i];
      ConversationThenTokens(p.conversationId, init);
      assert Calls(es) == Calls(init) + [];
    }
  }

  /**
   The first handler call is the one for the conversation, with the server's id, and it is the only one of its kind;
   it has been made as soon as the first event has arrived whole.
   */
  lemma ConversationComesFirst(p: Params, s: State, w: Wire, chunks: seq<string>)
    requires Reachable(p, s) && Sane(w) && w.failure == p.failure
    requires Concat(chunks) <= TextOf(Writer(w), s.emitted)
    ensures var calls := Calls(Reading(Client(w), chunks));
            && (calls != [] ==> calls[0] == Conversation(p.conversationId))
            && (forall i :: 0 < i < |calls| ==> calls[i].Token?)
            && (s.emitted != [] && |TextOf(Writer(w), s.emitted[..1])| <= |Concat(chunks)| ==> calls != [])
  {
    EmittedStreamIsSound(p, s);
    ReadingOfArrived(p, s, w, chunks);
    CallsOfArrived(p, s.emitted, Reading(Client(w), chunks));
    if s.emitted != [] && |TextOf(Writer(w), s.emitted[..1])| <= |Concat(chunks)| {
      ArrivedEventsTakeEffect(p, s, w, chunks, 1);
      ConversationThenTokens(p.conversationId, s.emitted[..1]);
    }
  }
}
