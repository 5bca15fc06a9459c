/** What reading a list of chat events amounts to: the handler calls it makes and the terminal it leaves. */
module EventReading {
  import opened Common
  import opened StreamEvents

  /** A completed or error event, once one has been seen. */
  type Terminal = Option<Event>

  predicate IsHandled(e: Event) {
    e.Conversation? || e.Token?
  }

  /** applyParsedStreamEvent: which handler call an event makes, and which terminal it yields. */
  function ApplyEvent(e: Event): (r: (seq<Event>, Terminal)) {
    match e
    case Heartbeat => ([], None)
    case Unknown => ([], None)
    case Conversation(_) => ([e], None)
    case Token(_) => ([e], None)
    case Completed(_, _) => ([], Some(e))
    case Error(_) => ([], Some(e))
  }

  /** The handler calls an event list makes. */
  function Calls(es: seq<Event>): seq<Event> {
    if es == [] then []
    else Calls(es[..|es| - 1]) + (if IsHandled(es[|es| - 1]) then [es[|es| - 1]] else [])
  }

  function LastTerminal(es: seq<Event>): Terminal {
    if es == [] then None
    else if IsTerminal(es[|es| - 1]) then Some(es[|es| - 1])
    else LastTerminal(es[..|es| - 1])
  }

  /** The events up to the first terminal one, which is kept. */
  function Upto(es: seq<Event>): (r: seq<Event>)
    ensures r <= es
  {
    if es == [] then []
    else if LastTerminal(es[..|es| - 1]).Some? then Upto(es[..|es| - 1])
    else es
  }

  ghost predicate SameOutcome(xs: seq<Event>, ys: seq<Event>) {
    Calls(xs) == Calls(ys) && LastTerminal(xs) == LastTerminal(ys)
  }

  // ----- laws of Upto, Calls and LastTerminal -----

  lemma UptoAll(es: seq<Event>)
    requires LastTerminal(es).None?
    ensures Upto(es) == es
  {
  }

  /** A prefix that ends in its only terminal event is what any extension is cut to. */
  lemma {:induction false} UptoFirst(p: seq<Event>, es: seq<Event>)
    requires p <= es && p != [] && IsTerminal(p[|p| - 1]) && LastTerminal(p[..|p| - 1]).None?
    ensures Upto(es) == p
  {
    if |es| == |p| {
      assert es == p;
    } else {
      UptoFirst(p, es[..|es| - 1]);
      TerminalStays(p, es[..|es| - 1]);
    }
  }

  lemma {:induction false} UptoKeepsTerminal(es: seq<Event>)
    ensures LastTerminal(Upto(es)).Some? <==> LastTerminal(es).Some?
  {
    if es != [] {
      UptoKeepsTerminal(es[..|es| - 1]);
    }
  }

  lemma {:induction false} UptoConcat(es: seq<Event>, more: seq<Event>)
    requires LastTerminal(es).None?
    ensures Upto(es + more) == es + Upto(more)
    decreases |more|
  {
    if more == [] {
      assert es + more == es;
      UptoAll(es);
    } else {
      var init := more[..|more| - 1];
      assert (es + more)[..|es + more| - 1] == es + init;
      UptoConcat(es, init);
      CallsAppend(es, init);
    }
  }

  lemma {:induction false} TerminalStays(p: seq<Event>, es: seq<Event>)
    requires p <= es && p != [] && IsTerminal(p[|p| - 1])
    ensures LastTerminal(es).Some?
  {
    if |es| == |p| {
      assert es == p;
    } else {
      TerminalStays(p, es[..|es| - 1]);
    }
  }

  lemma {:induction false} UptoAppend(es: seq<Event>, more: seq<Event>)
    requires LastTerminal(es).Some?
    ensures Upto(es + more) == Upto(es) && LastTerminal(es + more).Some?
    decreases |more|
  {
    if more == [] {
      assert es + more == es;
    } else {
      UptoAppend(es, more[..|more| - 1]);
      assert (es + more)[..|es + more| - 1] == es + more[..|more| - 1];
    }
  }

  lemma {:induction false} CallsAppend(es: seq<Event>, more: seq<Event>)
    ensures Calls(es + more) == Calls(es) + Calls(more)
    ensures LastTerminal(es + more) == (if LastTerminal(more).Some? then LastTerminal(more) else LastTerminal(es))
    decreases |more|
  {
    if more == [] {
      assert es + more == es;
    } else {
      CallsAppend(es, more[..|more| - 1]);
      assert (es + more)[..|es + more| - 1] == es + more[..|more| - 1];
    }
  }

  lemma {:induction false} UptoTwice(es: seq<Event>)
    ensures Upto(Upto(es)) == Upto(es)
  {
    if es != [] {
      UptoTwice(es[..|es| - 1]);
    }
  }

  lemma SingleEvent(es: seq<Event>, e: Event)
    ensures Calls(es + [e]) == Calls(es) + if IsHandled(e) then [e] else []
    ensures LastTerminal(es + [e]) == if IsTerminal(e) then Some(e) else LastTerminal(es)
  {
    assert (es + [e])[..|es|] == es;
  }

  /** What has arrived of a list with a terminal event, once that has arrived, is cut to the same events. */
  lemma UptoOfPrefix(part: seq<Event>, es: seq<Event>)
    requires part <= es && LastTerminal(part).Some?
    ensures Upto(part) == Upto(es) && LastTerminal(es).Some?
  {
    UptoAppend(part, es[|part|..]);
    assert es == part + es[|part|..];
  }
}
