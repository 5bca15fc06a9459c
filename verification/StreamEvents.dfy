/** The events of a chat stream, as the server emits them and as the client parses them. */
module StreamEvents {
  import opened Common

  datatype Failure = Failure(code: string, message: string)

  datatype Event =
    | Conversation(conversationId: string)
    | Token(content: string)
    | Heartbeat
    | Completed(messageId: string, provider: string)
    | Error(failure: Failure)
    | Unknown

  predicate IsTerminal(e: Event) {
    e.Completed? || e.Error?
  }

  /** The token texts of an event list, in order. */
  function Tokens(es: seq<Event>): seq<string> {
    if es == [] then []
    else Tokens(es[..|es| - 1]) + (if es[|es| - 1].Token? then [es[|es| - 1].content] else [])
  }

  lemma TokensSnoc(es: seq<Event>, e: Event)
    ensures Tokens(es + [e]) == Tokens(es) + (if e.Token? then [e.content] else [])
  {
    assert (es + [e])[..|es|] == es;
  }

  lemma {:induction false} TokensOfPrefix(es: seq<Event>, n: nat)
    requires n <= |es|
    ensures Tokens(es[..n]) <= Tokens(es)
  {
    if n == |es| {
      assert es[..n] == es;
    } else {
      TokensOfPrefix(es[..|es| - 1], n);
      assert es[..|es| - 1][..n] == es[..n];
    }
  }
}
