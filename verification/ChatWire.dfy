/**
 Chat events on the wire: the names and JSON payloads the server writes, and parseChatSseData, which
 reads them. Which key of which JSON text holds which string is a parameter.
 */
module ChatWire {
  import opened Common
  import opened StreamEvents
  import opened SseParser

  datatype Kind = ConversationKind | TokenKind | HeartbeatKind | CompletedKind | ErrorKind

  /** conversation_id, content, message_id, provider, code, message */
  datatype Key = ConversationIdKey | ContentKey | MessageIdKey | ProviderKey | CodeKey | MessageKey

  /**
   name: the event names. payload: an event's data as JSON. field: the string a key holds, if the text
   is a JSON object and it holds one. failure: the code and message the client takes when they are missing.
   */
  datatype Wire = Wire(
    name: Kind -> string,
    payload: Event -> string,
    field: (string, Key) -> Option<string>,
    failure: Failure)

  function KindOf(e: Event): Kind
    requires !e.Unknown?
  {
    match e
    case Conversation(_) => ConversationKind
    case Token(_) => TokenKind
    case Heartbeat => HeartbeatKind
    case Completed(_, _) => CompletedKind
    case Error(_) => ErrorKind
  }

  function SourceName(k: Kind): string {
    match k
    case ConversationKind => "conversation"
    case TokenKind => "token"
    case HeartbeatKind => "heartbeat"
    case CompletedKind => "completed"
    case ErrorKind => "error"
  }

  predicate IsGoodName(name: string) {
    name != "" && IsClean(name)
  }

  /** Neither name is the other, or a part of it that has arrived. */
  predicate Apart(a: string, b: string) {
    !(a <= b) && !(b <= a)
  }

  ghost predicate GoodNames(name: Kind -> string) {
    && (forall k :: IsGoodName(name(k)))
    && (forall k, l :: k != l ==> Apart(name(k), name(l)))
  }

  /** The keys of an event's payload hold what was put in. */
  predicate HoldsFields(w: Wire, e: Event, data: string) {
    match e
    case Conversation(id) => w.field(data, ConversationIdKey) == Some(id)
    case Token(content) => w.field(data, ContentKey) == Some(content)
    case Completed(id, provider) =>
      w.field(data, MessageIdKey) == Some(id) && w.field(data, ProviderKey) == Some(provider)
    case Error(failure) =>
      w.field(data, CodeKey) == Some(failure.code) && w.field(data, MessageKey) == Some(failure.message)
    case _ => true
  }

  ghost predicate HoldsNothing(w: Wire, data: string) {
    forall key :: w.field(data, key).None?
  }

  /** A JSON object on one line, which is no object before its last character. */
  ghost predicate GoodPayload(w: Wire, e: Event, data: string) {
    && data != "" && IsClean(data) && HoldsFields(w, e, data)
    && forall n :: 0 <= n < |data| ==> HoldsNothing(w, data[..n])
  }

  ghost predicate Sane(w: Wire) {
    GoodNames(w.name) && forall e :: GoodPayload(w, e, w.payload(e))
  }

  lemma PartHoldsNothing(w: Wire, e: Event, data: string)
    requires Sane(w) && data < w.payload(e)
    ensures HoldsNothing(w, data)
  {
    assert GoodPayload(w, e, w.payload(e));
    assert data == w.payload(e)[..|data|];
  }

  lemma SaneEvent(w: Wire, e: Event)
    requires Sane(w) && !e.Unknown?
    ensures IsGoodName(w.name(KindOf(e))) && w.payload(e) != "" && IsClean(w.payload(e))
  {
    assert GoodPayload(w, e, w.payload(e));
  }

  lemma DifferInLetter(a: string, b: string, i: nat)
    requires i < |a| && i < |b| && a[i] != b[i]
    ensures Apart(a, b)
  {
  }

  /** The first and the third letter tell the names apart. */
  lemma SourceLetters(k: Kind)
    ensures IsGoodName(SourceName(k)) && |SourceName(k)| > 2
    ensures (SourceName(k)[0], SourceName(k)[2])
         == match k
            case ConversationKind => ('c', 'n')
            case TokenKind => ('t', 'k')
            case HeartbeatKind => ('h', 'a')
            case CompletedKind => ('c', 'm')
            case ErrorKind => ('e', 'r')
  {
  }

  lemma SourceNamesAreGood()
    ensures GoodNames(SourceName)
  {
    forall k
      ensures IsGoodName(SourceName(k))
    {
      SourceLetters(k);
    }
    forall k, l: Kind | k != l
      ensures Apart(SourceName(k), SourceName(l))
    {
      SourceLetters(k);
      SourceLetters(l);
      DifferInLetter(SourceName(k), SourceName(l), if SourceName(k)[0] == SourceName(l)[0] then 2 else 0);
    }
  }

  // ----- reading -----

  function Or(s: Option<string>, other: string): string {
    if s.Some? then s.value else other
  }

  /** What an event of this name holds. */
  function ParseAs(w: Wire, k: Kind, data: string): Event {
    match k
    case ConversationKind =>
      var id := w.field(data, ConversationIdKey);
      if id.Some? then Conversation(id.value) else Unknown
    case TokenKind =>
      var content := w.field(data, ContentKey);
      if content.Some? then Token(content.value) else Unknown
    case HeartbeatKind => Heartbeat
    case CompletedKind =>
      var id, provider := w.field(data, MessageIdKey), w.field(data, ProviderKey);
      if id.Some? && provider.Some? then Completed(id.value, provider.value) else Unknown
    case ErrorKind =>
      Error(Failure(Or(w.field(data, CodeKey), w.failure.code), Or(w.field(data, MessageKey), w.failure.message)))
  }

  /** parseChatSseData */
  function Parse(w: Wire, e: SseEvent): Event {
    if e.event == w.name(ConversationKind) then ParseAs(w, ConversationKind, e.data)
    else if e.event == w.name(TokenKind) then ParseAs(w, TokenKind, e.data)
    else if e.event == w.name(HeartbeatKind) then ParseAs(w, HeartbeatKind, e.data)
    else if e.event == w.name(CompletedKind) then ParseAs(w, CompletedKind, e.data)
    else if e.event == w.name(ErrorKind) then ParseAs(w, ErrorKind, e.data)
    else Unknown
  }

  function ParseAll(w: Wire, es: seq<SseEvent>): seq<Event> {
    seq(|es|, i requires 0 <= i < |es| => Parse(w, es[i]))
  }

  lemma ParseConcat(w: Wire, a: seq<SseEvent>, b: seq<SseEvent>)
    ensures ParseAll(w, a + b) == ParseAll(w, a) + ParseAll(w, b)
  {
  }

  // ----- writing -----

  /** encode_sse of one event. */
  function Encode(w: Wire, e: Event): string
    requires !e.Unknown?
  {
    EncodeSse(w.name(KindOf(e)), w.payload(e))
  }

  lemma NamePicks(w: Wire, k: Kind, data: string)
    requires GoodNames(w.name)
    ensures Parse(w, SseEvent(w.name(k), data, None)) == ParseAs(w, k, data)
  {
    forall l: Kind | l != k
      ensures w.name(l) != w.name(k)
    {
      assert Apart(w.name(k), w.name(l));
    }
  }

  /** The client reads what the server wrote. */
  lemma EncodedParses(w: Wire, e: Event)
    requires Sane(w) && !e.Unknown?
    ensures Parse(w, SseEvent(w.name(KindOf(e)), w.payload(e), None)) == e
  {
    NamePicks(w, KindOf(e), w.payload(e));
    assert GoodPayload(w, e, w.payload(e));
  }

  lemma PartOfNameParses(w: Wire, e: Event, name: string)
    requires Sane(w) && !e.Unknown? && name < w.name(KindOf(e))
    ensures Parse(w, SseEvent(name, "", None)) == Unknown
  {
    forall k
      ensures name != w.name(k)
    {
      assert k != KindOf(e) ==> Apart(w.name(k), w.name(KindOf(e)));
    }
  }

  /** What an event with its name but not all of its data reads as. */
  function Shortened(w: Wire, e: Event): Event {
    if e.Heartbeat? then Heartbeat else if e.Error? then Error(w.failure) else Unknown
  }

  lemma PartOfDataParses(w: Wire, e: Event, data: string)
    requires Sane(w) && !e.Unknown? && data < w.payload(e)
    ensures Parse(w, SseEvent(w.name(KindOf(e)), data, None)) == Shortened(w, e)
  {
    NamePicks(w, KindOf(e), data);
    PartHoldsNothing(w, e, data);
  }

  /** What the end of the text makes of an event of which n characters have arrived. */
  function SeenAt(w: Wire, e: Event, n: nat): seq<Event>
    requires !e.Unknown?
  {
    var name, data := |w.name(KindOf(e))|, |w.payload(e)|;
    if n <= 7 then []
    else if n < name + 7 then [Unknown]
    else if n < name + data + 14 then [Shortened(w, e)]
    else [e]
  }

  lemma SeenInName(w: Wire, e: Event, n: nat)
    requires Sane(w) && !e.Unknown? && n < |w.name(KindOf(e))| + 7
    ensures ParseAll(w, PartAt(w.name(KindOf(e)), w.payload(e), n)) == SeenAt(w, e, n)
  {
    if n > 7 {
      PartOfNameParses(w, e, w.name(KindOf(e))[..n - 7]);
    }
  }

  lemma PartInData(name: string, payload: string, n: nat) returns (data: string)
    requires |name| + 7 <= n < |name| + |payload| + 14 && n > 7 && payload != ""
    ensures data < payload && PartAt(name, payload, n) == [SseEvent(name, data, None)]
  {
    assert name[..|name|] == name;
    data := if n <= |name| + 14 then "" else payload[..n - |name| - 14];
  }

  lemma SeenInData(w: Wire, e: Event, n: nat)
    requires Sane(w) && !e.Unknown?
    requires |w.name(KindOf(e))| + 7 <= n < |w.name(KindOf(e))| + |w.payload(e)| + 14
    ensures ParseAll(w, PartAt(w.name(KindOf(e)), w.payload(e), n)) == SeenAt(w, e, n)
  {
    SaneEvent(w, e);
    var data := PartInData(w.name(KindOf(e)), w.payload(e), n);
    PartOfDataParses(w, e, data);
  }

  lemma SeenWhole(w: Wire, e: Event, n: nat)
    requires Sane(w) && !e.Unknown? && n >= |w.name(KindOf(e))| + |w.payload(e)| + 14
    ensures ParseAll(w, PartAt(w.name(KindOf(e)), w.payload(e), n)) == SeenAt(w, e, n)
  {
    var payload := w.payload(e);
    assert payload[..|payload|] == payload;
    EncodedParses(w, e);
  }

  lemma PartsAreSeen(w: Wire, e: Event, n: nat)
    requires Sane(w) && !e.Unknown?
    ensures ParseAll(w, PartAt(w.name(KindOf(e)), w.payload(e), n)) == SeenAt(w, e, n)
  {
    if n < |w.name(KindOf(e))| + 7 {
      SeenInName(w, e, n);
    } else if n < |w.name(KindOf(e))| + |w.payload(e)| + 14 {
      SeenInData(w, e, n);
    } else {
      SeenWhole(w, e, n);
    }
  }
}
