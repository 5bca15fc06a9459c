/** redact_metadata: what it leaves, and exactly which values it leaves alone. */
module AuditRedaction {
  import opened Common

  const MAX_DEPTH := 20
  const MAX_TEXT := 500
  const REDACTED := "[REDACTED]"
  const TRUNCATED := "[TRUNCATED]"

  /** A metadata value; a dict is its entries in insertion order, Scalar is any other JSON value. */
  datatype Value =
    | Dict(entries: seq<Entry>)
    | List(items: seq<Value>)
    | Tuple(items: seq<Value>)
    | Text(text: string)
    | Scalar(value: int)

  datatype Entry = Entry(key: string, value: Value)

  /** The two regular expressions, as tests. */
  datatype Rules = Rules(sensitiveKey: string -> bool, sensitiveText: string -> bool)

  function Decimal(n: nat): string {
    if n < 10 then [('0' as int + n) as char] else Decimal(n / 10) + [('0' as int + n % 10) as char]
  }

  function TruncationMark(n: nat): string {
    "[TRUNCATED:" + Decimal(n) + " chars]"
  }

  function Redact(r: Rules, v: Value, depth: nat): Value
    decreases v
  {
    if depth > MAX_DEPTH then Text(TRUNCATED)
    else match v
      case Dict(entries) =>
        Dict(seq(|entries|, i requires 0 <= i < |entries| =>
          if r.sensitiveKey(entries[i].key) then Entry(entries[i].key, Text(REDACTED))
          else Entry(entries[i].key, Redact(r, entries[i].value, depth + 1))))
      case List(items) =>
        List(seq(|items|, i requires 0 <= i < |items| => Redact(r, items[i], depth + 1)))
      case Tuple(items) =>
        List(seq(|items|, i requires 0 <= i < |items| => Redact(r, items[i], depth + 1)))
      case Text(text) =>
        if r.sensitiveText(text) then Text(REDACTED)
        else if |text| > MAX_TEXT then Text(TruncationMark(|text|))
        else v
      case Scalar(_) => v
  }

  // ----- values with nothing left to hide -----

  /** No sensitive key with another value than the mark, no sensitive or long text, nothing below the depth limit. */
  ghost predicate Settled(r: Rules, v: Value, depth: nat)
    decreases v
  {
    if depth > MAX_DEPTH then v == Text(TRUNCATED)
    else match v
      case Dict(entries) =>
        forall i :: 0 <= i < |entries| ==>
          if r.sensitiveKey(entries[i].key) then entries[i].value == Text(REDACTED)
          else Settled(r, entries[i].value, depth + 1)
      case List(items) => forall i :: 0 <= i < |items| ==> Settled(r, items[i], depth + 1)
      case Tuple(items) => false
      case Text(text) => !r.sensitiveText(text) && |text| <= MAX_TEXT
      case Scalar(_) => true
  }

  function Pow10(k: nat): nat {
    if k == 0 then 1 else 10 * Pow10(k - 1)
  }

  /** Every text is shorter than 10^400 characters. */
  ghost predicate Storable(v: Value)
    decreases v
  {
    match v
    case Dict(entries) => forall i :: 0 <= i < |entries| ==> Storable(entries[i].value)
    case List(items) => forall i :: 0 <= i < |items| ==> Storable(items[i])
    case Tuple(items) => forall i :: 0 <= i < |items| ==> Storable(items[i])
    case Text(text) => |text| < Pow10(400)
    case Scalar(_) => true
  }

  /** The marks themselves match neither pattern. */
  ghost predicate MarksArePlain(r: Rules) {
    && !r.sensitiveText(REDACTED) && !r.sensitiveText(TRUNCATED)
    && forall n: nat :: !r.sensitiveText(TruncationMark(n))
  }

  lemma {:induction false} DecimalLength(n: nat, k: nat)
    requires k >= 1 && n < Pow10(k)
    ensures |Decimal(n)| <= k
  {
    if n >= 10 {
      assert Pow10(1) == 10 * Pow10(0);
      DecimalLength(n / 10, k - 1);
    }
  }

  lemma {:induction false} RedactSettles(r: Rules, v: Value, depth: nat)
    requires MarksArePlain(r) && Storable(v)
    ensures Settled(r, Redact(r, v, depth), depth)
    decreases v
  {
    if depth <= MAX_DEPTH {
      match v {
        case Dict(entries) =>
          forall i | 0 <= i < |entries|
            ensures Settled(r, Redact(r, entries[i].value, depth + 1), depth + 1)
          {
            RedactSettles(r, entries[i].value, depth + 1);
          }
        case List(items) =>
          forall i | 0 <= i < |items|
            ensures Settled(r, Redact(r, items[i], depth + 1), depth + 1)
          {
            RedactSettles(r, items[i], depth + 1);
          }
        case Tuple(items) =>
          forall i | 0 <= i < |items|
            ensures Settled(r, Redact(r, items[i], depth + 1), depth + 1)
          {
            RedactSettles(r, items[i], depth + 1);
          }
        case Text(text) => TextSettles(r, text, depth);
        case Scalar(_) =>
      }
    }
  }

  lemma TextSettles(r: Rules, text: string, depth: nat)
    requires MarksArePlain(r) && |text| < Pow10(400) && depth <= MAX_DEPTH
    ensures Settled(r, Redact(r, Text(text), depth), depth)
  {
    DecimalLength(|text|, 400);
  }

  lemma {:induction false} SettledIsUnchanged(r: Rules, v: Value, depth: nat)
    requires Settled(r, v, depth)
    ensures Redact(r, v, depth) == v
    decreases v
  {
    if depth <= MAX_DEPTH {
      match v {
        case Dict(entries) =>
          forall i | 0 <= i < |entries| && !r.sensitiveKey(entries[i].key)
            ensures Redact(r, entries[i].value, depth + 1) == entries[i].value
          {
            SettledIsUnchanged(r, entries[i].value, depth + 1);
          }
          assert Redact(r, v, depth).entries == entries;
        case List(items) =>
          forall i | 0 <= i < |items|
            ensures Redact(r, items[i], depth + 1) == items[i]
          {
            SettledIsUnchanged(r, items[i], depth + 1);
          }
          assert Redact(r, v, depth).items == items;
        case Text(_) =>
        case Scalar(_) =>
      }
    }
  }

  /** A value comes out unchanged exactly when it is settled: redaction changes nothing it need not. */
  lemma UnchangedIffSettled(r: Rules, v: Value, depth: nat)
    requires MarksArePlain(r) && Storable(v)
    ensures Redact(r, v, depth) == v <==> Settled(r, v, depth)
  {
    RedactSettles(r, v, depth);
    if Settled(r, v, depth) {
      SettledIsUnchanged(r, v, depth);
    }
  }

  /** Redacting twice is redacting once, from any starting depth. */
  lemma RedactIsIdempotent(r: Rules, v: Value, depth: nat)
    requires MarksArePlain(r) && Storable(v)
    ensures Redact(r, Redact(r, v, depth), depth) == Redact(r, v, depth)
  {
    RedactSettles(r, v, depth);
    SettledIsUnchanged(r, Redact(r, v, depth), depth);
  }

  /** At most n containers inside one another. */
  ghost predicate NestedAtMost(v: Value, n: nat)
    decreases v
  {
    match v
    case Dict(entries) => n >= 1 && forall i :: 0 <= i < |entries| ==> NestedAtMost(entries[i].value, n - 1)
    case List(items) => n >= 1 && forall i :: 0 <= i < |items| ==> NestedAtMost(items[i], n - 1)
    case Tuple(items) => n >= 1 && forall i :: 0 <= i < |items| ==> NestedAtMost(items[i], n - 1)
    case _ => true
  }

  /** Whatever comes in, what comes out nests no deeper than the limit leaves room for. */
  lemma {:induction false} RedactBoundsNesting(r: Rules, v: Value, depth: nat)
    requires depth <= MAX_DEPTH + 1
    ensures NestedAtMost(Redact(r, v, depth), MAX_DEPTH + 1 - depth)
    decreases v
  {
    if depth <= MAX_DEPTH {
      match v {
        case Dict(entries) =>
          forall i | 0 <= i < |entries|
            ensures NestedAtMost(Redact(r, entries[i].value, depth + 1), MAX_DEPTH - depth)
          {
            RedactBoundsNesting(r, entries[i].value, depth + 1);
          }
        case List(items) =>
          forall i | 0 <= i < |items|
            ensures NestedAtMost(Redact(r, items[i], depth + 1), MAX_DEPTH - depth)
          {
            RedactBoundsNesting(r, items[i], depth + 1);
          }
        case Tuple(items) =>
          forall i | 0 <= i < |items|
            ensures NestedAtMost(Redact(r, items[i], depth + 1), MAX_DEPTH - depth)
          {
            RedactBoundsNesting(r, items[i], depth + 1);
          }
        case _ =>
      }
    }
  }

  // ----- everything else stays where it was -----

  /** What stands at this place of a container. */
  function Child(v: Value, i: nat): Option<Value> {
    match v
    case Dict(entries) => if i < |entries| then Some(entries[i].value) else None
    case List(items) => if i < |items| then Some(items[i]) else None
    case Tuple(items) => if i < |items| then Some(items[i]) else None
    case _ => None
  }

  /** What stands at the end of a path into nested containers. */
  function At(v: Value, path: seq<nat>): Option<Value>
    decreases |path|
  {
    if path == [] then Some(v)
    else if Child(v, path[0]).None? then None
    else At(Child(v, path[0]).value, path[1..])
  }

  /** The path leads through no sensitive key. */
  predicate Passes(r: Rules, v: Value, path: seq<nat>)
    decreases |path|
  {
    path == [] ||
    (&& Child(v, path[0]).Some?
     && !(v.Dict? && r.sensitiveKey(v.entries[path[0]].key))
     && Passes(r, Child(v, path[0]).value, path[1..]))
  }

  /** What may stand in the output where x stands in the input. */
  ghost predicate StandsFor(r: Rules, x: Value, y: Value) {
    match x
    case Dict(entries) =>
      && y.Dict? && |y.entries| == |entries|
      && forall i :: 0 <= i < |entries| ==>
           y.entries[i].key == entries[i].key &&
           (r.sensitiveKey(entries[i].key) ==> y.entries[i].value == Text("[REDACTED]"))
    case List(items) => y.List? && |y.items| == |items|
    case Tuple(items) => y.List? && |y.items| == |items|
    case Text(text) =>
      y == if r.sensitiveText(text) then Text("[REDACTED]")
           else if |text| > 500 then Text("[TRUNCATED:" + Decimal(|text|) + " chars]")
           else x
    case Scalar(_) => y == x
  }

  lemma ChildIsRedacted(r: Rules, v: Value, depth: nat, i: nat)
    requires depth <= MAX_DEPTH && Passes(r, v, [i])
    ensures Child(Redact(r, v, depth), i) == Some(Redact(r, Child(v, i).value, depth + 1))
  {
  }

  /**
   Redaction moves and drops nothing: wherever a path leads through no sensitive key, the output has, at the same
   path, the same scalar, the text or its mark, or a container of the same size with the same keys; and the
   truncation mark as soon as the path is too deep.
   */
  lemma {:induction false} PlacesAreKept(r: Rules, v: Value, depth: nat, path: seq<nat>)
    requires Passes(r, v, path) && depth + |path| <= 21
    ensures At(v, path).Some? && At(Redact(r, v, depth), path).Some?
    ensures var x, y := At(v, path).value, At(Redact(r, v, depth), path).value;
            if depth + |path| <= 20 then StandsFor(r, x, y) else y == Text("[TRUNCATED]")
    decreases |path|
  {
    if path != [] {
      assert Passes(r, v, [path[0]]);
      ChildIsRedacted(r, v, depth, path[0]);
      PlacesAreKept(r, Child(v, path[0]).value, depth + 1, path[1..]);
    }
  }

  /** The number that decimal digits stand for. */
  function Read(digits: string): int {
    if digits == "" then 0 else 10 * Read(digits[..|digits| - 1]) + (digits[|digits| - 1] as int - '0' as int)
  }

  /** The mark of a long text tells its length. */
  lemma {:induction false} MarkTellsLength(n: nat)
    ensures Read(Decimal(n)) == n && Decimal(n) != ""
    ensures forall i :: 0 <= i < |Decimal(n)| ==> '0' <= Decimal(n)[i] <= '9'
  {
    if n >= 10 {
      MarkTellsLength(n / 10);
      assert Decimal(n)[..|Decimal(n)| - 1] == Decimal(n / 10);
    } else {
      assert Decimal(n)[..0] == "";
    }
  }
}
