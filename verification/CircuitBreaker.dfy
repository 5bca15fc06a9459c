/**
 ProviderCircuitBreaker: per-provider state in one reliable store. Beside it, the trace of what was
 let through, skipped, and recorded, against which its decisions are judged.
 */
module CircuitBreaker {
  import opened Common

  datatype CircuitState = Closed | Open | HalfOpen

  /** What a recorded failure was: a category the provider reported, or an unexpected error. */
  datatype Category = Reported(name: string) | Permanent

  datatype Data = Data(
    state: CircuitState,
    failureCount: nat,
    successCount: nat,
    lastFailureCategory: Option<Category>,
    lastSuccessAt: Option<int>,
    openedAt: Option<int>,
    latencies: seq<int>)

  datatype Settings = Settings(threshold: int, recovery: int)

  /** LetThrough and Skipped are the two answers of is_open; the others are what was recorded. */
  datatype Event =
    | LetThrough(provider: string, at: int)
    | Skipped(provider: string, at: int)
    | Succeeded(provider: string, at: int, latency: int)
    | Failed(provider: string, at: int, category: Category)

  datatype System = System(book: map<string, Data>, trace: seq<Event>)

  const EMPTY := Data(Closed, 0, 0, None, None, None, [])

  function Load(book: map<string, Data>, provider: string): Data {
    if provider in book then book[provider] else EMPTY
  }

  function Last20(xs: seq<int>): seq<int> {
    if |xs| <= 20 then xs else xs[|xs| - 20..]
  }

  /** A missing time and a zero time both read as "never". */
  predicate Recovered(settings: Settings, d: Data, now: int) {
    d.openedAt.Some? && d.openedAt.value != 0 && now - d.openedAt.value >= settings.recovery
  }

  predicate IsOpenAt(settings: Settings, book: map<string, Data>, provider: string, now: int) {
    var d := Load(book, provider);
    d.state.Open? && !Recovered(settings, d, now)
  }

  function AfterCheck(settings: Settings, s: System, provider: string, now: int): System {
    var d := Load(s.book, provider);
    if IsOpenAt(settings, s.book, provider, now) then s.(trace := s.trace + [Skipped(provider, now)])
    else System(if d.state.Open? then s.book[provider := d.(state := HalfOpen)] else s.book,
                s.trace + [LetThrough(provider, now)])
  }

  function AfterSuccess(s: System, provider: string, latency: int, now: int): System {
    var d := Load(s.book, provider);
    System(s.book[provider := d.(state := Closed, failureCount := 0, successCount := d.successCount + 1,
                                 lastSuccessAt := Some(now), latencies := Last20(d.latencies + [latency]))],
           s.trace + [Succeeded(provider, now, latency)])
  }

  function AfterFailure(settings: Settings, s: System, provider: string, category: Category, now: int): System {
    var d := Load(s.book, provider);
    var opens := d.failureCount + 1 >= settings.threshold;
    System(s.book[provider := d.(state := if opens then Open else Closed, failureCount := d.failureCount + 1,
                                 lastFailureCategory := Some(category),
                                 openedAt := if opens then Some(now) else d.openedAt)],
           s.trace + [Failed(provider, now, category)])
  }

  class ProviderCircuitBreaker {
    const settings: Settings
    var book: map<string, Data>
    ghost var trace: seq<Event>

    ghost function Now(): System
      reads this
    {
      System(book, trace)
    }

    constructor (settings: Settings)
      ensures this.settings == settings && Now() == System(map[], [])
    {
      this.settings := settings;
      book, trace := map[], [];
    }

    method IsOpen(provider: string, now: int) returns (isOpen: bool)
      modifies this
      ensures Now() == AfterCheck(settings, old(Now()), provider, now)
      ensures isOpen == IsOpenAt(settings, old(book), provider, now)
    {
      var data := Load(book, provider);
      if data.state != Open {
        trace := trace + [LetThrough(provider, now)];
        return false;
      }
      var openedAt := if data.openedAt.Some? then data.openedAt.value else 0;
      if openedAt != 0 && now - openedAt >= settings.recovery {
        book := book[provider := data.(state := HalfOpen)];
        trace := trace + [LetThrough(provider, now)];
        return false;
      }
      trace := trace + [Skipped(provider, now)];
      return true;
    }

    method RecordSuccess(provider: string, latency: int, now: int)
      modifies this
      ensures Now() == AfterSuccess(old(Now()), provider, latency, now)
    {
      var data := Load(book, provider);
      var latencies := Last20(data.latencies + [latency]);
      book := book[provider := data.(state := Closed, failureCount := 0, successCount := data.successCount + 1,
                                     lastSuccessAt := Some(now), latencies := latencies)];
      trace := trace + [Succeeded(provider, now, latency)];
    }

    method RecordFailure(provider: string, category: Category, now: int)
      modifies this
      ensures Now() == AfterFailure(settings, old(Now()), provider, category, now)
    {
      var data := Load(book, provider);
      var failures := data.failureCount + 1;
      var state, openedAt := Closed, data.openedAt;
      if failures >= settings.threshold {
        state, openedAt := Open, Some(now);
      }
      book := book[provider := data.(state := state, failureCount := failures,
                                     lastFailureCategory := Some(category), openedAt := openedAt)];
      trace := trace + [Failed(provider, now, category)];
    }
  }

  // ----- reading the trace -----

  /** Failures recorded for a provider since its last recorded success. */
  function TrailingFailures(trace: seq<Event>, provider: string): nat {
    if trace == [] then 0
    else
      var e, before := trace[|trace| - 1], TrailingFailures(trace[..|trace| - 1], provider);
      if e.provider != provider then before
      else if e.Failed? then before + 1
      else if e.Succeeded? then 0
      else before
  }

  function LastFailureAt(trace: seq<Event>, provider: string): int {
    if trace == [] then 0
    else
      var e := trace[|trace| - 1];
      if e.provider == provider && e.Failed? then e.at else LastFailureAt(trace[..|trace| - 1], provider)
  }

  /** How long each success took, in order. */
  function Latencies(trace: seq<Event>, provider: string): seq<int> {
    if trace == [] then []
    else
      var e, before := trace[|trace| - 1], Latencies(trace[..|trace| - 1], provider);
      if e.provider == provider && e.Succeeded? then before + [e.latency] else before
  }

  function LastCategory(trace: seq<Event>, provider: string): Option<Category> {
    if trace == [] then None
    else
      var e := trace[|trace| - 1];
      if e.provider == provider && e.Failed? then Some(e.category) else LastCategory(trace[..|trace| - 1], provider)
  }

  function LastSuccessAt(trace: seq<Event>, provider: string): Option<int> {
    if trace == [] then None
    else
      var e := trace[|trace| - 1];
      if e.provider == provider && e.Succeeded? then Some(e.at) else LastSuccessAt(trace[..|trace| - 1], provider)
  }

  /** A call has been let through, and nothing has been recorded since. */
  predicate Trying(trace: seq<Event>, provider: string) {
    if trace == [] then false
    else
      var e := trace[|trace| - 1];
      if e.provider != provider || e.Skipped? then Trying(trace[..|trace| - 1], provider) else e.LetThrough?
  }

  /** What the trace so far says about the next check: the run of failures is long and its last one is recent. */
  predicate ShouldSkip(settings: Settings, trace: seq<Event>, provider: string, now: int) {
    TrailingFailures(trace, provider) >= settings.threshold && now < LastFailureAt(trace, provider) + settings.recovery
  }

  ghost predicate Obeys(settings: Settings, trace: seq<Event>, i: nat)
    requires i < |trace|
  {
    var e := trace[i];
    && (e.LetThrough? ==> !ShouldSkip(settings, trace[..i], e.provider, e.at))
    && (e.Skipped? ==> ShouldSkip(settings, trace[..i], e.provider, e.at))
  }

  ghost predicate AlwaysObeys(settings: Settings, trace: seq<Event>) {
    forall i :: 0 <= i < |trace| ==> Obeys(settings, trace, i)
  }

  /** The clock never goes back, and has left zero behind. */
  ghost predicate ClockOk(trace: seq<Event>) {
    && (forall i :: 0 <= i < |trace| ==> trace[i].at > 0)
    && (forall i, j :: 0 <= i < j < |trace| ==> trace[i].at <= trace[j].at)
  }

  function LastTime(trace: seq<Event>): int {
    if trace == [] then 0 else trace[|trace| - 1].at
  }

  /** What a trace says about one provider. */
  datatype Report = Report(
    failures: nat,
    lastFailureAt: int,
    category: Option<Category>,
    latencies: seq<int>,
    lastSuccessAt: Option<int>,
    trying: bool)

  function ReportOf(trace: seq<Event>, provider: string): Report {
    Report(TrailingFailures(trace, provider), LastFailureAt(trace, provider), LastCategory(trace, provider),
           Latencies(trace, provider), LastSuccessAt(trace, provider), Trying(trace, provider))
  }

  ghost predicate DataFits(settings: Settings, d: Data, r: Report, last: int) {
    && d.failureCount == r.failures
    && (d.state.Closed? <==> d.failureCount < settings.threshold)
    && (!d.state.Closed? ==> d.openedAt == Some(r.lastFailureAt) && d.openedAt.value > 0)
    && (d.state.HalfOpen? ==> d.openedAt.value + settings.recovery <= last)
  }

  ghost predicate HealthFits(settings: Settings, d: Data, r: Report) {
    && d.failureCount == r.failures
    && (d.state.Closed? <==> r.failures < settings.threshold)
    && (d.state.HalfOpen? <==> r.failures >= settings.threshold && r.trying)
    && d.lastFailureCategory == r.category
    && d.successCount == |r.latencies|
    && d.lastSuccessAt == r.lastSuccessAt
    && AreLatest(d.latencies, r.latencies)
  }

  ghost predicate DataOk(settings: Settings, s: System, provider: string) {
    DataFits(settings, Load(s.book, provider), ReportOf(s.trace, provider), LastTime(s.trace))
  }

  /** What the health report shows of a provider, read off the trace. */
  ghost predicate HealthOk(settings: Settings, s: System, provider: string) {
    HealthFits(settings, Load(s.book, provider), ReportOf(s.trace, provider))
  }

  /** The last twenty, or all if there are fewer. */
  ghost predicate AreLatest(kept: seq<int>, all: seq<int>) {
    && |kept| == (if |all| < 20 then |all| else 20)
    && forall i :: 0 <= i < |kept| ==> kept[i] == all[|all| - |kept| + i]
  }

  lemma LatestSnoc(kept: seq<int>, all: seq<int>, x: int)
    requires AreLatest(kept, all)
    ensures AreLatest(Last20(kept + [x]), all + [x])
  {
  }

  ghost predicate Inv(settings: Settings, s: System) {
    && (forall provider :: HealthOk(settings, s, provider))
    && (ClockOk(s.trace) ==>
          AlwaysObeys(settings, s.trace) && forall provider :: DataOk(settings, s, provider))
  }

  lemma ClockOkPrefix(trace: seq<Event>, e: Event)
    requires ClockOk(trace + [e])
    ensures ClockOk(trace) && e.at > 0 && LastTime(trace) <= e.at
  {
    var all := trace + [e];
    assert all[|trace|] == e;
    forall i | 0 <= i < |trace|
      ensures trace[i].at > 0 && trace[i].at <= e.at
    {
      assert all[i].at <= all[|trace|].at;
    }
    forall i, j | 0 <= i < j < |trace|
      ensures trace[i].at <= trace[j].at
    {
      assert all[i].at <= all[j].at;
    }
  }

  /** The report with one event more. */
  function Noted(r: Report, e: Event, provider: string): Report {
    if e.provider != provider then r
    else match e
      case LetThrough(_, _) => r.(trying := true)
      case Skipped(_, _) => r
      case Succeeded(_, at, latency) =>
        r.(failures := 0, latencies := r.latencies + [latency], lastSuccessAt := Some(at), trying := false)
      case Failed(_, at, category) =>
        r.(failures := r.failures + 1, lastFailureAt := at, category := Some(category), trying := false)
  }

  lemma ReportSnoc(trace: seq<Event>, e: Event, provider: string)
    ensures ReportOf(trace + [e], provider) == Noted(ReportOf(trace, provider), e, provider)
  {
    assert (trace + [e])[..|trace|] == trace;
  }

  lemma ObeysSnoc(settings: Settings, trace: seq<Event>, e: Event)
    requires AlwaysObeys(settings, trace)
    requires e.LetThrough? ==> !ShouldSkip(settings, trace, e.provider, e.at)
    requires e.Skipped? ==> ShouldSkip(settings, trace, e.provider, e.at)
    ensures AlwaysObeys(settings, trace + [e])
  {
    var all := trace + [e];
    forall i | 0 <= i < |all|
      ensures Obeys(settings, all, i)
    {
      if i < |trace| {
        assert all[..i] == trace[..i] && Obeys(settings, trace, i);
      } else {
        assert all[..i] == trace;
      }
    }
  }

  /** A check leaves data as they are, but half open where they were open and have recovered. */
  function Checked(settings: Settings, d: Data, now: int): Data {
    if d.state.Open? && Recovered(settings, d, now) then d.(state := HalfOpen) else d
  }

  function CheckEvent(settings: Settings, d: Data, provider: string, now: int): Event {
    if d.state.Open? && !Recovered(settings, d, now) then Skipped(provider, now) else LetThrough(provider, now)
  }

  lemma CheckIs(settings: Settings, s: System, provider: string, now: int, p: string)
    ensures var t := AfterCheck(settings, s, provider, now);
            && t.trace == s.trace + [CheckEvent(settings, Load(s.book, provider), provider, now)]
            && Load(t.book, p) == if p == provider then Checked(settings, Load(s.book, p), now) else Load(s.book, p)
  {
  }

  lemma CheckedFits(settings: Settings, d: Data, r: Report, last: int, now: int, p: string)
    ensures var r' := Noted(r, CheckEvent(settings, d, p, now), p);
            && (HealthFits(settings, d, r) ==> HealthFits(settings, Checked(settings, d, now), r'))
            && (DataFits(settings, d, r, last) && last <= now ==>
                  DataFits(settings, Checked(settings, d, now), r', now))
  {
  }

  lemma CheckIsRight(settings: Settings, s: System, provider: string, now: int)
    requires DataOk(settings, s, provider) && LastTime(s.trace) <= now
    ensures IsOpenAt(settings, s.book, provider, now) <==> ShouldSkip(settings, s.trace, provider, now)
  {
  }

  /** One event more: what the store says fits the new trace if it fits the old report with that event noted. */
  lemma FitsAfter(settings: Settings, s: System, t: System, e: Event, p: string)
    requires t.trace == s.trace + [e]
    ensures HealthOk(settings, t, p) <==> HealthFits(settings, Load(t.book, p), Noted(ReportOf(s.trace, p), e, p))
    ensures DataOk(settings, t, p) <==> DataFits(settings, Load(t.book, p), Noted(ReportOf(s.trace, p), e, p), e.at)
  {
    ReportSnoc(s.trace, e, p);
  }

  /** An event of another provider leaves this one's data fitting. */
  lemma OthersFit(settings: Settings, s: System, t: System, e: Event, p: string)
    requires t.trace == s.trace + [e] && e.provider != p && Load(t.book, p) == Load(s.book, p)
    ensures HealthOk(settings, s, p) ==> HealthOk(settings, t, p)
    ensures DataOk(settings, s, p) && LastTime(s.trace) <= e.at ==> DataOk(settings, t, p)
  {
    FitsAfter(settings, s, t, e, p);
  }

  lemma CheckKeepsFits(settings: Settings, s: System, provider: string, now: int, p: string)
    ensures var t := AfterCheck(settings, s, provider, now);
            && (HealthOk(settings, s, p) ==> HealthOk(settings, t, p))
            && (DataOk(settings, s, p) && LastTime(s.trace) <= now ==> DataOk(settings, t, p))
  {
    var t, e := AfterCheck(settings, s, provider, now), CheckEvent(settings, Load(s.book, provider), provider, now);
    CheckIs(settings, s, provider, now, p);
    if p != provider {
      OthersFit(settings, s, t, e, p);
    } else {
      FitsAfter(settings, s, t, e, p);
      CheckedFits(settings, Load(s.book, p), ReportOf(s.trace, p), LastTime(s.trace), now, p);
    }
  }

  lemma CheckKeepsInv(settings: Settings, s: System, provider: string, now: int)
    requires Inv(settings, s)
    ensures Inv(settings, AfterCheck(settings, s, provider, now))
  {
    var t := AfterCheck(settings, s, provider, now);
    var e := t.trace[|s.trace|];
    forall p
      ensures HealthOk(settings, t, p)
    {
      CheckKeepsFits(settings, s, provider, now, p);
    }
    if ClockOk(t.trace) {
      ClockOkPrefix(s.trace, e);
      assert DataOk(settings, s, provider);
      CheckIsRight(settings, s, provider, now);
      ObeysSnoc(settings, s.trace, e);
      forall p
        ensures DataOk(settings, t, p)
      {
        CheckKeepsFits(settings, s, provider, now, p);
      }
    }
  }

  function Served(d: Data, latency: int, now: int): Data {
    d.(state := Closed, failureCount := 0, successCount := d.successCount + 1, lastSuccessAt := Some(now),
       latencies := Last20(d.latencies + [latency]))
  }

  lemma ServedFits(settings: Settings, d: Data, r: Report, latency: int, now: int, p: string)
    requires settings.threshold >= 1
    ensures var d', r' := Served(d, latency, now), Noted(r, Succeeded(p, now, latency), p);
            (HealthFits(settings, d, r) ==> HealthFits(settings, d', r')) && DataFits(settings, d', r', now)
  {
    if HealthFits(settings, d, r) {
      LatestSnoc(d.latencies, r.latencies, latency);
    }
  }

  lemma SuccessKeepsFits(settings: Settings, s: System, provider: string, latency: int, now: int, p: string)
    requires settings.threshold >= 1
    ensures var t := AfterSuccess(s, provider, latency, now);
            && (HealthOk(settings, s, p) ==> HealthOk(settings, t, p))
            && (DataOk(settings, s, p) && LastTime(s.trace) <= now ==> DataOk(settings, t, p))
  {
    var t, e := AfterSuccess(s, provider, latency, now), Succeeded(provider, now, latency);
    if p != provider {
      OthersFit(settings, s, t, e, p);
    } else {
      FitsAfter(settings, s, t, e, p);
      assert Load(t.book, p) == Served(Load(s.book, p), latency, now);
      ServedFits(settings, Load(s.book, p), ReportOf(s.trace, p), latency, now, p);
    }
  }

  lemma SuccessKeepsInv(settings: Settings, s: System, provider: string, latency: int, now: int)
    requires Inv(settings, s) && settings.threshold >= 1
    ensures Inv(settings, AfterSuccess(s, provider, latency, now))
  {
    var t := AfterSuccess(s, provider, latency, now);
    var e := t.trace[|s.trace|];
    forall p
      ensures HealthOk(settings, t, p)
    {
      SuccessKeepsFits(settings, s, provider, latency, now, p);
    }
    if ClockOk(t.trace) {
      ClockOkPrefix(s.trace, e);
      ObeysSnoc(settings, s.trace, e);
      forall p
        ensures DataOk(settings, t, p)
      {
        SuccessKeepsFits(settings, s, provider, latency, now, p);
      }
    }
  }

  function Tripped(settings: Settings, d: Data, category: Category, now: int): Data {
    var opens := d.failureCount + 1 >= settings.threshold;
    d.(state := if opens then Open else Closed, failureCount := d.failureCount + 1,
       lastFailureCategory := Some(category), openedAt := if opens then Some(now) else d.openedAt)
  }

  lemma TrippedFits(settings: Settings, d: Data, r: Report, last: int, category: Category, now: int, p: string)
    ensures var d', r' := Tripped(settings, d, category, now), Noted(r, Failed(p, now, category), p);
            && (HealthFits(settings, d, r) ==> HealthFits(settings, d', r'))
            && (DataFits(settings, d, r, last) && now > 0 ==> DataFits(settings, d', r', now))
  {
  }

  lemma FailureKeepsFits(settings: Settings, s: System, provider: string, category: Category, now: int, p: string)
    ensures var t := AfterFailure(settings, s, provider, category, now);
            && (HealthOk(settings, s, p) ==> HealthOk(settings, t, p))
            && (DataOk(settings, s, p) && LastTime(s.trace) <= now && now > 0 ==> DataOk(settings, t, p))
  {
    var t, e := AfterFailure(settings, s, provider, category, now), Failed(provider, now, category);
    if p != provider {
      OthersFit(settings, s, t, e, p);
    } else {
      FitsAfter(settings, s, t, e, p);
      assert Load(t.book, p) == Tripped(settings, Load(s.book, p), category, now);
      TrippedFits(settings, Load(s.book, p), ReportOf(s.trace, p), LastTime(s.trace), category, now, p);
    }
  }

  lemma FailureKeepsInv(settings: Settings, s: System, provider: string, category: Category, now: int)
    requires Inv(settings, s)
    ensures Inv(settings, AfterFailure(settings, s, provider, category, now))
  {
    var t := AfterFailure(settings, s, provider, category, now);
    var e := t.trace[|s.trace|];
    forall p
      ensures HealthOk(settings, t, p)
    {
      FailureKeepsFits(settings, s, provider, category, now, p);
    }
    if ClockOk(t.trace) {
      ClockOkPrefix(s.trace, e);
      ObeysSnoc(settings, s.trace, e);
      forall p
        ensures DataOk(settings, t, p)
      {
        FailureKeepsFits(settings, s, provider, category, now, p);
      }
    }
  }
}
