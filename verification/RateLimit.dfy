/**
 The sliding-window rate limiter: the Lua script over one Redis sorted set per key, and
 RateLimiter.check around it. Times are milliseconds since the epoch, on one clock.
 */
module RateLimit {
  import opened Common

  const WINDOW_MS := 60_000

  datatype Category = Auth | Api | Llm | Stream | Upload

  datatype Settings = Settings(enabled: bool, auth: int, api: int, llm: int, stream: int, upload: int)

  datatype Key = Key(category: Category, identity: string)

  /** The member "{ms}-{identity}" of a sorted set. */
  datatype Member = Member(ms: nat, identity: string)

  datatype SortedSet = SortedSet(scores: map<Member, nat>, expiresAt: nat)

  type Store = map<Key, SortedSet>

  datatype Result = Result(allowed: bool, limit: int, remaining: int, retryAfterSeconds: int, resetSeconds: int)

  function LimitFor(settings: Settings, category: Category): int {
    match category
    case Auth => settings.auth
    case Api => settings.api
    case Llm => settings.llm
    case Stream => settings.stream
    case Upload => settings.upload
  }

  function Max(a: int, b: int): int {
    if a < b then b else a
  }

  /** The key's lifetime after an admission: EXPIRE takes whole seconds. */
  function LifetimeMs(window: nat): nat {
    ((window + 999) / 1000 + 1) * 1000
  }

  function WholeSeconds(ms: int): int {
    Max(1, (ms + 999) / 1000)
  }

  /** The scores Redis still holds under a key. */
  function Live(store: Store, key: Key, now: nat): map<Member, nat> {
    if key in store && now < store[key].expiresAt then store[key].scores else map[]
  }

  /** ZREMRANGEBYSCORE from 0 to the bound. */
  function Trim(scores: map<Member, nat>, bound: int): map<Member, nat> {
    map m | m in scores && bound < scores[m] :: scores[m]
  }

  /** The scores of a key once expiry and trimming have been applied. */
  function Held(store: Store, key: Key, now: nat): map<Member, nat> {
    Trim(Live(store, key, now), now - WINDOW_MS)
  }

  /** Expiry and ZREMRANGEBYSCORE; a set that becomes empty takes its key with it. */
  function Swept(store: Store, key: Key, now: nat): Store {
    if Held(store, key, now) == map[] then store - {key}
    else store[key := SortedSet(Held(store, key, now), store[key].expiresAt)]
  }

  /** ZADD of the member for now, and EXPIRE. */
  function Entered(store: Store, key: Key, now: nat): Store {
    store[key := SortedSet(Held(store, key, now)[Member(now, key.identity) := now], now + LifetimeMs(WINDOW_MS))]
  }

  ghost predicate IsOldest(scores: map<Member, nat>, m: Member) {
    m in scores && forall x :: x in scores ==> scores[m] <= scores[x]
  }

  lemma {:induction false} OldestExists(scores: map<Member, nat>)
    requires scores != map[]
    ensures exists m :: IsOldest(scores, m)
    decreases |scores|
  {
    var m :| m in scores;
    var rest := scores - {m};
    if rest == map[] {
      assert scores.Keys == {m} + rest.Keys;
      assert IsOldest(scores, m);
    } else {
      assert |rest| < |scores| by {
        SubsetSize(rest.Keys, scores.Keys);
      }
      OldestExists(rest);
      var n :| IsOldest(rest, n);
      assert scores.Keys == {m} + rest.Keys;
      assert IsOldest(scores, if scores[m] <= scores[n] then m else n);
    }
  }

  /** How long a denied caller is told to wait. */
  ghost function RetryAfterMs(scores: map<Member, nat>, now: nat): int {
    if scores == map[] then WINDOW_MS
    else
      OldestExists(scores);
      var m :| IsOldest(scores, m);
      Max(1, scores[m] + WINDOW_MS - now)
  }

  lemma RetryFromOldest(scores: map<Member, nat>, m: Member, now: nat)
    requires IsOldest(scores, m)
    ensures RetryAfterMs(scores, now) == Max(1, scores[m] + WINDOW_MS - now)
  {
    OldestExists(scores);
    var n :| IsOldest(scores, n) && RetryAfterMs(scores, now) == Max(1, scores[n] + WINDOW_MS - now);
    assert scores[m] == scores[n];
  }

  lemma SweptThenSet(store: Store, key: Key, now: nat, held: SortedSet)
    ensures Swept(store, key, now)[key := held] == store[key := held]
  {
  }

  predicate Admits(settings: Settings, store: Store, key: Key, now: nat) {
    settings.enabled ==> |Held(store, key, now)| < LimitFor(settings, key.category)
  }

  ghost function Answer(settings: Settings, store: Store, key: Key, now: nat): Result {
    var limit := LimitFor(settings, key.category);
    if !settings.enabled then Result(true, limit, limit, 0, 60)
    else if Admits(settings, store, key, now) then
      Result(true, limit, limit - |Held(store, key, now)| - 1, 0, WholeSeconds(WINDOW_MS))
    else
      var wait := WholeSeconds(RetryAfterMs(Held(store, key, now), now));
      Result(false, limit, 0, wait, wait)
  }

  function StoreAfter(settings: Settings, store: Store, key: Key, now: nat): Store {
    if !settings.enabled then store
    else if Admits(settings, store, key, now) then Entered(store, key, now)
    else Swept(store, key, now)
  }

  class RateLimiter {
    const settings: Settings
    var store: Store

    constructor (settings: Settings)
      ensures this.settings == settings && store == map[]
    {
      this.settings := settings;
      store := map[];
    }

    /** Expiry on access, then ZREMRANGEBYSCORE. */
    method Sweep(key: Key, now: nat)
      modifies this
      ensures store == Swept(old(store), key, now)
      ensures (if key in store then store[key].scores else map[]) == Held(old(store), key, now)
    {
      if key in store && store[key].expiresAt <= now {
        store := store - {key};
      }
      if key in store {
        var scores := Trim(store[key].scores, now - WINDOW_MS);
        if scores == map[] {
          store := store - {key};
        } else {
          store := store[key := SortedSet(scores, store[key].expiresAt)];
        }
      }
    }

    /** ZRANGE 0 0 WITHSCORES: the lowest score. */
    method LowestScore(scores: map<Member, nat>) returns (score: nat)
      requires scores != map[]
      ensures exists m :: IsOldest(scores, m) && scores[m] == score
    {
      OldestExists(scores);
      var m :| m in scores && forall x :: x in scores ==> scores[m] <= scores[x];
      assert IsOldest(scores, m);
      score := scores[m];
    }

    /** The script: {1, remaining, window} on admission, {0, 0, retry} otherwise. */
    method RunScript(key: Key, now: nat, limit: int) returns (allowed: bool, remaining: int, ms: int)
      modifies this
      ensures allowed <==> |Held(old(store), key, now)| < limit
      ensures allowed ==> store == Entered(old(store), key, now) &&
                          remaining == limit - |Held(old(store), key, now)| - 1 && ms == WINDOW_MS
      ensures !allowed ==> store == Swept(old(store), key, now) && remaining == 0 &&
                           ms == RetryAfterMs(Held(old(store), key, now), now)
    {
      Sweep(key, now);
      var scores := if key in store then store[key].scores else map[];
      var count := |scores|;
      if count < limit {
        var entry := SortedSet(scores[Member(now, key.identity) := now], now + LifetimeMs(WINDOW_MS));
        SweptThenSet(old(store), key, now, entry);
        store := store[key := entry];
        return true, limit - count - 1, WINDOW_MS;
      }
      ms := WINDOW_MS;
      if scores != map[] {
        var oldest := LowestScore(scores);
        ms := Max(1, oldest + WINDOW_MS - now);
        ghost var m :| IsOldest(scores, m) && scores[m] == oldest;
        RetryFromOldest(scores, m, now);
      }
      return false, 0, ms;
    }

    method Check(category: Category, identity: string, now: nat) returns (r: Result)
      modifies this
      ensures r == Answer(settings, old(store), Key(category, identity), now)
      ensures store == StoreAfter(settings, old(store), Key(category, identity), now)
    {
      var limit := LimitFor(settings, category);
      if !settings.enabled {
        return Result(true, limit, limit, 0, 60);
      }
      var allowed, remaining, ms := RunScript(Key(category, identity), now, limit);
      var retryAfter := Max(1, (ms + 999) / 1000);
      var resetSeconds := Max(1, (ms + 999) / 1000);
      r := Result(allowed, limit, Max(0, remaining), if allowed then 0 else retryAfter, resetSeconds);
    }
  }
}

/** The limiter against a log of admissions that is never trimmed and never expires. */
module RateLimitProofs {
  import opened Common
  import opened RateLimit

  datatype Call = Call(key: Key, now: nat)

  /** An admitted call. */
  type Log = seq<Call>

  ghost predicate Monotone(calls: seq<Call>) {
    forall i, j :: 0 <= i < j < |calls| ==> calls[i].now <= calls[j].now
  }

  datatype Run = Run(store: Store, log: Log)

  ghost function After(settings: Settings, calls: seq<Call>): Run {
    if calls == [] then Run(map[], [])
    else
      var before, call := After(settings, calls[..|calls| - 1]), calls[|calls| - 1];
      Run(StoreAfter(settings, before.store, call.key, call.now),
          if Admits(settings, before.store, call.key, call.now) then before.log + [call] else before.log)
  }

  /** The distinct milliseconds admitted for a key in (from, to]. */
  function Admitted(log: Log, key: Key, from: int, to: int): set<int> {
    set c | c in log && c.key == key && from < c.now <= to :: c.now
  }

  ghost predicate KeyInv(store: Store, log: Log, key: Key, clock: int) {
    && (key in store ==> forall m :: m in store[key].scores ==>
          m == Member(store[key].scores[m], key.identity) && Call(key, store[key].scores[m]) in log)
    && (forall c :: c in log && c.key == key ==>
          c.now <= clock &&
          (c.now <= clock - WINDOW_MS || (key in store && Member(c.now, key.identity) in store[key].scores)) &&
          (key in store ==> c.now + LifetimeMs(WINDOW_MS) <= store[key].expiresAt))
  }

  ghost predicate Inv(store: Store, log: Log, clock: int) {
    forall key :: KeyInv(store, log, key, clock)
  }

  lemma {:induction false} DistinctMembers(members: set<Member>, identity: string)
    requires forall m :: m in members ==> m.identity == identity
    ensures |set m | m in members :: m.ms| == |members|
  {
    if members != {} {
      var m :| m in members;
      DistinctMembers(members - {m}, identity);
      assert (set x | x in members :: x.ms) == (set x | x in members - {m} :: x.ms) + {m.ms};
      forall x | x in members - {m}
        ensures x.ms != m.ms
      {
        assert x != m;
      }
    }
  }

  /** The trimmed, expiring set holds exactly the window of the log. */
  lemma TrimmedIsWindow(store: Store, log: Log, key: Key, clock: int, now: nat)
    requires KeyInv(store, log, key, clock) && clock <= now
    ensures var scores := Held(store, key, now);
            && (set m | m in scores :: scores[m]) == Admitted(log, key, now - WINDOW_MS, now)
            && |scores| == |Admitted(log, key, now - WINDOW_MS, now)|
  {
    var scores := Held(store, key, now);
    var window := Admitted(log, key, now - WINDOW_MS, now);
    forall t | t in window
      ensures t in set m | m in scores :: scores[m]
    {
      var c :| c in log && c.key == key && now - WINDOW_MS < c.now <= now && c.now == t;
      assert Member(c.now, key.identity) in scores;
    }
    assert (set m | m in scores :: scores[m]) == window;
    assert (set m | m in scores :: scores[m]) == (set m | m in scores.Keys :: m.ms);
    DistinctMembers(scores.Keys, key.identity);
  }

  lemma CheckKeepsInv(settings: Settings, store: Store, log: Log, clock: int, call: Call)
    requires Inv(store, log, clock) && clock <= call.now && settings.enabled
    ensures var store' := StoreAfter(settings, store, call.key, call.now);
            var allowed := Admits(settings, store, call.key, call.now);
            Inv(store', if allowed then log + [call] else log, call.now)
  {
    var store' := StoreAfter(settings, store, call.key, call.now);
    var allowed := Admits(settings, store, call.key, call.now);
    var log' := if allowed then log + [call] else log;
    forall key
      ensures KeyInv(store', log', key, call.now)
    {
      assert KeyInv(store, log, key, clock);
      if key == call.key {
        assert call.key in store ==> call.key in store;
        OwnKeyInv(settings, store, log, clock, call);
      }
    }
  }

  lemma OwnKeyInv(settings: Settings, store: Store, log: Log, clock: int, call: Call)
    requires KeyInv(store, log, call.key, clock) && clock <= call.now && settings.enabled
    ensures var store' := StoreAfter(settings, store, call.key, call.now);
            var allowed := Admits(settings, store, call.key, call.now);
            KeyInv(store', if allowed then log + [call] else log, call.key, call.now)
  {
    HeldIsRecent(store, log, call.key, clock, call.now);
    if Admits(settings, store, call.key, call.now) {
      EnteredInv(store, log, call);
    } else {
      SweptInv(store, log, call);
    }
  }

  /** What a key still holds after sweeping: logged entries of the window, and all of them. */
  ghost predicate HoldsRecent(store: Store, log: Log, key: Key, now: nat) {
    var scores := Held(store, key, now);
    && (forall m :: m in scores ==>
          m == Member(scores[m], key.identity) && Call(key, scores[m]) in log && key in store)
    && (forall c :: c in log && c.key == key ==>
          c.now <= now && (c.now <= now - WINDOW_MS || Member(c.now, key.identity) in scores) &&
          (key in store ==> c.now + LifetimeMs(WINDOW_MS) <= store[key].expiresAt))
  }

  lemma HeldIsRecent(store: Store, log: Log, key: Key, clock: int, now: nat)
    requires KeyInv(store, log, key, clock) && clock <= now
    ensures HoldsRecent(store, log, key, now)
  {
  }

  lemma EnteredInv(store: Store, log: Log, call: Call)
    requires HoldsRecent(store, log, call.key, call.now)
    ensures KeyInv(Entered(store, call.key, call.now), log + [call], call.key, call.now)
  {
    var scores := Entered(store, call.key, call.now)[call.key].scores;
    forall m | m in scores
      ensures m == Member(scores[m], call.key.identity) && Call(call.key, scores[m]) in log + [call]
    {
      if m == Member(call.now, call.key.identity) {
        assert (log + [call])[|log|] == Call(call.key, scores[m]);
      }
    }
  }

  lemma SweptInv(store: Store, log: Log, call: Call)
    requires HoldsRecent(store, log, call.key, call.now)
    ensures KeyInv(Swept(store, call.key, call.now), log, call.key, call.now)
  {
  }

  lemma {:induction false} RunInv(settings: Settings, calls: seq<Call>, clock: int)
    requires settings.enabled && Monotone(calls)
    requires forall c :: c in calls ==> c.now <= clock
    ensures Inv(After(settings, calls).store, After(settings, calls).log, clock)
    decreases |calls|
  {
    if calls != [] {
      var init, call := calls[..|calls| - 1], calls[|calls| - 1];
      RunInv(settings, init, call.now);
      var before := After(settings, init);
      CheckKeepsInv(settings, before.store, before.log, call.now, call);
      var after := After(settings, calls);
      forall key
        ensures KeyInv(after.store, after.log, key, clock)
      {
        assert KeyInv(after.store, after.log, key, call.now);
      }
    }
  }

  ghost function Decision(settings: Settings, calls: seq<Call>, call: Call): Result {
    Answer(settings, After(settings, calls).store, call.key, call.now)
  }

  /** The limiter's two answers, read off the log. */
  lemma AnswerFromLog(settings: Settings, store: Store, log: Log, call: Call)
    requires settings.enabled && KeyInv(store, log, call.key, call.now)
    ensures var window := Admitted(log, call.key, call.now - WINDOW_MS, call.now);
            var limit := LimitFor(settings, call.key.category);
            var r := Answer(settings, store, call.key, call.now);
            && r.allowed == Admits(settings, store, call.key, call.now)
            && (r.allowed <==> |window| < limit)
            && r.limit == limit
            && (r.allowed ==> r.remaining == limit - |window| - 1 && r.retryAfterSeconds == 0 && r.resetSeconds == 60)
            && (!r.allowed ==> r.remaining == 0 && r.resetSeconds == r.retryAfterSeconds)
  {
    TrimmedIsWindow(store, log, call.key, call.now, call.now);
  }

  lemma AdmitsFromLog(settings: Settings, store: Store, log: Log, call: Call)
    requires settings.enabled && KeyInv(store, log, call.key, call.now)
    ensures Admits(settings, store, call.key, call.now) <==>
              |Admitted(log, call.key, call.now - WINDOW_MS, call.now)| < LimitFor(settings, call.key.category)
  {
    TrimmedIsWindow(store, log, call.key, call.now, call.now);
  }

  lemma KeyInvAtCall(settings: Settings, calls: seq<Call>, call: Call)
    requires settings.enabled && Monotone(calls + [call])
    ensures KeyInv(After(settings, calls).store, After(settings, calls).log, call.key, call.now)
  {
    MonotonePrefix(calls, call);
    RunInv(settings, calls, call.now);
  }

  lemma AdmitsAsFullLog(settings: Settings, calls: seq<Call>, call: Call)
    requires settings.enabled && Monotone(calls + [call])
    ensures Admits(settings, After(settings, calls).store, call.key, call.now) <==>
              |Admitted(After(settings, calls).log, call.key, call.now - WINDOW_MS, call.now)|
                < LimitFor(settings, call.key.category)
  {
    KeyInvAtCall(settings, calls, call);
    AdmitsFromLog(settings, After(settings, calls).store, After(settings, calls).log, call);
  }

  /** Refinement: after any run, the next call is admitted exactly when the full log has room for it. */
  lemma DecidesAsFullLog(settings: Settings, calls: seq<Call>, call: Call)
    requires settings.enabled && Monotone(calls + [call])
    ensures var window := Admitted(After(settings, calls).log, call.key, call.now - WINDOW_MS, call.now);
            var limit := LimitFor(settings, call.key.category);
            var r := Decision(settings, calls, call);
            && r.allowed == Admits(settings, After(settings, calls).store, call.key, call.now)
            && (r.allowed <==> |window| < limit)
            && r.limit == limit
            && (r.allowed ==> r.remaining == limit - |window| - 1 && r.retryAfterSeconds == 0 && r.resetSeconds == 60)
            && (!r.allowed ==> r.remaining == 0 && r.resetSeconds == r.retryAfterSeconds)
  {
    KeyInvAtCall(settings, calls, call);
    var run := After(settings, calls);
    AnswerFromLog(settings, run.store, run.log, call);
  }

  lemma MonotoneInit(calls: seq<Call>, call: Call)
    requires Monotone(calls + [call])
    ensures Monotone(calls)
  {
    var all := calls + [call];
    assert forall i :: 0 <= i < |calls| ==> all[i] == calls[i];
  }

  lemma MonotonePrefix(calls: seq<Call>, call: Call)
    requires Monotone(calls + [call])
    ensures Monotone(calls) && forall c :: c in calls ==> c.now <= call.now
  {
    MonotoneInit(calls, call);
    var all := calls + [call];
    forall c | c in calls
      ensures c.now <= call.now
    {
      var i :| 0 <= i < |calls| && calls[i] == c;
      assert all[i].now <= all[|calls|].now;
    }
  }

  /** Everything admitted by a run happened before any later call. */
  lemma LogNotAfter(settings: Settings, calls: seq<Call>, clock: int, key: Key)
    requires settings.enabled && Monotone(calls)
    requires forall c :: c in calls ==> c.now <= clock
    ensures forall c :: c in After(settings, calls).log && c.key == key ==> c.now <= clock
  {
    RunInv(settings, calls, clock);
    assert KeyInv(After(settings, calls).store, After(settings, calls).log, key, clock);
  }

  lemma AdmittedSnoc(init: Log, c: Call, key: Key, from: int, to: int)
    ensures Admitted(init + [c], key, from, to)
         == if c.key == key && from < c.now <= to then Admitted(init, key, from, to) + {c.now}
            else Admitted(init, key, from, to)
  {
  }

  /** What is left of a window when the bound moves up. */
  function Since(window: set<int>, bound: int): set<int> {
    set t | t in window && bound < t
  }

  /** Windows that end no earlier than everything logged slide forward by dropping what is too old. */
  lemma WindowSlides(log: Log, key: Key, now: int, later: int)
    requires now <= later && forall c :: c in log && c.key == key ==> c.now <= now
    ensures Admitted(log, key, later - WINDOW_MS, later)
         == Since(Admitted(log, key, now - WINDOW_MS, now), later - WINDOW_MS)
  {
  }

  /** The window an admission falls into had room at that moment. */
  lemma AdmissionHasRoom(settings: Settings, calls: seq<Call>, call: Call, to: int)
    requires settings.enabled && Monotone(calls + [call]) && call.now <= to
    requires Admits(settings, After(settings, calls).store, call.key, call.now)
    ensures |Admitted(After(settings, calls).log + [call], call.key, to - WINDOW_MS, to)|
              <= LimitFor(settings, call.key.category)
  {
    MonotonePrefix(calls, call);
    AdmitsAsFullLog(settings, calls, call);
    LogNotAfter(settings, calls, call.now, call.key);
    var log := After(settings, calls).log;
    var room := Admitted(log, call.key, call.now - WINDOW_MS, call.now);
    var window := Admitted(log + [call], call.key, to - WINDOW_MS, to);
    AdmittedSnoc(log, call, call.key, to - WINDOW_MS, to);
    assert window <= room + {call.now};
    SubsetSize(window, room + {call.now});
  }

  lemma LogAfter(settings: Settings, calls: seq<Call>, call: Call)
    ensures After(settings, calls + [call]).log
         == if Admits(settings, After(settings, calls).store, call.key, call.now)
            then After(settings, calls).log + [call] else After(settings, calls).log
  {
    assert (calls + [call])[..|calls|] == calls;
  }

  lemma CallKeepsWindow(settings: Settings, calls: seq<Call>, call: Call, key: Key, to: int)
    requires settings.enabled && Monotone(calls + [call])
    requires |Admitted(After(settings, calls).log, key, to - WINDOW_MS, to)| <= Max(0, LimitFor(settings, key.category))
    ensures |Admitted(After(settings, calls + [call]).log, key, to - WINDOW_MS, to)|
              <= Max(0, LimitFor(settings, key.category))
  {
    LogAfter(settings, calls, call);
    if call.key == key && call.now <= to && Admits(settings, After(settings, calls).store, key, call.now) {
      AdmissionHasRoom(settings, calls, call, to);
    } else {
      AdmittedSnoc(After(settings, calls).log, call, key, to - WINDOW_MS, to);
    }
  }

  /** Safety over whole runs: no window, wherever it ends, holds more than limit admitted milliseconds. */
  lemma {:induction false} EveryWindowWithinLimit(settings: Settings, calls: seq<Call>, key: Key, to: int)
    requires settings.enabled && Monotone(calls)
    ensures |Admitted(After(settings, calls).log, key, to - WINDOW_MS, to)| <= Max(0, LimitFor(settings, key.category))
    decreases |calls|
  {
    if calls == [] {
      assert Admitted([], key, to - WINDOW_MS, to) == {};
    } else {
      var init, call := calls[..|calls| - 1], calls[|calls| - 1];
      assert calls == init + [call];
      MonotoneInit(init, call);
      EveryWindowWithinLimit(settings, init, key, to);
      CallKeepsWindow(settings, init, call, key, to);
    }
  }

  /** What a limit is worth: calls per minute decide admission, and no minute ever holds more of them. */
  ghost predicate IsPerMinute(settings: Settings, calls: seq<Call>, call: Call, to: int, limit: int) {
    var log, r := After(settings, calls).log, Decision(settings, calls, call);
    && r.limit == limit
    && (r.allowed <==> |Admitted(log, call.key, call.now - 60_000, call.now)| < limit)
    && |Admitted(log, call.key, to - 60_000, to)| <= if limit < 0 then 0 else limit
  }

  /** Each category has its own setting. */
  lemma CategoriesHaveTheirSettings(settings: Settings, calls: seq<Call>, call: Call, to: int)
    requires settings.enabled && Monotone(calls + [call])
    ensures call.key.category == Auth ==> IsPerMinute(settings, calls, call, to, settings.auth)
    ensures call.key.category == Api ==> IsPerMinute(settings, calls, call, to, settings.api)
    ensures call.key.category == Llm ==> IsPerMinute(settings, calls, call, to, settings.llm)
    ensures call.key.category == Stream ==> IsPerMinute(settings, calls, call, to, settings.stream)
    ensures call.key.category == Upload ==> IsPerMinute(settings, calls, call, to, settings.upload)
  {
    DecidesAsFullLog(settings, calls, call);
    MonotoneInit(calls, call);
    EveryWindowWithinLimit(settings, calls, call.key, to);
  }

  /** A limiter that is switched off admits every call of every run and never touches the store. */
  lemma {:induction false} DisabledAdmitsAll(settings: Settings, calls: seq<Call>, call: Call)
    requires !settings.enabled
    ensures After(settings, calls) == Run(map[], calls)
    ensures var r := Decision(settings, calls, call);
            r == Result(true, LimitFor(settings, call.key.category), LimitFor(settings, call.key.category), 0, 60)
    decreases |calls|
  {
    if calls != [] {
      var init, last := calls[..|calls| - 1], calls[|calls| - 1];
      assert calls == init + [last];
      DisabledAdmitsAll(settings, init, last);
    }
  }

  lemma RetryFromLog(settings: Settings, store: Store, log: Log, call: Call) returns (oldest: int)
    requires settings.enabled && LimitFor(settings, call.key.category) >= 1
    requires KeyInv(store, log, call.key, call.now) && !Admits(settings, store, call.key, call.now)
    ensures var window := Admitted(log, call.key, call.now - WINDOW_MS, call.now);
            oldest in window && forall t :: t in window ==> oldest <= t
    ensures Answer(settings, store, call.key, call.now).retryAfterSeconds
         == (oldest + WINDOW_MS - call.now + 999) / 1000
  {
    TrimmedIsWindow(store, log, call.key, call.now, call.now);
    var scores := Held(store, call.key, call.now);
    OldestExists(scores);
    var m :| IsOldest(scores, m);
    RetryFromOldest(scores, m, call.now);
    oldest := scores[m];
    assert oldest in set x | x in scores :: scores[x];
  }

  lemma KeyInvLater(store: Store, log: Log, key: Key, clock: int, later: int)
    requires KeyInv(store, log, key, clock) && clock <= later
    ensures KeyInv(store, log, key, later)
  {
  }

  /** After a denial the same call is decided by what is then left of the window that was denied. */
  lemma DecisionAfterDenial(settings: Settings, store: Store, log: Log, call: Call, later: nat)
    requires settings.enabled && KeyInv(store, log, call.key, call.now) && call.now <= later
    requires !Admits(settings, store, call.key, call.now)
    ensures var window := Admitted(log, call.key, call.now - WINDOW_MS, call.now);
            Admits(settings, StoreAfter(settings, store, call.key, call.now), call.key, later) <==>
              |Since(window, later - WINDOW_MS)| < LimitFor(settings, call.key.category)
  {
    var swept := StoreAfter(settings, store, call.key, call.now);
    OwnKeyInv(settings, store, log, call.now, call);
    KeyInvLater(swept, log, call.key, call.now, later);
    AdmitsFromLog(settings, swept, log, Call(call.key, later));
    WindowSlides(log, call.key, call.now, later);
  }

  /** A denial finds its window full. */
  lemma DeniedByFullWindow(settings: Settings, store: Store, log: Log, call: Call)
    requires settings.enabled && KeyInv(store, log, call.key, call.now) && !Admits(settings, store, call.key, call.now)
    requires |Admitted(log, call.key, call.now - WINDOW_MS, call.now)| <= Max(0, LimitFor(settings, call.key.category))
    ensures |Admitted(log, call.key, call.now - WINDOW_MS, call.now)| == Max(0, LimitFor(settings, call.key.category))
  {
    AdmitsFromLog(settings, store, log, call);
  }

  /** The oldest entry of a denied call's window decides when the call is admitted, and is what the caller is told. */
  lemma RetryWithRoom(settings: Settings, store: Store, log: Log, call: Call, seconds: nat)
    requires settings.enabled && KeyInv(store, log, call.key, call.now) && !Admits(settings, store, call.key, call.now)
    requires LimitFor(settings, call.key.category) >= 1
    ensures var window := Admitted(log, call.key, call.now - WINDOW_MS, call.now);
            var retry := Answer(settings, store, call.key, call.now).retryAfterSeconds;
            && 1 <= retry <= 60
            && (|Since(window, call.now + 1000 * seconds - WINDOW_MS)| < |window| <==> seconds >= retry)
  {
    var window := Admitted(log, call.key, call.now - WINDOW_MS, call.now);
    var oldest := RetryFromLog(settings, store, log, call);
    OldestLeavesFirst(window, oldest, call.now + 1000 * seconds - WINDOW_MS);
    LeastSecond(oldest, call.now, seconds);
  }

  lemma RetryIsLeast(settings: Settings, store: Store, log: Log, call: Call, seconds: nat)
    requires settings.enabled && KeyInv(store, log, call.key, call.now) && !Admits(settings, store, call.key, call.now)
    requires |Admitted(log, call.key, call.now - WINDOW_MS, call.now)| <= Max(0, LimitFor(settings, call.key.category))
    ensures var limit := LimitFor(settings, call.key.category);
            var retry := Answer(settings, store, call.key, call.now).retryAfterSeconds;
            var denied := StoreAfter(settings, store, call.key, call.now);
            && (limit >= 1 ==> 1 <= retry <= 60)
            && (Admits(settings, denied, call.key, call.now + 1000 * seconds) <==> limit >= 1 && seconds >= retry)
  {
    DecisionAfterDenial(settings, store, log, call, call.now + 1000 * seconds);
    DeniedByFullWindow(settings, store, log, call);
    if LimitFor(settings, call.key.category) >= 1 {
      RetryWithRoom(settings, store, log, call, seconds);
    }
  }

  lemma LeastSecond(oldest: int, now: int, seconds: nat)
    requires now - WINDOW_MS < oldest <= now
    ensures var retry := (oldest + WINDOW_MS - now + 999) / 1000;
            1 <= retry <= 60 && (oldest <= now + 1000 * seconds - WINDOW_MS <==> seconds >= retry)
  {
  }

  lemma StoreAfterCall(settings: Settings, calls: seq<Call>, call: Call)
    ensures After(settings, calls + [call]).store
         == StoreAfter(settings, After(settings, calls).store, call.key, call.now)
  {
    assert (calls + [call])[..|calls|] == calls;
  }

  /** A denied caller is told the least whole number of seconds after which the same call is admitted. */
  lemma RetryAfterIsLeast(settings: Settings, calls: seq<Call>, call: Call, seconds: nat)
    requires settings.enabled && Monotone(calls + [call])
    requires !Admits(settings, After(settings, calls).store, call.key, call.now)
    ensures LimitFor(settings, call.key.category) >= 1 ==>
              1 <= Decision(settings, calls, call).retryAfterSeconds <= 60
    ensures var later := call.now + 1000 * seconds;
            Admits(settings, After(settings, calls + [call]).store, call.key, later) <==>
              LimitFor(settings, call.key.category) >= 1 &&
              seconds >= Decision(settings, calls, call).retryAfterSeconds
  {
    KeyInvAtCall(settings, calls, call);
    MonotoneInit(calls, call);
    EveryWindowWithinLimit(settings, calls, call.key, call.now);
    StoreAfterCall(settings, calls, call);
    RetryIsLeast(settings, After(settings, calls).store, After(settings, calls).log, call, seconds);
  }

  /** A window that slides forward loses something exactly when it loses its oldest entry. */
  lemma OldestLeavesFirst(window: set<int>, oldest: int, bound: int)
    requires oldest in window && forall t :: t in window ==> oldest <= t
    ensures |Since(window, bound)| < |window| <==> oldest <= bound
  {
    SubsetSize(Since(window, bound), window);
    if bound < oldest {
      assert Since(window, bound) == window;
    } else {
      assert oldest !in Since(window, bound);
    }
  }

  // ----- calls, not milliseconds -----

  /** The admitted calls of a key in (from, to], repetitions counted. */
  function AdmittedCalls(log: Log, key: Key, from: int, to: int): nat {
    if log == [] then 0
    else
      var c := log[|log| - 1];
      AdmittedCalls(log[..|log| - 1], key, from, to) + if c.key == key && from < c.now <= to then 1 else 0
  }

  ghost predicate DistinctTimes(log: Log, key: Key, from: int, to: int) {
    forall i, j :: 0 <= i < j < |log| && log[i].key == key && log[j].key == key && from < log[i].now <= to ==>
      log[i].now != log[j].now
  }

  lemma DistinctTimesSnoc(init: Log, c: Call, key: Key, from: int, to: int)
    ensures DistinctTimes(init + [c], key, from, to) <==>
              DistinctTimes(init, key, from, to) &&
              (c.key == key ==> c.now !in Admitted(init, key, from, to))
  {
    var log := init + [c];
    assert forall i :: 0 <= i < |init| ==> init[i] == log[i];
    if c.key == key && c.now in Admitted(init, key, from, to) {
      var d :| d in init && d.key == key && from < d.now <= to && d.now == c.now;
      var i :| 0 <= i < |init| && init[i] == d;
      assert log[i].now == log[|init|].now;
    }
    if DistinctTimes(log, key, from, to) {
      forall i, j | 0 <= i < j < |init| && init[i].key == key && init[j].key == key && from < init[i].now <= to
        ensures init[i].now != init[j].now
      {
        assert log[i].now != log[j].now;
      }
    }
  }

  lemma AdmittedCallsSnoc(init: Log, c: Call, key: Key, from: int, to: int)
    ensures AdmittedCalls(init + [c], key, from, to)
         == AdmittedCalls(init, key, from, to) + if c.key == key && from < c.now <= to then 1 else 0
  {
    assert (init + [c])[..|init|] == init;
  }

  lemma OneMore(times: set<int>, time: int)
    ensures |times + {time}| == |times| + if time in times then 0 else 1
  {
    if time in times {
      assert times + {time} == times;
    }
  }

  /** A log has as many calls as milliseconds in a stretch of time exactly when no two of them share one. */
  lemma {:induction false} CallsAreMilliseconds(log: Log, key: Key, from: int, to: int)
    ensures AdmittedCalls(log, key, from, to) >= |Admitted(log, key, from, to)|
    ensures AdmittedCalls(log, key, from, to) == |Admitted(log, key, from, to)| <==> DistinctTimes(log, key, from, to)
  {
    if log == [] {
      assert Admitted(log, key, from, to) == {};
    } else {
      var init, c := log[..|log| - 1], log[|log| - 1];
      assert log == init + [c];
      CallsAreMilliseconds(init, key, from, to);
      AdmittedSnoc(init, c, key, from, to);
      AdmittedCallsSnoc(init, c, key, from, to);
      DistinctTimesSnoc(init, c, key, from, to);
      OneMore(Admitted(init, key, from, to), c.now);
    }
  }

  lemma RepeatedCallIsOneMillisecond(calls: seq<Call>, call: Call, from: int, to: int)
    requires forall i :: 0 <= i < |calls| ==> calls[i] == call
    ensures |Admitted(calls, call.key, from, to)| <= 1
  {
    assert Admitted(calls, call.key, from, to) <= {call.now};
    SubsetSize(Admitted(calls, call.key, from, to), {call.now});
  }

  /** Calls in one millisecond: a limit of two or more never stops them. */
  lemma {:induction false} SharedMillisecondIsUnlimited(settings: Settings, calls: seq<Call>, call: Call)
    requires settings.enabled && LimitFor(settings, call.key.category) >= 2
    requires forall i :: 0 <= i < |calls| ==> calls[i] == call
    ensures After(settings, calls).log == calls
    ensures Admits(settings, After(settings, calls).store, call.key, call.now)
    decreases |calls|
  {
    if calls != [] {
      var init := calls[..|calls| - 1];
      SharedMillisecondIsUnlimited(settings, init, call);
      assert calls == init + [call];
      LogAfter(settings, init, call);
    }
    assert After(settings, calls).log == calls;
    NextIsAdmittedToo(settings, calls, call);
  }

  lemma NextIsAdmittedToo(settings: Settings, calls: seq<Call>, call: Call)
    requires settings.enabled && LimitFor(settings, call.key.category) >= 2
    requires (forall i :: 0 <= i < |calls| ==> calls[i] == call) && After(settings, calls).log == calls
    ensures Admits(settings, After(settings, calls).store, call.key, call.now)
  {
    AdmitsAsFullLog(settings, calls, call);
    RepeatedCallIsOneMillisecond(calls, call, call.now - WINDOW_MS, call.now);
  }

  lemma {:induction false} LogIsOfCalls(settings: Settings, calls: seq<Call>)
    ensures forall c :: c in After(settings, calls).log ==> c in calls
    decreases |calls|
  {
    if calls != [] {
      LogIsOfCalls(settings, calls[..|calls| - 1]);
    }
  }

  /** No two calls of the key come at the same time. */
  ghost predicate CallsDistinct(calls: seq<Call>, key: Key) {
    forall i, j :: 0 <= i < j < |calls| && calls[i].key == key && calls[j].key == key ==> calls[i].now != calls[j].now
  }

  /** The next call, if it is one of the key's and admitted, does not share its millisecond with an earlier one. */
  ghost predicate AdmittedAlone(settings: Settings, calls: seq<Call>, call: Call, key: Key) {
    call.key == key && Admits(settings, After(settings, calls).store, key, call.now) ==>
      forall c :: c in After(settings, calls).log && c.key == key ==> c.now != call.now
  }

  /** When every admission is alone in its millisecond, the bound on milliseconds is a bound on calls. */
  lemma {:induction false} AloneMeansDistinct(settings: Settings, calls: seq<Call>, key: Key, from: int, to: int)
    requires forall n :: 0 <= n < |calls| ==> AdmittedAlone(settings, calls[..n], calls[n], key)
    ensures DistinctTimes(After(settings, calls).log, key, from, to)
    decreases |calls|
  {
    if calls != [] {
      var init, call := calls[..|calls| - 1], calls[|calls| - 1];
      forall n | 0 <= n < |init|
        ensures AdmittedAlone(settings, init[..n], init[n], key)
      {
        assert init[..n] == calls[..n];
      }
      AloneMeansDistinct(settings, init, key, from, to);
      assert AdmittedAlone(settings, calls[..|init|], calls[|init|], key);
      if Admits(settings, After(settings, init).store, call.key, call.now) {
        DistinctTimesSnoc(After(settings, init).log, call, key, from, to);
      }
    }
  }

  /** The window that ends at this time holds no more admitted calls of the key than its limit. */
  ghost predicate WithinLimit(settings: Settings, calls: seq<Call>, key: Key, to: int) {
    AdmittedCalls(After(settings, calls).log, key, to - WINDOW_MS, to) <= Max(0, LimitFor(settings, key.category))
  }

  lemma AloneIsBounded(settings: Settings, calls: seq<Call>, key: Key, to: int)
    requires settings.enabled && Monotone(calls)
    requires forall n :: 0 <= n < |calls| ==> AdmittedAlone(settings, calls[..n], calls[n], key)
    ensures WithinLimit(settings, calls, key, to)
  {
    AloneMeansDistinct(settings, calls, key, to - WINDOW_MS, to);
    CallsAreMilliseconds(After(settings, calls).log, key, to - WINDOW_MS, to);
    EveryWindowWithinLimit(settings, calls, key, to);
  }

  /** Calls of a key at pairwise distinct times never exceed the limit in any window. */
  lemma DistinctCallsAreBounded(settings: Settings, calls: seq<Call>, key: Key, to: int)
    requires settings.enabled && Monotone(calls) && CallsDistinct(calls, key)
    ensures WithinLimit(settings, calls, key, to)
  {
    forall n | 0 <= n < |calls|
      ensures AdmittedAlone(settings, calls[..n], calls[n], key)
    {
      LogIsOfCalls(settings, calls[..n]);
      forall c | c in After(settings, calls[..n]).log && c.key == key && calls[n].key == key
        ensures c.now != calls[n].now
      {
        var i :| 0 <= i < n && calls[..n][i] == c;
        assert calls[i] == c;
      }
    }
    AloneIsBounded(settings, calls, key, to);
  }

  /** With a limit of one, an admission finds its own window empty. */
  lemma LimitOneAdmitsAlone(settings: Settings, calls: seq<Call>, call: Call, key: Key)
    requires settings.enabled && Monotone(calls + [call]) && LimitFor(settings, key.category) <= 1
    ensures AdmittedAlone(settings, calls, call, key)
  {
    if call.key == key && Admits(settings, After(settings, calls).store, key, call.now) {
      AdmitsAsFullLog(settings, calls, call);
      var window := Admitted(After(settings, calls).log, key, call.now - WINDOW_MS, call.now);
      assert window == {};
      forall c | c in After(settings, calls).log && c.key == key
        ensures c.now != call.now
      {
        assert c.now !in window;
      }
    }
  }

  lemma MonotonePrefixes(calls: seq<Call>, n: nat)
    requires Monotone(calls) && n < |calls|
    ensures Monotone(calls[..n] + [calls[n]])
  {
    assert calls[..n] + [calls[n]] == calls[..n + 1];
  }

  lemma {:induction false} RepeatedCallCounts(calls: seq<Call>, call: Call)
    requires forall i :: 0 <= i < |calls| ==> calls[i] == call
    ensures AdmittedCalls(calls, call.key, call.now - WINDOW_MS, call.now) == |calls|
  {
    if calls != [] {
      RepeatedCallCounts(calls[..|calls| - 1], call);
    }
  }

  /** No window of any run holds more admitted calls of the key than its limit. */
  ghost predicate BoundsCalls(settings: Settings, key: Key) {
    forall calls, to: int :: Monotone(calls) ==> WithinLimit(settings, calls, key, to)
  }

  /** The limiter bounds calls, and not just milliseconds, exactly when its limit is at most one. */
  lemma BoundsCallsIff(settings: Settings, key: Key)
    requires settings.enabled
    ensures BoundsCalls(settings, key) <==> LimitFor(settings, key.category) <= 1
  {
    var limit := LimitFor(settings, key.category);
    if limit <= 1 {
      forall calls, to: int | Monotone(calls)
        ensures WithinLimit(settings, calls, key, to)
      {
        forall n | 0 <= n < |calls|
          ensures AdmittedAlone(settings, calls[..n], calls[n], key)
        {
          MonotonePrefixes(calls, n);
          LimitOneAdmitsAlone(settings, calls[..n], calls[n], key);
        }
        AloneIsBounded(settings, calls, key, to);
      }
    } else {
      var call := Call(key, 0);
      var calls := seq(limit + 1, _ => call);
      SharedMillisecondIsUnlimited(settings, calls, call);
      RepeatedCallCounts(calls, call);
      assert !WithinLimit(settings, calls, key, call.now);
    }
  }
}
