/** Provider chains and the routing loop of ProviderManagementService, driving the circuit breaker. */
module ProviderRouting {
  import opened Common
  import opened CircuitBreaker

  type OrgId = nat

  datatype Config = Config(enabled: bool, maxOutputTokens: nat)

  datatype Policy = Policy(primary: string, fallbacks: seq<string>)

  /** Provider configurations and policies; None is the platform's row. */
  datatype Tables = Tables(configs: map<(string, Option<OrgId>), Config>,
                           policies: map<(string, Option<OrgId>), Policy>)

  datatype Resolution =
    | Chain(links: seq<(string, Option<Config>)>)
    | DisabledForOrganization
    | Unsupported

  function Find<K, V>(table: map<K, V>, key: K): Option<V> {
    if key in table then Some(table[key]) else None
  }

  // ----- resolving a chain -----

  /** Each name at its first occurrence only. */
  function Distinct(names: seq<string>): seq<string> {
    if names == [] then []
    else
      var before, last := Distinct(names[..|names| - 1]), names[|names| - 1];
      if last in before then before else before + [last]
  }

  function OrgConfig(t: Tables, org: Option<OrgId>, name: string): Option<Config> {
    if org.Some? then Find(t.configs, (name, org)) else None
  }

  /** Not empty, and not switched off by the organization or by the platform. */
  predicate Usable(t: Tables, org: Option<OrgId>, name: string) {
    && name != ""
    && (OrgConfig(t, org, name).Some? ==> OrgConfig(t, org, name).value.enabled)
    && ((name, None) in t.configs ==> t.configs[(name, None)].enabled)
  }

  function ConfigFor(t: Tables, org: Option<OrgId>, name: string): Option<Config> {
    if OrgConfig(t, org, name).Some? then OrgConfig(t, org, name) else Find(t.configs, (name, None))
  }

  function UsableOnly(t: Tables, org: Option<OrgId>, names: seq<string>): seq<string> {
    if names == [] then []
    else
      var before, last := UsableOnly(t, org, names[..|names| - 1]), names[|names| - 1];
      if Usable(t, org, last) then before + [last] else before
  }

  function WithConfigs(t: Tables, org: Option<OrgId>, names: seq<string>): seq<(string, Option<Config>)> {
    seq(|names|, i requires 0 <= i < |names| => (names[i], ConfigFor(t, org, names[i])))
  }

  function Normalized(normalize: string -> string, names: seq<string>): seq<string> {
    seq(|names|, i requires 0 <= i < |names| => normalize(names[i]))
  }

  function PolicyFor(t: Tables, org: Option<OrgId>, operation: string): Option<Policy> {
    if org.Some? && (operation, org) in t.policies then Some(t.policies[(operation, org)])
    else Find(t.policies, (operation, None))
  }

  /** The chain a policy stands for. */
  function PolicyChain(t: Tables, org: Option<OrgId>, policy: Policy, normalize: string -> string,
                       default: string): seq<(string, Option<Config>)> {
    var names := UsableOnly(t, org, Distinct(Normalized(normalize, [policy.primary] + policy.fallbacks)));
    if names == [] then [(default, None)] else WithConfigs(t, org, names)
  }

  /** The single link for a provider the caller names. */
  function ExplicitChain(t: Tables, org: Option<OrgId>, name: string, supported: set<string>): Resolution {
    var own, platform := OrgConfig(t, org, name), Find(t.configs, (name, None));
    if own.Some? then (if own.value.enabled then Chain([(name, own)]) else DisabledForOrganization)
    else if (platform.Some? && platform.value.enabled) || name in supported then Chain([(name, platform)])
    else Unsupported
  }

  /** There is a row for this organization. */
  predicate HasOwn<V>(table: map<(string, Option<OrgId>), V>, key: string, org: Option<OrgId>) {
    org.Some? && (key, org) in table
  }

  /** A row that switches the provider off. */
  predicate IsOff(t: Tables, name: string, org: Option<OrgId>) {
    (name, org) in t.configs && !t.configs[(name, org)].enabled
  }

  /** What a chain says about one of its providers: the organization's row if there is one, else the platform's. */
  ghost predicate OwnRowFirst(t: Tables, org: Option<OrgId>, link: (string, Option<Config>)) {
    && (HasOwn(t.configs, link.0, org) ==> link.1 == Some(t.configs[(link.0, org)]))
    && (!HasOwn(t.configs, link.0, org) && (link.0, None) in t.configs ==> link.1 == Some(t.configs[(link.0, None)]))
    && (!HasOwn(t.configs, link.0, org) && (link.0, None) !in t.configs ==> link.1 == None)
  }

  /** A named provider is refused exactly when the organization has switched it off, or nobody knows it. */
  ghost predicate IsNamedChain(t: Tables, org: Option<OrgId>, name: string, supported: set<string>, r: Resolution) {
    && (r.DisabledForOrganization? <==> org.Some? && IsOff(t, name, org))
    && (r.Unsupported? <==>
          !HasOwn(t.configs, name, org) && name !in supported && ((name, None) !in t.configs || IsOff(t, name, None)))
    && (r.Chain? ==> |r.links| == 1 && r.links[0].0 == name && OwnRowFirst(t, org, r.links[0]))
  }

  /** normalize is lower().strip(); default is the configured provider in lower case. */
  function ProviderChain(t: Tables, operation: string, org: Option<OrgId>, explicitProvider: string,
                         normalize: string -> string, supported: set<string>, default: string): Resolution
  {
    if explicitProvider != "" then ExplicitChain(t, org, normalize(explicitProvider), supported)
    else match PolicyFor(t, org, operation)
      case None => Chain([(default, None)])
      case Some(policy) => Chain(PolicyChain(t, org, policy, normalize, default))
  }

  method ResolveProviderChain(t: Tables, operation: string, org: Option<OrgId>, explicitProvider: string,
                              normalize: string -> string, supported: set<string>, default: string)
    returns (r: Resolution)
    ensures r == ProviderChain(t, operation, org, explicitProvider, normalize, supported, default)
    ensures explicitProvider != "" ==> IsNamedChain(t, org, normalize(explicitProvider), supported, r)
    ensures explicitProvider == "" && HasOwn(t.policies, operation, org) ==>
              r == Chain(PolicyChain(t, org, t.policies[(operation, org)], normalize, default))
    ensures explicitProvider == "" && !HasOwn(t.policies, operation, org) && (operation, None) in t.policies ==>
              r == Chain(PolicyChain(t, org, t.policies[(operation, None)], normalize, default))
    ensures explicitProvider == "" && !HasOwn(t.policies, operation, org) && (operation, None) !in t.policies ==>
              r == Chain([(default, None)])
  {
    if explicitProvider != "" {
      var name := normalize(explicitProvider);
      var own: Option<Config> := None;
      if org.Some? {
        own := Find(t.configs, (name, org));
        if own.Some? && !own.value.enabled {
          return DisabledForOrganization;
        }
      }
      var platform := Find(t.configs, (name, None));
      if own.Some? {
        return Chain([(name, own)]);
      }
      if platform.Some? && platform.value.enabled {
        return Chain([(name, platform)]);
      }
      if name in supported {
        return Chain([(name, platform)]);
      }
      return Unsupported;
    }

    var policy := PolicyFor(t, org, operation);
    if policy.None? {
      return Chain([(default, None)]);
    }
    var resolved := ResolveNames(t, org, [policy.value.primary] + policy.value.fallbacks, normalize);
    if resolved == [] {
      return Chain([(default, None)]);
    }
    r := Chain(resolved);
  }

  /** The links the loop has resolved after these names. */
  function Resolved(t: Tables, org: Option<OrgId>, names: seq<string>): seq<(string, Option<Config>)> {
    if names == [] then []
    else
      var init, last := names[..|names| - 1], names[|names| - 1];
      if last in init || !Usable(t, org, last) then Resolved(t, org, init)
      else Resolved(t, org, init) + [(last, ConfigFor(t, org, last))]
  }

  lemma UsableOnlySnoc(t: Tables, org: Option<OrgId>, names: seq<string>, name: string)
    ensures UsableOnly(t, org, names + [name])
         == UsableOnly(t, org, names) + if Usable(t, org, name) then [name] else []
  {
    assert (names + [name])[..|names|] == names;
  }

  lemma WithConfigsSnoc(t: Tables, org: Option<OrgId>, names: seq<string>, name: string)
    ensures WithConfigs(t, org, names + [name]) == WithConfigs(t, org, names) + [(name, ConfigFor(t, org, name))]
  {
  }

  /** The loop keeps the usable ones of the first occurrences, with their configurations. */
  lemma {:induction false} ResolvedIsUsableFirsts(t: Tables, org: Option<OrgId>, names: seq<string>)
    ensures Resolved(t, org, names) == WithConfigs(t, org, UsableOnly(t, org, Distinct(names)))
  {
    if names != [] {
      var init, last := names[..|names| - 1], names[|names| - 1];
      ResolvedIsUsableFirsts(t, org, init);
      DistinctIsFirstOccurrences(init);
      if last !in init {
        UsableOnlySnoc(t, org, Distinct(init), last);
        if Usable(t, org, last) {
          WithConfigsSnoc(t, org, UsableOnly(t, org, Distinct(init)), last);
        }
      }
    }
  }

  lemma ResolvedSnoc(t: Tables, org: Option<OrgId>, names: seq<string>, i: nat)
    requires i < |names|
    ensures Resolved(t, org, names[..i + 1])
         == if names[i] in names[..i] || !Usable(t, org, names[i]) then Resolved(t, org, names[..i])
            else Resolved(t, org, names[..i]) + [(names[i], ConfigFor(t, org, names[i]))]
    ensures forall x :: x in names[..i + 1] <==> x in names[..i] || x == names[i]
  {
    assert names[..i + 1] == names[..i] + [names[i]];
    assert names[..i + 1][..i] == names[..i];
  }

  /** The loop over a policy's names: skip empty, repeated and disabled ones. */
  method ResolveNames(t: Tables, org: Option<OrgId>, chain: seq<string>, normalize: string -> string)
    returns (resolved: seq<(string, Option<Config>)>)
    ensures resolved == WithConfigs(t, org, UsableOnly(t, org, Distinct(Normalized(normalize, chain))))
  {
    ghost var names := Normalized(normalize, chain);
    resolved := [];
    var seen: set<string> := {};
    var i := 0;
    while i < |chain|
      invariant 0 <= i <= |chain|
      invariant forall x :: x in seen <==> x != "" && x in names[..i]
      invariant resolved == Resolved(t, org, names[..i])
    {
      var name := normalize(chain[i]);
      ResolvedSnoc(t, org, names, i);
      i := i + 1;
      if name == "" || name in seen {
        continue;
      }
      seen := seen + {name};
      var own: Option<Config> := None;
      if org.Some? {
        own := Find(t.configs, (name, org));
        if own.Some? && !own.value.enabled {
          continue;
        }
      }
      var platform := Find(t.configs, (name, None));
      if platform.Some? && !platform.value.enabled {
        continue;
      }
      var config := if own.Some? then own else platform;
      resolved := resolved + [(name, config)];
    }
    assert names[..i] == names;
    ResolvedIsUsableFirsts(t, org, names);
  }

  ghost predicate NoRepeats(names: seq<string>) {
    forall i, j :: 0 <= i < j < |names| ==> names[i] != names[j]
  }

  /** x appears in names before any appearance of y. */
  ghost predicate StartsBefore(names: seq<string>, x: string, y: string) {
    exists i :: 0 <= i < |names| && names[i] == x && y !in names[..i]
  }

  /** Distinct is what "first occurrences" means: same names, no repeats, in order of first appearance. */
  lemma {:induction false} DistinctIsFirstOccurrences(names: seq<string>)
    ensures NoRepeats(Distinct(names))
    ensures forall x :: x in Distinct(names) <==> x in names
    ensures forall i, j :: 0 <= i < j < |Distinct(names)| ==>
              StartsBefore(names, Distinct(names)[i], Distinct(names)[j])
  {
    if names != [] {
      var init := names[..|names| - 1];
      DistinctIsFirstOccurrences(init);
      var d := Distinct(names);
      forall i, j | 0 <= i < j < |d|
        ensures StartsBefore(names, d[i], d[j])
      {
        if j < |Distinct(init)| {
          assert StartsBefore(init, d[i], d[j]);
          var k :| 0 <= k < |init| && init[k] == d[i] && d[j] !in init[..k];
          assert init[..k] == names[..k];
        } else {
          assert d[i] in init;
          var k :| 0 <= k < |init| && init[k] == d[i];
          assert names[k] == d[i];
          assert names[..k] == init[..k];
        }
      }
    }
  }

  lemma {:induction false} UsableOnlyIsFilter(t: Tables, org: Option<OrgId>, names: seq<string>)
    requires NoRepeats(names)
    ensures NoRepeats(UsableOnly(t, org, names))
    ensures forall x :: x in UsableOnly(t, org, names) <==> x in names && Usable(t, org, x)
    ensures forall i, j :: 0 <= i < j < |UsableOnly(t, org, names)| ==>
              StartsBefore(names, UsableOnly(t, org, names)[i], UsableOnly(t, org, names)[j])
  {
    if names != [] {
      var init, last := names[..|names| - 1], names[|names| - 1];
      UsableOnlyIsFilter(t, org, init);
      var kept := UsableOnly(t, org, names);
      assert last !in init;
      forall i, j | 0 <= i < j < |kept|
        ensures StartsBefore(names, kept[i], kept[j])
      {
        if j < |UsableOnly(t, org, init)| {
          assert StartsBefore(init, kept[i], kept[j]);
          var k :| 0 <= k < |init| && init[k] == kept[i] && kept[j] !in init[..k];
          assert init[..k] == names[..k];
        } else {
          assert kept[i] in UsableOnly(t, org, init);
          assert kept[i] in init;
          var k :| 0 <= k < |init| && init[k] == kept[i];
          assert names[..k] == init[..k];
        }
      }
    }
  }

  function Names(links: seq<(string, Option<Config>)>): seq<string> {
    seq(|links|, i requires 0 <= i < |links| => links[i].0)
  }

  /** A policy's chain is never empty and never repeats a name; it holds exactly the usable names, or the default. */
  lemma PolicyChainIsSound(t: Tables, org: Option<OrgId>, policy: Policy, normalize: string -> string, default: string)
    ensures var names := Normalized(normalize, [policy.primary] + policy.fallbacks);
            var chain := Names(PolicyChain(t, org, policy, normalize, default));
            && chain != [] && NoRepeats(chain)
            && ((exists x :: x in names && Usable(t, org, x)) ==>
                  (forall x :: x in chain <==> x in names && Usable(t, org, x)) &&
                  (forall i, j :: 0 <= i < j < |chain| ==> StartsBefore(Distinct(names), chain[i], chain[j])))
            && ((forall x :: x in names ==> !Usable(t, org, x)) ==> chain == [default])
  {
    var names := Normalized(normalize, [policy.primary] + policy.fallbacks);
    DistinctIsFirstOccurrences(names);
    var usable := UsableOnly(t, org, Distinct(names));
    UsableOnlyIsFilter(t, org, Distinct(names));
    if usable != [] {
      assert Names(WithConfigs(t, org, usable)) == usable;
      assert usable[0] in usable;
    }
  }

  // ----- which rows of the tables decide -----

  lemma {:induction false} SameConfigsSameUsable(t: Tables, t': Tables, org: Option<OrgId>, names: seq<string>)
    requires t.configs == t'.configs
    ensures UsableOnly(t, org, names) == UsableOnly(t', org, names)
  {
    if names != [] {
      SameConfigsSameUsable(t, t', org, names[..|names| - 1]);
    }
  }

  lemma SameConfigsSameChain(t: Tables, t': Tables, org: Option<OrgId>, policy: Policy, normalize: string -> string,
                             default: string)
    requires t.configs == t'.configs
    ensures PolicyChain(t, org, policy, normalize, default) == PolicyChain(t', org, policy, normalize, default)
  {
    var names := Distinct(Normalized(normalize, [policy.primary] + policy.fallbacks));
    SameConfigsSameUsable(t, t', org, names);
    assert WithConfigs(t, org, UsableOnly(t, org, names)) == WithConfigs(t', org, UsableOnly(t, org, names));
  }

  /** The tables agree but for the policies of others: the platform's, and any other organization's or operation's. */
  ghost predicate SameButOtherPolicies(t: Tables, t': Tables, operation: string, org: Option<OrgId>) {
    && t.configs == t'.configs
    && (operation, org) in t.policies && (operation, org) in t'.policies
    && t.policies[(operation, org)] == t'.policies[(operation, org)]
  }

  /** Under an organization's own policy no other policy, the platform's least of all, has a say in its chain. */
  lemma OwnPolicyShadowsPlatform(t: Tables, t': Tables, operation: string, org: Option<OrgId>,
                                 explicitProvider: string, normalize: string -> string, supported: set<string>,
                                 default: string)
    requires org.Some? && SameButOtherPolicies(t, t', operation, org)
    ensures ProviderChain(t, operation, org, explicitProvider, normalize, supported, default)
         == ProviderChain(t', operation, org, explicitProvider, normalize, supported, default)
  {
    SameConfigsSameChain(t, t', org, t.policies[(operation, org)], normalize, default);
  }

  /** A policy's names that are not empty and that neither the organization nor the platform has switched off. */
  ghost predicate Eligible(t: Tables, org: Option<OrgId>, names: seq<string>, x: string) {
    x in names && x != "" && !(org.Some? && IsOff(t, x, org)) && !IsOff(t, x, None)
  }

  /** A policy's chain holds exactly its eligible names, each with the row that counts; or the default, without any. */
  lemma PolicyChainIsEligible(t: Tables, org: Option<OrgId>, policy: Policy, normalize: string -> string,
                              default: string)
    ensures var names := Normalized(normalize, [policy.primary] + policy.fallbacks);
            var chain := PolicyChain(t, org, policy, normalize, default);
            if exists x :: Eligible(t, org, names, x) then
              (forall x :: x in Names(chain) <==> Eligible(t, org, names, x)) &&
              (forall i :: 0 <= i < |chain| ==> OwnRowFirst(t, org, chain[i]))
            else chain == [(default, None)]
  {
    var names := Normalized(normalize, [policy.primary] + policy.fallbacks);
    var usable := UsableOnly(t, org, Distinct(names));
    DistinctIsFirstOccurrences(names);
    UsableOnlyIsFilter(t, org, Distinct(names));
    forall x
      ensures x in usable <==> Eligible(t, org, names, x)
    {
    }
    if usable != [] {
      assert Names(WithConfigs(t, org, usable)) == usable;
      assert usable[0] in usable;
    }
  }

  // ----- the routing loop -----

  /** Unrecorded: the provider could not be built, or the caller was cancelled; nothing is recorded. */
  datatype Outcome =
    | Answered(text: string, latency: int)
    | Transient(category: Category)
    | Fatal
    | Unrecorded

  /** What the environment does with a link, should the loop get to it. */
  datatype Attempt = Attempt(checkedAt: int, outcome: Outcome, endedAt: int)

  datatype Answer =
    | Served(text: string, provider: string)
    | AllFailed
    | NoneAvailable
    | Raised

  datatype Routed = Routed(system: System, answer: Answer)

  function Route(settings: Settings, s: System, chain: seq<string>, attempts: seq<Attempt>, failed: bool): Routed
    requires |chain| == |attempts|
    decreases |chain|
  {
    if chain == [] then Routed(s, if failed then AllFailed else NoneAvailable)
    else
      var p, a := chain[0], attempts[0];
      var checked := AfterCheck(settings, s, p, a.checkedAt);
      if IsOpenAt(settings, s.book, p, a.checkedAt) then
        Route(settings, checked, chain[1..], attempts[1..], failed)
      else match a.outcome
        case Answered(text, latency) => Routed(AfterSuccess(checked, p, latency, a.endedAt), Served(text, p))
        case Transient(category) =>
          Route(settings, AfterFailure(settings, checked, p, category, a.endedAt), chain[1..], attempts[1..], true)
        case Fatal => Routed(AfterFailure(settings, checked, p, Category.Permanent, a.endedAt), Raised)
        case Unrecorded => Routed(checked, Raised)
  }

  method GenerateWithRouting(breaker: ProviderCircuitBreaker, chain: seq<string>, attempts: seq<Attempt>)
    returns (answer: Answer)
    requires |chain| == |attempts|
    modifies breaker
    ensures Routed(breaker.Now(), answer) == Route(breaker.settings, old(breaker.Now()), chain, attempts, false)
  {
    var lastError := false;
    var i := 0;
    while i < |chain|
      invariant 0 <= i <= |chain|
      invariant Route(breaker.settings, old(breaker.Now()), chain, attempts, false)
             == Route(breaker.settings, breaker.Now(), chain[i..], attempts[i..], lastError)
    {
      var p, a := chain[i], attempts[i];
      assert chain[i..][1..] == chain[i + 1..] && attempts[i..][1..] == attempts[i + 1..];
      i := i + 1;
      var isOpen := breaker.IsOpen(p, a.checkedAt);
      if isOpen {
        continue;
      }
      match a.outcome {
        case Answered(text, latency) =>
          breaker.RecordSuccess(p, latency, a.endedAt);
          return Served(text, p);
        case Transient(category) =>
          breaker.RecordFailure(p, category, a.endedAt);
          lastError := true;
        case Fatal =>
          breaker.RecordFailure(p, Category.Permanent, a.endedAt);
          return Raised;
        case Unrecorded =>
          return Raised;
      }
    }
    answer := if lastError then AllFailed else NoneAvailable;
  }

  /** Picking a provider for a stream: the first one whose circuit lets it through; nothing is recorded later. */
  function PickForStream(settings: Settings, s: System, chain: seq<string>, times: seq<int>): (System, Option<string>)
    requires |chain| == |times|
    decreases |chain|
  {
    if chain == [] then (s, None)
    else
      var checked := AfterCheck(settings, s, chain[0], times[0]);
      if IsOpenAt(settings, s.book, chain[0], times[0])
      then PickForStream(settings, checked, chain[1..], times[1..])
      else (checked, Some(chain[0]))
  }

  method ResolveStreamProvider(breaker: ProviderCircuitBreaker, chain: seq<string>, times: seq<int>)
    returns (provider: Option<string>)
    requires |chain| == |times|
    modifies breaker
    ensures (breaker.Now(), provider) == PickForStream(breaker.settings, old(breaker.Now()), chain, times)
  {
    var i := 0;
    while i < |chain|
      invariant 0 <= i <= |chain|
      invariant PickForStream(breaker.settings, old(breaker.Now()), chain, times)
             == PickForStream(breaker.settings, breaker.Now(), chain[i..], times[i..])
    {
      assert chain[i..][1..] == chain[i + 1..] && times[i..][1..] == times[i + 1..];
      var isOpen := breaker.IsOpen(chain[i], times[i]);
      if !isOpen {
        return Some(chain[i]);
      }
      i := i + 1;
    }
    provider := None;
  }

  /** The trace of a pick that passes over the first k providers. */
  function PickTrace(chain: seq<string>, times: seq<int>, k: nat): seq<Event>
    requires k <= |chain| == |times|
  {
    seq(k, i requires 0 <= i < k => Skipped(chain[i], times[i]))
    + if k < |chain| then [LetThrough(chain[k], times[k])] else []
  }

  /** The k-th provider is the first whose circuit is not open; k is the length of the chain when all are open. */
  ghost predicate IsFirstClosed(settings: Settings, book: map<string, Data>, chain: seq<string>, times: seq<int>,
                                k: nat)
    requires |chain| == |times|
  {
    && k <= |chain|
    && (forall i :: 0 <= i < k ==> IsOpenAt(settings, book, chain[i], times[i]))
    && (k < |chain| ==> !IsOpenAt(settings, book, chain[k], times[k]))
  }

  lemma PickTraceCons(chain: seq<string>, times: seq<int>, k: nat)
    requires 0 < k <= |chain| == |times|
    ensures PickTrace(chain, times, k) == [Skipped(chain[0], times[0])] + PickTrace(chain[1..], times[1..], k - 1)
  {
  }

  lemma FirstClosedOfTail(settings: Settings, book: map<string, Data>, chain: seq<string>, times: seq<int>, k: nat)
    requires |chain| == |times| && k > 0 && IsFirstClosed(settings, book, chain, times, k)
    ensures IsFirstClosed(settings, book, chain[1..], times[1..], k - 1)
  {
    assert forall i :: 0 <= i < |chain[1..]| ==> chain[1..][i] == chain[i + 1] && times[1..][i] == times[i + 1];
  }

  /** A stream gets the first provider whose circuit is not open, and none exactly when all are open. */
  lemma {:induction false} FirstClosedIsPicked(settings: Settings, s: System, chain: seq<string>, times: seq<int>,
                                               k: nat)
    requires |chain| == |times| && IsFirstClosed(settings, s.book, chain, times, k)
    ensures var (after, picked) := PickForStream(settings, s, chain, times);
            && picked == (if k < |chain| then Some(chain[k]) else None)
            && (picked.None? <==> forall i :: 0 <= i < |chain| ==> IsOpenAt(settings, s.book, chain[i], times[i]))
            && after.trace == s.trace + PickTrace(chain, times, k)
    decreases k
  {
    if k > 0 {
      var next := AfterCheck(settings, s, chain[0], times[0]);
      FirstClosedOfTail(settings, s.book, chain, times, k);
      FirstClosedIsPicked(settings, next, chain[1..], times[1..], k - 1);
      PickTraceCons(chain, times, k);
    }
  }

  // ----- one call: the first healthy provider serves -----

  predicate OpenLink(settings: Settings, book: map<string, Data>, chain: seq<string>, attempts: seq<Attempt>, i: nat)
    requires |chain| == |attempts| && i < |chain|
  {
    IsOpenAt(settings, book, chain[i], attempts[i].checkedAt)
  }

  /** Link k decides the call: every earlier link is open or fails transiently, and k itself does neither. */
  ghost predicate Decides(settings: Settings, book: map<string, Data>, chain: seq<string>, attempts: seq<Attempt>,
                          k: nat)
    requires |chain| == |attempts|
  {
    && k <= |chain|
    && (forall i :: 0 <= i < k ==> OpenLink(settings, book, chain, attempts, i) || attempts[i].outcome.Transient?)
    && (k < |chain| ==> !OpenLink(settings, book, chain, attempts, k) && !attempts[k].outcome.Transient?)
  }

  /** The trace a link leaves when the loop gets to it. */
  function LinkEvents(settings: Settings, book: map<string, Data>, chain: seq<string>, attempts: seq<Attempt>,
                      i: nat): seq<Event>
    requires |chain| == |attempts| && i < |chain|
  {
    var p, a := chain[i], attempts[i];
    if OpenLink(settings, book, chain, attempts, i) then [Skipped(p, a.checkedAt)]
    else match a.outcome
      case Answered(_, latency) => [LetThrough(p, a.checkedAt), Succeeded(p, a.endedAt, latency)]
      case Unrecorded => [LetThrough(p, a.checkedAt)]
      case Transient(category) => [LetThrough(p, a.checkedAt), Failed(p, a.endedAt, category)]
      case Fatal => [LetThrough(p, a.checkedAt), Failed(p, a.endedAt, Category.Permanent)]
  }

  /** The trace of the first n links, should the loop get to all of them. */
  function FirstLinks(settings: Settings, book: map<string, Data>, chain: seq<string>, attempts: seq<Attempt>,
                      n: nat): seq<Event>
    requires |chain| == |attempts| && n <= |chain|
    decreases n
  {
    if n == 0 then []
    else LinkEvents(settings, book, chain, attempts, 0) + FirstLinks(settings, book, chain[1..], attempts[1..], n - 1)
  }

  ghost predicate AgreeOn(book: map<string, Data>, book': map<string, Data>, names: seq<string>) {
    forall i :: 0 <= i < |names| ==> Load(book, names[i]) == Load(book', names[i])
  }

  lemma {:induction false} FirstLinksAgree(settings: Settings, book: map<string, Data>, book': map<string, Data>,
                                           chain: seq<string>, attempts: seq<Attempt>, n: nat)
    requires |chain| == |attempts| && n <= |chain| && AgreeOn(book, book', chain)
    ensures FirstLinks(settings, book, chain, attempts, n) == FirstLinks(settings, book', chain, attempts, n)
    decreases n
  {
    if n > 0 {
      assert Load(book, chain[0]) == Load(book', chain[0]);
      assert forall i :: 0 <= i < |chain[1..]| ==> chain[1..][i] == chain[i + 1];
      FirstLinksAgree(settings, book, book', chain[1..], attempts[1..], n - 1);
    }
  }

  lemma DecidesFromTail(settings: Settings, book: map<string, Data>, book': map<string, Data>,
                        chain: seq<string>, attempts: seq<Attempt>, k: nat)
    requires |chain| == |attempts| && 1 <= k <= |chain| && AgreeOn(book, book', chain[1..])
    requires Decides(settings, book, chain, attempts, k)
    ensures Decides(settings, book', chain[1..], attempts[1..], k - 1)
  {
    var rest, tail := chain[1..], attempts[1..];
    forall i | 0 <= i < |rest|
      ensures OpenLink(settings, book', rest, tail, i) == OpenLink(settings, book, chain, attempts, i + 1)
    {
      assert rest[i] == chain[i + 1] && tail[i] == attempts[i + 1];
    }
  }

  /** Some link before n was let through. */
  ghost predicate Tried(settings: Settings, book: map<string, Data>, chain: seq<string>, attempts: seq<Attempt>, n: nat)
    requires |chain| == |attempts| && n <= |chain|
  {
    exists i :: 0 <= i < n && !OpenLink(settings, book, chain, attempts, i)
  }

  function Verdict(outcome: Outcome, provider: string): Answer {
    match outcome
    case Answered(text, _) => Served(text, provider)
    case _ => Raised
  }

  /** The system after a link the loop goes past. */
  function Past(settings: Settings, s: System, p: string, a: Attempt): System
    requires IsOpenAt(settings, s.book, p, a.checkedAt) || a.outcome.Transient?
  {
    var checked := AfterCheck(settings, s, p, a.checkedAt);
    if IsOpenAt(settings, s.book, p, a.checkedAt) then checked
    else AfterFailure(settings, checked, p, a.outcome.category, a.endedAt)
  }

  lemma PastFirstLink(settings: Settings, s: System, chain: seq<string>, attempts: seq<Attempt>, failed: bool)
    requires |chain| == |attempts| && chain != [] && NoRepeats(chain)
    requires OpenLink(settings, s.book, chain, attempts, 0) || attempts[0].outcome.Transient?
    ensures var next := Past(settings, s, chain[0], attempts[0]);
            && next.trace == s.trace + LinkEvents(settings, s.book, chain, attempts, 0)
            && AgreeOn(s.book, next.book, chain[1..])
            && Route(settings, s, chain, attempts, failed)
                 == Route(settings, next, chain[1..], attempts[1..],
                          failed || !OpenLink(settings, s.book, chain, attempts, 0))
  {
    assert forall i :: 0 <= i < |chain[1..]| ==> chain[1..][i] == chain[i + 1] != chain[0];
  }

  lemma FirstLinkDecides(settings: Settings, s: System, chain: seq<string>, attempts: seq<Attempt>, failed: bool)
    requires |chain| == |attempts| && chain != []
    requires !OpenLink(settings, s.book, chain, attempts, 0) && !attempts[0].outcome.Transient?
    ensures var r := Route(settings, s, chain, attempts, failed);
            && r.system.trace == s.trace + LinkEvents(settings, s.book, chain, attempts, 0)
            && r.answer == Verdict(attempts[0].outcome, chain[0])
  {
  }

  lemma {:induction false} CallTrace(settings: Settings, s: System, chain: seq<string>, attempts: seq<Attempt>,
                                     failed: bool, k: nat)
    requires |chain| == |attempts| && NoRepeats(chain) && Decides(settings, s.book, chain, attempts, k)
    ensures Route(settings, s, chain, attempts, failed).system.trace
         == s.trace + FirstLinks(settings, s.book, chain, attempts, if k < |chain| then k + 1 else k)
    decreases |chain|
  {
    if chain == [] {
    } else if k == 0 {
      FirstLinkDecides(settings, s, chain, attempts, failed);
      assert FirstLinks(settings, s.book, chain, attempts, 1) == LinkEvents(settings, s.book, chain, attempts, 0);
    } else {
      var open := OpenLink(settings, s.book, chain, attempts, 0);
      PastFirstLink(settings, s, chain, attempts, failed);
      var next := Past(settings, s, chain[0], attempts[0]);
      DecidesFromTail(settings, s.book, next.book, chain, attempts, k);
      NoRepeatsTail(chain);
      CallTrace(settings, next, chain[1..], attempts[1..], failed || !open, k - 1);
      var n := if k < |chain| then k + 1 else k;
      FirstLinksAgree(settings, s.book, next.book, chain[1..], attempts[1..], n - 1);
      var first := LinkEvents(settings, s.book, chain, attempts, 0);
      var others := FirstLinks(settings, next.book, chain[1..], attempts[1..], n - 1);
      AppendAssociates(s.trace, first, others);
    }
  }

  lemma AppendAssociates(a: seq<Event>, b: seq<Event>, c: seq<Event>)
    ensures (a + b) + c == a + (b + c)
  {
  }

  lemma {:induction false} CallAnswer(settings: Settings, s: System, chain: seq<string>, attempts: seq<Attempt>,
                                      failed: bool, k: nat)
    requires |chain| == |attempts| && NoRepeats(chain) && Decides(settings, s.book, chain, attempts, k)
    ensures Route(settings, s, chain, attempts, failed).answer
         == if k < |chain| then Verdict(attempts[k].outcome, chain[k])
            else if failed || Tried(settings, s.book, chain, attempts, k) then AllFailed
            else NoneAvailable
    decreases |chain|
  {
    if chain == [] {
    } else if k == 0 {
      FirstLinkDecides(settings, s, chain, attempts, failed);
    } else {
      var open := OpenLink(settings, s.book, chain, attempts, 0);
      PastFirstLink(settings, s, chain, attempts, failed);
      var next := Past(settings, s, chain[0], attempts[0]);
      DecidesFromTail(settings, s.book, next.book, chain, attempts, k);
      NoRepeatsTail(chain);
      CallAnswer(settings, next, chain[1..], attempts[1..], failed || !open, k - 1);
      TriedFromTail(settings, s.book, next.book, chain, attempts, k);
    }
  }

  /**
   A call over a chain without repeats, judged against the circuits as the call found them: the first
   link that is neither open nor a transient failure decides the answer; every link before it was
   skipped, or let through once and recorded as failed once; no link after it was touched.
   */
  lemma FirstHealthyServes(settings: Settings, s: System, chain: seq<string>, attempts: seq<Attempt>) returns (k: nat)
    requires |chain| == |attempts| && NoRepeats(chain)
    ensures Decides(settings, s.book, chain, attempts, k)
    ensures var r := Route(settings, s, chain, attempts, false);
            && r.system.trace
                 == s.trace + FirstLinks(settings, s.book, chain, attempts, if k < |chain| then k + 1 else k)
            && r.answer == if k < |chain| then Verdict(attempts[k].outcome, chain[k])
                           else if Tried(settings, s.book, chain, attempts, k) then AllFailed
                           else NoneAvailable
  {
    k := 0;
    while k < |chain| && (OpenLink(settings, s.book, chain, attempts, k) || attempts[k].outcome.Transient?)
      invariant k <= |chain|
      invariant forall i :: 0 <= i < k ==>
                  OpenLink(settings, s.book, chain, attempts, i) || attempts[i].outcome.Transient?
    {
      k := k + 1;
    }
    CallTrace(settings, s, chain, attempts, false, k);
    CallAnswer(settings, s, chain, attempts, false, k);
  }

  lemma NoRepeatsTail(chain: seq<string>)
    requires NoRepeats(chain) && chain != []
    ensures NoRepeats(chain[1..])
  {
  }

  lemma TriedFromTail(settings: Settings, book: map<string, Data>, book': map<string, Data>,
                      chain: seq<string>, attempts: seq<Attempt>, n: nat)
    requires |chain| == |attempts| && 1 <= n <= |chain| && AgreeOn(book, book', chain[1..])
    ensures Tried(settings, book, chain, attempts, n) <==>
              !OpenLink(settings, book, chain, attempts, 0) ||
              Tried(settings, book', chain[1..], attempts[1..], n - 1)
  {
    var rest, tail := chain[1..], attempts[1..];
    forall i | 0 <= i < |rest|
      ensures OpenLink(settings, book', rest, tail, i) == OpenLink(settings, book, chain, attempts, i + 1)
    {
      assert rest[i] == chain[i + 1] && tail[i] == attempts[i + 1];
    }
    if Tried(settings, book, chain, attempts, n) && OpenLink(settings, book, chain, attempts, 0) {
      var i :| 0 <= i < n && !OpenLink(settings, book, chain, attempts, i);
      assert !OpenLink(settings, book', rest, tail, i - 1);
    }
    if Tried(settings, book', rest, tail, n - 1) {
      var i :| 0 <= i < n - 1 && !OpenLink(settings, book', rest, tail, i);
      assert !OpenLink(settings, book, chain, attempts, i + 1);
    }
  }

  // ----- whole runs -----

  datatype Call =
    | Generate(chain: seq<string>, attempts: seq<Attempt>)
    | OpenStream(names: seq<string>, times: seq<int>)

  predicate WellFormed(call: Call) {
    match call
    case Generate(chain, attempts) => |chain| == |attempts|
    case OpenStream(names, times) => |names| == |times|
  }

  function After(settings: Settings, s: System, call: Call): System
    requires WellFormed(call)
  {
    match call
    case Generate(chain, attempts) => Route(settings, s, chain, attempts, false).system
    case OpenStream(names, times) => PickForStream(settings, s, names, times).0
  }

  function Run(settings: Settings, calls: seq<Call>): System
    requires forall c :: c in calls ==> WellFormed(c)
  {
    if calls == [] then System(map[], [])
    else After(settings, Run(settings, calls[..|calls| - 1]), calls[|calls| - 1])
  }

  lemma {:induction false} RouteKeepsInv(settings: Settings, s: System, chain: seq<string>, attempts: seq<Attempt>,
                                         failed: bool)
    requires |chain| == |attempts| && Inv(settings, s) && settings.threshold >= 1
    ensures Inv(settings, Route(settings, s, chain, attempts, failed).system)
    decreases |chain|
  {
    if chain != [] {
      var p, a := chain[0], attempts[0];
      var checked := AfterCheck(settings, s, p, a.checkedAt);
      CheckKeepsInv(settings, s, p, a.checkedAt);
      if IsOpenAt(settings, s.book, p, a.checkedAt) {
        RouteKeepsInv(settings, checked, chain[1..], attempts[1..], failed);
      } else {
        match a.outcome {
          case Answered(_, latency) => SuccessKeepsInv(settings, checked, p, latency, a.endedAt);
          case Transient(category) =>
            FailureKeepsInv(settings, checked, p, category, a.endedAt);
            var recorded := AfterFailure(settings, checked, p, category, a.endedAt);
            RouteKeepsInv(settings, recorded, chain[1..], attempts[1..], true);
          case Fatal => FailureKeepsInv(settings, checked, p, Category.Permanent, a.endedAt);
          case Unrecorded =>
        }
      }
    }
  }

  lemma {:induction false} PickKeepsInv(settings: Settings, s: System, names: seq<string>, times: seq<int>)
    requires |names| == |times| && Inv(settings, s)
    ensures Inv(settings, PickForStream(settings, s, names, times).0)
    decreases |names|
  {
    if names != [] {
      CheckKeepsInv(settings, s, names[0], times[0]);
      PickKeepsInv(settings, AfterCheck(settings, s, names[0], times[0]), names[1..], times[1..]);
    }
  }

  lemma {:induction false} RunKeepsInv(settings: Settings, calls: seq<Call>)
    requires settings.threshold >= 1 && forall c :: c in calls ==> WellFormed(c)
    ensures Inv(settings, Run(settings, calls))
    decreases |calls|
  {
    if calls != [] {
      var init, call := calls[..|calls| - 1], calls[|calls| - 1];
      assert call in calls;
      RunKeepsInv(settings, init);
      match call {
        case Generate(chain, attempts) => RouteKeepsInv(settings, Run(settings, init), chain, attempts, false);
        case OpenStream(names, times) => PickKeepsInv(settings, Run(settings, init), names, times);
      }
    }
  }

  /**
   Over every serial run on a clock that does not go back, a provider is passed over exactly when its
   trailing run of recorded failures has reached the threshold and the recovery time has not passed
   since the last of them; its failure count is that run, and its circuit is closed exactly below the threshold.
   */
  lemma CircuitFollowsTrace(settings: Settings, calls: seq<Call>, provider: string, i: nat)
    requires settings.threshold >= 1 && forall c :: c in calls ==> WellFormed(c)
    requires ClockOk(Run(settings, calls).trace)
    ensures var s := Run(settings, calls);
            var d := Load(s.book, provider);
            && d.failureCount == TrailingFailures(s.trace, provider)
            && (d.state.Closed? <==> TrailingFailures(s.trace, provider) < settings.threshold)
    ensures var trace := Run(settings, calls).trace;
            i < |trace| && trace[i].LetThrough? ==> !ShouldSkip(settings, trace[..i], trace[i].provider, trace[i].at)
    ensures var trace := Run(settings, calls).trace;
            i < |trace| && trace[i].Skipped? ==> ShouldSkip(settings, trace[..i], trace[i].provider, trace[i].at)
  {
    RunKeepsInv(settings, calls);
    var s := Run(settings, calls);
    assert DataOk(settings, s, provider);
    if i < |s.trace| {
      assert Obeys(settings, s.trace, i);
    }
  }

  /**
   Over every serial run, what the store says of a provider is what its trace says: failures since the last success,
   closed below the threshold, half open exactly while a call that was let through above it has not been recorded,
   the category of the last failure, the number of successes, the time of the last one, and the last twenty latencies.
   */
  lemma HealthFollowsTrace(settings: Settings, calls: seq<Call>, provider: string)
    requires settings.threshold >= 1 && forall c :: c in calls ==> WellFormed(c)
    ensures HealthOk(settings, Run(settings, calls), provider)
  {
    RunKeepsInv(settings, calls);
  }
}
