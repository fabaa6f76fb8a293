/** Live delegated registries on the client: exactly when a registry handed out later can be
    older than one handed out before, whatever the sources answer. */
module RegistryRollbackProofs {
  import opened Prelude
  import opened Records
  import opened Text
  import opened Naming
  import opened Root
  import opened ResolverSpec
  import opened SoundnessProofs
  import opened RollbackProofs

  // ------------------------------------------------------------------
  // one call
  // ------------------------------------------------------------------

  datatype Call = Call(rec: TldRecord, src: RegistrySources)

  /** The registry the cache directory vouches for, by TLD and operator. */
  ghost function HeldRegistry(w: World, cache: Cache, tld: string, operator: Key): Option<TldRegistry> {
    match CachePath(tld)
    case None => None
    case Some(path) =>
      if path in cache.registries && RegistryVerifies(w, cache.registries[path], tld, operator)
      then Some(cache.registries[path]) else None
  }

  predicate RegistryNotOlder(a: Option<TldRegistry>, b: Option<TldRegistry>) {
    a.Some? ==> b.Some? && a.value.version <= b.value.version
  }

  /** The record names someone to ask for the registry. */
  predicate Asks(rec: TldRecord) {
    rec.registryProviders != [] || rec.registryEndpoint.Some?
  }

  predicate IsFor(rec: TldRecord, tld: string, operator: Key) {
    rec.tld == tld && rec.operatorPublicKey == operator
  }

  /** Can put another registry in the place of this one: the same cache file, but another TLD
      name or another operator. */
  predicate Evicts(rec: TldRecord, tld: string, operator: Key) {
    Asks(rec) && CachePath(rec.tld) == CachePath(tld) && !IsFor(rec, tld, operator)
  }

  /** Can put a registry of this TLD and operator in place. */
  predicate Refills(rec: TldRecord, tld: string, operator: Key) {
    Asks(rec) && IsFor(rec, tld, operator)
  }

  lemma CachedIsHeld(w: World, cache: Cache, rec: TldRecord)
    ensures CachedRegistry(w, cache, rec) == HeldRegistry(w, cache, rec.tld, rec.operatorPublicKey)
  {
    hide CachePath;
  }

  /** Without anyone to ask, nothing is fetched. */
  lemma NobodyAsked(w: World, rec: TldRecord, src: RegistrySources)
    ensures FetchLive(w, rec, src).Ok? ==> Asks(rec)
  {
  }

  /** One call: only an evicting record can lose what is held, only a refilling one can set it,
      and what is returned is held afterwards. */
  lemma CallHolds(w: World, cache: Cache, call: Call, tld: string, operator: Key)
    requires CachePath(tld).Some?
    ensures var (cache', r) := LiveMode(w, cache, call.rec, call.src);
            var before, after := HeldRegistry(w, cache, tld, operator), HeldRegistry(w, cache', tld, operator);
            && (!Evicts(call.rec, tld, operator) ==> RegistryNotOlder(before, after))
            && (!Refills(call.rec, tld, operator) ==> after == before || after.None?)
            && (IsFor(call.rec, tld, operator) && r.Ok? ==> after == Some(r.value))
  {
    hide FetchLive;
    hide CachedRegistry;
    hide CachePath;
    hide Asks;
    NobodyAsked(w, call.rec, call.src);
    CachedIsHeld(w, cache, call.rec);
    FetchLiveVerifies(w, call.rec, call.src);
  }

  // ------------------------------------------------------------------
  // calls in a row
  // ------------------------------------------------------------------

  function CallRun(w: World, cache: Cache, calls: seq<Call>): Cache {
    if calls == [] then cache
    else
      var last := calls[|calls| - 1];
      LiveMode(w, CallRun(w, cache, calls[..|calls| - 1]), last.rec, last.src).0
  }

  predicate NoneEvicts(calls: seq<Call>, tld: string, operator: Key) {
    forall i :: 0 <= i < |calls| ==> !Evicts(calls[i].rec, tld, operator)
  }

  lemma {:induction false} CallsHold(w: World, cache: Cache, calls: seq<Call>, tld: string, operator: Key)
    requires CachePath(tld).Some? && NoneEvicts(calls, tld, operator)
    ensures RegistryNotOlder(HeldRegistry(w, cache, tld, operator), HeldRegistry(w, CallRun(w, cache, calls), tld, operator))
  {
    if calls != [] {
      hide LiveMode;
      hide HeldRegistry;
      hide CachePath;
      hide Evicts;
      CallsHold(w, cache, calls[..|calls| - 1], tld, operator);
      CallHolds(w, CallRun(w, cache, calls[..|calls| - 1]), calls[|calls| - 1], tld, operator);
    }
  }

  /** While no call evicts it, a registry returned later is never older than one returned before,
      whatever is asked in between, and both verify. */
  lemma RegistriesNeverRewind(w: World, cache: Cache, first: Call, between: seq<Call>, second: Call)
    requires IsFor(second.rec, first.rec.tld, first.rec.operatorPublicKey)
    requires CachePath(first.rec.tld).Some? && NoneEvicts(between, first.rec.tld, first.rec.operatorPublicKey)
    requires LiveMode(w, cache, first.rec, first.src).1.Ok?
    requires LiveMode(w, CallRun(w, LiveMode(w, cache, first.rec, first.src).0, between), second.rec, second.src).1.Ok?
    ensures var (after, early) := LiveMode(w, cache, first.rec, first.src);
            var late := LiveMode(w, CallRun(w, after, between), second.rec, second.src).1;
            && early.value.version <= late.value.version
            && RegistryVerifies(w, early.value, first.rec.tld, first.rec.operatorPublicKey)
            && RegistryVerifies(w, late.value, first.rec.tld, first.rec.operatorPublicKey)
  {
    hide LiveMode;
    hide CachePath;
    hide NoneEvicts;
    hide RegistryVerifies;
    var tld, operator := first.rec.tld, first.rec.operatorPublicKey;
    CallHolds(w, cache, first, tld, operator);
    var after := LiveMode(w, cache, first.rec, first.src).0;
    CallsHold(w, after, between, tld, operator);
    CallHolds(w, CallRun(w, after, between), second, tld, operator);
  }

  // ------------------------------------------------------------------
  // whole runs of the client
  // ------------------------------------------------------------------

  /** The live registry call a step makes, if it gets that far. */
  function CallOf(w: World, c: Client, step: ClientStep): Option<Call> {
    match step
    case Ask(host, _, clock, net) =>
      if ParseDomain(host).Err? then None
      else
        var (c', zone) := CurrentRoot(w, c, net);
        if zone.Err? then None else CallIn(w, c', zone.value, ParseDomain(host).value, clock, net)
    case _ => None
  }

  function CallIn(w: World, c: Client, zone: RootZone, d: FederateDomain, clock: Instant, net: Network): Option<Call> {
    if d.tld !in zone.tlds then None
    else
      var rec := zone.tlds[d.tld];
      var anchor := if c.trusted.Some? then c.trusted.value else "";
      if TldObjection(w, rec, d.tld, anchor, clock).Some? || !IsLive(rec.registryType) then None
      else Some(Call(rec, net.registry))
  }

  /** The live registry a step works with. */
  function RegistryOut(w: World, c: Client, step: ClientStep): Option<TldRegistry> {
    match CallOf(w, c, step)
    case None => None
    case Some(call) =>
      var r := LiveMode(w, c.cache, call.rec, call.src).1;
      if r.Ok? then Some(r.value) else None
  }

  lemma LiveReadsRegistries(w: World, a: Cache, b: Cache, rec: TldRecord, src: RegistrySources)
    requires a.registries == b.registries
    ensures LiveMode(w, a, rec, src).1 == LiveMode(w, b, rec, src).1
    ensures LiveMode(w, a, rec, src).0.registries == LiveMode(w, b, rec, src).0.registries
  {
    hide FetchLive;
    hide CachePath;
  }

  lemma RefreshKeepsRegistries(w: World, c: Client, net: Network)
    ensures RefreshRoot(w, c, net).0.cache.registries == c.cache.registries
  {
    hide FetchRoot;
    hide VerifyZone;
    hide LoadZone;
  }

  lemma CurrentKeepsRegistries(w: World, c: Client, net: Network)
    ensures CurrentRoot(w, c, net).0.cache.registries == c.cache.registries
  {
    RefreshKeepsRegistries(w, c, net);
    hide RefreshRoot;
  }

  /** The registry files after a record has been looked up. */
  lemma LocateRegistries(w: World, cache: Cache, zone: RootZone, rec: TldRecord, fqdn: string, net: Network)
    ensures LocateRecord(w, cache, zone, rec, fqdn, net).0.registries ==
            if IsLive(rec.registryType) then LiveMode(w, cache, rec, net.registry).0.registries else cache.registries
  {
    hide LiveMode;
    hide FetchManifest;
    hide CachedGood;
  }

  lemma ServeKeepsRegistries(w: World, cache: Cache, rec: DomainRecord, fqdn: string, path: string, net: Network)
    ensures Serve(w, cache, rec, fqdn, path, net).0.registries == cache.registries
  {
    hide FetchManifest;
    hide FetchBlock;
    hide CachedGood;
    hide ReadManifest;
  }

  lemma ResolveInRegistries(w: World, c: Client, zone: RootZone, d: FederateDomain, path: string, clock: Instant, net: Network)
    ensures var call := CallIn(w, c, zone, d, clock, net);
            ResolveIn(w, c, zone, d, path, clock, net).0.cache.registries ==
            if call.Some? then LiveMode(w, c.cache, call.value.rec, call.value.src).0.registries else c.cache.registries
  {
    hide LocateRecord;
    hide LiveMode;
    hide Serve;
    hide TldObjection;
    hide RecordObjection;
    if d.tld in zone.tlds {
      var rec := zone.tlds[d.tld];
      LocateRegistries(w, c.cache, zone, rec, d.Fqdn(), net);
      var (cache', located) := LocateRecord(w, c.cache, zone, rec, d.Fqdn(), net);
      if located.Ok? {
        ServeKeepsRegistries(w, cache', located.value, d.Fqdn(), path, net);
      }
    }
  }

  /** What a step leaves in the registry files: what its call leaves, if it makes one. */
  lemma StepRegistries(w: World, configured: Option<Key>, c: Client, step: ClientStep)
    requires !step.Tamper?
    ensures var call := CallOf(w, c, step);
            ClientNext(w, configured, c, step).cache.registries ==
            if call.Some? then LiveMode(w, c.cache, call.value.rec, call.value.src).0.registries else c.cache.registries
  {
    hide RefreshRoot;
    hide CurrentRoot;
    hide ResolveIn;
    hide CallIn;
    hide LiveMode;
    hide ParseDomain;
    match step
    case Refresh(net) => RefreshKeepsRegistries(w, c, net);
    case Reboot =>
    case Ask(host, path, clock, net) =>
      if ParseDomain(host).Ok? {
        CurrentKeepsRegistries(w, c, net);
        var (c', zone) := CurrentRoot(w, c, net);
        if zone.Ok? {
          var d := ParseDomain(host).value;
          ResolveInRegistries(w, c', zone.value, d, path, clock, net);
          var call := CallIn(w, c', zone.value, d, clock, net);
          if call.Some? {
            LiveReadsRegistries(w, c.cache, c'.cache, call.value.rec, call.value.src);
          }
        }
      }
  }

  lemma HeldReadsRegistries(w: World, a: Cache, b: Cache, tld: string, operator: Key)
    requires a.registries == b.registries
    ensures HeldRegistry(w, a, tld, operator) == HeldRegistry(w, b, tld, operator)
  {
    hide CachePath;
    hide RegistryVerifies;
  }

  predicate Spares(call: Option<Call>, tld: string, operator: Key) {
    call.Some? ==> !Evicts(call.value.rec, tld, operator)
  }

  /** No step of the run asks about a record that takes over this registry's cache file. */
  predicate RunSpares(w: World, configured: Option<Key>, c: Client, steps: seq<ClientStep>, tld: string, operator: Key) {
    steps == [] ||
    (var front := steps[..|steps| - 1];
     && RunSpares(w, configured, c, front, tld, operator)
     && Spares(CallOf(w, ClientRun(w, configured, c, front), steps[|steps| - 1]), tld, operator))
  }

  lemma StepHoldsRegistry(w: World, configured: Option<Key>, c: Client, step: ClientStep, tld: string, operator: Key)
    requires CachePath(tld).Some? && !step.Tamper? && Spares(CallOf(w, c, step), tld, operator)
    ensures var c' := ClientNext(w, configured, c, step);
            && RegistryNotOlder(HeldRegistry(w, c.cache, tld, operator), HeldRegistry(w, c'.cache, tld, operator))
            && (RegistryOut(w, c, step).Some? && IsFor(CallOf(w, c, step).value.rec, tld, operator) ==>
                  HeldRegistry(w, c'.cache, tld, operator) == RegistryOut(w, c, step))
  {
    hide ClientNext;
    hide CallOf;
    hide LiveMode;
    hide HeldRegistry;
    hide CachePath;
    hide Evicts;
    StepRegistries(w, configured, c, step);
    var c', call := ClientNext(w, configured, c, step), CallOf(w, c, step);
    if call.Some? {
      CallHolds(w, c.cache, call.value, tld, operator);
      HeldReadsRegistries(w, c'.cache, LiveMode(w, c.cache, call.value.rec, call.value.src).0, tld, operator);
    } else {
      HeldReadsRegistries(w, c'.cache, c.cache, tld, operator);
    }
  }

  lemma {:induction false} RunHoldsRegistry(w: World, configured: Option<Key>, c: Client, steps: seq<ClientStep>, tld: string, operator: Key)
    requires CachePath(tld).Some? && Untampered(steps) && RunSpares(w, configured, c, steps, tld, operator)
    ensures RegistryNotOlder(HeldRegistry(w, c.cache, tld, operator),
                             HeldRegistry(w, ClientRun(w, configured, c, steps).cache, tld, operator))
  {
    if steps != [] {
      hide ClientNext;
      hide CallOf;
      hide HeldRegistry;
      hide CachePath;
      hide Spares;
      var front := steps[..|steps| - 1];
      RunHoldsRegistry(w, configured, c, front, tld, operator);
      StepHoldsRegistry(w, configured, ClientRun(w, configured, c, front), steps[|steps| - 1], tld, operator);
    }
  }

  /** Over any run of refreshes, resolutions and reboots that spares its cache file, a live
      registry a resolution works with later is never older than one an earlier resolution worked
      with, and both verify. */
  lemma ResolutionsNeverRewind(w: World, configured: Option<Key>, c: Client, first: ClientStep, between: seq<ClientStep>, second: ClientStep)
    requires Untampered(between)
    requires RegistryOut(w, c, first).Some?
    requires var c1 := ClientNext(w, configured, c, first); RegistryOut(w, ClientRun(w, configured, c1, between), second).Some?
    requires var c1 := ClientNext(w, configured, c, first);
             var rec := CallOf(w, c, first).value.rec;
             && IsFor(CallOf(w, ClientRun(w, configured, c1, between), second).value.rec, rec.tld, rec.operatorPublicKey)
             && CachePath(rec.tld).Some?
             && RunSpares(w, configured, c1, between, rec.tld, rec.operatorPublicKey)
    ensures var c1 := ClientNext(w, configured, c, first);
            var rec := CallOf(w, c, first).value.rec;
            var early, late := RegistryOut(w, c, first).value, RegistryOut(w, ClientRun(w, configured, c1, between), second).value;
            && early.version <= late.version
            && RegistryVerifies(w, early, rec.tld, rec.operatorPublicKey)
            && RegistryVerifies(w, late, rec.tld, rec.operatorPublicKey)
  {
    var c1 := ClientNext(w, configured, c, first);
    var c2 := ClientRun(w, configured, c1, between);
    var rec := CallOf(w, c, first).value.rec;
    assert !first.Tamper? && !second.Tamper?;
    hide *;
    OutIsSpared(w, c, first, rec.tld, rec.operatorPublicKey);
    OutIsSpared(w, c2, second, rec.tld, rec.operatorPublicKey);
    StepHoldsRegistry(w, configured, c, first, rec.tld, rec.operatorPublicKey);
    RunHoldsRegistry(w, configured, c1, between, rec.tld, rec.operatorPublicKey);
    StepHoldsRegistry(w, configured, c2, second, rec.tld, rec.operatorPublicKey);
    var c3 := ClientNext(w, configured, c2, second);
    HeldIsGood(w, c1.cache, c2.cache, c3.cache, rec.tld, rec.operatorPublicKey);
  }

  lemma OutIsSpared(w: World, c: Client, step: ClientStep, tld: string, operator: Key)
    requires RegistryOut(w, c, step).Some?
    ensures CallOf(w, c, step).Some?
    ensures IsFor(CallOf(w, c, step).value.rec, tld, operator) ==> Spares(CallOf(w, c, step), tld, operator)
    ensures tld == CallOf(w, c, step).value.rec.tld && operator == CallOf(w, c, step).value.rec.operatorPublicKey ==>
              IsFor(CallOf(w, c, step).value.rec, tld, operator)
  {
    hide CallOf;
    hide LiveMode;
    hide CachePath;
  }

  /** What is held verifies, and versions rise in steps. */
  lemma HeldIsGood(w: World, a: Cache, b: Cache, d: Cache, tld: string, operator: Key)
    ensures HeldRegistry(w, a, tld, operator).Some? ==> RegistryVerifies(w, HeldRegistry(w, a, tld, operator).value, tld, operator)
    ensures HeldRegistry(w, d, tld, operator).Some? ==> RegistryVerifies(w, HeldRegistry(w, d, tld, operator).value, tld, operator)
    ensures RegistryNotOlder(HeldRegistry(w, a, tld, operator), HeldRegistry(w, b, tld, operator)) &&
            RegistryNotOlder(HeldRegistry(w, b, tld, operator), HeldRegistry(w, d, tld, operator)) &&
            HeldRegistry(w, a, tld, operator).Some? ==>
              && HeldRegistry(w, d, tld, operator).Some?
              && HeldRegistry(w, a, tld, operator).value.version <= HeldRegistry(w, d, tld, operator).value.version
  {
    hide CachePath;
    hide RegistryVerifies;
  }

  // ------------------------------------------------------------------
  // exactly when a rewind can happen
  // ------------------------------------------------------------------

  /** What lies in the cache and what each call's sources answer. */
  datatype Play = Play(cache: Cache, first: RegistrySources, rest: seq<RegistrySources>)

  function Calls(recs: seq<TldRecord>, srcs: seq<RegistrySources>): seq<Call>
    requires |recs| == |srcs|
  {
    seq(|recs|, i requires 0 <= i < |recs| => Call(recs[i], srcs[i]))
  }

  /** In this play the call for the last record hands out an older registry than the call for
      the first one did. */
  ghost predicate Rewinds(w: World, first: TldRecord, rest: seq<TldRecord>, play: Play)
    requires rest != []
  {
    && |play.rest| == |rest|
    && var (after, early) := LiveMode(w, play.cache, first, play.first);
    && var n := |rest| - 1;
    && var late := LiveMode(w, CallRun(w, after, Calls(rest[..n], play.rest[..n])), rest[n], play.rest[n]).1;
    && early.Ok? && late.Ok? && late.value.version < early.value.version
  }

  predicate Evicted(rest: seq<TldRecord>, tld: string, operator: Key, k: nat, m: nat) {
    k < m < |rest| && Evicts(rest[k], tld, operator) && Refills(rest[m], tld, operator)
  }

  /** The name has no cache file, or a record in between takes the file over before a later one
      fetches again. */
  ghost predicate CanRewind(first: TldRecord, rest: seq<TldRecord>)
    requires rest != []
  {
    if CachePath(first.tld).None? then Asks(first) && Asks(rest[|rest| - 1])
    else exists k, m :: Evicted(rest, first.tld, first.operatorPublicKey, k, m)
  }

  lemma CallsStep(recs: seq<TldRecord>, srcs: seq<RegistrySources>)
    requires |recs| == |srcs| > 0
    ensures var n := |recs| - 1;
            && |Calls(recs, srcs)| == |recs|
            && Calls(recs, srcs)[..n] == Calls(recs[..n], srcs[..n])
            && Calls(recs, srcs)[n] == Call(recs[n], srcs[n])
  {
  }

  lemma RunStep(w: World, cache: Cache, recs: seq<TldRecord>, srcs: seq<RegistrySources>)
    requires |recs| == |srcs| > 0
    ensures var n := |recs| - 1;
            CallRun(w, cache, Calls(recs, srcs)) ==
            LiveMode(w, CallRun(w, cache, Calls(recs[..n], srcs[..n])), recs[n], srcs[n]).0
  {
    hide Calls;
    hide LiveMode;
    CallsStep(recs, srcs);
  }

  predicate SomeEvicts(recs: seq<TldRecord>, tld: string, operator: Key) {
    exists k :: 0 <= k < |recs| && Evicts(recs[k], tld, operator)
  }

  /** Held is gone or not older; and not gone before something evicted it. */
  ghost predicate KeptOrGone(w: World, cache: Cache, recs: seq<TldRecord>, tld: string, operator: Key, early: TldRegistry) {
    var held := HeldRegistry(w, cache, tld, operator);
    (held.None? && SomeEvicts(recs, tld, operator)) || RegistryNotOlder(Some(early), held)
  }

  lemma {:induction false} RunKeepsOrLoses(w: World, cache: Cache, recs: seq<TldRecord>, srcs: seq<RegistrySources>, tld: string, operator: Key, early: TldRegistry)
    requires |recs| == |srcs| && CachePath(tld).Some? && HeldRegistry(w, cache, tld, operator) == Some(early)
    requires forall k, m :: !Evicted(recs, tld, operator, k, m)
    ensures KeptOrGone(w, CallRun(w, cache, Calls(recs, srcs)), recs, tld, operator, early)
  {
    if recs != [] {
      var n := |recs| - 1;
      forall k, m
        ensures !Evicted(recs[..n], tld, operator, k, m)
      {
        assert !Evicted(recs, tld, operator, k, m);
      }
      RunKeepsOrLoses(w, cache, recs[..n], srcs[..n], tld, operator, early);
      LastCallHolds(w, CallRun(w, cache, Calls(recs[..n], srcs[..n])), recs, srcs[n], tld, operator, early);
      RunStep(w, cache, recs, srcs);
    }
  }

  lemma LastCallHolds(w: World, cache: Cache, recs: seq<TldRecord>, src: RegistrySources, tld: string, operator: Key, early: TldRegistry)
    requires recs != [] && CachePath(tld).Some?
    requires KeptOrGone(w, cache, recs[..|recs| - 1], tld, operator, early)
    requires forall k, m :: !Evicted(recs, tld, operator, k, m)
    ensures KeptOrGone(w, LiveMode(w, cache, recs[|recs| - 1], src).0, recs, tld, operator, early)
  {
    var n := |recs| - 1;
    hide LiveMode;
    hide HeldRegistry;
    hide CachePath;
    CallHolds(w, cache, Call(recs[n], src), tld, operator);
    if SomeEvicts(recs[..n], tld, operator) {
      var k :| 0 <= k < n && Evicts(recs[..n][k], tld, operator);
      assert !Evicted(recs, tld, operator, k, n);
      assert Evicts(recs[k], tld, operator);
    }
    if Evicts(recs[n], tld, operator) {
      assert SomeEvicts(recs, tld, operator);
    }
  }

  /** No play rewinds unless the condition holds. */
  lemma NoRewind(w: World, first: TldRecord, rest: seq<TldRecord>, play: Play)
    requires rest != [] && IsFor(rest[|rest| - 1], first.tld, first.operatorPublicKey)
    requires Rewinds(w, first, rest, play)
    ensures CanRewind(first, rest)
  {
    var n := |rest| - 1;
    var tld, operator := first.tld, first.operatorPublicKey;
    if CachePath(tld).None? {
      NobodyAsked(w, first, play.first);
      NobodyAsked(w, rest[n], play.rest[n]);
      CachedIsHeld(w, play.cache, first);
      hide FetchLive;
      hide Asks;
      hide CallRun;
    } else {
      var (after, early) := LiveMode(w, play.cache, first, play.first);
      CallHolds(w, play.cache, Call(first, play.first), tld, operator);
      CallHolds(w, CallRun(w, after, Calls(rest[..n], play.rest[..n])), Call(rest[n], play.rest[n]), tld, operator);
      RunStep(w, after, rest, play.rest);
      hide LiveMode;
      hide HeldRegistry;
      hide CachePath;
      if forall k, m :: !Evicted(rest, tld, operator, k, m) {
        RunKeepsOrLoses(w, after, rest, play.rest, tld, operator, early.value);
      }
    }
  }

  // ------------------------------------------------------------------
  // a play that rewinds
  // ------------------------------------------------------------------

  /** A registry without entries, signed by its operator. */
  function SignedRegistry(w: World, tld: string, operator: Key, version: u64): TldRegistry {
    var plain := TldRegistry(tld, version, "", operator, map[], SIGNATURE_ALGORITHM, None);
    plain.(signature := SignDoc(w, operator, RegistryDoc(plain)))
  }

  lemma SignedRegistryVerifies(w: World, tld: string, operator: Key, version: u64)
    requires Lawful(w)
    ensures RegistryVerifies(w, SignedRegistry(w, tld, operator, version), tld, operator)
  {
    var r := SignedRegistry(w, tld, operator, version);
    assert r.(signature := None) == TldRegistry(tld, version, "", operator, map[], SIGNATURE_ALGORITHM, None);
  }

  const SILENT: RegistrySources := RegistrySources([], Err(FederateError.Network))

  function Serving(registry: TldRegistry): RegistrySources {
    RegistrySources([Ok(registry)], Ok(registry))
  }

  lemma {:induction false} SilenceDecidesNothing(w: World, rec: TldRecord, i: nat)
    requires i <= |rec.registryProviders|
    ensures FirstDecisive(w, rec, SILENT.native, i).None?
    decreases |rec.registryProviders| - i
  {
    if i < |rec.registryProviders| {
      SilenceDecidesNothing(w, rec, i + 1);
    }
  }

  /** Silent sources leave the cache alone, and what it holds is returned. */
  lemma SilentCall(w: World, cache: Cache, rec: TldRecord)
    ensures var (cache', r) := LiveMode(w, cache, rec, SILENT);
            && cache' == cache
            && (HeldRegistry(w, cache, rec.tld, rec.operatorPublicKey).Some? ==>
                  r == Ok(HeldRegistry(w, cache, rec.tld, rec.operatorPublicKey).value))
  {
    SilenceDecidesNothing(w, rec, 0);
    CachedIsHeld(w, cache, rec);
    hide CachedRegistry;
    hide HeldRegistry;
  }

  /** One answer that verifies is taken when nothing is held that is newer. */
  lemma ServedCall(w: World, cache: Cache, rec: TldRecord, registry: TldRegistry)
    requires Asks(rec) && RegistryVerifies(w, registry, rec.tld, rec.operatorPublicKey)
    requires HeldRegistry(w, cache, rec.tld, rec.operatorPublicKey).None?
    ensures LiveMode(w, cache, rec, Serving(registry)) == (StoreRegistry(cache, registry), Ok(registry))
  {
    CachedIsHeld(w, cache, rec);
    hide CachedRegistry;
    hide HeldRegistry;
    hide StoreRegistry;
    assert FetchLive(w, rec, Serving(registry)) == Ok(registry) by {
      assert Answer(Serving(registry).native, 0) == Ok(registry);
    }
    hide FetchLive;
  }

  const NO_CACHE: Cache := Cache(None, None, map[], map[], map[])

  function Filed(path: string, registry: TldRegistry): Cache {
    NO_CACHE.(registries := map[path := registry])
  }

  lemma FiledIsHeld(w: World, path: string, registry: TldRegistry, tld: string, operator: Key)
    requires CachePath(tld) == Some(path)
    ensures HeldRegistry(w, Filed(path, registry), tld, operator) ==
            if RegistryVerifies(w, registry, tld, operator) then Some(registry) else None
    ensures forall other: TldRegistry :: other.tld == tld ==> StoreRegistry(Filed(path, registry), other) == Filed(path, other)
  {
    hide CachePath;
    hide RegistryVerifies;
  }

  /** The sources of a play: silent but for calls `k` and `m`. */
  function TwoServe(n: nat, k: nat, other: TldRegistry, m: nat, older: TldRegistry): seq<RegistrySources> {
    seq(n, i => if i == k then Serving(other) else if i == m then Serving(older) else SILENT)
  }

  /** Where the play has got to after its first `n` calls. */
  function Stage(n: nat, k: nat, m: nat, newer: TldRegistry, other: TldRegistry, older: TldRegistry): TldRegistry {
    if n <= k then newer else if n <= m then other else older
  }

  ghost predicate Cast(w: World, path: string, rest: seq<TldRecord>, k: nat, m: nat, tld: string, operator: Key,
                       newer: TldRegistry, other: TldRegistry, older: TldRegistry) {
    && CachePath(tld) == Some(path)
    && Evicted(rest, tld, operator, k, m)
    && RegistryVerifies(w, newer, tld, operator)
    && RegistryVerifies(w, other, rest[k].tld, rest[k].operatorPublicKey)
    && RegistryVerifies(w, older, tld, operator)
  }

  lemma StageStep(w: World, path: string, rest: seq<TldRecord>, i: nat, k: nat, m: nat, tld: string, operator: Key,
                  newer: TldRegistry, other: TldRegistry, older: TldRegistry)
    requires Cast(w, path, rest, k, m, tld, operator, newer, other, older) && i < |rest|
    ensures var (cache', r) := LiveMode(w, Filed(path, Stage(i, k, m, newer, other, older)), rest[i], TwoServe(|rest|, k, other, m, older)[i]);
            && cache' == Filed(path, Stage(i + 1, k, m, newer, other, older))
            && (m <= i && IsFor(rest[i], tld, operator) ==> r == Ok(older))
  {
    var held := Stage(i, k, m, newer, other, older);
    hide LiveMode;
    hide HeldRegistry;
    hide CachePath;
    hide StoreRegistry;
    hide Filed;
    hide Asks;
    if i == k {
      FiledIsHeld(w, path, held, rest[k].tld, rest[k].operatorPublicKey);
      ServedCall(w, Filed(path, held), rest[k], other);
    } else if i == m {
      FiledIsHeld(w, path, held, tld, operator);
      ServedCall(w, Filed(path, held), rest[m], older);
    } else {
      SilentCall(w, Filed(path, held), rest[i]);
      FiledIsHeld(w, path, held, tld, operator);
    }
  }

  lemma {:induction false} PlayRuns(w: World, path: string, rest: seq<TldRecord>, n: nat, k: nat, m: nat, tld: string, operator: Key,
                                    newer: TldRegistry, other: TldRegistry, older: TldRegistry)
    requires Cast(w, path, rest, k, m, tld, operator, newer, other, older) && n <= |rest|
    ensures var srcs := TwoServe(|rest|, k, other, m, older);
            CallRun(w, Filed(path, newer), Calls(rest[..n], srcs[..n])) == Filed(path, Stage(n, k, m, newer, other, older))
  {
    hide LiveMode;
    hide Cast;
    hide Filed;
    var srcs := TwoServe(|rest|, k, other, m, older);
    if n > 0 {
      PlayRuns(w, path, rest, n - 1, k, m, tld, operator, newer, other, older);
      StageStep(w, path, rest, n - 1, k, m, tld, operator, newer, other, older);
      RunStep(w, Filed(path, newer), rest[..n], srcs[..n]);
      assert rest[..n][..n - 1] == rest[..n - 1];
      assert srcs[..n][..n - 1] == srcs[..n - 1];
      assert rest[..n][n - 1] == rest[n - 1];
      assert srcs[..n][n - 1] == srcs[n - 1];
    }
  }

  /** A taken-over file lets an older registry through. */
  lemma CastRewinds(w: World, path: string, first: TldRecord, rest: seq<TldRecord>, k: nat, m: nat,
                    newer: TldRegistry, other: TldRegistry, older: TldRegistry) returns (play: Play)
    requires rest != [] && IsFor(rest[|rest| - 1], first.tld, first.operatorPublicKey)
    requires Cast(w, path, rest, k, m, first.tld, first.operatorPublicKey, newer, other, older)
    requires older.version < newer.version
    ensures Rewinds(w, first, rest, play)
  {
    var tld, operator, n := first.tld, first.operatorPublicKey, |rest| - 1;
    var srcs := TwoServe(|rest|, k, other, m, older);
    CastOpens(w, path, rest, k, m, tld, operator, newer, other, older);
    play := Play(Filed(path, newer), SILENT, srcs);
    FiledIsHeld(w, path, newer, tld, operator);
    SilentCall(w, play.cache, first);
    PlayRuns(w, path, rest, n, k, m, tld, operator, newer, other, older);
    StageStep(w, path, rest, n, k, m, tld, operator, newer, other, older);
    hide LiveMode;
    hide TwoServe;
    hide Cast;
    hide Filed;
    hide HeldRegistry;
    hide CallRun;
  }

  lemma CastOpens(w: World, path: string, rest: seq<TldRecord>, k: nat, m: nat, tld: string, operator: Key,
                  newer: TldRegistry, other: TldRegistry, older: TldRegistry)
    requires rest != [] && Cast(w, path, rest, k, m, tld, operator, newer, other, older)
    ensures |TwoServe(|rest|, k, other, m, older)| == |rest| && m <= |rest| - 1
    ensures CachePath(tld) == Some(path) && RegistryVerifies(w, newer, tld, operator)
  {
    hide RegistryVerifies;
    hide CachePath;
  }

  lemma TakenOverRewinds(w: World, first: TldRecord, rest: seq<TldRecord>, k: nat, m: nat) returns (play: Play)
    requires Lawful(w) && rest != [] && IsFor(rest[|rest| - 1], first.tld, first.operatorPublicKey)
    requires CachePath(first.tld).Some? && Evicted(rest, first.tld, first.operatorPublicKey, k, m)
    ensures Rewinds(w, first, rest, play)
  {
    var tld, operator := first.tld, first.operatorPublicKey;
    var newer, older := SignedRegistry(w, tld, operator, 1), SignedRegistry(w, tld, operator, 0);
    var other := SignedRegistry(w, rest[k].tld, rest[k].operatorPublicKey, 0);
    SignedRegistryVerifies(w, tld, operator, 1);
    SignedRegistryVerifies(w, tld, operator, 0);
    SignedRegistryVerifies(w, rest[k].tld, rest[k].operatorPublicKey, 0);
    hide RegistryVerifies;
    hide CachePath;
    hide Evicted;
    hide Rewinds;
    hide Lawful;
    play := CastRewinds(w, CachePath(tld).value, first, rest, k, m, newer, other, older);
  }

  /** A name without a cache file lets any order of versions through. */
  lemma UnfiledRewinds(w: World, first: TldRecord, rest: seq<TldRecord>) returns (play: Play)
    requires Lawful(w) && rest != [] && IsFor(rest[|rest| - 1], first.tld, first.operatorPublicKey)
    requires CachePath(first.tld).None? && Asks(first) && Asks(rest[|rest| - 1])
    ensures Rewinds(w, first, rest, play)
  {
    var tld, operator, n := first.tld, first.operatorPublicKey, |rest| - 1;
    var newer, older := SignedRegistry(w, tld, operator, 1), SignedRegistry(w, tld, operator, 0);
    SignedRegistryVerifies(w, tld, operator, 1);
    SignedRegistryVerifies(w, tld, operator, 0);
    play := Play(NO_CACHE, Serving(newer), seq(|rest|, i => Serving(older)));
    hide LiveMode;
    hide RegistryVerifies;
    hide CachePath;
    hide Asks;
    ServedCall(w, NO_CACHE, first, newer);
    var cache := CallRun(w, LiveMode(w, NO_CACHE, first, play.first).0, Calls(rest[..n], play.rest[..n]));
    ServedCall(w, cache, rest[n], older);
  }

  /** Exactly when the client can be made to hand out an older registry of a TLD than before,
      for any records asked about in between, the last being the TLD's own again. */
  lemma RewindExactly(w: World, first: TldRecord, rest: seq<TldRecord>)
    requires Lawful(w) && rest != [] && IsFor(rest[|rest| - 1], first.tld, first.operatorPublicKey)
    ensures (exists play :: Rewinds(w, first, rest, play)) <==> CanRewind(first, rest)
  {
    hide Rewinds;
    hide Lawful;
    hide IsFor;
    if exists play :: Rewinds(w, first, rest, play) {
      var play :| Rewinds(w, first, rest, play);
      NoRewind(w, first, rest, play);
    }
    if CanRewind(first, rest) {
      if CachePath(first.tld).None? {
        var play := UnfiledRewinds(w, first, rest);
      } else {
        var k, m :| Evicted(rest, first.tld, first.operatorPublicKey, k, m);
        var play := TakenOverRewinds(w, first, rest, k, m);
      }
    }
  }

  // ------------------------------------------------------------------
  // which names share a file
  // ------------------------------------------------------------------

  /** Names in normal form have files of their own. */
  lemma NamedPaths(a: string, b: string)
    requires IsTldName(a) && IsTldName(b)
    ensures CachePath(a) == Some(a)
    ensures CachePath(a) == CachePath(b) <==> a == b
  {
    TldNameIsLower(a);
    TldNameIsLower(b);
  }

  /** Names that are not may share one: these two do. */
  lemma SharedPath()
    ensures CachePath("foo") == CachePath("FOO") == Some("foo")
  {
    TldNameIsLower("foo");
    ShoutedName("FOO");
  }

  lemma ShoutedName(s: string)
    requires s == "FOO"
    ensures ValidateTldName(s) == Ok("foo")
  {
    TrimIdentity(s);
    assert TrimDots(s) == s;
    assert Lower(s) == "foo";
    hide Trim;
    hide TrimDots;
    hide Lower;
  }

  // ------------------------------------------------------------------
  // forgeries
  // ------------------------------------------------------------------

  /** The `i`th answer to a live fetch: the providers in order, the endpoint last. */
  function AnswerAt(rec: TldRecord, src: RegistrySources, i: nat): Result<TldRegistry> {
    if i < |rec.registryProviders| then Answer(src.native, i) else src.http
  }

  function AskedCount(rec: TldRecord): nat {
    |rec.registryProviders| + if rec.registryEndpoint.Some? then 1 else 0
  }

  /** A forged answer that the fetch reaches, from a provider or from the endpoint, ends the call
      in an error and leaves no trace. */
  lemma ForgeryIsFinal(w: World, cache: Cache, rec: TldRecord, src: RegistrySources, i: nat)
    requires i < AskedCount(rec)
    requires forall j :: 0 <= j < i ==> !Decides(Endorsed(w, rec, AnswerAt(rec, src, j)))
    requires AnswerAt(rec, src, i).Ok? && !RegistryVerifies(w, AnswerAt(rec, src, i).value, rec.tld, rec.operatorPublicKey)
    ensures LiveMode(w, cache, rec, src) == (cache, Err(VerificationFailed(RegistryLayer)))
  {
    var n := |rec.registryProviders|;
    var d := if i < n then i else n;
    forall j | 0 <= j < d
      ensures !Decides(Endorsed(w, rec, Answer(src.native, j)))
    {
      assert AnswerAt(rec, src, j) == Answer(src.native, j);
    }
    FirstDecisiveAt(w, rec, src.native, 0, d);
  }

  lemma {:induction false} FirstDecisiveAt(w: World, rec: TldRecord, answers: seq<Result<TldRegistry>>, k: nat, i: nat)
    requires k <= i <= |rec.registryProviders|
    requires forall j :: k <= j < i ==> !Decides(Endorsed(w, rec, Answer(answers, j)))
    requires i < |rec.registryProviders| ==> Decides(Endorsed(w, rec, Answer(answers, i)))
    ensures FirstDecisive(w, rec, answers, k) ==
            if i < |rec.registryProviders| then Some(Endorsed(w, rec, Answer(answers, i))) else None
    decreases i - k
  {
    if k < i {
      FirstDecisiveAt(w, rec, answers, k + 1, i);
    }
  }
}
