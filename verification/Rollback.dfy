/** No client rollback: over runs of refreshes, resolutions, crashes and restarts with a hostile
    network, root zones never go back to an older version. */
module RollbackProofs {
  import opened Prelude
  import opened Records
  import opened Text
  import opened Naming
  import opened Root
  import opened ResolverSpec
  import opened SoundnessProofs

  // ------------------------------------------------------------------
  // runs of the client
  // ------------------------------------------------------------------

  /** One event in the life of a client. A reboot loses the memory; only `Tamper` rewrites
      the cache directory behind the client's back. */
  datatype ClientStep =
    | Refresh(net: Network)
    | Ask(host: string, path: string, clock: Instant, net: Network)
    | Reboot
    | Tamper(cache: Cache)

  function ClientNext(w: World, configured: Option<Key>, c: Client, step: ClientStep): Client {
    match step
    case Refresh(net) => RefreshRoot(w, c, net).0
    case Ask(host, path, clock, net) => Resolve(w, c, host, path, clock, net).0
    case Reboot => Start(configured, c.cache)
    case Tamper(cache) => c.(cache := cache)
  }

  function ClientRun(w: World, configured: Option<Key>, c: Client, steps: seq<ClientStep>): Client {
    if steps == [] then c
    else ClientNext(w, configured, ClientRun(w, configured, c, steps[..|steps| - 1]), steps[|steps| - 1])
  }

  /** The zone a step hands out: the refreshed one, or the one a resolution works in. */
  function ZoneOut(w: World, c: Client, step: ClientStep): Option<RootZone> {
    match step
    case Refresh(net) => if RefreshRoot(w, c, net).1.Ok? then Some(RefreshRoot(w, c, net).1.value) else None
    case Ask(host, _, _, net) =>
      if ParseDomain(host).Ok? && CurrentRoot(w, c, net).1.Ok? then Some(CurrentRoot(w, c, net).1.value) else None
    case _ => None
  }

  /** With an explicitly configured anchor, every answer of every run is sound under that anchor,
      even when the cache directory is rewritten between steps. */
  lemma {:induction false} RunKeepsAnchor(w: World, key: Key, cache: Cache, steps: seq<ClientStep>)
    requires key != ""
    ensures var c := ClientRun(w, Some(key), Start(Some(key), cache), steps);
            MemoryVerified(w, c) && c.trusted == Some(key)
  {
    if steps != [] {
      var front := steps[..|steps| - 1];
      RunKeepsAnchor(w, key, cache, front);
      StepKeepsAnchor(w, key, ClientRun(w, Some(key), Start(Some(key), cache), front), steps[|steps| - 1]);
    }
  }

  lemma StepKeepsAnchor(w: World, key: Key, c: Client, step: ClientStep)
    requires key != "" && MemoryVerified(w, c) && c.trusted == Some(key)
    ensures var c' := ClientNext(w, Some(key), c, step);
            MemoryVerified(w, c') && c'.trusted == Some(key)
  {
    hide RefreshRoot;
    hide Resolve;
    match step
    case Refresh(net) => RefreshSound(w, c, net);
    case Ask(host, path, clock, net) => ResolveKeepsMemory(w, c, host, path, clock, net);
    case Reboot =>
    case Tamper(_) =>
  }

  lemma AnchorStays(c: Client, c': Client)
    requires SameAnchor(c, c') && c.trusted.Some?
    ensures c'.trusted == c.trusted
  {
  }

  /** Soundness over whole runs, hostile network and hostile disk included. */
  lemma RunServesOnlyChained(w: World, key: Key, cache: Cache, steps: seq<ClientStep>, host: string, path: string, clock: Instant, net: Network)
    returns (d: FederateDomain, ev: Evidence)
    requires key != ""
    requires var r := Resolve(w, ClientRun(w, Some(key), Start(Some(key), cache), steps), host, path, clock, net).1;
             r.Ok? && r.value.Content?
    ensures ParseDomain(host) == Ok(d)
    ensures var content := Resolve(w, ClientRun(w, Some(key), Start(Some(key), cache), steps), host, path, clock, net).1.value;
            CompleteChain(w, key, d, path, clock, ev, content.bytes, content.hash)
  {
    hide *;
    RunKeepsAnchor(w, key, cache, steps);
    var c := ClientRun(w, Some(key), Start(Some(key), cache), steps);
    d, ev := ContentIsSound(w, c, host, path, clock, net);
    ResolveKeepsMemory(w, c, host, path, clock, net);
    AnchorStays(c, Resolve(w, c, host, path, clock, net).0);
  }

  // ------------------------------------------------------------------
  // root zones
  // ------------------------------------------------------------------

  /** The zone the cache directory vouches for under this anchor. */
  ghost function Held(w: World, key: Key, cache: Cache): Option<RootZone> {
    if LoadZone(cache).Some? && ZoneVerifies(w, LoadZone(cache).value, key) then LoadZone(cache) else None
  }

  /** The anchor is in force, a restart finds it again, and memory equals disk. */
  ghost predicate Anchored(w: World, configured: Option<Key>, key: Key, c: Client) {
    && c.trusted == Some(key)
    && Start(configured, c.cache).trusted == Some(key)
    && (c.root.Some? ==> Held(w, key, c.cache) == c.root)
  }

  predicate NotOlder(a: Option<RootZone>, b: Option<RootZone>) {
    a.Some? ==> b.Some? && a.value.rootVersion <= b.value.rootVersion
  }

  /** A configured anchor holds whatever the cache directory contains. */
  lemma ConfiguredAnchors(w: World, key: Key, cache: Cache)
    requires key != ""
    ensures Anchored(w, Some(key), key, Start(Some(key), cache))
  {
  }

  /** Trust on first use anchors for good exactly when the pinned key survives being read back,
      that is when it is not empty and has no white space around it. */
  lemma FirstUseAnchors(w: World, c: Client, zone: RootZone)
    requires c.trusted.None? && c.root.None?
    requires CheckZone(w, c, zone).1.Ok?
    ensures var c' := CheckZone(w, c, zone).0; var key := zone.rootPublicKey;
            && c'.trusted == Some(key)
            && (Anchored(w, None, key, c') <==> key != "" && Trim(key) == key)
  {
  }

  lemma {:induction false} FetchedIsValid(answers: seq<Result<RootZone>>)
    ensures FirstRoot(answers).Some? ==> ZoneIsValid(FirstRoot(answers).value)
  {
    if answers != [] {
      FetchedIsValid(answers[1..]);
    }
  }

  lemma FetchRootIsValid(net: Network)
    ensures FetchRoot(net).Ok? ==> ZoneIsValid(FetchRoot(net).value)
  {
    FetchedIsValid(net.rootNative);
  }

  /** A verified zone is adopted, or something newer is kept in its place. */
  lemma AdoptHolds(w: World, configured: Option<Key>, key: Key, c: Client, zone: RootZone)
    requires Anchored(w, configured, key, c)
    requires ZoneIsValid(zone) && ZoneVerifies(w, zone, key)
    ensures var (c', r) := AdoptZone(w, c, zone);
            && Anchored(w, configured, key, c')
            && NotOlder(Held(w, key, c.cache), Held(w, key, c'.cache))
            && r.Ok? && Held(w, key, c'.cache) == Some(r.value)
  {
    hide ZoneIsValid;
    hide ZoneVerifies;
  }

  lemma FallbackHolds(w: World, configured: Option<Key>, key: Key, c: Client, failure: FederateError)
    requires Anchored(w, configured, key, c)
    ensures var (c', r) := UseCached(w, c, failure);
            && Anchored(w, configured, key, c') && c'.cache == c.cache
            && (r.Ok? ==> Held(w, key, c'.cache) == Some(r.value))
  {
    hide ZoneIsValid;
    hide ZoneVerifies;
  }

  lemma OfflineHolds(w: World, configured: Option<Key>, key: Key, c: Client, net: Network)
    requires Anchored(w, configured, key, c) && FetchRoot(net).Err?
    ensures var (c', r) := RefreshRoot(w, c, net);
            && Anchored(w, configured, key, c') && c'.cache == c.cache
            && (r.Ok? ==> Held(w, key, c'.cache) == Some(r.value))
  {
    hide ZoneIsValid;
    hide ZoneVerifies;
    hide FetchRoot;
  }

  /** One refresh, whatever is answered: memory and disk agree on a verified zone that is
      no older than what the disk vouched for before. */
  lemma RefreshHolds(w: World, configured: Option<Key>, key: Key, c: Client, net: Network)
    requires Anchored(w, configured, key, c)
    ensures var (c', r) := RefreshRoot(w, c, net);
            && Anchored(w, configured, key, c')
            && NotOlder(Held(w, key, c.cache), Held(w, key, c'.cache))
            && (r.Ok? ==> Held(w, key, c'.cache) == Some(r.value))
  {
    hide FetchRoot;
    hide UseCached;
    hide AdoptZone;
    hide Held;
    hide ZoneVerifies;
    if FetchRoot(net).Err? {
      OfflineHolds(w, configured, key, c, net);
    } else {
      var zone := FetchRoot(net).value;
      FetchRootIsValid(net);
      if VerifyZone(w, zone, key).Ok? {
        AdoptHolds(w, configured, key, c, zone);
      } else {
        FallbackHolds(w, configured, key, c, VerifyZone(w, zone, key).error);
      }
    }
  }

  lemma CurrentRootHolds(w: World, configured: Option<Key>, key: Key, c: Client, net: Network)
    requires Anchored(w, configured, key, c)
    ensures var (c', r) := CurrentRoot(w, c, net);
            && Anchored(w, configured, key, c')
            && NotOlder(Held(w, key, c.cache), Held(w, key, c'.cache))
            && (r.Ok? ==> Held(w, key, c'.cache) == Some(r.value))
  {
    hide RefreshRoot;
    RefreshHolds(w, configured, key, c, net);
  }

  /** Registries, manifests and blocks are cached beside the zone, never in its place. */
  ghost predicate SameZone(a: Cache, b: Cache) {
    a.rootZone == b.rootZone && a.trustedKey == b.trustedKey
  }

  lemma LocateKeepsZone(w: World, cache: Cache, zone: RootZone, rec: TldRecord, fqdn: string, net: Network)
    ensures SameZone(cache, LocateRecord(w, cache, zone, rec, fqdn, net).0)
  {
    hide FetchManifest;
    hide FetchLive;
    hide CachedGood;
  }

  lemma ServeKeepsZone(w: World, cache: Cache, rec: DomainRecord, fqdn: string, path: string, net: Network)
    ensures SameZone(cache, Serve(w, cache, rec, fqdn, path, net).0)
  {
    hide FetchManifest;
    hide FetchBlock;
    hide CachedGood;
    hide ReadManifest;
  }

  lemma ResolveInKeepsZone(w: World, c: Client, zone: RootZone, d: FederateDomain, path: string, clock: Instant, net: Network)
    ensures var c' := ResolveIn(w, c, zone, d, path, clock, net).0;
            SameZone(c.cache, c'.cache) && c'.root == c.root && c'.trusted == c.trusted
  {
    hide LocateRecord;
    hide Serve;
    hide TldObjection;
    hide RecordObjection;
    if d.tld in zone.tlds {
      LocateKeepsZone(w, c.cache, zone, zone.tlds[d.tld], d.Fqdn(), net);
      var (cache', located) := LocateRecord(w, c.cache, zone, zone.tlds[d.tld], d.Fqdn(), net);
      if located.Ok? {
        ServeKeepsZone(w, cache', located.value, d.Fqdn(), path, net);
      }
    }
  }

  lemma AskHolds(w: World, configured: Option<Key>, key: Key, c: Client, step: ClientStep)
    requires Anchored(w, configured, key, c) && step.Ask?
    ensures var c' := ClientNext(w, configured, c, step);
            && Anchored(w, configured, key, c')
            && NotOlder(Held(w, key, c.cache), Held(w, key, c'.cache))
            && (ZoneOut(w, c, step).Some? ==> Held(w, key, c'.cache) == ZoneOut(w, c, step))
  {
    hide CurrentRoot;
    hide ResolveIn;
    hide ParseDomain;
    if ParseDomain(step.host).Ok? {
      CurrentRootHolds(w, configured, key, c, step.net);
      var (c', zone) := CurrentRoot(w, c, step.net);
      if zone.Ok? {
        ResolveInKeepsZone(w, c', zone.value, ParseDomain(step.host).value, step.path, step.clock, step.net);
      }
    }
  }

  lemma StepHolds(w: World, configured: Option<Key>, key: Key, c: Client, step: ClientStep)
    requires Anchored(w, configured, key, c) && !step.Tamper?
    ensures var c' := ClientNext(w, configured, c, step);
            && Anchored(w, configured, key, c')
            && NotOlder(Held(w, key, c.cache), Held(w, key, c'.cache))
            && (ZoneOut(w, c, step).Some? ==> Held(w, key, c'.cache) == ZoneOut(w, c, step))
  {
    hide RefreshRoot;
    hide Resolve;
    match step
    case Refresh(net) => RefreshHolds(w, configured, key, c, net);
    case Ask(_, _, _, _) => AskHolds(w, configured, key, c, step);
    case Reboot =>
  }

  predicate Untampered(steps: seq<ClientStep>) {
    forall i :: 0 <= i < |steps| ==> !steps[i].Tamper?
  }

  /** Over any run the anchor stays, memory equals disk, and what the disk vouches for only gets newer. */
  lemma {:induction false} RunHolds(w: World, configured: Option<Key>, key: Key, c: Client, steps: seq<ClientStep>)
    requires Anchored(w, configured, key, c) && Untampered(steps)
    ensures var c' := ClientRun(w, configured, c, steps);
            && Anchored(w, configured, key, c')
            && NotOlder(Held(w, key, c.cache), Held(w, key, c'.cache))
  {
    if steps != [] {
      hide ClientNext;
      hide Anchored;
      hide Held;
      var front, last := steps[..|steps| - 1], steps[|steps| - 1];
      RunHolds(w, configured, key, c, front);
      StepHolds(w, configured, key, ClientRun(w, configured, c, front), last);
    }
  }

  lemma {:induction false} RunConcat(w: World, configured: Option<Key>, c: Client, steps: seq<ClientStep>, more: seq<ClientStep>)
    ensures ClientRun(w, configured, c, steps + more) == ClientRun(w, configured, ClientRun(w, configured, c, steps), more)
  {
    hide ClientNext;
    if more == [] {
      assert steps + more == steps;
    } else {
      var all := steps + more;
      assert all[..|all| - 1] == steps + more[..|more| - 1];
      RunConcat(w, configured, c, steps, more[..|more| - 1]);
    }
  }

  /** No rollback: whatever the network answers and however often the client crashes, a zone
      handed out later is never older than one handed out before, and both verify. */
  lemma NoRollback(w: World, configured: Option<Key>, key: Key, c: Client,
                   steps: seq<ClientStep>, first: ClientStep, between: seq<ClientStep>, second: ClientStep)
    requires Anchored(w, configured, key, c)
    requires Untampered(steps + [first] + between + [second])
    requires ZoneOut(w, ClientRun(w, configured, c, steps), first).Some?
    requires ZoneOut(w, ClientRun(w, configured, c, steps + [first] + between), second).Some?
    ensures var early := ZoneOut(w, ClientRun(w, configured, c, steps), first).value;
            var late := ZoneOut(w, ClientRun(w, configured, c, steps + [first] + between), second).value;
            && early.rootVersion <= late.rootVersion
            && ZoneVerifies(w, early, key) && ZoneVerifies(w, late, key)
  {
    hide ClientNext;
    hide ZoneOut;
    hide Anchored;
    hide Held;
    var all := steps + [first] + between + [second];
    assert Untampered(steps) && !first.Tamper? && Untampered(between) && !second.Tamper? by {
      assert forall i :: 0 <= i < |steps| ==> steps[i] == all[i];
      assert first == all[|steps|];
      assert forall i :: 0 <= i < |between| ==> between[i] == all[|steps| + 1 + i];
      assert second == all[|all| - 1];
    }
    var c0 := ClientRun(w, configured, c, steps);
    RunHolds(w, configured, key, c, steps);
    StepHolds(w, configured, key, c0, first);
    RunConcat(w, configured, c, steps, [first]);
    var c1 := ClientNext(w, configured, c0, first);
    assert ClientRun(w, configured, c0, [first]) == c1;
    RunConcat(w, configured, c, steps + [first], between);
    RunHolds(w, configured, key, c1, between);
    var c2 := ClientRun(w, configured, c1, between);
    StepHolds(w, configured, key, c2, second);
    HeldVerifies(w, key, c1.cache);
    HeldVerifies(w, key, ClientNext(w, configured, c2, second).cache);
  }

  lemma HeldVerifies(w: World, key: Key, cache: Cache)
    ensures Held(w, key, cache).Some? ==> ZoneVerifies(w, Held(w, key, cache).value, key)
  {
  }

  /** After every step the zone in memory, if any, is the one on disk. */
  lemma MemoryIsDisk(w: World, configured: Option<Key>, key: Key, c: Client, steps: seq<ClientStep>)
    requires Anchored(w, configured, key, c) && Untampered(steps)
    ensures var c' := ClientRun(w, configured, c, steps);
            c'.root.Some? ==> c'.cache.rootZone == c'.root && ZoneVerifies(w, c'.root.value, key)
  {
    RunHolds(w, configured, key, c, steps);
  }
}
