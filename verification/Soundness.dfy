/** The client never serves content without a complete chain of signatures and hashes,
    whatever the network answers and whatever lies in its cache directory. */
module SoundnessProofs {
  import opened Prelude
  import opened Records
  import opened Naming
  import opened Root
  import opened Manifests
  import opened ResolverSpec

  /** The zone in memory was verified under the anchor in memory. */
  ghost predicate MemoryVerified(w: World, c: Client) {
    c.root.Some? ==> c.trusted.Some? && ZoneVerifies(w, c.root.value, c.trusted.value)
  }

  /** An anchor once set stays. */
  ghost predicate SameAnchor(c: Client, c': Client) {
    c.trusted.Some? ==> c'.trusted == c.trusted
  }

  // ------------------------------------------------------------------
  // what the chain is
  // ------------------------------------------------------------------

  /** An operator-signed registry of the TLD lists the record under this name. */
  ghost predicate RegistryLists(w: World, tldRec: TldRecord, registry: TldRegistry, fqdn: string, rec: DomainRecord) {
    && RegistryVerifies(w, registry, tldRec.tld, tldRec.operatorPublicKey)
    && fqdn in registry.domains
    && registry.domains[fqdn] == rec
  }

  /** The root-signed TLD record pins exactly this registry document. */
  ghost predicate PinnedBy(w: World, tldRec: TldRecord, bytes: Bytes, registry: TldRegistry) {
    tldRec.registryManifestHash == Some(w.hash(bytes)) && w.parseRegistry(bytes) == Some(registry)
  }

  /** Where the record may come from, by registry mode. */
  ghost predicate RecordBacked(w: World, zone: RootZone, tldRec: TldRecord, fqdn: string, rec: DomainRecord) {
    match tldRec.registryType
    case RootManaged => fqdn in zone.domains && zone.domains[fqdn] == rec
    case OfflineManual => false
    case DelegatedManifest => exists bytes, registry :: PinnedBy(w, tldRec, bytes, registry) && RegistryLists(w, tldRec, registry, fqdn, rec)
    case _ => exists registry :: RegistryLists(w, tldRec, registry, fqdn, rec)
  }

  ghost predicate TldLive(w: World, zone: RootZone, tld: string, anchor: Key, clock: Instant) {
    && tld in zone.tlds
    && TldVerifies(w, zone.tlds[tld], anchor)
    && zone.tlds[tld].status.IsResolvable()
    && !HasExpired(w, zone.tlds[tld].expiresAt, clock)
  }

  ghost predicate RecordLive(w: World, rec: DomainRecord, operator: Key, tld: string, clock: Instant) {
    && rec.domain == rec.hostLabel + "." + rec.tld
    && SignatureOk(w, operator, DomainDoc(rec.(signature := None)), rec.signature)
    && rec.tld == tld
    && rec.status.Active?
    && !HasExpired(w, rec.expiresAt, clock)
  }

  /** The manifest the record names, signed by the record's owner for exactly this name. */
  ghost predicate ManifestNamed(w: World, rec: DomainRecord, fqdn: string, raw: Bytes, m: Manifest) {
    && w.hash(raw) == rec.manifestHash
    && w.parseManifest(raw) == Some(m)
    && m.entry in m.files
    && ManifestVerifies(w, m, fqdn, rec.ownerPublicKey)
  }

  datatype Evidence = Evidence(zone: RootZone, record: DomainRecord, rawManifest: Bytes, manifest: Manifest, file: string)

  /** The complete chain behind served bytes, link by link from the trust anchor down. */
  ghost predicate CompleteChain(w: World, anchor: Key, d: FederateDomain, path: string, clock: Instant, ev: Evidence, bytes: Bytes, h: Hash) {
    && ZoneVerifies(w, ev.zone, anchor)
    && TldLive(w, ev.zone, d.tld, anchor, clock)
    && var tldRec := ev.zone.tlds[d.tld];
    && RecordBacked(w, ev.zone, tldRec, d.Fqdn(), ev.record)
    && RecordLive(w, ev.record, tldRec.operatorPublicKey, d.tld, clock)
    && ManifestNamed(w, ev.record, d.Fqdn(), ev.rawManifest, ev.manifest)
    && ev.file in Candidates(ev.manifest, path)
    && ev.file in ev.manifest.files
    && ev.manifest.files[ev.file] == h
    && w.hash(bytes) == h
  }

  // ------------------------------------------------------------------
  // link by link
  // ------------------------------------------------------------------

  lemma {:induction false} FirstGoodHashes(w: World, h: Hash, answers: seq<Result<Bytes>>)
    ensures FirstGood(w, h, answers).Some? ==> w.hash(FirstGood(w, h, answers).value) == h
    ensures FirstGood(w, h, answers).Some? <==> exists i :: 0 <= i < |answers| && Hashed(w, h, answers[i]).Ok?
  {
    if answers != [] {
      var rest := answers[1..];
      FirstGoodHashes(w, h, rest);
      if Hashed(w, h, answers[0]).Err? && FirstGood(w, h, rest).Some? {
        var i :| 0 <= i < |rest| && Hashed(w, h, rest[i]).Ok?;
        assert Hashed(w, h, answers[i + 1]).Ok?;
      }
      forall i | 0 <= i < |answers| && Hashed(w, h, answers[i]).Ok?
        ensures FirstGood(w, h, answers).Some?
      {
        if i > 0 {
          assert rest[i - 1] == answers[i];
        }
      }
    }
  }

  lemma ManifestBytesHash(w: World, cache: Cache, h: Hash, src: ManifestSources)
    ensures var r := ManifestBytes(w, cache, h, src).1;
            r.Ok? ==> w.hash(r.value) == h
  {
    FirstGoodHashes(w, h, src.native);
  }

  lemma BlockHashes(w: World, cache: Cache, h: Hash, src: BlockSources)
    ensures var r := Block(w, cache, h, src).1;
            r.Ok? ==> w.hash(r.value) == h
  {
    FirstGoodHashes(w, h, src.native);
    FirstGoodHashes(w, h, src.http);
  }

  lemma {:induction false} FirstDecisiveVerifies(w: World, rec: TldRecord, answers: seq<Result<TldRegistry>>, i: nat)
    requires i <= |rec.registryProviders|
    ensures var r := FirstDecisive(w, rec, answers, i);
            r.Some? && r.value.Ok? ==> RegistryVerifies(w, r.value.value, rec.tld, rec.operatorPublicKey)
    decreases |rec.registryProviders| - i
  {
    if i < |rec.registryProviders| {
      FirstDecisiveVerifies(w, rec, answers, i + 1);
    }
  }

  lemma FetchLiveVerifies(w: World, rec: TldRecord, src: RegistrySources)
    ensures var r := FetchLive(w, rec, src);
            r.Ok? ==> RegistryVerifies(w, r.value, rec.tld, rec.operatorPublicKey)
  {
    FirstDecisiveVerifies(w, rec, src.native, 0);
  }

  lemma LiveModeVerifies(w: World, cache: Cache, rec: TldRecord, src: RegistrySources)
    ensures var r := LiveMode(w, cache, rec, src).1;
            r.Ok? ==> RegistryVerifies(w, r.value, rec.tld, rec.operatorPublicKey)
  {
    hide FetchLive;
    hide CachePath;
    FetchLiveVerifies(w, rec, src);
  }

  lemma PinnedModeVerifies(w: World, cache: Cache, rec: TldRecord, src: ManifestSources) returns (bytes: Bytes)
    requires PinnedMode(w, cache, rec, src).1.Ok?
    ensures var registry := PinnedMode(w, cache, rec, src).1.value;
            && PinnedBy(w, rec, bytes, registry)
            && RegistryVerifies(w, registry, rec.tld, rec.operatorPublicKey)
  {
    ManifestBytesHash(w, cache, rec.registryManifestHash.value, src);
    bytes := ManifestBytes(w, cache, rec.registryManifestHash.value, src).1.value;
  }

  lemma LocatedIsBacked(w: World, cache: Cache, zone: RootZone, rec: TldRecord, fqdn: string, net: Network)
    requires LocateRecord(w, cache, zone, rec, fqdn, net).1.Ok?
    ensures RecordBacked(w, zone, rec, fqdn, LocateRecord(w, cache, zone, rec, fqdn, net).1.value)
  {
    if !rec.registryType.RootManaged? {
      var registry := RegistryOf(w, cache, rec, net).1.value;
      if rec.registryType.DelegatedManifest? {
        var bytes := PinnedModeVerifies(w, cache, rec, net.pinnedRegistry);
        assert PinnedBy(w, rec, bytes, registry);
      } else {
        LiveModeVerifies(w, cache, rec, net.registry);
      }
      assert RegistryLists(w, rec, registry, fqdn, registry.domains[fqdn]);
    }
  }

  /** What verifying a zone does to memory and anchor. */
  lemma CheckZoneSound(w: World, c: Client, zone: RootZone)
    requires MemoryVerified(w, c)
    ensures var (c', ok) := CheckZone(w, c, zone);
            && MemoryVerified(w, c') && SameAnchor(c, c')
            && c'.root == c.root && c'.cache.rootZone == c.cache.rootZone
            && (ok.Ok? ==> c'.trusted.Some? && ZoneVerifies(w, zone, c'.trusted.value))
  {
  }

  lemma LastVerifiedSound(w: World, c: Client)
    requires MemoryVerified(w, c)
    ensures var (c', known) := LastVerified(w, c);
            && MemoryVerified(w, c') && SameAnchor(c, c') && c'.root == c.root
            && (known.Some? ==> c'.trusted.Some? && ZoneVerifies(w, known.value, c'.trusted.value))
  {
  }

  lemma RefreshSound(w: World, c: Client, net: Network)
    requires MemoryVerified(w, c)
    ensures var (c', r) := RefreshRoot(w, c, net);
            && MemoryVerified(w, c') && SameAnchor(c, c')
            && (r.Ok? ==> c'.root == Some(r.value))
  {
    if FetchRoot(net).Ok? {
      var zone := FetchRoot(net).value;
      CheckZoneSound(w, c, zone);
      var (c', ok) := CheckZone(w, c, zone);
      if ok.Ok? {
        LastVerifiedSound(w, c');
      } else if LoadZone(c'.cache).Some? {
        CheckZoneSound(w, c', LoadZone(c'.cache).value);
      }
    } else if LoadZone(c.cache).Some? {
      CheckZoneSound(w, c, LoadZone(c.cache).value);
    }
  }

  lemma CurrentRootSound(w: World, c: Client, net: Network)
    requires MemoryVerified(w, c)
    ensures var (c', r) := CurrentRoot(w, c, net);
            && MemoryVerified(w, c') && SameAnchor(c, c')
            && (r.Ok? ==> c'.root == Some(r.value))
  {
    RefreshSound(w, c, net);
  }

  /** The last two links: manifest and block. */
  lemma ServedIsNamed(w: World, cache: Cache, rec: DomainRecord, fqdn: string, path: string, net: Network)
    returns (raw: Bytes, m: Manifest, file: string)
    requires var r := Serve(w, cache, rec, fqdn, path, net).1; r.Ok? && r.value.Content?
    ensures ManifestNamed(w, rec, fqdn, raw, m)
    ensures var content := Serve(w, cache, rec, fqdn, path, net).1.value;
            && content.domain == fqdn && content.path == path
            && file in Candidates(m, path) && file in m.files
            && m.files[file] == content.hash && w.hash(content.bytes) == content.hash
  {
    ManifestBytesHash(w, cache, rec.manifestHash, net.manifest);
    var (cache', got) := ManifestBytes(w, cache, rec.manifestHash, net.manifest);
    raw := got.value;
    m := ReadManifest(w, raw).value;
    var named := ResolvePath(m, path).value;
    file := named.0;
    BlockHashes(w, cache', named.1, net.block);
  }

  lemma ResolvedUnderIsChained(w: World, cache: Cache, zone: RootZone, d: FederateDomain, anchor: Key, path: string, clock: Instant, net: Network)
    returns (ev: Evidence)
    requires ZoneVerifies(w, zone, anchor) && TldLive(w, zone, d.tld, anchor, clock)
    requires var r := ResolveUnder(w, cache, zone, zone.tlds[d.tld], d, path, clock, net).1; r.Ok? && r.value.Content?
    ensures var content := ResolveUnder(w, cache, zone, zone.tlds[d.tld], d, path, clock, net).1.value;
            && content.domain == d.Fqdn() && content.path == path
            && CompleteChain(w, anchor, d, path, clock, ev, content.bytes, content.hash)
  {
    var tldRec := zone.tlds[d.tld];
    var (cache', located) := LocateRecord(w, cache, zone, tldRec, d.Fqdn(), net);
    LocatedIsBacked(w, cache, zone, tldRec, d.Fqdn(), net);
    hide RecordBacked;
    var raw, m, file := ServedIsNamed(w, cache', located.value, d.Fqdn(), path, net);
    ev := Evidence(zone, located.value, raw, m, file);
    RecordUnobjectionable(w, located.value, tldRec.operatorPublicKey, d, clock);
  }

  lemma RecordUnobjectionable(w: World, rec: DomainRecord, operator: Key, d: FederateDomain, clock: Instant)
    ensures RecordObjection(w, rec, operator, d, clock).None? <==> RecordLive(w, rec, operator, d.tld, clock)
    ensures RecordObjection(w, rec, operator, d, clock).Some? ==> !RecordObjection(w, rec, operator, d, clock).value.Content?
  {
  }

  lemma TldUnobjectionable(w: World, zone: RootZone, tld: string, anchor: Key, clock: Instant)
    requires tld in zone.tlds
    ensures TldObjection(w, zone.tlds[tld], tld, anchor, clock).None? <==> TldLive(w, zone, tld, anchor, clock)
    ensures TldObjection(w, zone.tlds[tld], tld, anchor, clock).Some? ==> !TldObjection(w, zone.tlds[tld], tld, anchor, clock).value.Content?
  {
  }

  lemma ResolveInKeepsMemory(w: World, c: Client, zone: RootZone, d: FederateDomain, path: string, clock: Instant, net: Network)
    ensures var c' := ResolveIn(w, c, zone, d, path, clock, net).0;
            c'.root == c.root && c'.trusted == c.trusted
  {
    hide ResolveUnder;
    hide TldObjection;
  }

  /** A resolution never touches memory or anchor except through the root zone. */
  lemma ResolveKeepsMemory(w: World, c: Client, host: string, path: string, clock: Instant, net: Network)
    requires MemoryVerified(w, c)
    ensures var c' := Resolve(w, c, host, path, clock, net).0;
            MemoryVerified(w, c') && SameAnchor(c, c')
  {
    hide CurrentRoot;
    hide ResolveIn;
    hide ParseDomain;
    hide ZoneVerifies;
    CurrentRootSound(w, c, net);
    var (c', zone) := CurrentRoot(w, c, net);
    if ParseDomain(host).Ok? && zone.Ok? {
      ResolveInKeepsMemory(w, c', zone.value, ParseDomain(host).value, path, clock, net);
    }
  }

  /** Soundness: for arbitrary answers and arbitrary cache contents, content is returned only
      for the parsed name and the asked path, and only with the complete chain behind it. */
  lemma ContentIsSound(w: World, c: Client, host: string, path: string, clock: Instant, net: Network)
    returns (d: FederateDomain, ev: Evidence)
    requires MemoryVerified(w, c)
    requires var r := Resolve(w, c, host, path, clock, net).1; r.Ok? && r.value.Content?
    ensures ParseDomain(host) == Ok(d)
    ensures var (c', r) := Resolve(w, c, host, path, clock, net);
            && c'.trusted.Some?
            && r.value.domain == d.Fqdn() && r.value.path == path
            && CompleteChain(w, c'.trusted.value, d, path, clock, ev, r.value.bytes, r.value.hash)
  {
    hide CurrentRoot;
    hide ResolveUnder;
    hide CompleteChain;
    hide TldObjection;
    hide ParseDomain;
    d := ParseDomain(host).value;
    CurrentRootSound(w, c, net);
    var (c', zone) := CurrentRoot(w, c, net);
    assert ZoneVerifies(w, zone.value, c'.trusted.value);
    TldUnobjectionable(w, zone.value, d.tld, c'.trusted.value, clock);
    ev := ResolvedUnderIsChained(w, c'.cache, zone.value, d, c'.trusted.value, path, clock, net);
  }

  // ------------------------------------------------------------------
  // availability
  // ------------------------------------------------------------------

  ghost predicate SomeGood(w: World, h: Hash, answers: seq<Result<Bytes>>) {
    exists i :: 0 <= i < |answers| && Hashed(w, h, answers[i]).Ok?
  }

  /** One honest source, or a good cached copy. */
  ghost predicate CanGetManifest(w: World, cache: Cache, h: Hash, src: ManifestSources) {
    CachedGood(w, cache.manifests, h) || SomeGood(w, h, src.native) || Hashed(w, h, src.http).Ok?
  }

  ghost predicate CanGetBlock(w: World, cache: Cache, h: Hash, src: BlockSources) {
    || CachedGood(w, cache.blocks, h)
    || SomeGood(w, h, src.native)
    || SomeGood(w, h, src.http)
    || Hashed(w, h, src.origin).Ok?
  }

  /** However many sources lie, one good one is enough; and nothing else will do. */
  lemma ManifestObtainable(w: World, cache: Cache, h: Hash, src: ManifestSources)
    ensures ManifestBytes(w, cache, h, src).1.Ok? <==> CanGetManifest(w, cache, h, src)
  {
    FirstGoodHashes(w, h, src.native);
  }

  lemma BlockObtainable(w: World, cache: Cache, h: Hash, src: BlockSources)
    ensures Block(w, cache, h, src).1.Ok? <==> CanGetBlock(w, cache, h, src)
  {
    FirstGoodHashes(w, h, src.native);
    FirstGoodHashes(w, h, src.http);
  }

  /** One address, one content: two clients that get bytes for the same address get the same
      bytes, whatever lies in their caches and whichever sources answered them. */
  lemma ClientsAgree(w: World, cache: Cache, src: ManifestSources, blockSrc: BlockSources,
                     cache': Cache, src': ManifestSources, blockSrc': BlockSources, h: Hash)
    requires Lawful(w)
    ensures var a, b := ManifestBytes(w, cache, h, src).1, ManifestBytes(w, cache', h, src').1; a.Ok? && b.Ok? ==> a == b
    ensures var a, b := Block(w, cache, h, blockSrc).1, Block(w, cache', h, blockSrc').1; a.Ok? && b.Ok? ==> a == b
  {
    hide ManifestBytes;
    hide Block;
    ManifestBytesHash(w, cache, h, src);
    ManifestBytesHash(w, cache', h, src');
    BlockHashes(w, cache, h, blockSrc);
    BlockHashes(w, cache', h, blockSrc');
  }
}
