/** What the verifying client does, as functions on its memory and its cache directory
    (`federate-resolution`). Everything the network may answer is an argument. */
module ResolverSpec {
  import opened Prelude
  import opened Records
  import opened Text
  import opened Naming
  import opened Root
  import opened Manifests

  /** The data directory: nothing in it is trusted. */
  datatype Cache = Cache(
    rootZone: Option<RootZone>,
    trustedKey: Option<string>,
    registries: map<string, TldRegistry>,
    manifests: map<Hash, Bytes>,
    blocks: map<Hash, Bytes>)

  datatype Client = Client(root: Option<RootZone>, trusted: Option<Key>, cache: Cache)

  /** What each source answers, in the order it is asked; all of it may be hostile. */
  datatype ManifestSources = ManifestSources(native: seq<Result<Bytes>>, http: Result<Bytes>)

  datatype BlockSources = BlockSources(native: seq<Result<Bytes>>, http: seq<Result<Bytes>>, origin: Result<Bytes>)

  datatype RegistrySources = RegistrySources(native: seq<Result<TldRegistry>>, http: Result<TldRegistry>)

  datatype Network = Network(
    rootNative: seq<Result<RootZone>>,
    rootHttp: Result<RootZone>,
    pinnedRegistry: ManifestSources,
    registry: RegistrySources,
    manifest: ManifestSources,
    block: BlockSources)

  datatype Liveness = TldIs(tldStatus: TldStatus) | DomainIs(domainStatus: DomainStatus) | Lapsed

  datatype Resolved =
    | Content(domain: string, path: string, bytes: Bytes, hash: Hash)
    | NotFederate(host: string)
    | NoSuchTld(tld: string)
    | TldDown(tld: string, why: Liveness)
    | DelegatedDown(domain: string, tld: string)
    | NoSuchDomain(domain: string)
    | DomainDown(domain: string, why: Liveness)
    | NoSuchPath(domain: string, path: string)
    | SecurityFailure(layer: Layer)

  // ------------------------------------------------------------------
  // the root zone
  // ------------------------------------------------------------------

  function NonEmpty(key: Option<string>): Option<string> {
    if key == Some("") then None else key
  }

  /** `new`: the configured anchor, else the persisted one. */
  function Start(configured: Option<Key>, cache: Cache): Client {
    var persisted := if cache.trustedKey.Some? then Some(Trim(cache.trustedKey.value)) else None;
    Client(None, NonEmpty(if configured.Some? then configured else persisted), cache)
  }

  /** `verify_zone`: against the anchor, or trust on first use. */
  function CheckZone(w: World, c: Client, zone: RootZone): (Client, Result<()>) {
    match c.trusted
    case Some(key) => (c, VerifyZone(w, zone, key))
    case None =>
      var own := VerifyZone(w, zone, zone.rootPublicKey);
      if own.Err? then (c, own)
      else (c.(trusted := Some(zone.rootPublicKey), cache := c.cache.(trustedKey := Some(zone.rootPublicKey))), Ok(()))
  }

  /** `RootCache::load` */
  function LoadZone(cache: Cache): Option<RootZone> {
    if cache.rootZone.Some? && ZoneIsValid(cache.rootZone.value) then cache.rootZone else None
  }

  /** `last_verified_zone` */
  function LastVerified(w: World, c: Client): (Client, Option<RootZone>) {
    if c.root.Some? then (c, c.root)
    else
      match LoadZone(c.cache)
      case None => (c, None)
      case Some(cached) =>
        var (c', ok) := CheckZone(w, c, cached);
        (c', if ok.Ok? then Some(cached) else None)
  }

  /** One root answer: parsed and structurally valid, nothing more. */
  function Structural(answer: Result<RootZone>): Result<RootZone> {
    var zone :- answer;
    var _ :- ValidateZone(zone);
    Ok(zone)
  }

  function FirstRoot(answers: seq<Result<RootZone>>): Option<RootZone> {
    if answers == [] then None
    else if Structural(answers[0]).Ok? then Some(answers[0].value)
    else FirstRoot(answers[1..])
  }

  /** `fetch_root_network` */
  function FetchRoot(net: Network): Result<RootZone> {
    match FirstRoot(net.rootNative)
    case Some(zone) => Ok(zone)
    case None => Structural(net.rootHttp)
  }

  /** The fallback of a refresh: the cached zone, if it still verifies. */
  function UseCached(w: World, c: Client, failure: FederateError): (Client, Result<RootZone>) {
    match LoadZone(c.cache)
    case None => (c, Err(failure))
    case Some(cached) =>
      var (c', ok) := CheckZone(w, c, cached);
      if ok.Ok? then (c'.(root := Some(cached)), Ok(cached)) else (c', Err(failure))
  }

  /** A fetched zone that verifies: kept unless something newer is already known. */
  function AdoptZone(w: World, c: Client, zone: RootZone): (Client, Result<RootZone>) {
    var (c', known) := LastVerified(w, c);
    if known.Some? && zone.rootVersion < known.value.rootVersion then (c'.(root := known), Ok(known.value))
    else (c'.(root := Some(zone), cache := c'.cache.(rootZone := Some(zone))), Ok(zone))
  }

  /** `refresh_root` */
  function RefreshRoot(w: World, c: Client, net: Network): (Client, Result<RootZone>) {
    match FetchRoot(net)
    case Ok(zone) =>
      var (c', ok) := CheckZone(w, c, zone);
      if ok.Err? then UseCached(w, c', ok.error) else AdoptZone(w, c', zone)
    case Err(_) =>
      match LoadZone(c.cache)
      case None => (c, Err(RootUnavailable))
      case Some(cached) =>
        var (c', ok) := CheckZone(w, c, cached);
        if ok.Err? then (c', Err(ok.error)) else (c'.(root := Some(cached)), Ok(cached))
  }

  /** `root`: memory first. */
  function CurrentRoot(w: World, c: Client, net: Network): (Client, Result<RootZone>) {
    if c.root.Some? then (c, Ok(c.root.value)) else RefreshRoot(w, c, net)
  }

  // ------------------------------------------------------------------
  // content-addressed fetches
  // ------------------------------------------------------------------

  function Hashed(w: World, h: Hash, answer: Result<Bytes>): Result<Bytes> {
    var bytes :- answer;
    var _ :- VerifyBytes(w, bytes, h);
    Ok(bytes)
  }

  /** The first answer that hashes to what was asked for; the others are skipped. */
  function FirstGood(w: World, h: Hash, answers: seq<Result<Bytes>>): Option<Bytes> {
    if answers == [] then None
    else if Hashed(w, h, answers[0]).Ok? then Some(answers[0].value)
    else FirstGood(w, h, answers[1..])
  }

  /** `fetch_manifest_network` */
  function FetchManifest(w: World, h: Hash, src: ManifestSources): Result<Bytes> {
    match FirstGood(w, h, src.native)
    case Some(bytes) => Ok(bytes)
    case None => Hashed(w, h, src.http)
  }

  predicate CachedGood(w: World, store: map<Hash, Bytes>, h: Hash) {
    h in store && VerifyBytes(w, store[h], h).Ok?
  }

  /** `manifest_bytes` */
  function ManifestBytes(w: World, cache: Cache, h: Hash, src: ManifestSources): (Cache, Result<Bytes>) {
    if !w.isHash(h) then (cache, Err(ManifestNotFound(h)))
    else if CachedGood(w, cache.manifests, h) then (cache, Ok(cache.manifests[h]))
    else
      var evicted := cache.(manifests := cache.manifests - {h});
      match FetchManifest(w, h, src)
      case Err(e) => (evicted, Err(e))
      case Ok(bytes) => (evicted.(manifests := evicted.manifests[h := bytes]), Ok(bytes))
  }

  /** What a manifest parses to, once structurally valid. */
  function ReadManifest(w: World, bytes: Bytes): Result<Manifest> {
    match w.parseManifest(bytes)
    case None => Err(Serde)
    case Some(m) =>
      var _ :- ValidateManifest(m);
      Ok(m)
  }

  /** `manifest` */
  function SiteManifest(w: World, cache: Cache, h: Hash, src: ManifestSources): (Cache, Result<Manifest>) {
    var (cache', got) := ManifestBytes(w, cache, h, src);
    (cache', if got.Err? then Err(got.error) else ReadManifest(w, got.value))
  }

  /** The three network passes of `block_traced`. */
  function FetchBlock(w: World, h: Hash, src: BlockSources): Result<Bytes> {
    match FirstGood(w, h, src.native)
    case Some(bytes) => Ok(bytes)
    case None =>
      match FirstGood(w, h, src.http)
      case Some(bytes) => Ok(bytes)
      case None => if !w.isHash(h) then Err(BlockNotFound(h)) else Hashed(w, h, src.origin)
  }

  /** `block_traced`: a tampered cache entry is overwritten by the next good fetch. */
  function Block(w: World, cache: Cache, h: Hash, src: BlockSources): (Cache, Result<Bytes>) {
    if CachedGood(w, cache.blocks, h) then (cache, Ok(cache.blocks[h]))
    else
      match FetchBlock(w, h, src)
      case Err(e) => (cache, Err(e))
      case Ok(bytes) => (cache.(blocks := cache.blocks[h := bytes]), Ok(bytes))
  }

  // ------------------------------------------------------------------
  // delegated registries
  // ------------------------------------------------------------------

  /** One registry answer, checked under the operator of the TLD record. */
  function Endorsed(w: World, rec: TldRecord, answer: Result<TldRegistry>): Result<TldRegistry> {
    var registry :- answer;
    var _ :- VerifyRegistry(w, registry, rec.tld, rec.operatorPublicKey);
    Ok(registry)
  }

  function Answer<T>(answers: seq<Result<T>>, i: nat): Result<T> {
    if i < |answers| then answers[i] else Err(FederateError.Network)
  }

  /** An answer that ends the provider loop: a good one, or a forged one. */
  predicate Decides<T>(r: Result<T>) {
    r.Ok? || r.error.VerificationFailed?
  }

  function FirstDecisive(w: World, rec: TldRecord, answers: seq<Result<TldRegistry>>, i: nat): Option<Result<TldRegistry>>
    requires i <= |rec.registryProviders|
    decreases |rec.registryProviders| - i
  {
    if i == |rec.registryProviders| then None
    else if Decides(Endorsed(w, rec, Answer(answers, i))) then Some(Endorsed(w, rec, Answer(answers, i)))
    else FirstDecisive(w, rec, answers, i + 1)
  }

  /** `fetch_registry_live` */
  function FetchLive(w: World, rec: TldRecord, src: RegistrySources): Result<TldRegistry> {
    match FirstDecisive(w, rec, src.native, 0)
    case Some(r) => r
    case None =>
      if rec.registryEndpoint.Some? && Decides(Endorsed(w, rec, src.http)) then Endorsed(w, rec, src.http)
      else Err(DelegatedRegistryUnavailable(rec.tld))
  }

  /** `registry_cache_path` */
  function CachePath(tld: string): Option<string> {
    if ValidateTldName(tld).Ok? then Some(ValidateTldName(tld).value) else None
  }

  /** `cached_registry`: verified again under the operator of the day. */
  function CachedRegistry(w: World, cache: Cache, rec: TldRecord): Option<TldRegistry> {
    match CachePath(rec.tld)
    case None => None
    case Some(path) =>
      if path in cache.registries && VerifyRegistry(w, cache.registries[path], rec.tld, rec.operatorPublicKey).Ok?
      then Some(cache.registries[path]) else None
  }

  /** `store_registry` */
  function StoreRegistry(cache: Cache, registry: TldRegistry): Cache {
    match CachePath(registry.tld)
    case None => cache
    case Some(path) => cache.(registries := cache.registries[path := registry])
  }

  function PinnedMode(w: World, cache: Cache, rec: TldRecord, src: ManifestSources): (Cache, Result<TldRegistry>) {
    match rec.registryManifestHash
    case None => (cache, Err(DelegatedRegistryUnavailable(rec.tld)))
    case Some(h) =>
      var (cache', got) := ManifestBytes(w, cache, h, src);
      (cache',
       match got
       case Err(e) => Err(if e.HashMismatch? || e.VerificationFailed? then e else DelegatedRegistryUnavailable(rec.tld))
       case Ok(bytes) =>
         match w.parseRegistry(bytes)
         case None => Err(VerificationFailed(RegistryLayer))
         case Some(registry) => Endorsed(w, rec, Ok(registry)))
  }

  function LiveMode(w: World, cache: Cache, rec: TldRecord, src: RegistrySources): (Cache, Result<TldRegistry>) {
    var cached := CachedRegistry(w, cache, rec);
    match FetchLive(w, rec, src)
    case Ok(registry) =>
      if cached.Some? && registry.version < cached.value.version then (cache, Ok(cached.value))
      else (StoreRegistry(cache, registry), Ok(registry))
    case Err(e) =>
      if e.VerificationFailed? || cached.None? then (cache, Err(e)) else (cache, Ok(cached.value))
  }

  predicate IsLive(t: RegistryType) {
    t.DelegatedNative? || t.DelegatedHttp?
  }

  /** `tld_registry` */
  function RegistryOf(w: World, cache: Cache, rec: TldRecord, net: Network): (Cache, Result<TldRegistry>) {
    if rec.registryType.DelegatedManifest? then PinnedMode(w, cache, rec, net.pinnedRegistry)
    else if IsLive(rec.registryType) then LiveMode(w, cache, rec, net.registry)
    else (cache, Err(DelegatedRegistryUnavailable(rec.tld)))
  }

  function Listed(domains: map<string, DomainRecord>, fqdn: string): Result<DomainRecord> {
    if fqdn in domains then Ok(domains[fqdn]) else Err(DomainNotFound(fqdn))
  }

  /** `locate_record` */
  function LocateRecord(w: World, cache: Cache, zone: RootZone, rec: TldRecord, fqdn: string, net: Network): (Cache, Result<DomainRecord>) {
    if rec.registryType.RootManaged? then (cache, Listed(zone.domains, fqdn))
    else
      var (cache', got) := RegistryOf(w, cache, rec, net);
      (cache', if got.Err? then Err(got.error) else Listed(got.value.domains, fqdn))
  }

  // ------------------------------------------------------------------
  // resolution
  // ------------------------------------------------------------------

  /** Why a TLD record stops resolution, if it does. */
  function TldObjection(w: World, rec: TldRecord, tld: string, anchor: Key, clock: Instant): Option<Resolved> {
    if !TldVerifies(w, rec, anchor) then Some(SecurityFailure(TldLayer))
    else if !rec.status.IsResolvable() then Some(TldDown(tld, TldIs(rec.status)))
    else if HasExpired(w, rec.expiresAt, clock) then Some(TldDown(tld, Lapsed))
    else None
  }

  /** Why a domain record stops resolution, if it does. */
  function RecordObjection(w: World, rec: DomainRecord, operator: Key, d: FederateDomain, clock: Instant): Option<Resolved> {
    if VerifyDomain(w, rec, operator).Err? then Some(SecurityFailure(DomainLayer))
    else if rec.tld != d.tld then Some(SecurityFailure(DomainLayer))
    else if !rec.status.IsResolvable() then Some(DomainDown(d.Fqdn(), DomainIs(rec.status)))
    else if HasExpired(w, rec.expiresAt, clock) then Some(DomainDown(d.Fqdn(), Lapsed))
    else None
  }

  /** How a failure to locate the record is reported. */
  function LocateFailure(e: FederateError, fqdn: string): Result<Resolved> {
    match e
    case DomainNotFound(_) => Ok(NoSuchDomain(fqdn))
    case VerificationFailed(layer) => Ok(SecurityFailure(layer))
    case HashMismatch(_) => Ok(SecurityFailure(RegistryLayer))
    case DelegatedRegistryUnavailable(tld) => Ok(DelegatedDown(fqdn, tld))
    case _ => Err(e)
  }

  function HashFailure(e: FederateError, layer: Layer): Result<Resolved> {
    if e.HashMismatch? then Ok(SecurityFailure(layer)) else Err(e)
  }

  /** Steps 8 and 9: manifest, path, block. */
  function Serve(w: World, cache: Cache, rec: DomainRecord, fqdn: string, path: string, net: Network): (Cache, Result<Resolved>) {
    var (cache', got) := SiteManifest(w, cache, rec.manifestHash, net.manifest);
    if got.Err? then (cache', HashFailure(got.error, ManifestLayer))
    else if VerifyManifest(w, got.value, fqdn, rec.ownerPublicKey).Err? then (cache', Ok(SecurityFailure(ManifestLayer)))
    else
      match ResolvePath(got.value, path)
      case None => (cache', Ok(NoSuchPath(fqdn, path)))
      case Some((_, h)) =>
        var (cache'', bytes) := Block(w, cache', h, net.block);
        (cache'', if bytes.Err? then HashFailure(bytes.error, ContentLayer) else Ok(Content(fqdn, path, bytes.value, h)))
  }

  /** Steps 6 and 7, then the site itself. */
  function ResolveUnder(w: World, cache: Cache, zone: RootZone, tldRec: TldRecord, d: FederateDomain, path: string, clock: Instant, net: Network): (Cache, Result<Resolved>) {
    var (cache', located) := LocateRecord(w, cache, zone, tldRec, d.Fqdn(), net);
    if located.Err? then (cache', LocateFailure(located.error, d.Fqdn()))
    else
      var objection := RecordObjection(w, located.value, tldRec.operatorPublicKey, d, clock);
      if objection.Some? then (cache', Ok(objection.value))
      else Serve(w, cache', located.value, d.Fqdn(), path, net)
  }

  /** Steps 4 and 5. */
  function ResolveIn(w: World, c: Client, zone: RootZone, d: FederateDomain, path: string, clock: Instant, net: Network): (Client, Result<Resolved>) {
    if d.tld !in zone.tlds then (c, Ok(NoSuchTld(d.tld)))
    else
      var rec := zone.tlds[d.tld];
      var objection := TldObjection(w, rec, d.tld, if c.trusted.Some? then c.trusted.value else "", clock);
      if objection.Some? then (c, Ok(objection.value))
      else
        var (cache', r) := ResolveUnder(w, c.cache, zone, rec, d, path, clock, net);
        (c.(cache := cache'), r)
  }

  /** `resolve_traced_inner` */
  function Resolve(w: World, c: Client, host: string, path: string, clock: Instant, net: Network): (Client, Result<Resolved>) {
    match ParseDomain(host)
    case Err(_) => (c, Ok(NotFederate(host)))
    case Ok(d) =>
      var (c', zone) := CurrentRoot(w, c, net);
      if zone.Err? then
        (c', if zone.error.VerificationFailed? then Ok(SecurityFailure(zone.error.layer)) else Err(zone.error))
      else ResolveIn(w, c', zone.value, d, path, clock, net)
  }
}
