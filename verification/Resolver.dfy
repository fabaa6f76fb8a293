/** The verifying client as it runs (`federate-resolution`): memory fields overwritten, cache
    files rewritten, sources tried in turn with early exit. Each method is proved against
    `ResolverSpec`. */
module ResolverEngine {
  import opened Prelude
  import opened Records
  import opened Naming
  import opened Text
  import opened Root
  import opened Manifests
  import opened ResolverSpec

  /** The data directory, which outlives the process. */
  class CacheDir {
    var rootZone: Option<RootZone>
    var trustedKey: Option<string>
    var registries: map<string, TldRegistry>
    var manifests: map<Hash, Bytes>
    var blocks: map<Hash, Bytes>

    ghost function Contents(): Cache
      reads this
    {
      Cache(rootZone, trustedKey, registries, manifests, blocks)
    }

    constructor ()
      ensures Contents() == Cache(None, None, map[], map[], map[])
    {
      rootZone, trustedKey, registries, manifests, blocks := None, None, map[], map[], map[];
    }
  }

  class Resolver {
    const w: World
    const disk: CacheDir
    var root: Option<RootZone>
    var trustedRootKey: Option<Key>

    ghost function State(): Client
      reads this, disk
    {
      Client(root, trustedRootKey, disk.Contents())
    }

    /** `new` */
    constructor (w: World, disk: CacheDir, configured: Option<Key>)
      ensures this.w == w && this.disk == disk
      ensures State() == Start(configured, disk.Contents())
    {
      this.w, this.disk := w, disk;
      root := None;
      var persisted := if disk.trustedKey.Some? then Some(Trim(disk.trustedKey.value)) else None;
      trustedRootKey := NonEmpty(if configured.Some? then configured else persisted);
    }

    method VerifyRootZone(zone: RootZone) returns (r: Result<()>)
      modifies this, disk
      ensures (State(), r) == CheckZone(w, old(State()), zone)
    {
      if trustedRootKey.Some? {
        return VerifyZone(w, zone, trustedRootKey.value);
      }
      var _ :- VerifyZone(w, zone, zone.rootPublicKey);
      disk.trustedKey := Some(zone.rootPublicKey);
      trustedRootKey := Some(zone.rootPublicKey);
      return Ok(());
    }

    method LoadCachedZone() returns (r: Option<RootZone>)
      ensures r == LoadZone(disk.Contents())
    {
      r := if disk.rootZone.Some? && ZoneIsValid(disk.rootZone.value) then disk.rootZone else None;
    }

    method LastVerifiedZone() returns (r: Option<RootZone>)
      modifies this, disk
      ensures (State(), r) == LastVerified(w, old(State()))
    {
      if root.Some? {
        return root;
      }
      var cached := LoadCachedZone();
      if cached.None? {
        return None;
      }
      var ok := VerifyRootZone(cached.value);
      return if ok.Ok? then cached else None;
    }

    /** Native providers in turn, the HTTP endpoint last. */
    static method FetchRootNetwork(net: Network) returns (r: Result<RootZone>)
      ensures r == FetchRoot(net)
    {
      var answers := net.rootNative;
      assert answers[0..] == answers;
      for i := 0 to |answers|
        invariant FirstRoot(answers) == FirstRoot(answers[i..])
      {
        assert answers[i..][1..] == answers[i + 1..];
        var got := Structural(answers[i]);
        if got.Ok? {
          return got;
        }
      }
      return Structural(net.rootHttp);
    }

    method RefreshRootZone(net: Network) returns (r: Result<RootZone>)
      modifies this, disk
      ensures (State(), r) == RefreshRoot(w, old(State()), net)
    {
      var fetched := FetchRootNetwork(net);
      if fetched.Err? {
        var cached := LoadCachedZone();
        if cached.None? {
          return Err(RootUnavailable);
        }
        var _ :- VerifyRootZone(cached.value);
        root := cached;
        return Ok(cached.value);
      }
      var zone := fetched.value;
      var verified := VerifyRootZone(zone);
      if verified.Err? {
        var cached := LoadCachedZone();
        if cached.Some? {
          var still := VerifyRootZone(cached.value);
          if still.Ok? {
            root := cached;
            return Ok(cached.value);
          }
        }
        return Err(verified.error);
      }
      var known := LastVerifiedZone();
      if known.Some? && zone.rootVersion < known.value.rootVersion {
        root := known;
        return Ok(known.value);
      }
      disk.rootZone := Some(zone);
      root := Some(zone);
      return Ok(zone);
    }

    method RootNow(net: Network) returns (r: Result<RootZone>)
      modifies this, disk
      ensures (State(), r) == CurrentRoot(w, old(State()), net)
    {
      if root.Some? {
        return Ok(root.value);
      }
      r := RefreshRootZone(net);
    }

    /** One pass over untrusted sources; an answer that does not hash to `h` is skipped. */
    method TrySources(h: Hash, answers: seq<Result<Bytes>>) returns (r: Option<Bytes>)
      ensures r == FirstGood(w, h, answers)
    {
      assert answers[0..] == answers;
      for i := 0 to |answers|
        invariant FirstGood(w, h, answers) == FirstGood(w, h, answers[i..])
      {
        assert answers[i..][1..] == answers[i + 1..];
        var got := Hashed(w, h, answers[i]);
        if got.Ok? {
          return Some(got.value);
        }
      }
      return None;
    }

    method GetManifestBytes(h: Hash, src: ManifestSources) returns (r: Result<Bytes>)
      modifies disk
      ensures (disk.Contents(), r) == ManifestBytes(w, old(disk.Contents()), h, src)
    {
      if !w.isHash(h) {
        return Err(ManifestNotFound(h));
      }
      if h in disk.manifests {
        if VerifyBytes(w, disk.manifests[h], h).Ok? {
          return Ok(disk.manifests[h]);
        }
        disk.manifests := disk.manifests - {h};
      }
      assert disk.manifests == old(disk.manifests) - {h};
      var native := TrySources(h, src.native);
      var bytes :- if native.Some? then Ok(native.value) else Hashed(w, h, src.http);
      disk.manifests := disk.manifests[h := bytes];
      return Ok(bytes);
    }

    method GetManifest(h: Hash, src: ManifestSources) returns (r: Result<Manifest>)
      modifies disk
      ensures (disk.Contents(), r) == SiteManifest(w, old(disk.Contents()), h, src)
    {
      var bytes :- GetManifestBytes(h, src);
      return ReadManifest(w, bytes);
    }

    /** A forged answer ends the loop with an error; an unreachable provider does not. */
    method FetchRegistryLive(rec: TldRecord, src: RegistrySources) returns (r: Result<TldRegistry>)
      ensures r == FetchLive(w, rec, src)
    {
      for i := 0 to |rec.registryProviders|
        invariant FirstDecisive(w, rec, src.native, 0) == FirstDecisive(w, rec, src.native, i)
      {
        var got := Endorsed(w, rec, Answer(src.native, i));
        if got.Ok? || got.error.VerificationFailed? {
          return got;
        }
      }
      if rec.registryEndpoint.Some? {
        var got := Endorsed(w, rec, src.http);
        if got.Ok? || got.error.VerificationFailed? {
          return got;
        }
      }
      return Err(DelegatedRegistryUnavailable(rec.tld));
    }

    method GetCachedRegistry(rec: TldRecord) returns (r: Option<TldRegistry>)
      ensures r == CachedRegistry(w, disk.Contents(), rec)
    {
      var path := CachePath(rec.tld);
      if path.None? || path.value !in disk.registries {
        return None;
      }
      var registry := disk.registries[path.value];
      if VerifyRegistry(w, registry, rec.tld, rec.operatorPublicKey).Err? {
        return None;
      }
      return Some(registry);
    }

    method PutCachedRegistry(registry: TldRegistry)
      modifies disk
      ensures disk.Contents() == StoreRegistry(old(disk.Contents()), registry)
    {
      var path := CachePath(registry.tld);
      if path.Some? {
        disk.registries := disk.registries[path.value := registry];
      }
    }

    method GetPinnedRegistry(rec: TldRecord, src: ManifestSources) returns (r: Result<TldRegistry>)
      modifies disk
      ensures (disk.Contents(), r) == PinnedMode(w, old(disk.Contents()), rec, src)
    {
      if rec.registryManifestHash.None? {
        return Err(DelegatedRegistryUnavailable(rec.tld));
      }
      var got := GetManifestBytes(rec.registryManifestHash.value, src);
      if got.Err? {
        return Err(if got.error.HashMismatch? || got.error.VerificationFailed? then got.error
                   else DelegatedRegistryUnavailable(rec.tld));
      }
      var parsed := w.parseRegistry(got.value);
      if parsed.None? {
        return Err(VerificationFailed(RegistryLayer));
      }
      return Endorsed(w, rec, Ok(parsed.value));
    }

    method GetLiveRegistry(rec: TldRecord, src: RegistrySources) returns (r: Result<TldRegistry>)
      modifies disk
      ensures (disk.Contents(), r) == LiveMode(w, old(disk.Contents()), rec, src)
    {
      var fetched := FetchRegistryLive(rec, src);
      if fetched.Ok? {
        var cached := GetCachedRegistry(rec);
        if cached.Some? && fetched.value.version < cached.value.version {
          return Ok(cached.value);
        }
        PutCachedRegistry(fetched.value);
        return fetched;
      }
      if fetched.error.VerificationFailed? {
        return fetched;
      }
      var cached := GetCachedRegistry(rec);
      return if cached.Some? then Ok(cached.value) else fetched;
    }

    method GetRegistry(rec: TldRecord, net: Network) returns (r: Result<TldRegistry>)
      modifies disk
      ensures (disk.Contents(), r) == RegistryOf(w, old(disk.Contents()), rec, net)
    {
      match rec.registryType
      case DelegatedManifest => r := GetPinnedRegistry(rec, net.pinnedRegistry);
      case DelegatedNative => r := GetLiveRegistry(rec, net.registry);
      case DelegatedHttp => r := GetLiveRegistry(rec, net.registry);
      case _ => r := Err(DelegatedRegistryUnavailable(rec.tld));
    }

    method Locate(zone: RootZone, rec: TldRecord, fqdn: string, net: Network) returns (r: Result<DomainRecord>)
      modifies disk
      ensures (disk.Contents(), r) == LocateRecord(w, old(disk.Contents()), zone, rec, fqdn, net)
    {
      if rec.registryType.RootManaged? {
        return Listed(zone.domains, fqdn);
      }
      var registry :- GetRegistry(rec, net);
      return Listed(registry.domains, fqdn);
    }

    /** Cache, native providers, HTTP providers, origin. */
    method GetBlock(h: Hash, src: BlockSources) returns (r: Result<Bytes>)
      modifies disk
      ensures (disk.Contents(), r) == Block(w, old(disk.Contents()), h, src)
    {
      if h in disk.blocks && VerifyBytes(w, disk.blocks[h], h).Ok? {
        return Ok(disk.blocks[h]);
      }
      var native := TrySources(h, src.native);
      if native.Some? {
        disk.blocks := disk.blocks[h := native.value];
        return Ok(native.value);
      }
      var http := TrySources(h, src.http);
      if http.Some? {
        disk.blocks := disk.blocks[h := http.value];
        return Ok(http.value);
      }
      if !w.isHash(h) {
        return Err(BlockNotFound(h));
      }
      var bytes :- Hashed(w, h, src.origin);
      disk.blocks := disk.blocks[h := bytes];
      return Ok(bytes);
    }

    method ServeSite(rec: DomainRecord, fqdn: string, path: string, net: Network) returns (r: Result<Resolved>)
      modifies disk
      ensures (disk.Contents(), r) == Serve(w, old(disk.Contents()), rec, fqdn, path, net)
    {
      var manifest := GetManifest(rec.manifestHash, net.manifest);
      if manifest.Err? {
        return HashFailure(manifest.error, ManifestLayer);
      }
      if VerifyManifest(w, manifest.value, fqdn, rec.ownerPublicKey).Err? {
        return Ok(SecurityFailure(ManifestLayer));
      }
      var file := ResolvePath(manifest.value, path);
      if file.None? {
        return Ok(NoSuchPath(fqdn, path));
      }
      var bytes := GetBlock(file.value.1, net.block);
      return if bytes.Err? then HashFailure(bytes.error, ContentLayer)
             else Ok(Content(fqdn, path, bytes.value, file.value.1));
    }

    /** `resolve_traced_inner`: the whole chain from a host and a path to verified bytes. */
    method ResolveHost(host: string, path: string, clock: Instant, net: Network) returns (r: Result<Resolved>)
      modifies this, disk
      ensures (State(), r) == Resolve(w, old(State()), host, path, clock, net)
    {
      hide CurrentRoot;
      hide ResolveIn;
      hide ParseDomain;
      var parsed := ParseDomain(host);
      if parsed.Err? {
        return Ok(NotFederate(host));
      }
      var zone := RootNow(net);
      if zone.Err? {
        return if zone.error.VerificationFailed? then Ok(SecurityFailure(zone.error.layer)) else Err(zone.error);
      }
      r := ResolveInZone(zone.value, parsed.value, path, clock, net);
    }

    method ResolveInZone(zone: RootZone, d: FederateDomain, path: string, clock: Instant, net: Network)
      returns (r: Result<Resolved>)
      modifies disk
      ensures (State(), r) == ResolveIn(w, old(State()), zone, d, path, clock, net)
    {
      hide ResolveUnder;
      hide TldObjection;
      if d.tld !in zone.tlds {
        return Ok(NoSuchTld(d.tld));
      }
      var tldRec := zone.tlds[d.tld];
      var anchor := if trustedRootKey.Some? then trustedRootKey.value else "";
      var objection := TldObjection(w, tldRec, d.tld, anchor, clock);
      if objection.Some? {
        return Ok(objection.value);
      }
      r := ResolveRecord(zone, tldRec, d, path, clock, net);
    }

    method ResolveRecord(zone: RootZone, tldRec: TldRecord, d: FederateDomain, path: string, clock: Instant, net: Network)
      returns (r: Result<Resolved>)
      modifies disk
      ensures (disk.Contents(), r) == ResolveUnder(w, old(disk.Contents()), zone, tldRec, d, path, clock, net)
    {
      var located := Locate(zone, tldRec, d.Fqdn(), net);
      if located.Err? {
        return LocateFailure(located.error, d.Fqdn());
      }
      var objection := RecordObjection(w, located.value, tldRec.operatorPublicKey, d, clock);
      if objection.Some? {
        return Ok(objection.value);
      }
      r := ServeSite(located.value, d.Fqdn(), path, net);
    }
  }
}
