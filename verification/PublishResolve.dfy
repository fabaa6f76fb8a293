/** Server and client joined: what an accepted publish put into the registry is what a
    verifying client gets back. */
module PublishResolveProofs {
  import opened Prelude
  import opened Records
  import opened Naming
  import opened Root
  import opened Manifests
  import opened Actions
  import opened Changes
  import opened ChangeProofs
  import opened RegistrySpec
  import opened Invariant
  import opened RestartProofs
  import opened HistoryProofs
  import opened ResolverSpec
  import opened SoundnessProofs

  /** The step accepts a publication of manifest `h` under this name. */
  ghost predicate Publishes(w: World, root: Key, now: Instant, steps: seq<Step>, step: Step, domain: string, h: Hash) {
    && IsMutation(step)
    && IsPublish(step.req.action, domain, h)
    && Run(w, InitialSystem(w, root, now), steps + [step]).mem.audit != Run(w, InitialSystem(w, root, now), steps).mem.audit
  }

  function Submitter(step: Step): Key {
    if IsMutation(step) then step.req.actorPublicKey else ""
  }

  ghost function ZoneAt(w: World, root: Key, now: Instant, steps: seq<Step>): RootZone {
    Run(w, InitialSystem(w, root, now), steps).mem.zone
  }

  /** What a publication leaves in the zone: a live record of the official operator, naming a
      manifest its owner signed for exactly this name. */
  ghost predicate PublishedUnder(w: World, zone: RootZone, d: FederateDomain, owner: Key, h: Hash, raw: Bytes, m: Manifest) {
    && d.tld in zone.tlds
    && zone.tlds[d.tld].registryType.RootManaged?
    && d.Fqdn() in zone.domains
    && var rec := zone.domains[d.Fqdn()];
    && rec.tld == d.tld && rec.status.Active? && rec.ownerPublicKey == owner && rec.manifestHash == h
    && ManifestNamed(w, rec, d.Fqdn(), raw, m)
    && ValidateManifest(m).Ok?
  }

  predicate IsPublish(action: MutationAction, domain: string, h: Hash) {
    action == PublishSite(domain, h) || action == UpdateDomainManifest(domain, h)
  }

  lemma PublishActionEffect(w: World, s: RegistryState, req: MutationRequest, ctx: Context, domain: string, h: Hash)
    requires IsPublish(req.action, domain, h)
    ensures ApplyAction(w, s, req, ctx) == PublishEffect(w, s, req.actorPublicKey, domain, h, req.action.UpdateDomainManifest?, ctx)
  {
    hide PublishEffect;
  }

  lemma PublishEffectFacts(w: World, s: RegistryState, actor: Key, domain: string, h: Hash, isUpdate: bool, ctx: Context, e: ActionEffect)
    returns (d: FederateDomain, raw: Bytes, m: Manifest)
    requires ContentAddressed(w, s.manifests)
    requires PublishEffect(w, s, actor, domain, h, isUpdate, ctx) == Ok(e)
    ensures ParseDomain(domain) == Ok(d)
    ensures PublishedUnder(w, e.zone, d, actor, h, raw, m)
  {
    var plain;
    hide ParseDomain;
    hide PublishEffect;
    d, plain := PublishUnfolds(w, s, actor, domain, h, isUpdate, ctx, e);
    raw := s.manifests[h];
    m := w.parseManifest(raw).value;
  }

  lemma AcceptedPublish(w: World, s: RegistryState, root: Key, req: MutationRequest, ctx: Context, a: Accepted, domain: string, h: Hash)
    returns (d: FederateDomain, raw: Bytes, m: Manifest)
    requires Lawful(w) && Trusted(w, s, root) && ContentAddressed(w, s.manifests)
    requires Decide(w, s, req, ctx) == Ok(a)
    requires IsPublish(req.action, domain, h)
    ensures ParseDomain(domain) == Ok(d)
    ensures PublishedUnder(w, a.zone, d, req.actorPublicKey, h, raw, m)
  {
    var e := AcceptedFields(w, s, req, ctx, a);
    hide Decide;
    hide ApplyAction;
    hide ParseDomain;
    hide ManifestNamed;
    PublishActionEffect(w, s, req, ctx, domain, h);
    d, raw, m := PublishEffectFacts(w, s, req.actorPublicKey, domain, h, req.action.UpdateDomainManifest?, ctx, e);
  }

  lemma PublicationLands(w: World, root: Key, now: Instant, steps: seq<Step>, step: Step, domain: string, h: Hash)
    returns (d: FederateDomain, raw: Bytes, m: Manifest)
    requires Lawful(w) && Publishes(w, root, now, steps, step, domain, h)
    ensures ParseDomain(domain) == Ok(d)
    ensures PublishedUnder(w, ZoneAt(w, root, now, steps + [step]), d, Submitter(step), h, raw, m)
  {
    RunKeepsInv(w, root, now, steps);
    var sys := Run(w, InitialSystem(w, root, now), steps);
    assert (steps + [step])[..|steps|] == steps;
    var pre, a := StepUnfolds(w, sys, root, step);
    d, raw, m := AcceptedPublish(w, pre.mem, root, step.req, step.ctx, a.value, domain, h);
  }

  /** What the client answers for a published site. */
  ghost predicate Delivers(w: World, r: Result<Resolved>, fqdn: string, m: Manifest, path: string) {
    match ResolvePath(m, path)
    case None => r == Ok(NoSuchPath(fqdn, path))
    case Some((_, h)) =>
      && r.Ok? && r.value.Content?
      && r.value == Content(fqdn, path, r.value.bytes, h)
      && w.hash(r.value.bytes) == h
  }

  /** Manifest and page can be had from somewhere. */
  ghost predicate Reachable(w: World, cache: Cache, h: Hash, m: Manifest, path: string, net: Network) {
    && CanGetManifest(w, cache, h, net.manifest)
    && (ResolvePath(m, path).Some? ==> CanGetBlock(w, cache, ResolvePath(m, path).value.1, net.block))
  }

  lemma ManifestFetchKeepsBlocks(w: World, cache: Cache, h: Hash, src: ManifestSources)
    ensures SiteManifest(w, cache, h, src).0.blocks == cache.blocks
  {
  }

  lemma ServesPublished(w: World, cache: Cache, rec: DomainRecord, fqdn: string, raw: Bytes, m: Manifest, path: string, net: Network)
    requires Lawful(w)
    requires ManifestNamed(w, rec, fqdn, raw, m) && ValidateManifest(m).Ok?
    requires Reachable(w, cache, rec.manifestHash, m, path, net)
    ensures Delivers(w, Serve(w, cache, rec, fqdn, path, net).1, fqdn, m, path)
  {
    ManifestObtainable(w, cache, rec.manifestHash, net.manifest);
    ManifestBytesHash(w, cache, rec.manifestHash, net.manifest);
    var (cache', got) := SiteManifest(w, cache, rec.manifestHash, net.manifest);
    assert ManifestBytes(w, cache, rec.manifestHash, net.manifest).1 == Ok(raw);
    assert got == Ok(m);
    ManifestFetchKeepsBlocks(w, cache, rec.manifestHash, net.manifest);
    if ResolvePath(m, path).Some? {
      var h := ResolvePath(m, path).value.1;
      BlockObtainable(w, cache', h, net.block);
      BlockHashes(w, cache', h, net.block);
    }
  }

  lemma ResolvesPublished(w: World, c: Client, zone: RootZone, root: Key, d: FederateDomain, owner: Key, h: Hash, raw: Bytes, m: Manifest,
                          path: string, clock: Instant, net: Network)
    requires Lawful(w)
    requires c.trusted == Some(root) && TldLive(w, zone, d.tld, root, clock)
    requires PublishedUnder(w, zone, d, owner, h, raw, m)
    requires RecordLive(w, zone.domains[d.Fqdn()], zone.tlds[d.tld].operatorPublicKey, d.tld, clock)
    requires Reachable(w, c.cache, h, m, path, net)
    ensures Delivers(w, ResolveIn(w, c, zone, d, path, clock, net).1, d.Fqdn(), m, path)
  {
    var tldRec, rec := zone.tlds[d.tld], zone.domains[d.Fqdn()];
    TldUnobjectionable(w, zone, d.tld, root, clock);
    RecordUnobjectionable(w, rec, tldRec.operatorPublicKey, d, clock);
    ServesPublished(w, c.cache, rec, d.Fqdn(), raw, m, path, net);
    hide Serve;
    hide TldObjection;
    hide RecordObjection;
    hide Delivers;
    assert LocateRecord(w, c.cache, zone, tldRec, d.Fqdn(), net) == (c.cache, Ok(rec));
  }

  ghost predicate SameRecord(a: RootZone, b: RootZone, fqdn: string) {
    fqdn in a.domains && fqdn in b.domains && a.domains[fqdn] == b.domains[fqdn]
  }

  /** Publications outlive later steps as long as their record does: TLDs never vanish and
      never change operator or registry type. */
  lemma PublicationStays(w: World, root: Key, now: Instant, steps: seq<Step>, later: seq<Step>, d: FederateDomain, owner: Key, h: Hash, raw: Bytes, m: Manifest)
    requires Lawful(w)
    requires PublishedUnder(w, ZoneAt(w, root, now, steps), d, owner, h, raw, m)
    requires SameRecord(ZoneAt(w, root, now, steps), ZoneAt(w, root, now, steps + later), d.Fqdn())
    ensures PublishedUnder(w, ZoneAt(w, root, now, steps + later), d, owner, h, raw, m)
  {
    RunGrows(w, root, now, steps, later);
    hide ManifestNamed;
  }

  /** A record in a trusted zone is signed by its TLD's operator. */
  lemma TrustedRecordLive(w: World, s: RegistryState, root: Key, d: FederateDomain, clock: Instant)
    requires Trusted(w, s, root) && d.Fqdn() in s.zone.domains
    requires var rec := s.zone.domains[d.Fqdn()]; rec.tld == d.tld && rec.status.Active? && !HasExpired(w, rec.expiresAt, clock)
    ensures d.tld in s.zone.tlds
    ensures RecordLive(w, s.zone.domains[d.Fqdn()], s.zone.tlds[d.tld].operatorPublicKey, d.tld, clock)
  {
    assert DomainTrusted(w, s.zone.tlds, d.Fqdn(), s.zone.domains[d.Fqdn()]);
  }

  /** Publish then resolve. A site accepted at some step, its record unchanged since: a client
      anchored at the root key and holding the zone of the day, with TLD and lease live and the
      manifest and page obtainable from anywhere, gets exactly the bytes whose hash the published
      manifest gives for the path (or learns that the manifest has no such path), and nothing else. */
  lemma PublishThenResolve(w: World, root: Key, now: Instant, steps: seq<Step>, step: Step, domain: string, h: Hash, d: FederateDomain, later: seq<Step>)
    returns (raw: Bytes, m: Manifest)
    requires Lawful(w) && Publishes(w, root, now, steps, step, domain, h)
    requires ParseDomain(domain) == Ok(d)
    requires SameRecord(ZoneAt(w, root, now, steps + [step]), ZoneAt(w, root, now, steps + [step] + later), d.Fqdn())
    ensures w.hash(raw) == h && w.parseManifest(raw) == Some(m) && ManifestVerifies(w, m, d.Fqdn(), Submitter(step))
    ensures forall c: Client, host, path, clock, net ::
              && c.trusted == Some(root) && c.root == Some(ZoneAt(w, root, now, steps + [step] + later))
              && ParseDomain(host) == Ok(d)
              && SiteLive(w, c.root.value, d, clock)
              && Reachable(w, c.cache, h, m, path, net)
              ==> Delivers(w, Resolve(w, c, host, path, clock, net).1, d.Fqdn(), m, path)
  {
    hide ParseDomain;
    hide ZoneAt;
    hide Publishes;
    hide Delivers;
    hide Reachable;
    hide Resolve;
    hide SiteLive;
    hide Lawful;
    var d', raw', m' := PublicationLands(w, root, now, steps, step, domain, h);
    raw, m := raw', m';
    var owner := Submitter(step);
    PublicationStays(w, root, now, steps + [step], later, d, owner, h, raw, m);
    forall c: Client, host, path, clock, net |
      && c.trusted == Some(root) && c.root == Some(ZoneAt(w, root, now, steps + [step] + later))
      && ParseDomain(host) == Ok(d)
      && SiteLive(w, c.root.value, d, clock)
      && Reachable(w, c.cache, h, m, path, net)
      ensures Delivers(w, Resolve(w, c, host, path, clock, net).1, d.Fqdn(), m, path)
    {
      HeldZoneDelivers(w, root, now, steps + [step] + later, c, host, d, owner, h, raw, m, path, clock, net);
    }
  }

  /** Governance and leases let the site resolve at this instant. */
  ghost predicate SiteLive(w: World, zone: RootZone, d: FederateDomain, clock: Instant) {
    && d.tld in zone.tlds
    && zone.tlds[d.tld].status.IsResolvable()
    && !HasExpired(w, zone.tlds[d.tld].expiresAt, clock)
    && d.Fqdn() in zone.domains
    && !HasExpired(w, zone.domains[d.Fqdn()].expiresAt, clock)
  }

  lemma HeldZoneDelivers(w: World, root: Key, now: Instant, steps: seq<Step>, c: Client, host: string, d: FederateDomain,
                         owner: Key, h: Hash, raw: Bytes, m: Manifest, path: string, clock: Instant, net: Network)
    requires Lawful(w)
    requires c.trusted == Some(root) && c.root == Some(ZoneAt(w, root, now, steps))
    requires ParseDomain(host) == Ok(d) && SiteLive(w, c.root.value, d, clock)
    requires PublishedUnder(w, c.root.value, d, owner, h, raw, m)
    requires Reachable(w, c.cache, h, m, path, net)
    ensures Delivers(w, Resolve(w, c, host, path, clock, net).1, d.Fqdn(), m, path)
  {
    hide Delivers;
    hide Reachable;
    hide ResolveIn;
    hide ManifestNamed;
    hide ParseDomain;
    RunKeepsInv(w, root, now, steps);
    var s := Run(w, InitialSystem(w, root, now), steps).mem;
    assert Trusted(w, s, root);
    TrustedRecordLive(w, s, root, d, clock);
    TldOfTrustedZone(w, s, root, d.tld);
    ResolvesPublished(w, c, s.zone, root, d, owner, h, raw, m, path, clock, net);
  }

  lemma TldOfTrustedZone(w: World, s: RegistryState, root: Key, tld: string)
    requires Trusted(w, s, root) && tld in s.zone.tlds
    ensures TldVerifies(w, s.zone.tlds[tld], root)
  {
  }
}
