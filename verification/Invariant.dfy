/** The invariant of the running registry and its preservation by an accepted mutation. */
module Invariant {
  import opened Prelude
  import opened Records
  import opened Naming
  import opened Root
  import opened Requests
  import opened DbTables
  import opened Actions
  import opened Changes
  import opened ChangeProofs
  import opened RegistrySpec

  /** The full chain of trust: zone, TLD records, domain records, stored registries. */
  ghost predicate Trusted(w: World, s: RegistryState, root: Key) {
    && RecordsTrusted(w, s, root)
    && ZoneVerifies(w, s.zone, root)
  }

  /** A pinned hash, the stored registry bytes and the manifest store hold the same content. */
  ghost predicate Pinned(w: World, s: RegistryState, tld: string) {
    && tld in s.registries
    && tld in s.zone.tlds
    && var h := w.hash(s.registries[tld].bytes);
    && s.zone.tlds[tld].registryManifestHash == Some(h)
    && h in s.manifests
    && s.manifests[h] == s.registries[tld].bytes
  }

  ghost predicate PinsAgree(w: World, s: RegistryState) {
    && (forall t <- s.zone.tlds :: s.zone.tlds[t].registryManifestHash.Some? ==> Pinned(w, s, t))
    && (forall t <- s.registries :: Pinned(w, s, t))
  }

  ghost predicate ContentAddressed(w: World, store: map<Hash, Bytes>) {
    forall h <- store :: w.hash(store[h]) == h
  }

  function RawRegistries(registries: map<string, PinnedRegistry>): map<string, Bytes> {
    map t | t in registries :: registries[t].bytes
  }

  /** The tables and files say what the memory says. */
  ghost predicate Mirrors(w: World, mem: RegistryState, disk: Disk) {
    && disk.tables.tldRecords == mem.zone.tlds
    && disk.tables.domainRecords == mem.zone.domains
    && disk.tables.currentVersion == Some(mem.zone.rootVersion)
    && mem.zone.rootVersion in disk.tables.rootZoneVersions
    && disk.tables.rootZoneVersions[mem.zone.rootVersion] == mem.zone
    && disk.tables.stateHash == Some(StateHash(w, mem.zone))
    && disk.tables.mutations == mem.applied
    && Rows(disk.tables.auditEvents) == mem.audit
    && disk.tables.delegatedRegistries == RawRegistries(mem.registries)
    && disk.tables.targetVersions == mem.targetVersions
    && disk.manifestFiles == mem.manifests
  }

  ghost predicate SystemInv(w: World, sys: System, root: Key) {
    && Trusted(w, sys.mem, root)
    && PinsAgree(w, sys.mem)
    && Mirrors(w, sys.mem, sys.disk)
    && KeyedBy(sys.mem.applied, MutationId)
    && ContentAddressed(w, sys.mem.manifests)
    && ContentAddressed(w, sys.disk.blocks)
    && (forall i :: 0 <= i < |sys.mem.audit| ==> AuditVerifies(w, sys.mem.audit[i], root))
  }

  /** What an accepted mutation is made of. */
  lemma DecideUnfolds(w: World, s: RegistryState, req: MutationRequest, ctx: Context, a: Accepted) returns (e: ActionEffect)
    requires Decide(w, s, req, ctx) == Ok(a)
    ensures Screen(w, s, req, ctx).Ok?
    ensures ApplyAction(w, s, req, ctx) == Ok(e)
    ensures a.zone == Countersigned(w, e.zone, req, e.role, ctx)
    ensures a.registry == e.registry
    ensures a.event == AuditOf(w, s.zone, a.zone, req, e.role, ctx)
    ensures a.applied == AppliedMutation(req, a.event.eventId, w.rfc3339(ctx.now), a.zone.rootVersion)
    ensures ZoneVerifies(w, a.zone, ctx.root)
  {
    e := ApplyAction(w, s, req, ctx).value;
  }

  /** Countersigning touches neither the records nor the key of the zone. */
  lemma CountersignedKeepsRecords(w: World, zone: RootZone, req: MutationRequest, role: ActorRole, ctx: Context)
    ensures var z := Countersigned(w, zone, req, role, ctx);
            z.tlds == zone.tlds && z.domains == zone.domains && z.network == zone.network
            && z.rootPublicKey == zone.rootPublicKey
  {
  }

  /** Only the registry's own root key can countersign: any other context is refused. */
  lemma AcceptedUnderRoot(w: World, s: RegistryState, root: Key, req: MutationRequest, ctx: Context, a: Accepted)
    requires Lawful(w) && RecordsTrusted(w, s, root)
    requires Decide(w, s, req, ctx) == Ok(a)
    ensures ctx.root == root
  {
    var e := DecideUnfolds(w, s, req, ctx, a);
    var c := ActionIsOneChange(w, s, root, req, ctx, e);
    CountersignedKeepsRecords(w, e.zone, req, e.role, ctx);
  }

  lemma DomainPutKeepsTrust(w: World, s: RegistryState, root: Key, actor: Key, e: ActionEffect, fqdn: string, rec: DomainRecord)
    requires RecordsTrusted(w, s, root)
    requires DomainPutOk(w, s, actor, e, fqdn, rec)
    ensures DomainsTrusted(w, e.zone.tlds, e.zone.domains)
  {
  }

  /** Adding a TLD or replacing one with the same operator leaves every domain record verified. */
  lemma TldPutKeepsTrust(w: World, s: RegistryState, root: Key, name: string, rec: TldRecord)
    requires RecordsTrusted(w, s, root)
    requires rec.tld == name && IsTldName(name) && TldVerifies(w, rec, root)
    requires name in s.zone.tlds ==> rec.operatorPublicKey == s.zone.tlds[name].operatorPublicKey
    ensures var z := PutTld(s.zone, name, rec);
            && TldsTrusted(w, z.tlds, root)
            && DomainsTrusted(w, z.tlds, z.domains)
            && RegistriesTrusted(w, z.tlds, s.registries)
  {
    var z := PutTld(s.zone, name, rec);
    forall d | d in z.domains
      ensures DomainTrusted(w, z.tlds, d, z.domains[d])
    {
      assert DomainTrusted(w, s.zone.tlds, d, s.zone.domains[d]);
    }
    forall t | t in s.registries
      ensures RegistryTrusted(w, z.tlds, t, s.registries[t])
    {
      assert RegistryTrusted(w, s.zone.tlds, t, s.registries[t]);
    }
  }

  function RegistriesAfter(s: RegistryState, n: Option<NewRegistry>): map<string, PinnedRegistry> {
    if n.Some? then s.registries[n.value.tld := PinnedRegistry(n.value.bytes, n.value.parsed)] else s.registries
  }

  /** Any of the three changes leaves the records trusted. */
  lemma ChangeKeepsTrust(w: World, s: RegistryState, root: Key, actor: Key, ctx: Context, e: ActionEffect, c: Change)
    requires RecordsTrusted(w, s, root) && ctx.root == root
    requires ChangeOk(w, s, actor, ctx, e, c)
    ensures TldsTrusted(w, e.zone.tlds, root)
    ensures DomainsTrusted(w, e.zone.tlds, e.zone.domains)
    ensures RegistriesTrusted(w, e.zone.tlds, RegistriesAfter(s, e.registry))
    ensures e.zone.network == s.zone.network && e.zone.rootPublicKey == s.zone.rootPublicKey
  {
    hide DomainTrusted;
    hide TldVerifies;
    match c
    case DomainPut(fqdn, rec) => DomainPutKeepsTrust(w, s, root, actor, e, fqdn, rec);
    case TldAdded(name, rec) => TldPutKeepsTrust(w, s, root, name, rec);
    case TldReplaced(name, rec) => TldPutKeepsTrust(w, s, root, name, rec);
  }

  /** The chain of trust survives every accepted mutation, although `apply` itself
      never checks domain records, names or stored registries. */
  lemma AcceptKeepsTrust(w: World, s: RegistryState, root: Key, req: MutationRequest, ctx: Context, a: Accepted)
    requires Lawful(w) && Trusted(w, s, root)
    requires Decide(w, s, req, ctx) == Ok(a)
    ensures Trusted(w, CommitMem(w, s, req, a), root)
  {
    hide Decide;
    hide ApplyAction;
    hide Countersigned;
    hide AuditOf;
    hide Screen;
    hide ChangeOk;
    hide TldsTrusted;
    hide DomainsTrusted;
    hide RegistriesTrusted;
    hide ZoneVerifies;
    var e := DecideUnfolds(w, s, req, ctx, a);
    var c := ActionIsOneChange(w, s, root, req, ctx, e);
    CountersignedKeepsRecords(w, e.zone, req, e.role, ctx);
    AcceptedUnderRoot(w, s, root, req, ctx, a);
    ChangeKeepsTrust(w, s, root, req.actorPublicKey, ctx, e, c);
  }

  /** A TLD record written without moving its hash keeps every pin. */
  lemma QuietTldKeepsPins(w: World, s: RegistryState, s': RegistryState, name: string, rec: TldRecord)
    requires PinsAgree(w, s)
    requires s'.zone.tlds == s.zone.tlds[name := rec]
    requires s'.registries == s.registries && s'.manifests == s.manifests
    requires rec.registryManifestHash == if name in s.zone.tlds then s.zone.tlds[name].registryManifestHash else None
    ensures PinsAgree(w, s')
  {
    forall t | t in s'.zone.tlds && s'.zone.tlds[t].registryManifestHash.Some?
      ensures Pinned(w, s', t)
    {
      assert t in s.zone.tlds;
      assert Pinned(w, s, t);
    }
    forall t | t in s'.registries
      ensures Pinned(w, s', t)
    {
      assert Pinned(w, s, t);
    }
  }

  /** Storing content under its own hash never disturbs other content. */
  lemma StoringKeepsContent(w: World, store: map<Hash, Bytes>, bytes: Bytes)
    requires Lawful(w) && ContentAddressed(w, store)
    ensures ContentAddressed(w, store[w.hash(bytes) := bytes])
    ensures forall h <- store :: store[w.hash(bytes) := bytes][h] == store[h]
  {
    assert forall h <- store :: w.hash(store[h]) == h;
  }

  /** Re-pinning one TLD: its own pin moves with the bytes, the others stay. */
  lemma RepinKeepsPins(w: World, s: RegistryState, s': RegistryState, name: string, rec: TldRecord, n: NewRegistry)
    requires Lawful(w) && PinsAgree(w, s) && ContentAddressed(w, s.manifests)
    requires s'.zone.tlds == s.zone.tlds[name := rec]
    requires s'.registries == s.registries[name := PinnedRegistry(n.bytes, n.parsed)]
    requires s'.manifests == s.manifests[w.hash(n.bytes) := n.bytes]
    requires rec.registryManifestHash == Some(w.hash(n.bytes))
    ensures PinsAgree(w, s')
  {
    StoringKeepsContent(w, s.manifests, n.bytes);
    forall t | t in s'.registries || (t in s'.zone.tlds && s'.zone.tlds[t].registryManifestHash.Some?)
      ensures Pinned(w, s', t)
    {
      if t != name {
        assert Pinned(w, s, t);
      }
    }
  }

  /** The pins survive: a hash moves only together with the bytes it names. */
  lemma AcceptKeepsPins(w: World, s: RegistryState, root: Key, req: MutationRequest, ctx: Context, a: Accepted)
    requires Lawful(w) && Trusted(w, s, root) && PinsAgree(w, s) && ContentAddressed(w, s.manifests)
    requires Decide(w, s, req, ctx) == Ok(a)
    ensures PinsAgree(w, CommitMem(w, s, req, a))
    ensures ContentAddressed(w, CommitMem(w, s, req, a).manifests)
  {
    var e := DecideUnfolds(w, s, req, ctx, a);
    var c := ActionIsOneChange(w, s, root, req, ctx, e);
    CountersignedKeepsRecords(w, e.zone, req, e.role, ctx);
    hide Decide;
    hide ApplyAction;
    hide Countersigned;
    hide AuditOf;
    hide Screen;
    var s' := CommitMem(w, s, req, a);
    match c
    case DomainPut(_, _) => SameTldsKeepPins(w, s, s');
    case TldAdded(name, rec) => QuietTldKeepsPins(w, s, s', name, rec);
    case TldReplaced(name, rec) =>
      if e.registry.Some? {
        StoringKeepsContent(w, s.manifests, e.registry.value.bytes);
        RepinKeepsPins(w, s, s', name, rec, e.registry.value);
      } else {
        QuietTldKeepsPins(w, s, s', name, rec);
      }
  }

  lemma SameTldsKeepPins(w: World, s: RegistryState, s': RegistryState)
    requires PinsAgree(w, s)
    requires s'.zone.tlds == s.zone.tlds && s'.registries == s.registries && s'.manifests == s.manifests
    ensures PinsAgree(w, s')
  {
    forall t | t in s'.registries || (t in s'.zone.tlds && s'.zone.tlds[t].registryManifestHash.Some?)
      ensures Pinned(w, s', t)
    {
      assert Pinned(w, s, t);
    }
  }
}
