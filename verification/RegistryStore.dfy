/** The persistent registry as the server runs it (`store.rs`, `run_mutation`):
    fields updated in place, each method proved against `RegistrySpec`. */
module Store {
  import opened Prelude
  import opened Records
  import opened Root
  import opened Requests
  import opened DbTables
  import opened Actions
  import opened RegistrySpec
  import opened RedbBackend
  import opened WorkingCopy

  /** Content-addressed files beside the database. */
  class ContentDir {
    var manifestFiles: map<Hash, Bytes>
    var blocks: map<Hash, Bytes>
    var snapshotFiles: map<u64, RootZone>

    constructor ()
      ensures manifestFiles == map[] && blocks == map[] && snapshotFiles == map[]
    {
      manifestFiles, blocks, snapshotFiles := map[], map[], map[];
    }
  }

  class RegistryStore {
    const w: World
    const backend: RedbRegistryStore
    const content: ContentDir
    var zone: RootZone
    var registries: map<string, PinnedRegistry>
    var manifests: map<Hash, Bytes>
    var targetVersions: map<TargetKey, u64>
    var applied: map<Hash, AppliedMutation>
    var audit: seq<AuditRecord>

    ghost function Memory(): RegistryState
      reads this
    {
      RegistryState(zone, registries, manifests, targetVersions, applied, audit)
    }

    ghost function OnDisk(): Disk
      reads backend, content
    {
      Disk(backend.Contents(), content.manifestFiles, content.blocks, content.snapshotFiles)
    }

    ghost function Now(): System
      reads this, backend, content
    {
      System(Memory(), OnDisk())
    }

    /** `init` with the empty zone that `init_empty_registry` signs. */
    constructor InitEmpty(w: World, root: Key, now: Instant)
      ensures this.w == w && fresh(backend) && fresh(content)
      ensures Now() == InitialSystem(w, root, now)
    {
      this.w := w;
      var first := EmptyZone(w, root, now);
      var db := new RedbRegistryStore();
      var tlds := CollectValues(first.tlds);
      var domains := CollectValues(first.domains);
      db.CommitInitial(InitialState(first, StateHash(w, first), tlds, domains, map[], SnapshotOf(w, first)));
      backend := db;
      content := new ContentDir();
      zone := first;
      registries, manifests, targetVersions, applied, audit := map[], map[], map[], map[], [];
      new;
      WriteSnapshot();
      assert OnDisk() == InitialSystem(w, root, now).disk;
    }

    /** `init_empty_registry`: only where no registry database exists yet. */
    static method InitEmptyRegistry(w: World, existing: Option<RedbRegistryStore>, root: Key, now: Instant)
      returns (r: Result<RegistryStore>)
      ensures r.Ok? <==> existing.None? && VerifyZone(w, EmptyZone(w, root, now), root).Ok?
      ensures existing.Some? ==> r == Err(MutationRejected(AlreadyInitialized))
      ensures r.Ok? ==> fresh(r.value) && r.value.w == w && r.value.Now() == InitialSystem(w, root, now)
    {
      if existing.Some? {
        return Err(MutationRejected(AlreadyInitialized));
      }
      var _ :- VerifyZone(w, EmptyZone(w, root, now), root);
      var store := new RegistryStore.InitEmpty(w, root, now);
      return Ok(store);
    }

    /** The fields as `open` rebuilt them. */
    constructor Rebuilt(w: World, backend: RedbRegistryStore, content: ContentDir, state: RegistryState)
      ensures this.w == w && this.backend == backend && this.content == content
      ensures Memory() == state
    {
      this.w, this.backend, this.content := w, backend, content;
      zone, registries, manifests := state.zone, state.registries, state.manifests;
      targetVersions, applied, audit := state.targetVersions, state.applied, state.audit;
    }

    /** `open`: everything is verified again, and nothing on disk is touched. */
    static method Open(w: World, backend: RedbRegistryStore, content: ContentDir, rootKey: Key)
      returns (r: Result<RegistryStore>)
      ensures var d := Disk(backend.Contents(), content.manifestFiles, content.blocks, content.snapshotFiles);
              && (r.Ok? <==> Opens(w, d, rootKey))
              && (r.Ok? ==> fresh(r.value) && r.value.w == w && r.value.Now() == System(Opened(w, d), d))
    {
      ghost var d := Disk(backend.Contents(), content.manifestFiles, content.blocks, content.snapshotFiles);
      if backend.currentVersion.None? || backend.currentVersion.value !in backend.rootZoneVersions {
        return Err(FederateError.Storage);
      }
      var zone := backend.rootZoneVersions[backend.currentVersion.value];
      var _ :- ValidateZone(zone);
      var _ :- VerifyZone(w, zone, rootKey);
      if zone.rootVersion != backend.currentVersion.value {
        return Err(InvalidRoot);
      }
      if backend.stateHash.Some? && backend.stateHash.value != StateHash(w, zone) {
        return Err(InvalidRoot);
      }
      var registries :- LoadRegistries(w, zone, backend.delegatedRegistries);
      var manifests := LoadManifests(w, content.manifestFiles);
      var applied := LoadMutations(backend.mutations);
      var audit := backend.ListAuditEvents();
      assert Opens(w, d, rootKey);
      var state := RegistryState(zone, registries, manifests, backend.targetVersions, applied, audit);
      assert state == Opened(w, d);
      var store := new RegistryStore.Rebuilt(w, backend, content, state);
      return Ok(store);
    }

    /** One row: parsed, its TLD found, and verified under the TLD's operator. */
    static method LoadRegistry(w: World, zone: RootZone, tld: string, raw: Bytes) returns (r: Result<PinnedRegistry>)
      ensures r.Ok? <==> RegistryRowOk(w, zone, tld, raw)
      ensures r.Ok? ==> r.value.bytes == raw && w.parseRegistry(raw) == Some(r.value.parsed)
    {
      var parsed := w.parseRegistry(raw);
      if parsed.None? {
        return Err(Serde);
      }
      if tld !in zone.tlds {
        return Err(InvalidRoot);
      }
      var checked := VerifyRegistry(w, parsed.value, tld, zone.tlds[tld].operatorPublicKey);
      if checked.Err? {
        return Err(checked.error);
      }
      return Ok(PinnedRegistry(raw, parsed.value));
    }

    static method LoadRegistries(w: World, zone: RootZone, raw: map<string, Bytes>) returns (r: Result<map<string, PinnedRegistry>>)
      ensures r.Ok? <==> forall t <- raw :: RegistryRowOk(w, zone, t, raw[t])
      ensures r.Ok? ==> r.value == map t | t in raw :: PinnedRegistry(raw[t], w.parseRegistry(raw[t]).value)
    {
      hide RegistryRowOk;
      var out: map<string, PinnedRegistry> := map[];
      var rest := raw.Keys;
      while rest != {}
        invariant rest <= raw.Keys && out.Keys == raw.Keys - rest
        invariant forall t <- out :: RegistryRowOk(w, zone, t, raw[t]) && out[t].bytes == raw[t] && w.parseRegistry(raw[t]) == Some(out[t].parsed)
        decreases |rest|
      {
        var tld :| tld in rest;
        var row := LoadRegistry(w, zone, tld, raw[tld]);
        if row.Err? {
          assert !RegistryRowOk(w, zone, tld, raw[tld]);
          RowsParse(w, zone, raw);
          return Err(row.error);
        }
        out := out[tld := row.value];
        rest := rest - {tld};
      }
      RowsParse(w, zone, raw);
      return Ok(out);
    }

    static lemma RowsParse(w: World, zone: RootZone, raw: map<string, Bytes>)
      ensures (forall t <- raw :: RegistryRowOk(w, zone, t, raw[t])) ==> forall t <- raw :: w.parseRegistry(raw[t]).Some?
    {
    }

    static method LoadManifests(w: World, files: map<Hash, Bytes>) returns (r: map<Hash, Bytes>)
      ensures r == map h | h in files && w.hash(files[h]) == h :: files[h]
    {
      r := map[];
      var rest := files.Keys;
      while rest != {}
        invariant rest <= files.Keys
        invariant r == map h | h in files && h !in rest && w.hash(files[h]) == h :: files[h]
        decreases |rest|
      {
        var name :| name in rest;
        if w.hash(files[name]) == name {
          r := r[name := files[name]];
        }
        rest := rest - {name};
      }
    }

    static method LoadMutations(rows: map<Hash, AppliedMutation>) returns (r: map<Hash, AppliedMutation>)
      ensures r == Table(Values(rows), MutationId)
    {
      var list := CollectValues(rows);
      r := map[];
      for i := 0 to |list|
        invariant r == Table(list[..i], MutationId)
      {
        assert list[..i + 1][..i] == list[..i];
        r := r[list[i].mutation.mutationId := list[i]];
      }
      assert list[..|list|] == list;
    }

    /** File and table row of the current zone. */
    method WriteSnapshot()
      modifies backend`snapshots, content`snapshotFiles
      ensures OnDisk() == old(OnDisk()).(
                tables := AfterSnapshot(old(OnDisk()).tables, SnapshotOf(w, zone)),
                snapshotFiles := old(content.snapshotFiles)[zone.rootVersion := zone])
    {
      content.snapshotFiles := content.snapshotFiles[zone.rootVersion := zone];
      backend.CreateSnapshot(SnapshotOf(w, zone));
    }

    method WriteManifest(h: Hash, bytes: Bytes)
      modifies this`manifests, content`manifestFiles
      ensures manifests == old(manifests)[h := bytes]
      ensures content.manifestFiles == old(content.manifestFiles)[h := bytes]
    {
      content.manifestFiles := content.manifestFiles[h := bytes];
      manifests := manifests[h := bytes];
    }

    method StoreManifest(h: Hash, bytes: Bytes) returns (r: Result<()>)
      modifies this`manifests, content`manifestFiles
      ensures r == VerifyBytes(w, bytes, h)
      ensures Now() == PutManifest(w, old(Now()), h, bytes)
    {
      var checked := VerifyBytes(w, bytes, h);
      if checked.Err? {
        return checked;
      }
      WriteManifest(h, bytes);
      return Ok(());
    }

    method StoreBlocks(blocks: seq<ContentBlock>) returns (r: Result<()>)
      modifies content`blocks
      ensures (content.blocks, r) == PutBlocks(w, old(content.blocks), blocks)
    {
      assert blocks[0..] == blocks;
      for i := 0 to |blocks|
        invariant PutBlocks(w, old(content.blocks), blocks) == PutBlocks(w, content.blocks, blocks[i..])
      {
        assert blocks[i..][1..] == blocks[i + 1..];
        var checked := VerifyBytes(w, blocks[i].bytes, blocks[i].hash);
        if checked.Err? {
          return checked;
        }
        content.blocks := content.blocks[blocks[i].hash := blocks[i].bytes];
      }
      return Ok(());
    }

    /** `apply`: on success memory first, then one transaction and the snapshot. */
    method Apply(req: MutationRequest, ctx: Context) returns (r: Result<AuditRecord>)
      modifies this, backend, content
      ensures var before := old(Now()); var decision := Decide(w, before.mem, req, ctx);
              && (r.Ok? <==> decision.Ok?)
              && (r.Ok? ==> r.value == decision.value.event)
              && (r.Err? ==> r.error == decision.error)
      ensures Now() == ApplySystem(w, old(Now()), req, ctx)
    {
      var _ :- VerifyRequest(w, req);
      var _ :- CheckAge(w, req, ctx.now);
      if req.mutationId in applied {
        return Err(Replay);
      }
      var key := Target(req.action);
      var current := if key in targetVersions then targetVersions[key] else 0;
      if req.targetVersion <= current {
        return Err(Replay);
      }
      var state := RegistryState(zone, registries, manifests, targetVersions, applied, audit);
      var copy := new WorkingZone(w, zone);
      var done :- copy.ApplyTo(state, req, ctx);
      hide ApplyAction;
      var signed := Countersigned(w, copy.zone, req, done.role, ctx);
      var _ :- VerifyZone(w, signed, ctx.root);
      var event := AuditOf(w, zone, signed, req, done.role, ctx);
      Land(req, Accepted(signed, event, AppliedMutation(req, event.eventId, w.rfc3339(ctx.now), signed.rootVersion), done.registry));
      return Ok(event);
    }

    /** The commit half of `apply`: memory, then one transaction, then the snapshot. */
    method Land(req: MutationRequest, a: Accepted)
      modifies this, backend, content
      ensures Memory() == CommitMem(w, old(Memory()), req, a)
      ensures OnDisk() == CommitDisk(w, old(OnDisk()), req, a)
    {
      hide CommitMem;
      hide BatchOf;
      hide SnapshotOf;
      hide AfterMutation;
      hide AfterSnapshot;
      MemoryZone(w, Memory(), req, a);
      Remember(req, a);
      Persist(req, a);
      WriteSnapshot();
    }

    static lemma MemoryZone(w: World, s: RegistryState, req: MutationRequest, a: Accepted)
      ensures CommitMem(w, s, req, a).zone == a.zone
    {
    }

    method Remember(req: MutationRequest, a: Accepted)
      modifies this, content`manifestFiles
      ensures Memory() == CommitMem(w, old(Memory()), req, a)
      ensures content.manifestFiles == CommitDisk(w, old(OnDisk()), req, a).manifestFiles
    {
      hide Target;
      zone := a.zone;
      if a.registry.Some? {
        var pinned := a.registry.value;
        WriteManifest(w.hash(pinned.bytes), pinned.bytes);
        registries := registries[pinned.tld := PinnedRegistry(pinned.bytes, pinned.parsed)];
      }
      targetVersions := targetVersions[Target(req.action) := req.targetVersion];
      applied := applied[req.mutationId := a.applied];
      audit := audit + [a.event];
    }

    method Persist(req: MutationRequest, a: Accepted)
      requires zone == a.zone
      modifies backend
      ensures backend.Contents() == AfterMutation(old(backend.Contents()), BatchOf(w, req, a))
    {
      hide Target;
      hide StateHash;
      hide AfterMutation;
      var tlds := CollectValues(zone.tlds);
      var domains := CollectValues(zone.domains);
      var pinned := if a.registry.Some? then Some((a.registry.value.tld, a.registry.value.bytes)) else None;
      backend.CommitMutation(CommitBatch(zone, StateHash(w, zone), tlds, domains, Target(req.action), req.targetVersion,
                                         a.applied, a.event, pinned, SnapshotOf(w, zone)));
    }

    /** `issue_nonce`; the random challenge is an input. */
    method IssueNonce(nonce: string, now: int) returns (expires: int)
      modifies backend`nonces
      ensures expires == now + NONCE_TTL_SECS
      ensures Now() == IssueSystem(old(Now()), nonce, now)
    {
      expires := now + NONCE_TTL_SECS;
      backend.ReserveNonce(nonce, expires);
    }

    /** `run_mutation` behind its write lock. */
    method RunOnline(req: MutationRequest, site: Option<SiteContent>, ctx: Context) returns (r: Result<AuditRecord>)
      modifies this, backend, content
      ensures Now() == RunMutation(w, old(Now()), req, site, ctx)
      ensures r.Ok? ==> NonceIsLive(old(backend.nonces), req.nonce, Timestamp(ctx.now))
    {
      var valid := backend.ConsumeNonce(req.nonce, Timestamp(ctx.now));
      assert Now() == ConsumeSystem(old(Now()), req.nonce);
      if !valid {
        return Err(Replay);
      }
      if site.Some? {
        ghost var consumed := Now();
        var stored := StoreBlocks(site.value.blocks);
        if stored.Err? {
          return Err(stored.error);
        }
        var named := StoreManifest(w.hash(site.value.manifest), site.value.manifest);
        assert Now() == IngestSystem(w, consumed, site.value);
        if named.Err? {
          return Err(named.error);
        }
      }
      r := Apply(req, ctx);
    }

    /** `verify_tables` */
    method VerifyTables() returns (ok: bool)
      ensures ok <==> TablesMirror(backend.Contents(), zone)
    {
      if |backend.tldRecords| != |zone.tlds| || |backend.domainRecords| != |zone.domains| {
        return false;
      }
      var tldsAgree := forall k <- backend.tldRecords :: var rec := backend.tldRecords[k];
        rec.tld in zone.tlds && zone.tlds[rec.tld].signature == rec.signature;
      var domainsAgree := forall k <- backend.domainRecords :: var rec := backend.domainRecords[k];
        rec.domain in zone.domains && zone.domains[rec.domain].signature == rec.signature;
      return tldsAgree && domainsAgree;
    }

    method VerifyAudit(rootKey: Key) returns (ok: bool)
      ensures ok <==> forall i :: 0 <= i < |audit| ==> AuditVerifies(w, audit[i], rootKey)
    {
      for i := 0 to |audit|
        invariant forall j :: 0 <= j < i ==> AuditVerifies(w, audit[j], rootKey)
      {
        if !AuditVerifies(w, audit[i], rootKey) {
          return false;
        }
      }
      return true;
    }

    method VerifyContent() returns (ok: bool)
      ensures ok <==> && (forall h <- manifests :: VerifyBytes(w, manifests[h], h).Ok?)
                      && (forall h <- content.blocks :: VerifyBytes(w, content.blocks[h], h).Ok?)
    {
      var manifestsOk := forall h <- manifests :: VerifyBytes(w, manifests[h], h).Ok?;
      var blocksOk := forall h <- content.blocks :: VerifyBytes(w, content.blocks[h], h).Ok?;
      return manifestsOk && blocksOk;
    }

    method VerifyRegistries() returns (ok: bool)
      ensures ok <==> forall t <- registries ::
                        && t in zone.tlds
                        && VerifyRegistry(w, registries[t].parsed, t, zone.tlds[t].operatorPublicKey).Ok?
    {
      ok := true;
      var rest := registries.Keys;
      while rest != {}
        invariant rest <= registries.Keys
        invariant forall t <- registries :: t !in rest ==>
                    && t in zone.tlds
                    && VerifyRegistry(w, registries[t].parsed, t, zone.tlds[t].operatorPublicKey).Ok?
        decreases |rest|
      {
        var tld :| tld in rest;
        if tld !in zone.tlds {
          return false;
        }
        if VerifyRegistry(w, registries[tld].parsed, tld, zone.tlds[tld].operatorPublicKey).Err? {
          return false;
        }
        rest := rest - {tld};
      }
      return true;
    }

    /** `verify_all` on the current memory and disk. */
    method VerifyAll(rootKey: Key) returns (ok: bool)
      ensures ok <==> VerifiesAll(w, Now(), rootKey)
    {
      var zoneOk := ValidateZone(zone).Ok? && VerifyZone(w, zone, rootKey).Ok?;
      var registriesOk := VerifyRegistries();
      var contentOk := VerifyContent();
      var auditOk := VerifyAudit(rootKey);
      var tablesOk := VerifyTables();
      return zoneOk && registriesOk && contentOk && auditOk && tablesOk;
    }
  }
}
