/** Whole runs of the server: the invariant always holds, and a restart is a no-op. */
module RestartProofs {
  import opened Prelude
  import opened Records
  import opened Root
  import opened Requests
  import opened DbTables
  import opened Actions
  import opened Changes
  import opened RegistrySpec
  import opened Invariant

  lemma KeyedTables(w: World, s: RegistryState, root: Key)
    requires RecordsTrusted(w, s, root)
    ensures Table(Values(s.zone.tlds), TldName) == s.zone.tlds
    ensures Table(Values(s.zone.domains), DomainName) == s.zone.domains
  {
    forall d | d in s.zone.domains
      ensures DomainName(s.zone.domains[d]) == d
    {
      assert DomainTrusted(w, s.zone.tlds, d, s.zone.domains[d]);
    }
    TableMirrors(s.zone.tlds, TldName);
    TableMirrors(s.zone.domains, DomainName);
  }

  lemma CommittedRegistries(w: World, s: RegistryState, req: MutationRequest, a: Accepted)
    ensures RawRegistries(CommitMem(w, s, req, a).registries) ==
            if a.registry.Some? then RawRegistries(s.registries)[a.registry.value.tld := a.registry.value.bytes]
            else RawRegistries(s.registries)
  {
  }

  /** A batch that says what the new memory says leaves tables that mirror it. */
  lemma BatchMirrors(w: World, mem: RegistryState, mem': RegistryState, t: Tables, b: CommitBatch, meta: SnapshotMeta, disk': Disk)
    requires b.zone == mem'.zone && b.stateHash == StateHash(w, mem'.zone)
    requires Table(b.tlds, TldName) == mem'.zone.tlds && Table(b.domains, DomainName) == mem'.zone.domains
    requires t.mutations == mem.applied && mem'.applied == mem.applied[b.applied.mutation.mutationId := b.applied]
    requires Rows(t.auditEvents) == mem.audit && mem'.audit == mem.audit + [b.audit]
    requires t.targetVersions == mem.targetVersions && mem'.targetVersions == mem.targetVersions[b.targetKey := b.targetVersion]
    requires AfterMutation(t, b).delegatedRegistries == RawRegistries(mem'.registries)
    requires disk'.tables == AfterSnapshot(AfterMutation(t, b), meta)
    requires disk'.manifestFiles == mem'.manifests
    ensures Mirrors(w, mem', disk')
  {
    RowsAppend(t.auditEvents, b.audit);
  }

  /** The one transaction keeps tables and files in step with the memory. */
  lemma AcceptKeepsMirror(w: World, sys: System, root: Key, req: MutationRequest, ctx: Context, a: Accepted)
    requires Mirrors(w, sys.mem, sys.disk)
    requires a.applied.mutation == req
    requires RecordsTrusted(w, CommitMem(w, sys.mem, req, a), root)
    ensures Mirrors(w, CommitMem(w, sys.mem, req, a), CommitDisk(w, sys.disk, req, a))
  {
    KeyedTables(w, CommitMem(w, sys.mem, req, a), root);
    CommittedRegistries(w, sys.mem, req, a);
    BatchMirrors(w, sys.mem, CommitMem(w, sys.mem, req, a), sys.disk.tables, BatchOf(w, req, a), SnapshotOf(w, a.zone),
                 CommitDisk(w, sys.disk, req, a));
  }

  lemma AcceptKeepsAudit(w: World, sys: System, root: Key, req: MutationRequest, ctx: Context, a: Accepted)
    requires Lawful(w) && SystemInv(w, sys, root)
    requires Decide(w, sys.mem, req, ctx) == Ok(a)
    ensures var mem' := CommitMem(w, sys.mem, req, a);
            && KeyedBy(mem'.applied, MutationId)
            && (forall i :: 0 <= i < |mem'.audit| ==> AuditVerifies(w, mem'.audit[i], root))
  {
    var e := DecideUnfolds(w, sys.mem, req, ctx, a);
    AcceptedUnderRoot(w, sys.mem, root, req, ctx, a);
    FinalizedAuditVerifies(w, root, AuditRecord("", req.mutationId, req.actorPublicKey, e.role, Kind(req.action), Target(req.action),
                                                StateHash(w, sys.mem.zone), StateHash(w, a.zone), w.rfc3339(ctx.now), SIGNATURE_ALGORITHM, None));
    assert AuditVerifies(w, a.event, root);
  }

  lemma ApplyKeepsInv(w: World, sys: System, root: Key, req: MutationRequest, ctx: Context)
    requires Lawful(w) && SystemInv(w, sys, root)
    ensures SystemInv(w, ApplySystem(w, sys, req, ctx), root)
  {
    var decision := Decide(w, sys.mem, req, ctx);
    if decision.Ok? {
      var a := decision.value;
      var _ := DecideUnfolds(w, sys.mem, req, ctx, a);
      AcceptKeepsTrust(w, sys.mem, root, req, ctx, a);
      AcceptKeepsPins(w, sys.mem, root, req, ctx, a);
      AcceptKeepsMirror(w, sys, root, req, ctx, a);
      AcceptKeepsAudit(w, sys, root, req, ctx, a);
    }
  }

  lemma {:induction false} PutBlocksKeepsContent(w: World, store: map<Hash, Bytes>, blocks: seq<ContentBlock>)
    requires ContentAddressed(w, store)
    ensures ContentAddressed(w, PutBlocks(w, store, blocks).0)
    decreases |blocks|
  {
    if blocks != [] && VerifyBytes(w, blocks[0].bytes, blocks[0].hash).Ok? {
      PutBlocksKeepsContent(w, store[blocks[0].hash := blocks[0].bytes], blocks[1..]);
    }
  }

  /** Fresh content in the manifest store leaves every pin where it is. */
  lemma StoringKeepsPins(w: World, s: RegistryState, bytes: Bytes)
    requires Lawful(w) && PinsAgree(w, s) && ContentAddressed(w, s.manifests)
    ensures PinsAgree(w, s.(manifests := s.manifests[w.hash(bytes) := bytes]))
  {
    StoringKeepsContent(w, s.manifests, bytes);
    var s' := s.(manifests := s.manifests[w.hash(bytes) := bytes]);
    forall t | t in s.registries || (t in s.zone.tlds && s.zone.tlds[t].registryManifestHash.Some?)
      ensures Pinned(w, s', t)
    {
      assert Pinned(w, s, t);
    }
  }

  lemma IngestKeepsInv(w: World, sys: System, root: Key, content: SiteContent)
    requires Lawful(w) && SystemInv(w, sys, root)
    ensures SystemInv(w, IngestSystem(w, sys, content), root)
  {
    PutBlocksKeepsContent(w, sys.disk.blocks, content.blocks);
    StoringKeepsContent(w, sys.mem.manifests, content.manifest);
    StoringKeepsPins(w, sys.mem, content.manifest);
    hide PutBlocks;
    hide PinsAgree;
    hide RecordsTrusted;
    hide ZoneVerifies;
    hide AuditVerifies;
    hide KeyedBy;
  }

  lemma RunMutationKeepsInv(w: World, sys: System, root: Key, req: MutationRequest, content: Option<SiteContent>, ctx: Context)
    requires Lawful(w) && SystemInv(w, sys, root)
    ensures SystemInv(w, RunMutation(w, sys, req, content, ctx), root)
  {
    var consumed := ConsumeSystem(sys, req.nonce);
    assert SystemInv(w, consumed, root);
    match content
    case None => ApplyKeepsInv(w, consumed, root, req, ctx);
    case Some(c) =>
      IngestKeepsInv(w, consumed, root, c);
      ApplyKeepsInv(w, IngestSystem(w, consumed, c), root, req, ctx);
  }

  lemma RowsOpen(w: World, sys: System, root: Key)
    requires SystemInv(w, sys, root)
    ensures forall t <- sys.disk.tables.delegatedRegistries ::
              RegistryRowOk(w, sys.mem.zone, t, sys.disk.tables.delegatedRegistries[t])
  {
    forall t | t in sys.disk.tables.delegatedRegistries
      ensures RegistryRowOk(w, sys.mem.zone, t, sys.disk.tables.delegatedRegistries[t])
    {
      assert RegistryTrusted(w, sys.mem.zone.tlds, t, sys.mem.registries[t]);
    }
  }

  lemma InvOpens(w: World, sys: System, root: Key)
    requires SystemInv(w, sys, root)
    ensures Opens(w, sys.disk, root)
  {
    RowsOpen(w, sys, root);
    var zone := sys.mem.zone;
    forall d | d in zone.domains
      ensures zone.domains[d].tld in zone.tlds
    {
      assert DomainTrusted(w, zone.tlds, d, zone.domains[d]);
    }
  }

  lemma ReopenedRegistries(w: World, mem: RegistryState, raw: map<string, Bytes>)
    requires RegistriesTrusted(w, mem.zone.tlds, mem.registries)
    requires raw == RawRegistries(mem.registries)
    ensures (map t | t in raw :: PinnedRegistry(raw[t], w.parseRegistry(raw[t]).value)) == mem.registries
  {
    forall t | t in mem.registries
      ensures PinnedRegistry(raw[t], w.parseRegistry(raw[t]).value) == mem.registries[t]
    {
      assert RegistryTrusted(w, mem.zone.tlds, t, mem.registries[t]);
    }
  }

  lemma ReopenedManifests(w: World, files: map<Hash, Bytes>)
    requires ContentAddressed(w, files)
    ensures (map h | h in files && w.hash(files[h]) == h :: files[h]) == files
  {
  }

  /** Opening the disk of any state that satisfies the invariant gives that state back. */
  lemma InvReopens(w: World, sys: System, root: Key)
    requires SystemInv(w, sys, root)
    ensures Opens(w, sys.disk, root)
    ensures Opened(w, sys.disk) == sys.mem
  {
    InvOpens(w, sys, root);
    TableMirrors(sys.mem.applied, MutationId);
    ReopenedRegistries(w, sys.mem, sys.disk.tables.delegatedRegistries);
    ReopenedManifests(w, sys.disk.manifestFiles);
  }

  lemma OtherKeyStaysShut(w: World, sys: System, root: Key, key: Key)
    requires SystemInv(w, sys, root) && key != root
    ensures !Opens(w, sys.disk, key)
  {
  }

  lemma NextKeepsInv(w: World, sys: System, root: Key, step: Step)
    requires Lawful(w) && SystemInv(w, sys, root)
    ensures SystemInv(w, Next(w, sys, step), root)
  {
    match step
    case IssueNonce(nonce, now) =>
    case Submit(req, content, ctx) => RunMutationKeepsInv(w, sys, root, req, content, ctx);
    case Offline(req, ctx) => ApplyKeepsInv(w, sys, root, req, ctx);
    case Restart(key) =>
      InvReopens(w, sys, root);
  }

  lemma EmptyZoneVerifies(w: World, root: Key, now: Instant)
    requires Lawful(w)
    ensures ZoneVerifies(w, EmptyZone(w, root, now), root)
  {
    var z := EmptyZone(w, root, now);
    assert SignZone(w, root, z.(signature := None)) == z;
    assert z.(signature := None).(signature := None) == z.(signature := None);
  }

  lemma InitialInv(w: World, root: Key, now: Instant)
    requires Lawful(w)
    ensures SystemInv(w, InitialSystem(w, root, now), root)
  {
    EmptyZoneVerifies(w, root, now);
    var sys := InitialSystem(w, root, now);
    assert Trusted(w, sys.mem, root);
    KeyedTables(w, sys.mem, root);
    assert Rows(sys.disk.tables.auditEvents) == [];
    assert RawRegistries(sys.mem.registries) == map[];
  }

  /** Over every run from the empty registry the whole invariant holds. */
  lemma {:induction false} RunKeepsInv(w: World, root: Key, now: Instant, steps: seq<Step>)
    requires Lawful(w)
    ensures SystemInv(w, Run(w, InitialSystem(w, root, now), steps), root)
    decreases |steps|
  {
    if steps == [] {
      InitialInv(w, root, now);
    } else {
      var front := steps[..|steps| - 1];
      RunKeepsInv(w, root, now, front);
      NextKeepsInv(w, Run(w, InitialSystem(w, root, now), front), root, steps[|steps| - 1]);
    }
  }

  /** Restart is a no-op: after any run `open` succeeds under the root key, rebuilds exactly
      the memory that was lost, and `verify_all` passes on it. No other key opens the disk. */
  lemma RestartIsNoOp(w: World, root: Key, now: Instant, steps: seq<Step>, key: Key)
    requires Lawful(w)
    ensures var sys := Run(w, InitialSystem(w, root, now), steps);
            && (Opens(w, sys.disk, key) <==> key == root)
            && (key == root ==> Opened(w, sys.disk) == sys.mem)
            && Next(w, sys, Restart(key)) == sys
            && VerifiesAll(w, sys, root)
  {
    RunKeepsInv(w, root, now, steps);
    var sys := Run(w, InitialSystem(w, root, now), steps);
    InvRestarts(w, sys, root, key);
  }

  lemma InvRestarts(w: World, sys: System, root: Key, key: Key)
    requires Lawful(w) && SystemInv(w, sys, root)
    ensures Opens(w, sys.disk, key) <==> key == root
    ensures key == root ==> Opened(w, sys.disk) == sys.mem
    ensures Next(w, sys, Restart(key)) == sys
    ensures VerifiesAll(w, sys, root)
  {
    InvReopens(w, sys, root);
    InvVerifiesAll(w, sys, root);
    if key != root {
      OtherKeyStaysShut(w, sys, root, key);
    }
    hide SystemInv;
    hide Opened;
    hide VerifiesAll;
    hide Lawful;
  }

  lemma InvVerifiesAll(w: World, sys: System, root: Key)
    requires Lawful(w) && SystemInv(w, sys, root)
    ensures VerifiesAll(w, sys, root)
  {
    InvOpens(w, sys, root);
    forall t | t in sys.mem.registries
      ensures t in sys.mem.zone.tlds
      ensures VerifyRegistry(w, sys.mem.registries[t].parsed, t, sys.mem.zone.tlds[t].operatorPublicKey).Ok?
    {
      assert RegistryTrusted(w, sys.mem.zone.tlds, t, sys.mem.registries[t]);
    }
    forall h | h in sys.mem.manifests
      ensures VerifyBytes(w, sys.mem.manifests[h], h).Ok?
    {
      assert w.hash(sys.mem.manifests[h]) == h;
    }
    forall h | h in sys.disk.blocks
      ensures VerifyBytes(w, sys.disk.blocks[h], h).Ok?
    {
      assert w.hash(sys.disk.blocks[h]) == h;
    }
    TablesMirrorZone(w, sys, root);
  }

  lemma TablesMirrorZone(w: World, sys: System, root: Key)
    requires SystemInv(w, sys, root)
    ensures TablesMirror(sys.disk.tables, sys.mem.zone)
  {
    forall k | k in sys.mem.zone.domains
      ensures sys.mem.zone.domains[k].domain == k
    {
      assert DomainTrusted(w, sys.mem.zone.tlds, k, sys.mem.zone.domains[k]);
    }
  }
}
