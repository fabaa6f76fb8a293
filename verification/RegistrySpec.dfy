/** What the persistent registry does, as functions on its memory and its disk
    (`RegistryStore::{init, open, apply, verify_all}` and `run_mutation`). */
module RegistrySpec {
  import opened Prelude
  import opened Records
  import opened Root
  import opened Requests
  import opened DbTables
  import opened Actions

  const ZONE_AUDIT_TAIL := 200
  const NETWORK_NAME: string := "federate"
  const ROOT_SUBJECT: string := "root-zone"
  const INIT_DETAIL: string := "empty registry initialized; TLDs arrive via seed/mutations"

  /** The database, the content files and the zone snapshots under the registry directory. */
  datatype Disk = Disk(
    tables: Tables,
    manifestFiles: map<Hash, Bytes>,
    blocks: map<Hash, Bytes>,
    snapshotFiles: map<u64, RootZone>)

  datatype System = System(mem: RegistryState, disk: Disk)

  function StateHash(w: World, zone: RootZone): Hash {
    w.hash(w.canon(ZoneDoc(zone)))
  }

  function SnapshotOf(w: World, zone: RootZone): SnapshotMeta {
    SnapshotMeta(zone.rootVersion, zone.generatedAt, StateHash(w, zone))
  }

  function UnixSeconds(now: Instant): u64 {
    if Timestamp(now) > 0 then Timestamp(now) else 0
  }

  /** One up, saturating at the largest u64, and never behind the clock. */
  function NextVersion(v: u64, now: Instant): u64 {
    var bumped := if v == MAX_U64 then v else v + 1;
    if bumped < UnixSeconds(now) then UnixSeconds(now) else bumped
  }

  function Tail<T>(s: seq<T>, n: nat): seq<T> {
    if |s| > n then s[|s| - n..] else s
  }

  // ------------------------------------------------------------------
  // accepting a mutation
  // ------------------------------------------------------------------

  /** The zone an accepted action ends in: new version, one more trail entry, re-signed. */
  function Countersigned(w: World, zone: RootZone, req: MutationRequest, role: ActorRole, ctx: Context): RootZone {
    var now := w.rfc3339(ctx.now);
    var event := AuditEvent(now, role, Kind(req.action), Target(req.action).id, Some(req.mutationId));
    SignZone(w, ctx.root,
             zone.(rootVersion := NextVersion(zone.rootVersion, ctx.now),
                   generatedAt := now,
                   audit := Tail(zone.audit + [event], ZONE_AUDIT_TAIL)))
  }

  function AuditOf(w: World, before: RootZone, after: RootZone, req: MutationRequest, role: ActorRole, ctx: Context): AuditRecord {
    FinalizeAudit(w, ctx.root,
                  AuditRecord("", req.mutationId, req.actorPublicKey, role, Kind(req.action), Target(req.action),
                              StateHash(w, before), StateHash(w, after), w.rfc3339(ctx.now), SIGNATURE_ALGORITHM, None))
  }

  datatype Accepted = Accepted(zone: RootZone, event: AuditRecord, applied: AppliedMutation, registry: Option<NewRegistry>)

  function CurrentVersion(s: RegistryState, key: TargetKey): u64 {
    if key in s.targetVersions then s.targetVersions[key] else 0
  }

  /** The envelope checks of `apply`, in its order. */
  function Screen(w: World, s: RegistryState, req: MutationRequest, ctx: Context): Result<()> {
    var _ :- VerifyRequest(w, req);
    var _ :- CheckAge(w, req, ctx.now);
    if req.mutationId in s.applied then Err(Replay)
    else if req.targetVersion <= CurrentVersion(s, Target(req.action)) then Err(Replay)
    else Ok(())
  }

  /** Everything `apply` does before it commits. */
  function Decide(w: World, s: RegistryState, req: MutationRequest, ctx: Context): Result<Accepted> {
    var _ :- Screen(w, s, req, ctx);
    var effect :- ApplyAction(w, s, req, ctx);
    var zone := Countersigned(w, effect.zone, req, effect.role, ctx);
    var _ :- VerifyZone(w, zone, ctx.root);
    var event := AuditOf(w, s.zone, zone, req, effect.role, ctx);
    Ok(Accepted(zone, event, AppliedMutation(req, event.eventId, w.rfc3339(ctx.now), zone.rootVersion), effect.registry))
  }

  /** The memory after the commit. */
  function CommitMem(w: World, s: RegistryState, req: MutationRequest, a: Accepted): RegistryState {
    RegistryState(
      a.zone,
      if a.registry.Some? then s.registries[a.registry.value.tld := PinnedRegistry(a.registry.value.bytes, a.registry.value.parsed)]
      else s.registries,
      if a.registry.Some? then s.manifests[w.hash(a.registry.value.bytes) := a.registry.value.bytes] else s.manifests,
      s.targetVersions[Target(req.action) := req.targetVersion],
      s.applied[req.mutationId := a.applied],
      s.audit + [a.event])
  }

  ghost function BatchOf(w: World, req: MutationRequest, a: Accepted): CommitBatch {
    CommitBatch(a.zone, StateHash(w, a.zone), Values(a.zone.tlds), Values(a.zone.domains),
                Target(req.action), req.targetVersion, a.applied, a.event,
                if a.registry.Some? then Some((a.registry.value.tld, a.registry.value.bytes)) else None,
                SnapshotOf(w, a.zone))
  }

  /** The disk after the commit and the snapshot. */
  ghost function CommitDisk(w: World, d: Disk, req: MutationRequest, a: Accepted): Disk {
    Disk(
      AfterSnapshot(AfterMutation(d.tables, BatchOf(w, req, a)), SnapshotOf(w, a.zone)),
      if a.registry.Some? then d.manifestFiles[w.hash(a.registry.value.bytes) := a.registry.value.bytes] else d.manifestFiles,
      d.blocks,
      d.snapshotFiles[a.zone.rootVersion := a.zone])
  }

  /** `apply`: all of it or nothing. */
  ghost function ApplySystem(w: World, sys: System, req: MutationRequest, ctx: Context): System {
    match Decide(w, sys.mem, req, ctx)
    case Err(_) => sys
    case Ok(a) => System(CommitMem(w, sys.mem, req, a), CommitDisk(w, sys.disk, req, a))
  }

  // ------------------------------------------------------------------
  // content ingestion and the online path
  // ------------------------------------------------------------------

  /** `store_blocks`: each block is verified as it is written; the first bad one stops the loop. */
  function PutBlocks(w: World, store: map<Hash, Bytes>, blocks: seq<ContentBlock>): (map<Hash, Bytes>, Result<()>)
    decreases |blocks|
  {
    if blocks == [] then (store, Ok(()))
    else
      match VerifyBytes(w, blocks[0].bytes, blocks[0].hash)
      case Err(e) => (store, Err(e))
      case Ok(_) => PutBlocks(w, store[blocks[0].hash := blocks[0].bytes], blocks[1..])
  }

  /** `store_manifest` */
  function PutManifest(w: World, sys: System, h: Hash, bytes: Bytes): System {
    if VerifyBytes(w, bytes, h).Err? then sys
    else sys.(mem := sys.mem.(manifests := sys.mem.manifests[h := bytes]),
              disk := sys.disk.(manifestFiles := sys.disk.manifestFiles[h := bytes]))
  }

  function ContentError(w: World, sys: System, content: SiteContent): Result<()> {
    var _ :- PutBlocks(w, sys.disk.blocks, content.blocks).1;
    VerifyBytes(w, content.manifest, w.hash(content.manifest))
  }

  function IngestSystem(w: World, sys: System, content: SiteContent): System {
    var (blocks, ok) := PutBlocks(w, sys.disk.blocks, content.blocks);
    var stored := sys.(disk := sys.disk.(blocks := blocks));
    if ok.Err? then stored else PutManifest(w, stored, w.hash(content.manifest), content.manifest)
  }

  function ConsumeSystem(sys: System, nonce: string): System {
    sys.(disk := sys.disk.(tables := sys.disk.tables.(nonces := sys.disk.tables.nonces - {nonce})))
  }

  function IssueSystem(sys: System, nonce: string, now: int): System {
    sys.(disk := sys.disk.(tables := sys.disk.tables.(nonces := Reserve(sys.disk.tables.nonces, nonce, now + NONCE_TTL_SECS))))
  }

  /** `run_mutation`: nonce, then content, then the mutation. */
  ghost function RunMutation(w: World, sys: System, req: MutationRequest, content: Option<SiteContent>, ctx: Context): System {
    var consumed := ConsumeSystem(sys, req.nonce);
    if !NonceIsLive(sys.disk.tables.nonces, req.nonce, Timestamp(ctx.now)) then consumed
    else
      match content
      case None => ApplySystem(w, consumed, req, ctx)
      case Some(c) =>
        var stored := IngestSystem(w, consumed, c);
        if ContentError(w, consumed, c).Err? then stored else ApplySystem(w, stored, req, ctx)
  }

  // ------------------------------------------------------------------
  // first and later boots
  // ------------------------------------------------------------------

  /** The zone of `init_empty_registry`. */
  function EmptyZone(w: World, root: Key, now: Instant): RootZone {
    var at := w.rfc3339(now);
    SignZone(w, root,
             RootZone(NETWORK_NAME, UnixSeconds(now), at, root, map[], map[],
                      [AuditEvent(at, RootRole, RootInitKind, ROOT_SUBJECT, Some(INIT_DETAIL))],
                      SIGNATURE_ALGORITHM, None))
  }

  function EmptyState(zone: RootZone): RegistryState {
    RegistryState(zone, map[], map[], map[], map[], [])
  }

  ghost function InitialBatch(w: World, zone: RootZone): InitialState {
    InitialState(zone, StateHash(w, zone), Values(zone.tlds), Values(zone.domains), map[], SnapshotOf(w, zone))
  }

  ghost function InitialSystem(w: World, root: Key, now: Instant): System {
    var zone := EmptyZone(w, root, now);
    System(EmptyState(zone),
           Disk(AfterSnapshot(AfterInitial(EMPTY_TABLES, InitialBatch(w, zone)), SnapshotOf(w, zone)),
                map[], map[], map[zone.rootVersion := zone]))
  }

  predicate RegistryRowOk(w: World, zone: RootZone, tld: string, raw: Bytes) {
    && w.parseRegistry(raw).Some?
    && tld in zone.tlds
    && VerifyRegistry(w, w.parseRegistry(raw).value, tld, zone.tlds[tld].operatorPublicKey).Ok?
  }

  /** When `open` accepts what it finds on disk. */
  predicate Opens(w: World, d: Disk, rootKey: Key) {
    && d.tables.currentVersion.Some?
    && d.tables.currentVersion.value in d.tables.rootZoneVersions
    && var zone := d.tables.rootZoneVersions[d.tables.currentVersion.value];
    && ZoneIsValid(zone)
    && VerifyZone(w, zone, rootKey).Ok?
    && zone.rootVersion == d.tables.currentVersion.value
    && (d.tables.stateHash.Some? ==> d.tables.stateHash.value == StateHash(w, zone))
    && forall t <- d.tables.delegatedRegistries :: RegistryRowOk(w, zone, t, d.tables.delegatedRegistries[t])
  }

  /** The memory `open` rebuilds; corrupted manifest files are dropped. */
  ghost function Opened(w: World, d: Disk): RegistryState
    requires exists key :: Opens(w, d, key)
  {
    var raw := d.tables.delegatedRegistries;
    RegistryState(
      d.tables.rootZoneVersions[d.tables.currentVersion.value],
      map t | t in raw :: PinnedRegistry(raw[t], w.parseRegistry(raw[t]).value),
      map h | h in d.manifestFiles && w.hash(d.manifestFiles[h]) == h :: d.manifestFiles[h],
      d.tables.targetVersions,
      Table(Values(d.tables.mutations), MutationId),
      Rows(d.tables.auditEvents))
  }

  /** `verify_tables`: same size, and every row's signature is the zone's. */
  predicate TablesMirror(t: Tables, zone: RootZone) {
    && |t.tldRecords| == |zone.tlds|
    && (forall k <- t.tldRecords :: var rec := t.tldRecords[k];
          rec.tld in zone.tlds && zone.tlds[rec.tld].signature == rec.signature)
    && |t.domainRecords| == |zone.domains|
    && (forall k <- t.domainRecords :: var rec := t.domainRecords[k];
          rec.domain in zone.domains && zone.domains[rec.domain].signature == rec.signature)
  }

  /** `verify_all` */
  predicate VerifiesAll(w: World, sys: System, rootKey: Key) {
    && ZoneIsValid(sys.mem.zone)
    && VerifyZone(w, sys.mem.zone, rootKey).Ok?
    && (forall t <- sys.mem.registries ::
          && t in sys.mem.zone.tlds
          && VerifyRegistry(w, sys.mem.registries[t].parsed, t, sys.mem.zone.tlds[t].operatorPublicKey).Ok?)
    && (forall h <- sys.mem.manifests :: VerifyBytes(w, sys.mem.manifests[h], h).Ok?)
    && (forall h <- sys.disk.blocks :: VerifyBytes(w, sys.disk.blocks[h], h).Ok?)
    && (forall i :: 0 <= i < |sys.mem.audit| ==> AuditVerifies(w, sys.mem.audit[i], rootKey))
    && TablesMirror(sys.disk.tables, sys.mem.zone)
  }

  // ------------------------------------------------------------------
  // runs
  // ------------------------------------------------------------------

  datatype Step =
    | IssueNonce(nonce: string, now: int)
    | Submit(req: MutationRequest, content: Option<SiteContent>, ctx: Context)
    | Offline(req: MutationRequest, ctx: Context)
    | Restart(rootKey: Key)

  /** One event in the life of the server. A restart loses the memory and opens the disk. */
  ghost function Next(w: World, sys: System, step: Step): System {
    match step
    case IssueNonce(nonce, now) => IssueSystem(sys, nonce, now)
    case Submit(req, content, ctx) => RunMutation(w, sys, req, content, ctx)
    case Offline(req, ctx) => ApplySystem(w, sys, req, ctx)
    case Restart(key) => if Opens(w, sys.disk, key) then System(Opened(w, sys.disk), sys.disk) else sys
  }

  ghost function Run(w: World, sys: System, steps: seq<Step>): System {
    if steps == [] then sys else Next(w, Run(w, sys, steps[..|steps| - 1]), steps[|steps| - 1])
  }
}
