/** What runs of the registry keep: the audit chain, the indexes, the versions and
    the authority behind every change. */
module HistoryProofs {
  import opened Prelude
  import opened Records
  import opened Requests
  import opened DbTables
  import opened Actions
  import opened Changes
  import opened ChangeProofs
  import opened RegistrySpec
  import opened Invariant
  import opened RestartProofs

  // ------------------------------------------------------------------
  // one step
  // ------------------------------------------------------------------

  /** Two states that differ at most in stored content and nonces. */
  ghost predicate SameRegistry(a: System, b: System) {
    && a.mem.zone == b.mem.zone
    && a.mem.registries == b.mem.registries
    && a.mem.targetVersions == b.mem.targetVersions
    && a.mem.applied == b.mem.applied
    && a.mem.audit == b.mem.audit
    && a.disk.tables.rootZoneVersions == b.disk.tables.rootZoneVersions
  }

  predicate IsMutation(step: Step) {
    step.Submit? || step.Offline?
  }

  /** A step either leaves the registry alone or commits exactly one accepted mutation. */
  ghost predicate StepResult(w: World, sys: System, root: Key, step: Step, pre: System, a: Option<Accepted>) {
    && SameRegistry(pre, sys)
    && SystemInv(w, pre, root)
    && match a
       case None => SameRegistry(Next(w, sys, step), sys)
       case Some(acc) =>
         && IsMutation(step)
         && Decide(w, pre.mem, step.req, step.ctx) == Ok(acc)
         && Next(w, sys, step) == System(CommitMem(w, pre.mem, step.req, acc), CommitDisk(w, pre.disk, step.req, acc))
  }

  function AcceptedOf(r: Result<Accepted>): Option<Accepted> {
    if r.Ok? then Some(r.value) else None
  }

  /** The state the mutation of an online submission meets, if it gets that far. */
  ghost function BeforeApply(w: World, sys: System, req: MutationRequest, content: Option<SiteContent>): System {
    var consumed := ConsumeSystem(sys, req.nonce);
    if content.Some? then IngestSystem(w, consumed, content.value) else consumed
  }

  lemma BeforeApplyKeeps(w: World, sys: System, root: Key, req: MutationRequest, content: Option<SiteContent>)
    requires Lawful(w) && SystemInv(w, sys, root)
    ensures SystemInv(w, ConsumeSystem(sys, req.nonce), root)
    ensures SystemInv(w, BeforeApply(w, sys, req, content), root)
  {
    var consumed := ConsumeSystem(sys, req.nonce);
    assert SystemInv(w, consumed, root);
    if content.Some? {
      IngestKeepsInv(w, consumed, root, content.value);
    }
  }

  lemma BeforeApplySame(w: World, sys: System, req: MutationRequest, content: Option<SiteContent>)
    ensures SameRegistry(BeforeApply(w, sys, req, content), sys)
    ensures SameRegistry(ConsumeSystem(sys, req.nonce), sys)
  {
  }

  /** Without a live nonce nothing is applied; with one, at most this mutation is. */
  lemma RunMutationCases(w: World, sys: System, req: MutationRequest, content: Option<SiteContent>, ctx: Context)
    ensures var after := RunMutation(w, sys, req, content, ctx);
            || after == ConsumeSystem(sys, req.nonce)
            || after == BeforeApply(w, sys, req, content)
            || (&& NonceIsLive(sys.disk.tables.nonces, req.nonce, Timestamp(ctx.now))
                && after == ApplySystem(w, BeforeApply(w, sys, req, content), req, ctx))
  {
  }

  lemma SubmitUnfolds(w: World, sys: System, root: Key, step: Step) returns (pre: System, a: Option<Accepted>)
    requires Lawful(w) && SystemInv(w, sys, root) && step.Submit?
    ensures StepResult(w, sys, root, step, pre, a)
    ensures a.Some? ==> NonceIsLive(sys.disk.tables.nonces, step.req.nonce, Timestamp(step.ctx.now))
  {
    pre := BeforeApply(w, sys, step.req, step.content);
    BeforeApplyKeeps(w, sys, root, step.req, step.content);
    BeforeApplySame(w, sys, step.req, step.content);
    RunMutationCases(w, sys, step.req, step.content, step.ctx);
    var after := Next(w, sys, step);
    if after == ConsumeSystem(sys, step.req.nonce) || after == pre {
      a := None;
    } else {
      a := AcceptedOf(Decide(w, pre.mem, step.req, step.ctx));
    }
  }

  lemma StepUnfolds(w: World, sys: System, root: Key, step: Step) returns (pre: System, a: Option<Accepted>)
    requires Lawful(w) && SystemInv(w, sys, root)
    ensures StepResult(w, sys, root, step, pre, a)
  {
    match step
    case Submit(_, _, _) => pre, a := SubmitUnfolds(w, sys, root, step);
    case Offline(req, ctx) => pre, a := sys, AcceptedOf(Decide(w, sys.mem, req, ctx));
    case IssueNonce(_, _) => pre, a := sys, None;
    case Restart(_) =>
      InvReopens(w, sys, root);
      pre, a := sys, None;
  }

  // ------------------------------------------------------------------
  // the audit chain and the indexes
  // ------------------------------------------------------------------

  /** The state hash in force before event `i`. */
  function HashBefore(audit: seq<AuditRecord>, first: Hash, i: nat): Hash
    requires i <= |audit|
  {
    if i == 0 then first else audit[i - 1].newStateHash
  }

  /** The hashes link up from `first` to `last` without a gap. */
  ghost predicate Chained(audit: seq<AuditRecord>, first: Hash, last: Hash) {
    && (forall i :: 0 <= i < |audit| ==> audit[i].previousStateHash == HashBefore(audit, first, i))
    && last == HashBefore(audit, first, |audit|)
  }

  ghost predicate DistinctIds(audit: seq<AuditRecord>) {
    forall i, j :: 0 <= i < j < |audit| ==> audit[i].mutationId != audit[j].mutationId
  }

  ghost predicate EventsApplied(audit: seq<AuditRecord>, applied: map<Hash, AppliedMutation>) {
    forall i :: 0 <= i < |audit| ==>
      && audit[i].mutationId in applied
      && applied[audit[i].mutationId].auditEventId == audit[i].eventId
  }

  ghost predicate Audited(audit: seq<AuditRecord>, id: Hash) {
    exists i :: 0 <= i < |audit| && audit[i].mutationId == id
  }

  /** Audit events and accepted mutations are in bijection. */
  ghost predicate AuditMatchesApplied(mem: RegistryState) {
    && |mem.audit| == |mem.applied|
    && DistinctIds(mem.audit)
    && EventsApplied(mem.audit, mem.applied)
    && forall id <- mem.applied :: Audited(mem.audit, id)
  }

  ghost predicate HasVersion(applied: map<Hash, AppliedMutation>, key: TargetKey, version: u64) {
    exists id :: id in applied && Target(applied[id].mutation.action) == key && applied[id].mutation.targetVersion == version
  }

  /** Each target's version is the maximum over the accepted mutations with that key. */
  ghost predicate VersionsAreMaxima(mem: RegistryState) {
    && (forall k <- mem.targetVersions :: HasVersion(mem.applied, k, mem.targetVersions[k]))
    && (forall id <- mem.applied ::
          && Target(mem.applied[id].mutation.action) in mem.targetVersions
          && mem.applied[id].mutation.targetVersion <= mem.targetVersions[Target(mem.applied[id].mutation.action)])
  }

  function Embedded(e: AuditRecord): AuditEvent {
    AuditEvent(e.timestamp, e.actorRole, e.action, e.target.id, Some(e.mutationId))
  }

  function EmbeddedAll(audit: seq<AuditRecord>): (r: seq<AuditEvent>)
    ensures |r| == |audit|
  {
    seq(|audit|, i requires 0 <= i < |audit| => Embedded(audit[i]))
  }

  ghost predicate HistoryInv(w: World, first: RootZone, mem: RegistryState) {
    && Chained(mem.audit, StateHash(w, first), StateHash(w, mem.zone))
    && AuditMatchesApplied(mem)
    && VersionsAreMaxima(mem)
    && mem.zone.audit == Tail(first.audit + EmbeddedAll(mem.audit), ZONE_AUDIT_TAIL)
  }

  lemma ChainExtends(audit: seq<AuditRecord>, first: Hash, last: Hash, event: AuditRecord)
    requires Chained(audit, first, last)
    requires event.previousStateHash == last
    ensures Chained(audit + [event], first, event.newStateHash)
  {
    var longer := audit + [event];
    forall i | 0 <= i < |longer|
      ensures longer[i].previousStateHash == HashBefore(longer, first, i)
    {
      if i < |audit| {
        assert audit[i].previousStateHash == HashBefore(audit, first, i);
      }
    }
  }

  lemma EventsStayApplied(audit: seq<AuditRecord>, applied: map<Hash, AppliedMutation>, event: AuditRecord, row: AppliedMutation)
    requires DistinctIds(audit) && EventsApplied(audit, applied)
    requires event.mutationId !in applied && row.auditEventId == event.eventId
    ensures DistinctIds(audit + [event])
    ensures EventsApplied(audit + [event], applied[event.mutationId := row])
  {
  }

  lemma BijectionExtends(mem: RegistryState, mem': RegistryState, event: AuditRecord, row: AppliedMutation)
    requires AuditMatchesApplied(mem)
    requires event.mutationId !in mem.applied && row.auditEventId == event.eventId
    requires mem'.audit == mem.audit + [event]
    requires mem'.applied == mem.applied[event.mutationId := row]
    ensures AuditMatchesApplied(mem')
  {
    EventsStayApplied(mem.audit, mem.applied, event, row);
    forall id | id in mem'.applied
      ensures Audited(mem'.audit, id)
    {
      AuditedExtends(mem.audit, event, id);
      if id != event.mutationId {
        assert id in mem.applied;
        assert Audited(mem.audit, id);
      }
    }
  }

  lemma AuditedExtends(audit: seq<AuditRecord>, event: AuditRecord, id: Hash)
    ensures Audited(audit + [event], id) <==> Audited(audit, id) || event.mutationId == id
  {
    var longer := audit + [event];
    assert longer[|audit|] == event;
    if Audited(audit, id) {
      var i :| 0 <= i < |audit| && audit[i].mutationId == id;
      assert longer[i].mutationId == id;
    }
    if Audited(longer, id) && event.mutationId != id {
      var i :| 0 <= i < |longer| && longer[i].mutationId == id;
      assert audit[i].mutationId == id;
    }
  }

  lemma MaximaExtend(mem: RegistryState, mem': RegistryState, row: AppliedMutation)
    requires VersionsAreMaxima(mem)
    requires row.mutation.mutationId !in mem.applied
    requires row.mutation.targetVersion > CurrentVersion(mem, Target(row.mutation.action))
    requires mem'.applied == mem.applied[row.mutation.mutationId := row]
    requires mem'.targetVersions == mem.targetVersions[Target(row.mutation.action) := row.mutation.targetVersion]
    ensures VersionsAreMaxima(mem')
  {
    var key := Target(row.mutation.action);
    forall k | k in mem'.targetVersions
      ensures HasVersion(mem'.applied, k, mem'.targetVersions[k])
    {
      if k == key {
        assert row.mutation.mutationId in mem'.applied;
      } else {
        assert HasVersion(mem.applied, k, mem.targetVersions[k]);
        var id :| id in mem.applied && Target(mem.applied[id].mutation.action) == k
                  && mem.applied[id].mutation.targetVersion == mem.targetVersions[k];
        assert mem'.applied[id] == mem.applied[id];
      }
    }
  }

  lemma TailOfTail<T>(s: seq<T>, x: T, n: nat)
    requires n > 0
    ensures Tail(Tail(s, n) + [x], n) == Tail(s + [x], n)
  {
  }

  lemma TrailExtends(first: seq<AuditEvent>, audit: seq<AuditRecord>, event: AuditRecord)
    ensures Tail(Tail(first + EmbeddedAll(audit), ZONE_AUDIT_TAIL) + [Embedded(event)], ZONE_AUDIT_TAIL)
         == Tail(first + EmbeddedAll(audit + [event]), ZONE_AUDIT_TAIL)
  {
    TailOfTail(first + EmbeddedAll(audit), Embedded(event), ZONE_AUDIT_TAIL);
    assert EmbeddedAll(audit + [event]) == EmbeddedAll(audit) + [Embedded(event)];
    assert first + (EmbeddedAll(audit) + [Embedded(event)]) == (first + EmbeddedAll(audit)) + [Embedded(event)];
  }

  /** What an accepted mutation appends, and where. */
  lemma AcceptedFields(w: World, s: RegistryState, req: MutationRequest, ctx: Context, a: Accepted) returns (e: ActionEffect)
    requires Decide(w, s, req, ctx) == Ok(a)
    ensures ApplyAction(w, s, req, ctx) == Ok(e)
    ensures a.event.previousStateHash == StateHash(w, s.zone) && a.event.newStateHash == StateHash(w, a.zone)
    ensures a.event.mutationId == req.mutationId && a.applied.auditEventId == a.event.eventId
    ensures a.applied.mutation == req
    ensures req.mutationId !in s.applied
    ensures req.targetVersion > CurrentVersion(s, Target(req.action))
    ensures a.zone.audit == Tail(e.zone.audit + [Embedded(a.event)], ZONE_AUDIT_TAIL)
    ensures a.zone.rootVersion == NextVersion(e.zone.rootVersion, ctx.now)
    ensures a.zone.tlds == e.zone.tlds && a.zone.domains == e.zone.domains
    ensures a.registry == e.registry
    ensures VerifyRequest(w, req).Ok?
  {
    e := DecideUnfolds(w, s, req, ctx, a);
    CountersignedKeepsRecords(w, e.zone, req, e.role, ctx);
  }

  /** No action touches the trail or the version; only countersigning does. */
  lemma EffectKeepsTrail(w: World, s: RegistryState, root: Key, req: MutationRequest, ctx: Context, e: ActionEffect)
    requires Lawful(w) && RecordsTrusted(w, s, root)
    requires ApplyAction(w, s, req, ctx) == Ok(e)
    ensures e.zone.audit == s.zone.audit && e.zone.rootVersion == s.zone.rootVersion
  {
    var c := ActionIsOneChange(w, s, root, req, ctx, e);
  }

  lemma AcceptKeepsHistory(w: World, first: RootZone, s: RegistryState, root: Key, req: MutationRequest, ctx: Context, a: Accepted)
    requires Lawful(w) && Trusted(w, s, root) && HistoryInv(w, first, s)
    requires Decide(w, s, req, ctx) == Ok(a)
    ensures HistoryInv(w, first, CommitMem(w, s, req, a))
  {
    var e := AcceptedFields(w, s, req, ctx, a);
    EffectKeepsTrail(w, s, root, req, ctx, e);
    var s' := CommitMem(w, s, req, a);
    ChainExtends(s.audit, StateHash(w, first), StateHash(w, s.zone), a.event);
    BijectionExtends(s, s', a.event, a.applied);
    MaximaExtend(s, s', a.applied);
    TrailExtends(first.audit, s.audit, a.event);
  }

  lemma NextKeepsHistory(w: World, first: RootZone, sys: System, root: Key, step: Step)
    requires Lawful(w) && SystemInv(w, sys, root) && HistoryInv(w, first, sys.mem)
    ensures HistoryInv(w, first, Next(w, sys, step).mem)
  {
    var pre, a := StepUnfolds(w, sys, root, step);
    if a.Some? {
      AcceptKeepsHistory(w, first, pre.mem, root, step.req, step.ctx, a.value);
    }
  }

  /** Over every run, restarts included: the audit log is a gap-free hash chain from the first
      zone to the current one, events and accepted mutations are in bijection, every target's
      version is the maximum accepted for it, and the zone embeds the newest 200 events. */
  lemma {:induction false} RunKeepsHistory(w: World, root: Key, now: Instant, steps: seq<Step>)
    requires Lawful(w)
    ensures HistoryInv(w, EmptyZone(w, root, now), Run(w, InitialSystem(w, root, now), steps).mem)
    decreases |steps|
  {
    if steps != [] {
      var front := steps[..|steps| - 1];
      RunKeepsInv(w, root, now, front);
      RunKeepsHistory(w, root, now, front);
      NextKeepsHistory(w, EmptyZone(w, root, now), Run(w, InitialSystem(w, root, now), front), root, steps[|steps| - 1]);
    } else {
      var zone := EmptyZone(w, root, now);
      assert EmbeddedAll([]) == [];
      assert zone.audit + [] == zone.audit;
    }
  }

  // ------------------------------------------------------------------
  // versions
  // ------------------------------------------------------------------

  ghost predicate VersionsBelow(versions: map<u64, RootZone>, top: u64) {
    forall v <- versions :: v <= top
  }

  ghost predicate SameOperator(a: TldRecord, b: TldRecord) {
    a.operatorPublicKey == b.operatorPublicKey && a.ownerPublicKey == b.ownerPublicKey && a.registryType == b.registryType
  }

  /** The version never falls, no TLD or domain vanishes, and a TLD keeps its operator. */
  ghost predicate ZoneGrows(a: RootZone, b: RootZone) {
    && a.rootVersion <= b.rootVersion
    && (forall t <- a.tlds :: t in b.tlds && SameOperator(a.tlds[t], b.tlds[t]))
    && (forall d <- a.domains :: d in b.domains)
  }

  /** The same pinned registry, or a strictly newer one. */
  ghost predicate Advances(a: PinnedRegistry, b: PinnedRegistry) {
    a == b || a.parsed.version < b.parsed.version
  }

  /** Versions only rise, and nothing accepted or audited is forgotten. */
  ghost predicate IndexGrows(a: RegistryState, b: RegistryState) {
    && (forall k <- a.targetVersions :: k in b.targetVersions && a.targetVersions[k] <= b.targetVersions[k])
    && (forall id <- a.applied :: id in b.applied && b.applied[id] == a.applied[id])
    && a.audit <= b.audit
    && (forall t <- a.registries :: t in b.registries && Advances(a.registries[t], b.registries[t]))
  }

  ghost predicate Keeps(a: map<u64, RootZone>, b: map<u64, RootZone>) {
    forall v <- a :: v in b && b[v] == a[v]
  }

  /** Stored zone versions are append-only as long as the version is below the u64 maximum. */
  ghost predicate Grows(a: System, b: System) {
    && ZoneGrows(a.mem.zone, b.mem.zone)
    && IndexGrows(a.mem, b.mem)
    && (b.mem.zone.rootVersion < MAX_U64 ==> Keeps(a.disk.tables.rootZoneVersions, b.disk.tables.rootZoneVersions))
  }

  lemma GrowsTransitive(a: System, b: System, c: System)
    requires Grows(a, b) && Grows(b, c)
    ensures Grows(a, c)
  {
    forall t | t in a.mem.zone.tlds
      ensures t in c.mem.zone.tlds && SameOperator(a.mem.zone.tlds[t], c.mem.zone.tlds[t])
    {
      assert SameOperator(b.mem.zone.tlds[t], c.mem.zone.tlds[t]);
    }
    forall t | t in a.mem.registries
      ensures t in c.mem.registries && Advances(a.mem.registries[t], c.mem.registries[t])
    {
      assert Advances(b.mem.registries[t], c.mem.registries[t]);
    }
  }

  /** The version rises by every acceptance exactly when it is below the u64 maximum. */
  lemma VersionRises(v: u64, now: Instant)
    ensures NextVersion(v, now) >= v
    ensures NextVersion(v, now) > v <==> v < MAX_U64
  {
  }

  lemma ChangeGrowsZone(w: World, s: RegistryState, actor: Key, ctx: Context, e: ActionEffect, c: Change)
    requires ChangeOk(w, s, actor, ctx, e, c)
    ensures forall t <- s.zone.tlds :: t in e.zone.tlds && SameOperator(s.zone.tlds[t], e.zone.tlds[t])
    ensures forall d <- s.zone.domains :: d in e.zone.domains
    ensures e.registry.Some? ==> e.registry.value.parsed.version > RegistryVersion(s.registries, e.registry.value.tld)
  {
  }

  lemma AcceptGrowsZone(w: World, s: RegistryState, root: Key, req: MutationRequest, ctx: Context, a: Accepted)
    requires Lawful(w) && Trusted(w, s, root)
    requires Decide(w, s, req, ctx) == Ok(a)
    ensures ZoneGrows(s.zone, a.zone)
    ensures a.registry.Some? ==> a.registry.value.parsed.version > RegistryVersion(s.registries, a.registry.value.tld)
    ensures a.zone.rootVersion == NextVersion(s.zone.rootVersion, ctx.now)
  {
    var e := AcceptedFields(w, s, req, ctx, a);
    EffectKeepsTrail(w, s, root, req, ctx, e);
    var c := ActionIsOneChange(w, s, root, req, ctx, e);
    ChangeGrowsZone(w, s, req.actorPublicKey, ctx, e, c);
    VersionRises(s.zone.rootVersion, ctx.now);
  }

  lemma CommitGrowsIndex(w: World, s: RegistryState, req: MutationRequest, a: Accepted)
    requires req.mutationId !in s.applied
    requires req.targetVersion > CurrentVersion(s, Target(req.action))
    requires a.registry.Some? ==> a.registry.value.parsed.version > RegistryVersion(s.registries, a.registry.value.tld)
    ensures IndexGrows(s, CommitMem(w, s, req, a))
  {
    var s' := CommitMem(w, s, req, a);
    forall t | t in s.registries
      ensures t in s'.registries && Advances(s.registries[t], s'.registries[t])
    {
    }
  }

  lemma StoringGrows(versions: map<u64, RootZone>, top: u64, zone: RootZone, now: Instant)
    requires VersionsBelow(versions, top) && zone.rootVersion == NextVersion(top, now)
    ensures VersionsBelow(versions[zone.rootVersion := zone], zone.rootVersion)
    ensures zone.rootVersion < MAX_U64 ==> Keeps(versions, versions[zone.rootVersion := zone])
  {
    VersionRises(top, now);
  }

  lemma AcceptGrows(w: World, sys: System, root: Key, req: MutationRequest, ctx: Context, a: Accepted)
    requires Lawful(w) && Trusted(w, sys.mem, root)
    requires VersionsBelow(sys.disk.tables.rootZoneVersions, sys.mem.zone.rootVersion)
    requires Decide(w, sys.mem, req, ctx) == Ok(a)
    ensures var after := System(CommitMem(w, sys.mem, req, a), CommitDisk(w, sys.disk, req, a));
            && Grows(sys, after)
            && VersionsBelow(after.disk.tables.rootZoneVersions, after.mem.zone.rootVersion)
  {
    hide Decide;
    hide ApplyAction;
    hide ZoneGrows;
    hide IndexGrows;
    hide Trusted;
    hide Lawful;
    hide Countersigned;
    hide AuditOf;
    AcceptGrowsZone(w, sys.mem, root, req, ctx, a);
    var _ := AcceptedFields(w, sys.mem, req, ctx, a);
    CommitGrowsIndex(w, sys.mem, req, a);
    StoringGrows(sys.disk.tables.rootZoneVersions, sys.mem.zone.rootVersion, a.zone, ctx.now);
    CommitStoresZone(w, sys, req, a);
    hide CommitMem;
    hide CommitDisk;
  }

  lemma CommitStoresZone(w: World, sys: System, req: MutationRequest, a: Accepted)
    ensures CommitMem(w, sys.mem, req, a).zone == a.zone
    ensures CommitDisk(w, sys.disk, req, a).tables.rootZoneVersions == sys.disk.tables.rootZoneVersions[a.zone.rootVersion := a.zone]
  {
  }

  lemma SameGrows(a: System, b: System)
    requires SameRegistry(a, b)
    ensures Grows(a, b)
  {
  }

  lemma NextGrows(w: World, sys: System, root: Key, step: Step)
    requires Lawful(w) && SystemInv(w, sys, root)
    requires VersionsBelow(sys.disk.tables.rootZoneVersions, sys.mem.zone.rootVersion)
    ensures Grows(sys, Next(w, sys, step))
    ensures VersionsBelow(Next(w, sys, step).disk.tables.rootZoneVersions, Next(w, sys, step).mem.zone.rootVersion)
  {
    var pre, a := StepUnfolds(w, sys, root, step);
    SameGrows(sys, pre);
    if a.Some? {
      AcceptGrows(w, pre, root, step.req, step.ctx, a.value);
      GrowsTransitive(sys, pre, Next(w, sys, step));
    } else {
      SameGrows(sys, Next(w, sys, step));
    }
  }

  lemma {:induction false} RunVersionsBelow(w: World, root: Key, now: Instant, steps: seq<Step>)
    requires Lawful(w)
    ensures var sys := Run(w, InitialSystem(w, root, now), steps);
            VersionsBelow(sys.disk.tables.rootZoneVersions, sys.mem.zone.rootVersion)
    decreases |steps|
  {
    if steps != [] {
      var front := steps[..|steps| - 1];
      RunKeepsInv(w, root, now, front);
      RunVersionsBelow(w, root, now, front);
      NextGrows(w, Run(w, InitialSystem(w, root, now), front), root, steps[|steps| - 1]);
    }
  }

  lemma RunNextGrows(w: World, root: Key, now: Instant, steps: seq<Step>, step: Step)
    requires Lawful(w)
    ensures Grows(Run(w, InitialSystem(w, root, now), steps), Run(w, InitialSystem(w, root, now), steps + [step]))
  {
    hide Next;
    hide Grows;
    hide SystemInv;
    hide VersionsBelow;
    hide InitialSystem;
    hide Lawful;
    RunKeepsInv(w, root, now, steps);
    RunVersionsBelow(w, root, now, steps);
    NextGrows(w, Run(w, InitialSystem(w, root, now), steps), root, step);
    assert (steps + [step])[..|steps|] == steps;
  }

  /** Any later state of a run has grown from any earlier one. */
  lemma {:induction false} RunGrows(w: World, root: Key, now: Instant, steps: seq<Step>, more: seq<Step>)
    requires Lawful(w)
    ensures Grows(Run(w, InitialSystem(w, root, now), steps), Run(w, InitialSystem(w, root, now), steps + more))
    decreases |more|
  {
    if more == [] {
      assert steps + more == steps;
      SameGrows(Run(w, InitialSystem(w, root, now), steps), Run(w, InitialSystem(w, root, now), steps));
    } else {
      var front, last := more[..|more| - 1], more[|more| - 1];
      assert (steps + front) + [last] == steps + more;
      RunGrows(w, root, now, steps, front);
      GrowsOnce(w, root, now, Run(w, InitialSystem(w, root, now), steps), steps + front, last);
    }
  }

  lemma GrowsOnce(w: World, root: Key, now: Instant, a: System, steps: seq<Step>, step: Step)
    requires Lawful(w)
    requires Grows(a, Run(w, InitialSystem(w, root, now), steps))
    ensures Grows(a, Run(w, InitialSystem(w, root, now), steps + [step]))
  {
    RunNextGrows(w, root, now, steps, step);
    GrowsTransitive(a, Run(w, InitialSystem(w, root, now), steps), Run(w, InitialSystem(w, root, now), steps + [step]));
  }

  /** A seen id, or a version the target has already reached, is refused. */
  lemma StaleIsRefused(w: World, mem: RegistryState, id: Hash, req: MutationRequest, ctx: Context)
    requires VersionsAreMaxima(mem) && id in mem.applied
    requires var prior := mem.applied[id].mutation;
             req.mutationId == id || (Target(req.action) == Target(prior.action) && req.targetVersion <= prior.targetVersion)
    ensures Decide(w, mem, req, ctx).Err?
  {
    assert Screen(w, mem, req, ctx).Err?;
  }

  /** No envelope is ever accepted again: neither its id nor a version its target has reached. */
  lemma NeverAcceptedTwice(w: World, root: Key, now: Instant, steps: seq<Step>, more: seq<Step>, id: Hash, req: MutationRequest, ctx: Context)
    requires Lawful(w)
    requires id in Run(w, InitialSystem(w, root, now), steps).mem.applied
    requires var prior := Run(w, InitialSystem(w, root, now), steps).mem.applied[id].mutation;
             req.mutationId == id || (Target(req.action) == Target(prior.action) && req.targetVersion <= prior.targetVersion)
    ensures Decide(w, Run(w, InitialSystem(w, root, now), steps + more).mem, req, ctx).Err?
  {
    var before, after := Run(w, InitialSystem(w, root, now), steps).mem, Run(w, InitialSystem(w, root, now), steps + more).mem;
    assert id in after.applied && after.applied[id] == before.applied[id] by {
      RunGrows(w, root, now, steps, more);
    }
    assert VersionsAreMaxima(after) by {
      RunKeepsHistory(w, root, now, steps + more);
    }
    StaleIsRefused(w, after, id, req, ctx);
  }
}
