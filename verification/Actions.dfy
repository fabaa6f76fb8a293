/** The registry state and the eleven mutation actions
    (`RegistryStore::apply_action`, `allowed_domain_transition`). Each effect returns the
    zone the action ends in; `WorkingCopy` edits a private copy in place and is proved against it. */
module Actions {
  import opened Prelude
  import opened Records
  import opened Text
  import opened Naming
  import opened Root
  import opened Manifests
  import opened Requests

  /** Exact signed bytes of a delegated registry and what they parse to. */
  datatype PinnedRegistry = PinnedRegistry(bytes: Bytes, parsed: TldRegistry)

  /** The in-memory fields of `RegistryStore`. */
  datatype RegistryState = RegistryState(
    zone: RootZone,
    registries: map<string, PinnedRegistry>,
    manifests: map<Hash, Bytes>,
    targetVersions: map<TargetKey, u64>,
    applied: map<Hash, AppliedMutation>,
    audit: seq<AuditRecord>)

  /** Keys and clocks of the server: `now` is read once by the caller, `clock` is the
      wall clock the expiry checks read on their own. */
  datatype Context = Context(root: Key, officialOperator: Key, blocklists: Blocklists, now: Instant, clock: Instant)

  datatype NewRegistry = NewRegistry(tld: string, bytes: Bytes, parsed: TldRegistry)

  datatype ActionEffect = ActionEffect(role: ActorRole, zone: RootZone, registry: Option<NewRegistry>)

  /** `allowed_domain_transition` */
  predicate AllowedTransition(from: DomainStatus, to: DomainStatus, actorIsRoot: bool) {
    from != to &&
    match to
    case Suspended => from.Active?
    case Active => from.Suspended? || from.Pending? || (actorIsRoot && from.Revoked?)
    case Revoked => true
    case _ => false
  }

  function PutDomain(zone: RootZone, fqdn: string, rec: DomainRecord): RootZone {
    zone.(domains := zone.domains[fqdn := rec])
  }

  function PutTld(zone: RootZone, name: string, rec: TldRecord): RootZone {
    zone.(tlds := zone.tlds[name := rec])
  }

  /** The record a publish writes: the first publication date and the lease survive. */
  function PublishedRecord(d: FederateDomain, actor: Key, manifestHash: Hash, existing: Option<DomainRecord>, now: string): DomainRecord {
    DomainRecord(d.Fqdn(), d.tld, d.name, actor, ManifestTarget, manifestHash, None, None, Active,
                 if existing.Some? then existing.value.createdAt else now, now,
                 if existing.Some? then existing.value.expiresAt else None,
                 None, None, SIGNATURE_ALGORITHM, None)
  }

  function Lookup<R>(m: map<string, R>, k: string): (r: Option<R>)
    ensures r.Some? <==> k in m
    ensures r.Some? ==> r.value == m[k]
  {
    if k in m then Some(m[k]) else None
  }

  /** The TLD checks of a publish: exists, root-managed, live, operated here. */
  function CheckPublishTld(w: World, zone: RootZone, tld: string, ctx: Context): Result<()> {
    if tld !in zone.tlds then Err(TldNotFound(tld))
    else
      var rec := zone.tlds[tld];
      if rec.registryType != RootManaged then Err(MutationRejected(TldIsDelegated))
      else if !rec.status.IsResolvable() || HasExpired(w, rec.expiresAt, ctx.clock) then
        Err(TldUnavailable(tld, rec.status))
      else if rec.operatorPublicKey != ctx.officialOperator then Err(MutationRejected(OperatorKeyNotHeld))
      else Ok(())
  }

  /** The owner checks of a publish against the record already there, if any. */
  function CheckPublishOwner(existing: Option<DomainRecord>, fqdn: string, actor: Key, isUpdate: bool): Result<()> {
    match existing
    case None => if isUpdate then Err(DomainNotFound(fqdn)) else Ok(())
    case Some(rec) =>
      if rec.ownerPublicKey != actor then Err(Unauthorized)
      else if !rec.status.Active? && !rec.status.Pending? then Err(MutationRejected(StatusForbidsUpdate))
      else Ok(())
  }

  /** The manifest must be stored already and signed by the actor for exactly this name. */
  function CheckPublishManifest(w: World, manifests: map<Hash, Bytes>, h: Hash, fqdn: string, actor: Key): Result<()> {
    if h !in manifests then Err(ManifestNotFound(h))
    else
      match w.parseManifest(manifests[h])
      case None => Err(Serde)
      case Some(m) =>
        var _ :- ValidateManifest(m);
        VerifyManifest(w, m, fqdn, actor)
  }

  function PublishEffect(w: World, s: RegistryState, actor: Key, domain: string, h: Hash, isUpdate: bool, ctx: Context): Result<ActionEffect> {
    match ParseDomain(domain)
    case Err(_) => Err(MutationRejected(InvalidDomainName))
    case Ok(d) =>
      var fqdn := d.Fqdn();
      var existing := Lookup(s.zone.domains, fqdn);
      var _ :- CheckPublishTld(w, s.zone, d.tld, ctx);
      var _ :- CheckPublishOwner(existing, fqdn, actor, isUpdate);
      var _ :- CheckPublishManifest(w, s.manifests, h, fqdn, actor);
      var rec := SignDomain(w, ctx.officialOperator, PublishedRecord(d, actor, h, existing, w.rfc3339(ctx.now)));
      Ok(ActionEffect(DomainOwnerRole, PutDomain(s.zone, fqdn, rec), None))
  }

  function DomainStatusEffect(w: World, s: RegistryState, actor: Key, domain: string, status: DomainStatus, ctx: Context): Result<ActionEffect> {
    var fqdn := Lower(domain);
    var isRoot := actor == s.zone.rootPublicKey;
    if fqdn !in s.zone.domains then Err(DomainNotFound(fqdn))
    else
      var rec := s.zone.domains[fqdn];
      if rec.tld !in s.zone.tlds then Err(TldNotFound(rec.tld))
      else
        var operator := s.zone.tlds[rec.tld].operatorPublicKey;
        if !isRoot && actor != operator then Err(Unauthorized)
        else if !AllowedTransition(rec.status, status, isRoot) then Err(MutationRejected(TransitionForbidden))
        else if operator != ctx.officialOperator then Err(MutationRejected(OperatorKeyNotHeld))
        else
          var updated := SignDomain(w, ctx.officialOperator, rec.(status := status, updatedAt := w.rfc3339(ctx.now)));
          Ok(ActionEffect(if isRoot then RootRole else TldOperatorRole, PutDomain(s.zone, fqdn, updated), None))
  }

  function IssueEffect(w: World, s: RegistryState, actor: Key, rec: DomainRecord, ctx: Context): Result<ActionEffect> {
    if rec.tld !in s.zone.tlds then Err(TldNotFound(rec.tld))
    else
      var tldRec := s.zone.tlds[rec.tld];
      if tldRec.registryType != RootManaged then Err(MutationRejected(TldIsDelegated))
      else if actor != tldRec.operatorPublicKey then Err(Unauthorized)
      else if ValidateLabel(rec.hostLabel).Err? then Err(MutationRejected(InvalidLabel))
      else
        var _ :- VerifyDomain(w, rec, actor);
        if HasExpired(w, rec.expiresAt, ctx.clock) then Err(MutationRejected(RecordExpired))
        else if rec.domain in s.zone.domains && s.zone.domains[rec.domain].status.Revoked? && actor != s.zone.rootPublicKey then
          Err(MutationRejected(RevokedNeedsRoot))
        else Ok(ActionEffect(TldOperatorRole, PutDomain(s.zone, rec.domain, rec), None))
  }

  predicate IsHexKey(k: string) {
    |k| == 64 && forall c <- k :: HexValue(c).Some?
  }

  function DelegateEffect(w: World, s: RegistryState, actor: Key, a: MutationAction, ctx: Context): Result<ActionEffect>
    requires a.DelegateTld?
  {
    if actor != s.zone.rootPublicKey then Err(Unauthorized)
    else
      var name :- ctx.blocklists.ValidateNewTld(a.tld, false);
      if name in s.zone.tlds then Err(MutationRejected(TldExists))
      else if a.registryType == RootManaged then Err(MutationRejected(NeedsDelegatedType))
      else if !IsHexKey(a.ownerPublicKey) || !IsHexKey(a.operatorPublicKey) then Err(MutationRejected(MalformedKey))
      else
        var now := w.rfc3339(ctx.now);
        var rec := TldRecord(name, TldStatus.Delegated, DelegatedMode, a.ownerPublicKey, a.operatorPublicKey, a.operatorName,
                             a.registryType, a.registryEndpoint, None, [], None, None, now, now, a.expiresAt, None,
                             SIGNATURE_ALGORITHM, None);
        Ok(ActionEffect(RootRole, PutTld(s.zone, name, SignTld(w, ctx.root, rec)), None))
  }

  const OFFICIAL_OPERATOR_NAME: string := "Federate Network (root-managed)"
  const ROOT_OPERATOR_NAME: string := "Federate Network (root)"

  function CreateEffect(w: World, s: RegistryState, actor: Key, tld: string, purpose: string, ctx: Context): Result<ActionEffect> {
    if actor != s.zone.rootPublicKey then Err(Unauthorized)
    else
      var name :- ctx.blocklists.ValidateNewTld(tld, true);
      if name in s.zone.tlds then Err(MutationRejected(TldExists))
      else
        var now := w.rfc3339(ctx.now);
        var rec := TldRecord(name, TldStatus.Official, OfficialMode, ctx.root, ctx.officialOperator, OFFICIAL_OPERATOR_NAME,
                             RootManaged, None, None, [], None, None, now, now, None, Some(purpose),
                             SIGNATURE_ALGORITHM, None);
        Ok(ActionEffect(RootRole, PutTld(s.zone, name, SignTld(w, ctx.root, rec)), None))
  }

  /** Reserving and blocking differ only in status and mode. */
  function RestrictEffect(w: World, s: RegistryState, actor: Key, tld: string, why: string, status: TldStatus, mode: TldMode, ctx: Context): Result<ActionEffect> {
    if actor != s.zone.rootPublicKey then Err(Unauthorized)
    else
      var name :- ValidateTldName(tld);
      if name in s.zone.tlds then Err(MutationRejected(TldExists))
      else
        var now := w.rfc3339(ctx.now);
        var rec := TldRecord(name, status, mode, ctx.root, ctx.root, ROOT_OPERATOR_NAME,
                             RootManaged, None, None, [], None, None, now, now, None, Some(why),
                             SIGNATURE_ALGORITHM, None);
        Ok(ActionEffect(RootRole, PutTld(s.zone, name, SignTld(w, ctx.root, rec)), None))
  }

  function OrElse<T>(a: Option<T>, b: Option<T>): Option<T> {
    if a.Some? then a else b
  }

  function UpdateTldEffect(w: World, s: RegistryState, actor: Key, a: MutationAction, ctx: Context): Result<ActionEffect>
    requires a.UpdateTld?
  {
    var name := Lower(a.tld);
    if actor != s.zone.rootPublicKey then Err(Unauthorized)
    else if name !in s.zone.tlds then Err(TldNotFound(name))
    else
      var rec := s.zone.tlds[name];
      var updated := rec.(registryEndpoint := OrElse(a.registryEndpoint, rec.registryEndpoint),
                          expiresAt := OrElse(a.expiresAt, rec.expiresAt),
                          notes := OrElse(a.notes, rec.notes),
                          updatedAt := w.rfc3339(ctx.now));
      Ok(ActionEffect(RootRole, PutTld(s.zone, name, SignTld(w, ctx.root, updated)), None))
  }

  function TldStatusEffect(w: World, s: RegistryState, actor: Key, tld: string, status: TldStatus, ctx: Context): Result<ActionEffect> {
    var name := Lower(tld);
    if actor != s.zone.rootPublicKey then Err(Unauthorized)
    else if name !in s.zone.tlds then Err(TldNotFound(name))
    else if s.zone.tlds[name].status == status then Err(MutationRejected(TldStatusUnchanged))
    else
      var updated := s.zone.tlds[name].(status := status, updatedAt := w.rfc3339(ctx.now));
      Ok(ActionEffect(RootRole, PutTld(s.zone, name, SignTld(w, ctx.root, updated)), None))
  }

  function RegistryVersion(registries: map<string, PinnedRegistry>, tld: string): u64 {
    if tld in registries then registries[tld].parsed.version else 0
  }

  function PointerEffect(w: World, s: RegistryState, actor: Key, tld: string, registryHex: string, ctx: Context): Result<ActionEffect> {
    var name := Lower(tld);
    if name !in s.zone.tlds then Err(TldNotFound(name))
    else
      var rec := s.zone.tlds[name];
      if actor != rec.operatorPublicKey then Err(Unauthorized)
      else if rec.registryType != DelegatedManifest then Err(MutationRejected(NotDelegatedManifest))
      else
        match HexDecode(registryHex)
        case None => Err(MutationRejected(NotHex))
        case Some(bytes) =>
          match w.parseRegistry(bytes)
          case None => Err(Serde)
          case Some(registry) =>
            var _ :- VerifyRegistry(w, registry, name, actor);
            if registry.version <= RegistryVersion(s.registries, name) then Err(Replay)
            else
              var updated := rec.(registryManifestHash := Some(w.hash(bytes)), updatedAt := w.rfc3339(ctx.now));
              Ok(ActionEffect(TldOperatorRole, PutTld(s.zone, name, SignTld(w, ctx.root, updated)),
                              Some(NewRegistry(name, bytes, registry))))
  }

  /** `apply_action`: authorize and execute one action. */
  function ApplyAction(w: World, s: RegistryState, req: MutationRequest, ctx: Context): Result<ActionEffect> {
    var actor := req.actorPublicKey;
    match req.action
    case PublishSite(domain, h) => PublishEffect(w, s, actor, domain, h, false, ctx)
    case UpdateDomainManifest(domain, h) => PublishEffect(w, s, actor, domain, h, true, ctx)
    case SetDomainStatus(domain, status) => DomainStatusEffect(w, s, actor, domain, status, ctx)
    case IssueDomain(record) => IssueEffect(w, s, actor, record, ctx)
    case DelegateTld(_, _, _, _, _, _, _) => DelegateEffect(w, s, actor, req.action, ctx)
    case CreateTld(tld, purpose) => CreateEffect(w, s, actor, tld, purpose, ctx)
    case ReserveTld(tld, why) => RestrictEffect(w, s, actor, tld, why, TldStatus.Reserved, ReservedMode, ctx)
    case BlockTld(tld, why) => RestrictEffect(w, s, actor, tld, why, TldStatus.Blocked, BlockedMode, ctx)
    case UpdateTld(_, _, _, _) => UpdateTldEffect(w, s, actor, req.action, ctx)
    case SetTldStatus(tld, status) => TldStatusEffect(w, s, actor, tld, status, ctx)
    case UpdateRegistryPointer(tld, hex) => PointerEffect(w, s, actor, tld, hex, ctx)
  }
}
