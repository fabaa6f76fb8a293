/** `apply_action` as it runs: a private copy of the zone edited in place, each branch proved
    against its effect in `Actions`. */
module WorkingCopy {
  import opened Prelude
  import opened Records
  import opened Text
  import opened Naming
  import opened Root
  import opened Requests
  import opened Actions

  datatype Authorized = Authorized(role: ActorRole, registry: Option<NewRegistry>)

  /** The role and registry of an effect; its zone is what the copy has become. */
  function Authorization(effect: Result<ActionEffect>): Result<Authorized> {
    match effect
    case Err(e) => Err(e)
    case Ok(a) => Ok(Authorized(a.role, a.registry))
  }

  class WorkingZone {
    const w: World
    var zone: RootZone

    constructor (w: World, zone: RootZone)
      ensures this.w == w && this.zone == zone
    {
      this.w, this.zone := w, zone;
    }

    /** The copy holds what the effect says, or is untouched when there is none. */
    ghost predicate Holds(before: RootZone, effect: Result<ActionEffect>)
      reads this
    {
      zone == if effect.Ok? then effect.value.zone else before
    }

    method InsertDomain(fqdn: string, rec: DomainRecord)
      modifies this
      ensures zone == PutDomain(old(zone), fqdn, rec)
    {
      zone := zone.(domains := zone.domains[fqdn := rec]);
    }

    method InsertTld(name: string, rec: TldRecord)
      modifies this
      ensures zone == PutTld(old(zone), name, rec)
    {
      zone := zone.(tlds := zone.tlds[name := rec]);
    }

    method Publish(s: RegistryState, actor: Key, domain: string, h: Hash, isUpdate: bool, ctx: Context) returns (r: Result<Authorized>)
      requires s.zone == zone
      modifies this
      ensures var effect := PublishEffect(w, s, actor, domain, h, isUpdate, ctx);
              r == Authorization(effect) && Holds(old(zone), effect)
    {
      var parsed := ParseDomain(domain);
      if parsed.Err? {
        return Err(MutationRejected(InvalidDomainName));
      }
      var d := parsed.value;
      hide ParseDomain;
      var fqdn := d.Fqdn();
      var existing := Lookup(zone.domains, fqdn);
      var _ :- CheckPublishTld(w, zone, d.tld, ctx);
      var _ :- CheckPublishOwner(existing, fqdn, actor, isUpdate);
      var _ :- CheckPublishManifest(w, s.manifests, h, fqdn, actor);
      var rec := SignDomain(w, ctx.officialOperator, PublishedRecord(d, actor, h, existing, w.rfc3339(ctx.now)));
      InsertDomain(fqdn, rec);
      return Ok(Authorized(DomainOwnerRole, None));
    }

    method SetDomainStatus(s: RegistryState, actor: Key, domain: string, status: DomainStatus, ctx: Context) returns (r: Result<Authorized>)
      requires s.zone == zone
      modifies this
      ensures var effect := DomainStatusEffect(w, s, actor, domain, status, ctx);
              r == Authorization(effect) && Holds(old(zone), effect)
    {
      var fqdn := Lower(domain);
      if fqdn !in zone.domains {
        return Err(DomainNotFound(fqdn));
      }
      var rec := zone.domains[fqdn];
      if rec.tld !in zone.tlds {
        return Err(TldNotFound(rec.tld));
      }
      var operator := zone.tlds[rec.tld].operatorPublicKey;
      var isRoot := actor == zone.rootPublicKey;
      if !isRoot && actor != operator {
        return Err(Unauthorized);
      }
      if !AllowedTransition(rec.status, status, isRoot) {
        return Err(MutationRejected(TransitionForbidden));
      }
      if operator != ctx.officialOperator {
        return Err(MutationRejected(OperatorKeyNotHeld));
      }
      var updated := rec.(status := status, updatedAt := w.rfc3339(ctx.now));
      InsertDomain(fqdn, SignDomain(w, ctx.officialOperator, updated));
      return Ok(Authorized(if isRoot then RootRole else TldOperatorRole, None));
    }

    method IssueDomain(s: RegistryState, actor: Key, rec: DomainRecord, ctx: Context) returns (r: Result<Authorized>)
      requires s.zone == zone
      modifies this
      ensures var effect := IssueEffect(w, s, actor, rec, ctx);
              r == Authorization(effect) && Holds(old(zone), effect)
    {
      hide ValidateLabel;
      hide VerifyDomain;
      if rec.tld !in zone.tlds {
        return Err(TldNotFound(rec.tld));
      }
      var tldRec := zone.tlds[rec.tld];
      if tldRec.registryType != RootManaged {
        return Err(MutationRejected(TldIsDelegated));
      }
      if actor != tldRec.operatorPublicKey {
        return Err(Unauthorized);
      }
      if ValidateLabel(rec.hostLabel).Err? {
        return Err(MutationRejected(InvalidLabel));
      }
      var _ :- VerifyDomain(w, rec, actor);
      if HasExpired(w, rec.expiresAt, ctx.clock) {
        return Err(MutationRejected(RecordExpired));
      }
      if rec.domain in zone.domains && zone.domains[rec.domain].status.Revoked? && actor != zone.rootPublicKey {
        return Err(MutationRejected(RevokedNeedsRoot));
      }
      InsertDomain(rec.domain, rec);
      return Ok(Authorized(TldOperatorRole, None));
    }

    method Delegate(s: RegistryState, actor: Key, a: MutationAction, ctx: Context) returns (r: Result<Authorized>)
      requires s.zone == zone && a.DelegateTld?
      modifies this
      ensures var effect := DelegateEffect(w, s, actor, a, ctx);
              r == Authorization(effect) && Holds(old(zone), effect)
    {
      hide ValidateTldName;
      if actor != zone.rootPublicKey {
        return Err(Unauthorized);
      }
      var name :- ctx.blocklists.ValidateNewTld(a.tld, false);
      if name in zone.tlds {
        return Err(MutationRejected(TldExists));
      }
      if a.registryType == RootManaged {
        return Err(MutationRejected(NeedsDelegatedType));
      }
      if !IsHexKey(a.ownerPublicKey) || !IsHexKey(a.operatorPublicKey) {
        return Err(MutationRejected(MalformedKey));
      }
      var now := w.rfc3339(ctx.now);
      var rec := TldRecord(name, TldStatus.Delegated, DelegatedMode, a.ownerPublicKey, a.operatorPublicKey, a.operatorName,
                           a.registryType, a.registryEndpoint, None, [], None, None, now, now, a.expiresAt, None,
                           SIGNATURE_ALGORITHM, None);
      InsertTld(name, SignTld(w, ctx.root, rec));
      return Ok(Authorized(RootRole, None));
    }

    method Create(s: RegistryState, actor: Key, tld: string, purpose: string, ctx: Context) returns (r: Result<Authorized>)
      requires s.zone == zone
      modifies this
      ensures var effect := CreateEffect(w, s, actor, tld, purpose, ctx);
              r == Authorization(effect) && Holds(old(zone), effect)
    {
      hide ValidateTldName;
      if actor != zone.rootPublicKey {
        return Err(Unauthorized);
      }
      var name :- ctx.blocklists.ValidateNewTld(tld, true);
      if name in zone.tlds {
        return Err(MutationRejected(TldExists));
      }
      var now := w.rfc3339(ctx.now);
      var rec := TldRecord(name, TldStatus.Official, OfficialMode, ctx.root, ctx.officialOperator, OFFICIAL_OPERATOR_NAME,
                           RootManaged, None, None, [], None, None, now, now, None, Some(purpose),
                           SIGNATURE_ALGORITHM, None);
      InsertTld(name, SignTld(w, ctx.root, rec));
      return Ok(Authorized(RootRole, None));
    }

    method Restrict(s: RegistryState, actor: Key, tld: string, why: string, status: TldStatus, mode: TldMode, ctx: Context)
      returns (r: Result<Authorized>)
      requires s.zone == zone
      modifies this
      ensures var effect := RestrictEffect(w, s, actor, tld, why, status, mode, ctx);
              r == Authorization(effect) && Holds(old(zone), effect)
    {
      hide ValidateTldName;
      if actor != zone.rootPublicKey {
        return Err(Unauthorized);
      }
      var name :- ValidateTldName(tld);
      if name in zone.tlds {
        return Err(MutationRejected(TldExists));
      }
      var now := w.rfc3339(ctx.now);
      var rec := TldRecord(name, status, mode, ctx.root, ctx.root, ROOT_OPERATOR_NAME,
                           RootManaged, None, None, [], None, None, now, now, None, Some(why),
                           SIGNATURE_ALGORITHM, None);
      InsertTld(name, SignTld(w, ctx.root, rec));
      return Ok(Authorized(RootRole, None));
    }

    method Update(s: RegistryState, actor: Key, a: MutationAction, ctx: Context) returns (r: Result<Authorized>)
      requires s.zone == zone && a.UpdateTld?
      modifies this
      ensures var effect := UpdateTldEffect(w, s, actor, a, ctx);
              r == Authorization(effect) && Holds(old(zone), effect)
    {
      var name := Lower(a.tld);
      if actor != zone.rootPublicKey {
        return Err(Unauthorized);
      }
      if name !in zone.tlds {
        return Err(TldNotFound(name));
      }
      var rec := zone.tlds[name];
      if a.registryEndpoint.Some? {
        rec := rec.(registryEndpoint := a.registryEndpoint);
      }
      if a.expiresAt.Some? {
        rec := rec.(expiresAt := a.expiresAt);
      }
      if a.notes.Some? {
        rec := rec.(notes := a.notes);
      }
      rec := rec.(updatedAt := w.rfc3339(ctx.now));
      InsertTld(name, SignTld(w, ctx.root, rec));
      return Ok(Authorized(RootRole, None));
    }

    method SetTldStatus(s: RegistryState, actor: Key, tld: string, status: TldStatus, ctx: Context) returns (r: Result<Authorized>)
      requires s.zone == zone
      modifies this
      ensures var effect := TldStatusEffect(w, s, actor, tld, status, ctx);
              r == Authorization(effect) && Holds(old(zone), effect)
    {
      var name := Lower(tld);
      if actor != zone.rootPublicKey {
        return Err(Unauthorized);
      }
      if name !in zone.tlds {
        return Err(TldNotFound(name));
      }
      var rec := zone.tlds[name];
      if rec.status == status {
        return Err(MutationRejected(TldStatusUnchanged));
      }
      rec := rec.(status := status, updatedAt := w.rfc3339(ctx.now));
      InsertTld(name, SignTld(w, ctx.root, rec));
      return Ok(Authorized(RootRole, None));
    }

    method MovePointer(s: RegistryState, actor: Key, tld: string, registryHex: string, ctx: Context) returns (r: Result<Authorized>)
      requires s.zone == zone
      modifies this
      ensures var effect := PointerEffect(w, s, actor, tld, registryHex, ctx);
              r == Authorization(effect) && Holds(old(zone), effect)
    {
      hide HexDecode;
      hide VerifyRegistry;
      var name := Lower(tld);
      if name !in zone.tlds {
        return Err(TldNotFound(name));
      }
      var rec := zone.tlds[name];
      if actor != rec.operatorPublicKey {
        return Err(Unauthorized);
      }
      if rec.registryType != DelegatedManifest {
        return Err(MutationRejected(NotDelegatedManifest));
      }
      var bytes := HexDecode(registryHex);
      if bytes.None? {
        return Err(MutationRejected(NotHex));
      }
      var registry := w.parseRegistry(bytes.value);
      if registry.None? {
        return Err(Serde);
      }
      var _ :- VerifyRegistry(w, registry.value, name, actor);
      if registry.value.version <= RegistryVersion(s.registries, name) {
        return Err(Replay);
      }
      rec := rec.(registryManifestHash := Some(w.hash(bytes.value)), updatedAt := w.rfc3339(ctx.now));
      InsertTld(name, SignTld(w, ctx.root, rec));
      return Ok(Authorized(TldOperatorRole, Some(NewRegistry(name, bytes.value, registry.value))));
    }

    /** `apply_action`: the copy becomes the zone of the action's effect, or stays as it was. */
    method ApplyTo(s: RegistryState, req: MutationRequest, ctx: Context) returns (r: Result<Authorized>)
      requires s.zone == zone
      modifies this
      ensures var effect := ApplyAction(w, s, req, ctx);
              r == Authorization(effect) && Holds(old(zone), effect)
    {
      hide PublishEffect;
      hide DomainStatusEffect;
      hide IssueEffect;
      hide DelegateEffect;
      hide CreateEffect;
      hide RestrictEffect;
      hide UpdateTldEffect;
      hide TldStatusEffect;
      hide PointerEffect;
      var actor := req.actorPublicKey;
      match req.action {
        case PublishSite(domain, h) => r := Publish(s, actor, domain, h, false, ctx);
        case UpdateDomainManifest(domain, h) => r := Publish(s, actor, domain, h, true, ctx);
        case SetDomainStatus(domain, status) => r := SetDomainStatus(s, actor, domain, status, ctx);
        case IssueDomain(record) => r := IssueDomain(s, actor, record, ctx);
        case DelegateTld(_, _, _, _, _, _, _) => r := Delegate(s, actor, req.action, ctx);
        case CreateTld(tld, purpose) => r := Create(s, actor, tld, purpose, ctx);
        case ReserveTld(tld, why) => r := Restrict(s, actor, tld, why, TldStatus.Reserved, ReservedMode, ctx);
        case BlockTld(tld, why) => r := Restrict(s, actor, tld, why, TldStatus.Blocked, BlockedMode, ctx);
        case UpdateTld(_, _, _, _) => r := Update(s, actor, req.action, ctx);
        case SetTldStatus(tld, status) => r := SetTldStatus(s, actor, tld, status, ctx);
        case UpdateRegistryPointer(tld, hex) => r := MovePointer(s, actor, tld, hex, ctx);
      }
    }
  }
}
