/** Every accepted action is one of the three changes of `Changes`. */
module ChangeProofs {
  import opened Prelude
  import opened Records
  import opened Text
  import opened Naming
  import opened Root
  import opened Requests
  import opened Actions
  import opened Changes

  lemma SignedTldVerifies(w: World, root: Key, rec: TldRecord)
    requires Lawful(w)
    ensures TldVerifies(w, SignTld(w, root, rec), root)
  {
    assert SignTld(w, root, rec).(signature := None) == rec.(signature := None);
  }

  lemma SignedDomainVerifies(w: World, operator: Key, rec: DomainRecord)
    requires Lawful(w)
    requires rec.domain == rec.hostLabel + "." + rec.tld
    ensures VerifyDomain(w, SignDomain(w, operator, rec), operator).Ok?
  {
    assert SignDomain(w, operator, rec).(signature := None) == rec.(signature := None);
  }

  /** Two trusted records under one name belong to the same TLD. */
  lemma SameNameSameTld(w: World, tlds: map<string, TldRecord>, name: string, a: DomainRecord, b: DomainRecord)
    requires DomainTrusted(w, tlds, name, a) && DomainTrusted(w, tlds, name, b)
    ensures a.tld == b.tld
  {
    FqdnSplitsUniquely(a.hostLabel, a.tld, b.hostLabel, b.tld);
  }

  /** What a successful publish passed, and the one record it wrote. */
  lemma PublishUnfolds(w: World, s: RegistryState, actor: Key, domain: string, h: Hash, isUpdate: bool, ctx: Context, e: ActionEffect)
    returns (d: FederateDomain, plain: DomainRecord)
    requires PublishEffect(w, s, actor, domain, h, isUpdate, ctx) == Ok(e)
    ensures ParseDomain(domain) == Ok(d) && IsLabel(d.name)
    ensures d.tld in s.zone.tlds
    ensures s.zone.tlds[d.tld].operatorPublicKey == ctx.officialOperator
    ensures CheckPublishOwner(Lookup(s.zone.domains, d.Fqdn()), d.Fqdn(), actor, isUpdate).Ok?
    ensures CheckPublishTld(w, s.zone, d.tld, ctx).Ok?
    ensures CheckPublishManifest(w, s.manifests, h, d.Fqdn(), actor).Ok?
    ensures plain == PublishedRecord(d, actor, h, Lookup(s.zone.domains, d.Fqdn()), w.rfc3339(ctx.now))
    ensures e == ActionEffect(DomainOwnerRole, PutDomain(s.zone, d.Fqdn(), SignDomain(w, ctx.officialOperator, plain)), None)
  {
    d := ParseDomain(domain).value;
    plain := PublishedRecord(d, actor, h, Lookup(s.zone.domains, d.Fqdn()), w.rfc3339(ctx.now));
  }

  lemma PublishedIsTrusted(w: World, tlds: map<string, TldRecord>, d: FederateDomain, operator: Key, plain: DomainRecord)
    requires Lawful(w)
    requires IsLabel(d.name) && d.tld in tlds && tlds[d.tld].operatorPublicKey == operator
    requires plain.domain == d.Fqdn() && plain.hostLabel == d.name && plain.tld == d.tld
    ensures DomainTrusted(w, tlds, d.Fqdn(), SignDomain(w, operator, plain))
  {
    LabelIsLower(d.name);
    SignedDomainVerifies(w, operator, plain);
  }

  lemma PublishChange(w: World, s: RegistryState, root: Key, actor: Key, domain: string, h: Hash, isUpdate: bool, ctx: Context, e: ActionEffect)
    returns (c: Change)
    requires Lawful(w) && RecordsTrusted(w, s, root)
    requires PublishEffect(w, s, actor, domain, h, isUpdate, ctx) == Ok(e)
    ensures ChangeOk(w, s, actor, ctx, e, c)
    ensures c.DomainPut?
  {
    var d, plain := PublishUnfolds(w, s, actor, domain, h, isUpdate, ctx, e);
    PublishedIsTrusted(w, s.zone.tlds, d, ctx.officialOperator, plain);
    hide PublishEffect;
    hide ParseDomain;
    hide IsLabel;
    hide CheckPublishManifest;
    hide CheckPublishTld;
    hide Lawful;
    hide VerifyDomain;
    var fqdn, rec := d.Fqdn(), SignDomain(w, ctx.officialOperator, plain);
    if fqdn in s.zone.domains {
      SameNameSameTld(w, s.zone.tlds, fqdn, s.zone.domains[fqdn], rec);
    }
    c := DomainPut(fqdn, rec);
  }

  lemma DomainStatusChange(w: World, s: RegistryState, root: Key, actor: Key, domain: string, status: DomainStatus, ctx: Context, e: ActionEffect)
    returns (c: Change)
    requires Lawful(w) && RecordsTrusted(w, s, root)
    requires DomainStatusEffect(w, s, actor, domain, status, ctx) == Ok(e)
    ensures ChangeOk(w, s, actor, ctx, e, c)
    ensures c.DomainPut?
  {
    var fqdn := Lower(domain);
    var prior := s.zone.domains[fqdn];
    assert DomainTrusted(w, s.zone.tlds, fqdn, prior);
    var plain := prior.(status := status, updatedAt := w.rfc3339(ctx.now));
    SignedDomainVerifies(w, ctx.officialOperator, plain);
    c := DomainPut(fqdn, SignDomain(w, ctx.officialOperator, plain));
  }

  lemma IssueUnfolds(w: World, s: RegistryState, actor: Key, rec: DomainRecord, ctx: Context, e: ActionEffect)
    requires IssueEffect(w, s, actor, rec, ctx) == Ok(e)
    ensures rec.tld in s.zone.tlds && actor == s.zone.tlds[rec.tld].operatorPublicKey
    ensures ValidateLabel(rec.hostLabel).Ok? && VerifyDomain(w, rec, actor).Ok?
    ensures rec.domain in s.zone.domains && s.zone.domains[rec.domain].status.Revoked? ==> actor == s.zone.rootPublicKey
    ensures e == ActionEffect(TldOperatorRole, PutDomain(s.zone, rec.domain, rec), None)
  {
  }

  lemma IssueChange(w: World, s: RegistryState, root: Key, actor: Key, rec: DomainRecord, ctx: Context, e: ActionEffect)
    returns (c: Change)
    requires RecordsTrusted(w, s, root)
    requires IssueEffect(w, s, actor, rec, ctx) == Ok(e)
    ensures ChangeOk(w, s, actor, ctx, e, c)
    ensures c.DomainPut?
  {
    IssueUnfolds(w, s, actor, rec, ctx, e);
    AcceptedLabelHasNoDot(rec.hostLabel);
    if rec.domain in s.zone.domains {
      SameNameSameTld(w, s.zone.tlds, rec.domain, s.zone.domains[rec.domain], rec);
    }
    c := DomainPut(rec.domain, rec);
  }

  lemma DelegateChange(w: World, s: RegistryState, actor: Key, a: MutationAction, ctx: Context, e: ActionEffect)
    returns (c: Change)
    requires Lawful(w) && a.DelegateTld?
    requires DelegateEffect(w, s, actor, a, ctx) == Ok(e)
    ensures ChangeOk(w, s, actor, ctx, e, c)
    ensures c.TldAdded?
  {
    var name := ctx.blocklists.ValidateNewTld(a.tld, false).value;
    var signed := e.zone.tlds[name];
    SignedTldVerifies(w, ctx.root, signed.(signature := None));
    c := TldAdded(name, signed);
  }

  lemma CreateChange(w: World, s: RegistryState, actor: Key, tld: string, purpose: string, ctx: Context, e: ActionEffect)
    returns (c: Change)
    requires Lawful(w)
    requires CreateEffect(w, s, actor, tld, purpose, ctx) == Ok(e)
    ensures ChangeOk(w, s, actor, ctx, e, c)
    ensures c.TldAdded?
  {
    var name := ctx.blocklists.ValidateNewTld(tld, true).value;
    var signed := e.zone.tlds[name];
    SignedTldVerifies(w, ctx.root, signed.(signature := None));
    c := TldAdded(name, signed);
  }

  lemma RestrictChange(w: World, s: RegistryState, actor: Key, tld: string, why: string, status: TldStatus, mode: TldMode, ctx: Context, e: ActionEffect)
    returns (c: Change)
    requires Lawful(w)
    requires RestrictEffect(w, s, actor, tld, why, status, mode, ctx) == Ok(e)
    ensures ChangeOk(w, s, actor, ctx, e, c)
    ensures c.TldAdded?
  {
    var name := ValidateTldName(tld).value;
    var signed := e.zone.tlds[name];
    SignedTldVerifies(w, ctx.root, signed.(signature := None));
    c := TldAdded(name, signed);
  }

  lemma UpdateTldChange(w: World, s: RegistryState, actor: Key, a: MutationAction, ctx: Context, e: ActionEffect)
    returns (c: Change)
    requires Lawful(w) && a.UpdateTld?
    requires UpdateTldEffect(w, s, actor, a, ctx) == Ok(e)
    ensures ChangeOk(w, s, actor, ctx, e, c)
    ensures c.TldReplaced?
  {
    var name := Lower(a.tld);
    var signed := e.zone.tlds[name];
    SignedTldVerifies(w, ctx.root, signed.(signature := None));
    c := TldReplaced(name, signed);
  }

  lemma TldStatusChange(w: World, s: RegistryState, actor: Key, tld: string, status: TldStatus, ctx: Context, e: ActionEffect)
    returns (c: Change)
    requires Lawful(w)
    requires TldStatusEffect(w, s, actor, tld, status, ctx) == Ok(e)
    ensures ChangeOk(w, s, actor, ctx, e, c)
    ensures c.TldReplaced?
  {
    var name := Lower(tld);
    var signed := e.zone.tlds[name];
    SignedTldVerifies(w, ctx.root, signed.(signature := None));
    c := TldReplaced(name, signed);
  }

  lemma PointerChange(w: World, s: RegistryState, actor: Key, tld: string, registryHex: string, ctx: Context, e: ActionEffect)
    returns (c: Change)
    requires Lawful(w)
    requires PointerEffect(w, s, actor, tld, registryHex, ctx) == Ok(e)
    ensures ChangeOk(w, s, actor, ctx, e, c)
    ensures c.TldReplaced?
  {
    var name := Lower(tld);
    var signed := e.zone.tlds[name];
    SignedTldVerifies(w, ctx.root, signed.(signature := None));
    c := TldReplaced(name, signed);
  }

  /** The case analysis over all eleven actions. Domain actions put one domain, root's
      creating actions add one TLD, the rest replace one TLD record. */
  lemma ActionIsOneChange(w: World, s: RegistryState, root: Key, req: MutationRequest, ctx: Context, e: ActionEffect)
    returns (c: Change)
    requires Lawful(w) && RecordsTrusted(w, s, root)
    requires ApplyAction(w, s, req, ctx) == Ok(e)
    ensures ChangeOk(w, s, req.actorPublicKey, ctx, e, c)
    ensures c.DomainPut? <==> Target(req.action).kind.DomainTarget?
  {
    var actor := req.actorPublicKey;
    match req.action
    case PublishSite(domain, h) => c := PublishChange(w, s, root, actor, domain, h, false, ctx, e);
    case UpdateDomainManifest(domain, h) => c := PublishChange(w, s, root, actor, domain, h, true, ctx, e);
    case SetDomainStatus(domain, status) => c := DomainStatusChange(w, s, root, actor, domain, status, ctx, e);
    case IssueDomain(record) => c := IssueChange(w, s, root, actor, record, ctx, e);
    case DelegateTld(_, _, _, _, _, _, _) => c := DelegateChange(w, s, actor, req.action, ctx, e);
    case CreateTld(tld, purpose) => c := CreateChange(w, s, actor, tld, purpose, ctx, e);
    case ReserveTld(tld, why) => c := RestrictChange(w, s, actor, tld, why, TldStatus.Reserved, ReservedMode, ctx, e);
    case BlockTld(tld, why) => c := RestrictChange(w, s, actor, tld, why, TldStatus.Blocked, BlockedMode, ctx, e);
    case UpdateTld(_, _, _, _) => c := UpdateTldChange(w, s, actor, req.action, ctx, e);
    case SetTldStatus(tld, status) => c := TldStatusChange(w, s, actor, tld, status, ctx, e);
    case UpdateRegistryPointer(tld, hex) => c := PointerChange(w, s, actor, tld, hex, ctx, e);
  }
}
