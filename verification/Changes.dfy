/** What an accepted action can do to a trusted registry: exactly one of three
    changes. Every invariant of the registry is proved from this one analysis. */
module Changes {
  import opened Prelude
  import opened Records
  import opened Naming
  import opened Root
  import opened Actions

  /** Every TLD record sits under its own name, which the rules accept, and verifies under root. */
  ghost predicate TldsTrusted(w: World, tlds: map<string, TldRecord>, root: Key) {
    forall t <- tlds :: tlds[t].tld == t && IsTldName(t) && TldVerifies(w, tlds[t], root)
  }

  /** The record sits under its own name and verifies under its TLD's current operator. */
  ghost predicate DomainTrusted(w: World, tlds: map<string, TldRecord>, name: string, rec: DomainRecord) {
    && rec.domain == name
    && '.' !in rec.hostLabel
    && rec.tld in tlds
    && VerifyDomain(w, rec, tlds[rec.tld].operatorPublicKey).Ok?
  }

  ghost predicate DomainsTrusted(w: World, tlds: map<string, TldRecord>, domains: map<string, DomainRecord>) {
    forall d <- domains :: DomainTrusted(w, tlds, d, domains[d])
  }

  /** A stored registry is what its bytes parse to and verifies under its operator. */
  ghost predicate RegistryTrusted(w: World, tlds: map<string, TldRecord>, tld: string, pinned: PinnedRegistry) {
    && tld in tlds
    && w.parseRegistry(pinned.bytes) == Some(pinned.parsed)
    && RegistryVerifies(w, pinned.parsed, tld, tlds[tld].operatorPublicKey)
  }

  ghost predicate RegistriesTrusted(w: World, tlds: map<string, TldRecord>, registries: map<string, PinnedRegistry>) {
    forall t <- registries :: RegistryTrusted(w, tlds, t, registries[t])
  }

  /** The chain of trust below the root key, without the zone signature itself. */
  ghost predicate RecordsTrusted(w: World, s: RegistryState, root: Key) {
    && s.zone.network != ""
    && s.zone.rootPublicKey == root
    && TldsTrusted(w, s.zone.tlds, root)
    && DomainsTrusted(w, s.zone.tlds, s.zone.domains)
    && RegistriesTrusted(w, s.zone.tlds, s.registries)
  }

  datatype Change =
    | DomainPut(fqdn: string, domainRecord: DomainRecord)
    | TldAdded(name: string, tldRecord: TldRecord)
    | TldReplaced(name: string, tldRecord: TldRecord)

  /** The same owner, under the same lease. */
  predicate SameLease(a: DomainRecord, b: DomainRecord) {
    a.ownerPublicKey == b.ownerPublicKey && a.createdAt == b.createdAt && a.expiresAt == b.expiresAt
  }

  /** Equal but for the pinned registry, the date of update and the signature. */
  predicate SameTerms(a: TldRecord, b: TldRecord) {
    a.(registryManifestHash := None, updatedAt := "", signature := None) == b.(registryManifestHash := None, updatedAt := "", signature := None)
  }

  /** A record already there changes only by its owner, its operator or root; its owner and
      lease only by the operator, and the content it names never by root alone. */
  ghost predicate MayReplace(s: RegistryState, actor: Key, prior: DomainRecord, rec: DomainRecord) {
    && prior.tld in s.zone.tlds
    && var operator := s.zone.tlds[prior.tld].operatorPublicKey;
    && rec.tld == prior.tld
    && (actor == prior.ownerPublicKey || actor == operator || actor == s.zone.rootPublicKey)
    && (prior.status.Suspended? && !rec.status.Suspended? ==> actor == operator || actor == s.zone.rootPublicKey)
    && (prior.status.Revoked? && !rec.status.Revoked? ==> actor == s.zone.rootPublicKey)
    && (!SameLease(prior, rec) ==> actor == operator)
    && (rec.manifestHash != prior.manifestHash ==> actor == prior.ownerPublicKey || actor == operator)
  }

  ghost predicate DomainPutOk(w: World, s: RegistryState, actor: Key, e: ActionEffect, fqdn: string, rec: DomainRecord) {
    && e.registry.None?
    && e.zone == PutDomain(s.zone, fqdn, rec)
    && DomainTrusted(w, s.zone.tlds, fqdn, rec)
    && (fqdn in s.zone.domains ==> MayReplace(s, actor, s.zone.domains[fqdn], rec))
  }

  ghost predicate TldAddedOk(w: World, s: RegistryState, actor: Key, ctx: Context, e: ActionEffect, name: string, rec: TldRecord) {
    && e.registry.None?
    && actor == s.zone.rootPublicKey
    && IsTldName(name)
    && name !in s.zone.tlds
    && e.zone == PutTld(s.zone, name, rec)
    && rec.tld == name
    && rec.registryManifestHash.None?
    && TldVerifies(w, rec, ctx.root)
  }

  /** An update keeps name, owner, operator and registry type; the pinned hash
      moves only together with a newer registry signed by that operator. */
  ghost predicate TldReplacedOk(w: World, s: RegistryState, actor: Key, ctx: Context, e: ActionEffect, name: string, rec: TldRecord) {
    && name in s.zone.tlds
    && var prior := s.zone.tlds[name];
    && (actor == s.zone.rootPublicKey || actor == prior.operatorPublicKey)
    && e.zone == PutTld(s.zone, name, rec)
    && rec.tld == prior.tld
    && rec.ownerPublicKey == prior.ownerPublicKey
    && rec.operatorPublicKey == prior.operatorPublicKey
    && rec.registryType == prior.registryType
    && (!SameTerms(prior, rec) ==> actor == s.zone.rootPublicKey)
    && TldVerifies(w, rec, ctx.root)
    && match e.registry
       case None => rec.registryManifestHash == prior.registryManifestHash
       case Some(n) =>
         && n.tld == name
         && actor == prior.operatorPublicKey
         && w.parseRegistry(n.bytes) == Some(n.parsed)
         && RegistryVerifies(w, n.parsed, name, prior.operatorPublicKey)
         && n.parsed.version > RegistryVersion(s.registries, name)
         && rec.registryManifestHash == Some(w.hash(n.bytes))
  }

  ghost predicate ChangeOk(w: World, s: RegistryState, actor: Key, ctx: Context, e: ActionEffect, c: Change) {
    match c
    case DomainPut(fqdn, rec) => DomainPutOk(w, s, actor, e, fqdn, rec)
    case TldAdded(name, rec) => TldAddedOk(w, s, actor, ctx, e, name, rec)
    case TldReplaced(name, rec) => TldReplacedOk(w, s, actor, ctx, e, name, rec)
  }
}
