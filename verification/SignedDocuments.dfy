/** The JSON form of every signed document, and what its signature covers: equal signable bytes
    mean equal in every field but the signature. */
module SignedDocuments {
  import opened Prelude
  import opened Json
  import opened Records
  import opened Canonical
  import opened Documents

  // ------------------------------------------------------------------
  // domain records
  // ------------------------------------------------------------------

  const DOMAIN_KEYS: seq<string> :=
    ["domain", "tld", "label", "owner_public_key", "target_type", "manifest_hash", "service_id", "node_id", "status",
     "created_at", "updated_at", "expires_at", "renewal", "pricing", "signature_algorithm", "signature"]

  function DomainFields(r: DomainRecord): Fields {
    [Txt(r.domain), Txt(r.tld), Txt(r.hostLabel), Txt(r.ownerPublicKey), Txt(TargetTypeName(r.targetType)),
     Txt(r.manifestHash), OptText(r.serviceId), OptText(r.nodeId), Txt(DomainStatusName(r.status)), Txt(r.createdAt),
     Txt(r.updatedAt), OptText(r.expiresAt), r.renewal, r.pricing, Txt(r.signatureAlgorithm), Some(NullableText(r.signature))]
  }

  function DomainJson(r: DomainRecord): Value {
    Struct(DOMAIN_KEYS, DomainFields(r))
  }

  /** Equal in every field, with the free-form JSON fields read as maps. */
  ghost predicate SameDomain(a: DomainRecord, b: DomainRecord) {
    && a.(renewal := None, pricing := None) == b.(renewal := None, pricing := None)
    && OptSame(a.renewal, b.renewal)
    && OptSame(a.pricing, b.pricing)
  }

  lemma DomainKeysDistinct()
    ensures Distinct(DOMAIN_KEYS)
  {
    var keys := DOMAIN_KEYS;
    forall i, j | 0 <= i < j < |keys|
      ensures keys[i] != keys[j]
    {
      if |keys[i]| == |keys[j]| {
        assert keys[i][0] != keys[j][0];
      }
    }
  }

  lemma DomainFieldsAre(r: DomainRecord)
    ensures var f := DomainFields(r);
            && |f| == |DOMAIN_KEYS|
            && f[0] == Txt(r.domain) && f[1] == Txt(r.tld) && f[2] == Txt(r.hostLabel) && f[3] == Txt(r.ownerPublicKey)
            && f[4] == Txt(TargetTypeName(r.targetType)) && f[5] == Txt(r.manifestHash) && f[6] == OptText(r.serviceId)
            && f[7] == OptText(r.nodeId) && f[8] == Txt(DomainStatusName(r.status)) && f[9] == Txt(r.createdAt)
            && f[10] == Txt(r.updatedAt) && f[11] == OptText(r.expiresAt) && f[12] == r.renewal && f[13] == r.pricing
            && f[14] == Txt(r.signatureAlgorithm) && f[15] == Some(NullableText(r.signature))
  {
    hide OptText;
    hide NullableText;
    hide TargetTypeName;
    hide DomainStatusName;
  }

  lemma DomainEnums(a: DomainRecord, b: DomainRecord)
    ensures TargetTypeName(a.targetType) == TargetTypeName(b.targetType) ==> a.targetType == b.targetType
    ensures DomainStatusName(a.status) == DomainStatusName(b.status) ==> a.status == b.status
  {
  }

  lemma DomainFieldsTell(a: DomainRecord, b: DomainRecord)
    requires FieldsAgree(DomainFields(a), DomainFields(b))
    ensures SameDomain(a, b)
  {
    hide Same;
    hide TargetTypeName;
    hide DomainStatusName;
    hide DomainFields;
    DomainFieldsAre(a);
    DomainFieldsAre(b);
    DomainEnums(a, b);
  }

  lemma DomainAgrees(a: DomainRecord, b: DomainRecord)
    requires Same(DomainJson(a), DomainJson(b))
    ensures SameDomain(a, b)
  {
    hide *;
    DomainKeysDistinct();
    DomainIsStruct(a);
    DomainIsStruct(b);
    StructsAgree(DOMAIN_KEYS, DomainFields(a), DomainFields(b));
    DomainFieldsTell(a, b);
  }

  lemma DomainIsStruct(r: DomainRecord)
    ensures |DomainFields(r)| == |DOMAIN_KEYS| && DomainJson(r) == Struct(DOMAIN_KEYS, DomainFields(r))
  {
    hide Struct;
  }

  /** The free-form fields hold proper JSON values, as their type says. */
  predicate DomainHolds(r: DomainRecord) {
    OptIsValue(r.renewal) && OptIsValue(r.pricing)
  }

  lemma DomainFieldsPlain(r: DomainRecord)
    ensures var f := DomainFields(r);
            && |f| == |DOMAIN_KEYS| == 16
            && IsPlain(f[0]) && IsPlain(f[1]) && IsPlain(f[2]) && IsPlain(f[3]) && IsPlain(f[4]) && IsPlain(f[5])
            && IsPlain(f[6]) && IsPlain(f[7]) && IsPlain(f[8]) && IsPlain(f[9]) && IsPlain(f[10]) && IsPlain(f[11])
            && f[12] == r.renewal && f[13] == r.pricing && IsPlain(f[14]) && IsPlain(f[15])
  {
    hide DomainFields;
    DomainFieldsAre(r);
  }

  lemma DomainIsValue(r: DomainRecord)
    requires DomainHolds(r)
    ensures IsValue(DomainJson(r))
  {
    assert OptIsValue(r.renewal) && OptIsValue(r.pricing);
    hide *;
    DomainKeysDistinct();
    DomainIsStruct(r);
    DomainFieldsPlain(r);
    StructMakesValue(DOMAIN_KEYS, DomainFields(r));
  }

  // ------------------------------------------------------------------
  // TLD records
  // ------------------------------------------------------------------

  function Texts(xs: seq<string>): seq<Value> {
    seq(|xs|, i requires 0 <= i < |xs| => Str(xs[i]))
  }

  /** A list that is skipped when empty. */
  function OptTexts(xs: seq<string>): Option<Value> {
    if xs == [] then None else Some(Array(Texts(xs)))
  }

  lemma TextsAgree(a: seq<string>, b: seq<string>)
    requires OptSame(OptTexts(a), OptTexts(b))
    ensures a == b
  {
    if a != [] {
      forall i | 0 <= i < |a|
        ensures a[i] == b[i]
      {
        assert Same(Texts(a)[i], Texts(b)[i]);
      }
    }
  }

  lemma OptTextsValue(xs: seq<string>)
    ensures OptIsValue(OptTexts(xs))
  {
  }

  const TLD_KEYS: seq<string> :=
    ["tld", "status", "mode", "owner_public_key", "operator_public_key", "operator_name", "registry_type",
     "registry_endpoint", "registry_manifest_hash", "registry_providers", "policy_hash", "pricing", "created_at",
     "updated_at", "expires_at", "notes", "signature_algorithm", "signature"]

  function TldFields(r: TldRecord): Fields {
    [Txt(r.tld), Txt(TldStatusName(r.status)), Txt(TldModeName(r.mode)), Txt(r.ownerPublicKey), Txt(r.operatorPublicKey),
     Txt(r.operatorName), Txt(RegistryTypeName(r.registryType)), OptText(r.registryEndpoint),
     OptText(r.registryManifestHash), OptTexts(r.registryProviders), OptText(r.policyHash), r.pricing, Txt(r.createdAt),
     Txt(r.updatedAt), OptText(r.expiresAt), OptText(r.notes), Txt(r.signatureAlgorithm), Some(NullableText(r.signature))]
  }

  function TldJson(r: TldRecord): Value {
    Struct(TLD_KEYS, TldFields(r))
  }

  ghost predicate SameTld(a: TldRecord, b: TldRecord) {
    a.(pricing := None) == b.(pricing := None) && OptSame(a.pricing, b.pricing)
  }

  lemma TldKeysDistinct()
    ensures Distinct(TLD_KEYS)
  {
    var keys := TLD_KEYS;
    forall i, j | 0 <= i < j < |keys|
      ensures keys[i] != keys[j]
    {
      if |keys[i]| == |keys[j]| {
        assert keys[i][0] != keys[j][0];
      }
    }
  }

  lemma TldFieldsAre(r: TldRecord)
    ensures var f := TldFields(r);
            && |f| == |TLD_KEYS|
            && f[0] == Txt(r.tld) && f[1] == Txt(TldStatusName(r.status)) && f[2] == Txt(TldModeName(r.mode))
            && f[3] == Txt(r.ownerPublicKey) && f[4] == Txt(r.operatorPublicKey) && f[5] == Txt(r.operatorName)
            && f[6] == Txt(RegistryTypeName(r.registryType)) && f[7] == OptText(r.registryEndpoint)
            && f[8] == OptText(r.registryManifestHash) && f[9] == OptTexts(r.registryProviders) && f[10] == OptText(r.policyHash)
            && f[11] == r.pricing && f[12] == Txt(r.createdAt) && f[13] == Txt(r.updatedAt) && f[14] == OptText(r.expiresAt)
            && f[15] == OptText(r.notes) && f[16] == Txt(r.signatureAlgorithm) && f[17] == Some(NullableText(r.signature))
  {
    hide OptText;
    hide OptTexts;
    hide NullableText;
    hide TldStatusName;
    hide TldModeName;
    hide RegistryTypeName;
  }

  lemma TldEnums(a: TldRecord, b: TldRecord)
    ensures TldStatusName(a.status) == TldStatusName(b.status) ==> a.status == b.status
    ensures TldModeName(a.mode) == TldModeName(b.mode) ==> a.mode == b.mode
    ensures RegistryTypeName(a.registryType) == RegistryTypeName(b.registryType) ==> a.registryType == b.registryType
  {
  }

  lemma TldFieldsTell(a: TldRecord, b: TldRecord)
    requires FieldsAgree(TldFields(a), TldFields(b))
    ensures SameTld(a, b)
  {
    hide Same;
    hide TldStatusName;
    hide TldModeName;
    hide RegistryTypeName;
    hide TldFields;
    hide OptTexts;
    TldFieldsAre(a);
    TldFieldsAre(b);
    TldEnums(a, b);
    TextsAgree(a.registryProviders, b.registryProviders);
  }

  lemma TldIsStruct(r: TldRecord)
    ensures |TldFields(r)| == |TLD_KEYS| && TldJson(r) == Struct(TLD_KEYS, TldFields(r))
  {
    hide Struct;
  }

  lemma TldAgrees(a: TldRecord, b: TldRecord)
    requires Same(TldJson(a), TldJson(b))
    ensures SameTld(a, b)
  {
    hide *;
    TldKeysDistinct();
    TldIsStruct(a);
    TldIsStruct(b);
    StructsAgree(TLD_KEYS, TldFields(a), TldFields(b));
    TldFieldsTell(a, b);
  }

  predicate TldHolds(r: TldRecord) {
    OptIsValue(r.pricing)
  }

  lemma TldFieldsPlain(r: TldRecord)
    ensures var f := TldFields(r);
            && |f| == |TLD_KEYS| == 18
            && IsPlain(f[0]) && IsPlain(f[1]) && IsPlain(f[2]) && IsPlain(f[3]) && IsPlain(f[4]) && IsPlain(f[5])
            && IsPlain(f[6]) && IsPlain(f[7]) && IsPlain(f[8]) && f[9] == OptTexts(r.registryProviders) && IsPlain(f[10])
            && f[11] == r.pricing && IsPlain(f[12]) && IsPlain(f[13]) && IsPlain(f[14]) && IsPlain(f[15])
            && IsPlain(f[16]) && IsPlain(f[17])
  {
    hide TldFields;
    TldFieldsAre(r);
  }

  lemma TldIsValue(r: TldRecord)
    requires TldHolds(r)
    ensures IsValue(TldJson(r))
  {
    assert OptIsValue(r.pricing);
    hide *;
    OptTextsValue(r.registryProviders);
    TldKeysDistinct();
    TldIsStruct(r);
    TldFieldsPlain(r);
    StructMakesValue(TLD_KEYS, TldFields(r));
  }

  // ------------------------------------------------------------------
  // manifests
  // ------------------------------------------------------------------

  const MANIFEST_KEYS: seq<string> :=
    ["domain", "version", "entry", "files", "owner_public_key", "created_at", "signature_algorithm", "signature"]

  ghost function ManifestFields(m: Manifest): Fields {
    [Txt(m.domain), Int(m.version), Txt(m.entry), Some(MapJson(m.files, (h: Hash) => Str(h))), Txt(m.ownerPublicKey),
     Txt(m.createdAt), Txt(m.signatureAlgorithm), Some(NullableText(m.signature))]
  }

  ghost function ManifestJson(m: Manifest): Value {
    Struct(MANIFEST_KEYS, ManifestFields(m))
  }

  lemma ManifestIsStruct(m: Manifest)
    ensures Distinct(MANIFEST_KEYS)
    ensures |ManifestFields(m)| == |MANIFEST_KEYS| && ManifestJson(m) == Struct(MANIFEST_KEYS, ManifestFields(m))
    ensures var f := ManifestFields(m);
            && f[0] == Txt(m.domain) && f[1] == Int(m.version) && f[2] == Txt(m.entry)
            && f[3] == Some(MapJson(m.files, (h: Hash) => Str(h))) && f[4] == Txt(m.ownerPublicKey)
            && f[5] == Txt(m.createdAt) && f[6] == Txt(m.signatureAlgorithm) && f[7] == Some(NullableText(m.signature))
  {
    hide Struct;
    hide MapJson;
    hide NullableText;
  }

  lemma ManifestFieldsTell(a: Manifest, b: Manifest)
    requires FieldsAgree(ManifestFields(a), ManifestFields(b))
    ensures a == b
  {
    hide Same;
    hide ManifestFields;
    hide MapJson;
    ManifestIsStruct(a);
    ManifestIsStruct(b);
    FilesAgree(a.files, b.files);
  }

  lemma FilesAgree(a: map<string, Hash>, b: map<string, Hash>)
    requires Same(MapJson(a, (h: Hash) => Str(h)), MapJson(b, (h: Hash) => Str(h)))
    ensures a == b
  {
    MapsAgree(a, b, (h: Hash) => Str(h));
    forall k | k in a
      ensures a[k] == b[k]
    {
      assert Same(Str(a[k]), Str(b[k]));
    }
  }

  lemma ManifestAgrees(a: Manifest, b: Manifest)
    requires Same(ManifestJson(a), ManifestJson(b))
    ensures a == b
  {
    hide *;
    ManifestIsStruct(a);
    ManifestIsStruct(b);
    StructsAgree(MANIFEST_KEYS, ManifestFields(a), ManifestFields(b));
    ManifestFieldsTell(a, b);
  }

  lemma ManifestIsValue(m: Manifest)
    ensures IsValue(ManifestJson(m))
  {
    ManifestIsStruct(m);
    MapMakesValue(m.files, (h: Hash) => Str(h));
    hide MapJson;
    hide ManifestFields;
    hide Struct;
    StructMakesValue(MANIFEST_KEYS, ManifestFields(m));
  }

  // ------------------------------------------------------------------
  // delegated registries
  // ------------------------------------------------------------------

  ghost predicate SameDomains(a: map<string, DomainRecord>, b: map<string, DomainRecord>) {
    a.Keys == b.Keys && forall k <- a :: SameDomain(a[k], b[k])
  }

  lemma DomainMapsAgree(a: map<string, DomainRecord>, b: map<string, DomainRecord>)
    requires Same(MapJson(a, DomainJson), MapJson(b, DomainJson))
    ensures SameDomains(a, b)
  {
    MapsAgree(a, b, DomainJson);
    forall k | k in a
      ensures SameDomain(a[k], b[k])
    {
      DomainAgrees(a[k], b[k]);
    }
  }

  lemma DomainMapIsValue(m: map<string, DomainRecord>)
    requires forall k <- m :: DomainHolds(m[k])
    ensures IsValue(MapJson(m, DomainJson))
  {
    forall k | k in m
      ensures IsValue(DomainJson(m[k]))
    {
      DomainIsValue(m[k]);
    }
    MapMakesValue(m, DomainJson);
  }

  const REGISTRY_KEYS: seq<string> :=
    ["tld", "version", "generated_at", "operator_public_key", "domains", "signature_algorithm", "signature"]

  ghost function RegistryFields(r: TldRegistry): Fields {
    [Txt(r.tld), Int(r.version), Txt(r.generatedAt), Txt(r.operatorPublicKey), Some(MapJson(r.domains, DomainJson)),
     Txt(r.signatureAlgorithm), Some(NullableText(r.signature))]
  }

  ghost function RegistryJson(r: TldRegistry): Value {
    Struct(REGISTRY_KEYS, RegistryFields(r))
  }

  ghost predicate SameRegistry(a: TldRegistry, b: TldRegistry) {
    a.(domains := map[]) == b.(domains := map[]) && SameDomains(a.domains, b.domains)
  }

  lemma RegistryIsStruct(r: TldRegistry)
    ensures Distinct(REGISTRY_KEYS)
    ensures |RegistryFields(r)| == |REGISTRY_KEYS| == 7 && RegistryJson(r) == Struct(REGISTRY_KEYS, RegistryFields(r))
    ensures var f := RegistryFields(r);
            && f[0] == Txt(r.tld) && f[1] == Int(r.version) && f[2] == Txt(r.generatedAt) && f[3] == Txt(r.operatorPublicKey)
            && f[4] == Some(MapJson(r.domains, DomainJson)) && f[5] == Txt(r.signatureAlgorithm)
            && f[6] == Some(NullableText(r.signature))
  {
    hide Struct;
    hide MapJson;
    hide NullableText;
  }

  lemma RegistryFieldsTell(a: TldRegistry, b: TldRegistry)
    requires FieldsAgree(RegistryFields(a), RegistryFields(b))
    ensures SameRegistry(a, b)
  {
    hide Same;
    hide RegistryFields;
    hide MapJson;
    hide SameDomains;
    RegistryIsStruct(a);
    RegistryIsStruct(b);
    DomainMapsAgree(a.domains, b.domains);
  }

  lemma RegistryAgrees(a: TldRegistry, b: TldRegistry)
    requires Same(RegistryJson(a), RegistryJson(b))
    ensures SameRegistry(a, b)
  {
    hide *;
    RegistryIsStruct(a);
    RegistryIsStruct(b);
    StructsAgree(REGISTRY_KEYS, RegistryFields(a), RegistryFields(b));
    RegistryFieldsTell(a, b);
  }

  lemma RegistryIsValue(r: TldRegistry)
    requires forall k <- r.domains :: DomainHolds(r.domains[k])
    ensures IsValue(RegistryJson(r))
  {
    RegistryIsStruct(r);
    DomainMapIsValue(r.domains);
    hide MapJson;
    hide RegistryFields;
    hide Struct;
    StructMakesValue(REGISTRY_KEYS, RegistryFields(r));
  }

  // ------------------------------------------------------------------
  // root zones
  // ------------------------------------------------------------------

  const EVENT_KEYS: seq<string> := ["at", "actor", "action", "subject", "detail"]

  function EventFields(e: AuditEvent): Fields {
    [Txt(e.at), Txt(RoleName(e.actor)), Txt(ActionName(e.action)), Txt(e.subject), OptText(e.detail)]
  }

  function EventJson(e: AuditEvent): Value {
    Struct(EVENT_KEYS, EventFields(e))
  }

  lemma RolesDistinct(a: ActorRole, b: ActorRole)
    requires RoleName(a) == RoleName(b)
    ensures a == b
  {
  }

  lemma ActionsDistinct(a: ActionKind, b: ActionKind)
    requires ActionName(a) == ActionName(b)
    ensures a == b
  {
  }

  lemma EventIsStruct(e: AuditEvent)
    ensures Distinct(EVENT_KEYS)
    ensures |EventFields(e)| == |EVENT_KEYS| == 5 && EventJson(e) == Struct(EVENT_KEYS, EventFields(e))
    ensures var f := EventFields(e);
            && f[0] == Txt(e.at) && f[1] == Txt(RoleName(e.actor)) && f[2] == Txt(ActionName(e.action))
            && f[3] == Txt(e.subject) && f[4] == OptText(e.detail)
  {
    hide Struct;
    hide OptText;
    hide RoleName;
    hide ActionName;
  }

  lemma EventAgrees(a: AuditEvent, b: AuditEvent)
    requires Same(EventJson(a), EventJson(b))
    ensures a == b
  {
    hide Same;
    hide Struct;
    hide EventFields;
    hide RoleName;
    hide ActionName;
    EventIsStruct(a);
    EventIsStruct(b);
    StructsAgree(EVENT_KEYS, EventFields(a), EventFields(b));
    RolesDistinct(a.actor, b.actor);
    ActionsDistinct(a.action, b.action);
  }

  lemma EventIsValue(e: AuditEvent)
    ensures IsValue(EventJson(e))
  {
    EventIsStruct(e);
    hide Struct;
    hide EventFields;
    StructMakesValue(EVENT_KEYS, EventFields(e));
  }

  function EventsJson(es: seq<AuditEvent>): Value {
    Array(seq(|es|, i requires 0 <= i < |es| => EventJson(es[i])))
  }

  lemma EventsAgree(a: seq<AuditEvent>, b: seq<AuditEvent>)
    requires Same(EventsJson(a), EventsJson(b))
    ensures a == b
  {
    hide EventJson;
    forall i | 0 <= i < |a|
      ensures a[i] == b[i]
    {
      assert Same(EventsJson(a).items[i], EventsJson(b).items[i]);
      EventAgrees(a[i], b[i]);
    }
  }

  lemma EventsAreValue(es: seq<AuditEvent>)
    ensures IsValue(EventsJson(es))
  {
    hide EventJson;
    forall i | 0 <= i < |es|
      ensures IsValue(EventsJson(es).items[i])
    {
      EventIsValue(es[i]);
    }
  }

  ghost predicate SameTlds(a: map<string, TldRecord>, b: map<string, TldRecord>) {
    a.Keys == b.Keys && forall k <- a :: SameTld(a[k], b[k])
  }

  lemma TldMapsAgree(a: map<string, TldRecord>, b: map<string, TldRecord>)
    requires Same(MapJson(a, TldJson), MapJson(b, TldJson))
    ensures SameTlds(a, b)
  {
    MapsAgree(a, b, TldJson);
    forall k | k in a
      ensures SameTld(a[k], b[k])
    {
      TldAgrees(a[k], b[k]);
    }
  }

  lemma TldMapIsValue(m: map<string, TldRecord>)
    requires forall k <- m :: TldHolds(m[k])
    ensures IsValue(MapJson(m, TldJson))
  {
    forall k | k in m
      ensures IsValue(TldJson(m[k]))
    {
      TldIsValue(m[k]);
    }
    MapMakesValue(m, TldJson);
  }

  const ZONE_KEYS: seq<string> :=
    ["network", "root_version", "generated_at", "root_public_key", "tlds", "domains", "audit", "signature_algorithm", "signature"]

  ghost function ZoneFields(z: RootZone): Fields {
    [Txt(z.network), Int(z.rootVersion), Txt(z.generatedAt), Txt(z.rootPublicKey), Some(MapJson(z.tlds, TldJson)),
     Some(MapJson(z.domains, DomainJson)), Some(EventsJson(z.audit)), Txt(z.signatureAlgorithm), Some(NullableText(z.signature))]
  }

  ghost function ZoneJson(z: RootZone): Value {
    Struct(ZONE_KEYS, ZoneFields(z))
  }

  ghost predicate SameZone(a: RootZone, b: RootZone) {
    && a.(tlds := map[], domains := map[]) == b.(tlds := map[], domains := map[])
    && SameTlds(a.tlds, b.tlds)
    && SameDomains(a.domains, b.domains)
  }

  lemma ZoneIsStruct(z: RootZone)
    ensures Distinct(ZONE_KEYS)
    ensures |ZoneFields(z)| == |ZONE_KEYS| == 9 && ZoneJson(z) == Struct(ZONE_KEYS, ZoneFields(z))
    ensures var f := ZoneFields(z);
            && f[0] == Txt(z.network) && f[1] == Int(z.rootVersion) && f[2] == Txt(z.generatedAt) && f[3] == Txt(z.rootPublicKey)
            && f[4] == Some(MapJson(z.tlds, TldJson)) && f[5] == Some(MapJson(z.domains, DomainJson))
            && f[6] == Some(EventsJson(z.audit)) && f[7] == Txt(z.signatureAlgorithm) && f[8] == Some(NullableText(z.signature))
  {
    hide Struct;
    hide MapJson;
    hide EventsJson;
    hide NullableText;
  }

  lemma ZoneFieldsTell(a: RootZone, b: RootZone)
    requires FieldsAgree(ZoneFields(a), ZoneFields(b))
    ensures SameZone(a, b)
  {
    hide Same;
    hide ZoneFields;
    hide MapJson;
    hide EventsJson;
    hide SameDomains;
    hide SameTlds;
    ZoneIsStruct(a);
    ZoneIsStruct(b);
    TldMapsAgree(a.tlds, b.tlds);
    DomainMapsAgree(a.domains, b.domains);
    EventsAgree(a.audit, b.audit);
  }

  lemma ZoneAgrees(a: RootZone, b: RootZone)
    requires Same(ZoneJson(a), ZoneJson(b))
    ensures SameZone(a, b)
  {
    hide *;
    ZoneIsStruct(a);
    ZoneIsStruct(b);
    StructsAgree(ZONE_KEYS, ZoneFields(a), ZoneFields(b));
    ZoneFieldsTell(a, b);
  }

  predicate ZoneHolds(z: RootZone) {
    (forall t <- z.tlds :: TldHolds(z.tlds[t])) && (forall d <- z.domains :: DomainHolds(z.domains[d]))
  }

  lemma ZoneIsValue(z: RootZone)
    requires ZoneHolds(z)
    ensures IsValue(ZoneJson(z))
  {
    ZoneIsStruct(z);
    TldMapIsValue(z.tlds);
    DomainMapIsValue(z.domains);
    EventsAreValue(z.audit);
    hide MapJson;
    hide EventsJson;
    hide ZoneFields;
    hide Struct;
    StructMakesValue(ZONE_KEYS, ZoneFields(z));
  }

  // ------------------------------------------------------------------
  // audit records
  // ------------------------------------------------------------------

  const AUDIT_KEYS: seq<string> :=
    ["event_id", "mutation_id", "actor_public_key", "actor_role", "action", "target_type", "target_id",
     "previous_state_hash", "new_state_hash", "timestamp", "signature_algorithm", "signature"]

  function TargetKindName(k: TargetKind): string {
    if k.TldTarget? then "tld" else "domain"
  }

  function AuditFields(e: AuditRecord): Fields {
    [Txt(e.eventId), Txt(e.mutationId), Txt(e.actorPublicKey), Txt(RoleName(e.actorRole)), Txt(ActionName(e.action)),
     Txt(TargetKindName(e.target.kind)), Txt(e.target.id), Txt(e.previousStateHash), Txt(e.newStateHash), Txt(e.timestamp),
     Txt(e.signatureAlgorithm), Some(NullableText(e.signature))]
  }

  function AuditJson(e: AuditRecord): Value {
    Struct(AUDIT_KEYS, AuditFields(e))
  }

  lemma AuditKeysDistinct()
    ensures Distinct(AUDIT_KEYS)
  {
    var keys := AUDIT_KEYS;
    forall i, j | 0 <= i < j < |keys|
      ensures keys[i] != keys[j]
    {
      if |keys[i]| == |keys[j]| {
        assert keys[i][0] != keys[j][0] || keys[i][1] != keys[j][1];
      }
    }
  }

  lemma AuditIsStruct(e: AuditRecord)
    ensures |AuditFields(e)| == |AUDIT_KEYS| == 12 && AuditJson(e) == Struct(AUDIT_KEYS, AuditFields(e))
    ensures var f := AuditFields(e);
            && f[0] == Txt(e.eventId) && f[1] == Txt(e.mutationId) && f[2] == Txt(e.actorPublicKey)
            && f[3] == Txt(RoleName(e.actorRole)) && f[4] == Txt(ActionName(e.action))
            && f[5] == Txt(TargetKindName(e.target.kind)) && f[6] == Txt(e.target.id) && f[7] == Txt(e.previousStateHash)
            && f[8] == Txt(e.newStateHash) && f[9] == Txt(e.timestamp) && f[10] == Txt(e.signatureAlgorithm)
            && f[11] == Some(NullableText(e.signature))
  {
    hide Struct;
    hide NullableText;
    hide RoleName;
    hide ActionName;
    hide TargetKindName;
  }

  lemma AuditFieldsTell(a: AuditRecord, b: AuditRecord)
    requires FieldsAgree(AuditFields(a), AuditFields(b))
    ensures a == b
  {
    hide Same;
    hide AuditFields;
    hide RoleName;
    hide ActionName;
    AuditIsStruct(a);
    AuditIsStruct(b);
    RolesDistinct(a.actorRole, b.actorRole);
    ActionsDistinct(a.action, b.action);
  }

  lemma AuditAgrees(a: AuditRecord, b: AuditRecord)
    requires Same(AuditJson(a), AuditJson(b))
    ensures a == b
  {
    hide *;
    AuditKeysDistinct();
    AuditIsStruct(a);
    AuditIsStruct(b);
    StructsAgree(AUDIT_KEYS, AuditFields(a), AuditFields(b));
    AuditFieldsTell(a, b);
  }

  lemma AuditIsValue(e: AuditRecord)
    ensures IsValue(AuditJson(e))
  {
    AuditKeysDistinct();
    AuditIsStruct(e);
    hide Struct;
    hide AuditFields;
    hide IsValue;
    StructMakesValue(AUDIT_KEYS, AuditFields(e));
  }

  // ------------------------------------------------------------------
  // mutation envelopes
  // ------------------------------------------------------------------

  /** The variant name under the `type` tag. */
  function ActionTag(a: MutationAction): string {
    match a
    case PublishSite(_, _) => "publish_site"
    case UpdateDomainManifest(_, _) => "update_domain_manifest"
    case SetDomainStatus(_, _) => "set_domain_status"
    case IssueDomain(_) => "issue_domain"
    case DelegateTld(_, _, _, _, _, _, _) => "delegate_tld"
    case UpdateTld(_, _, _, _) => "update_tld"
    case CreateTld(_, _) => "create_tld"
    case ReserveTld(_, _) => "reserve_tld"
    case BlockTld(_, _) => "block_tld"
    case SetTldStatus(_, _) => "set_tld_status"
    case UpdateRegistryPointer(_, _) => "update_registry_pointer"
  }

  function ActionKeys(a: MutationAction): seq<string> {
    match a
    case PublishSite(_, _) => ["type", "domain", "manifest_hash"]
    case UpdateDomainManifest(_, _) => ["type", "domain", "manifest_hash"]
    case SetDomainStatus(_, _) => ["type", "domain", "status"]
    case IssueDomain(_) => ["type", "record"]
    case DelegateTld(_, _, _, _, _, _, _) =>
      ["type", "tld", "owner_public_key", "operator_public_key", "operator_name", "registry_type", "registry_endpoint", "expires_at"]
    case UpdateTld(_, _, _, _) => ["type", "tld", "registry_endpoint", "expires_at", "notes"]
    case CreateTld(_, _) => ["type", "tld", "purpose"]
    case ReserveTld(_, _) => ["type", "tld", "reason"]
    case BlockTld(_, _) => ["type", "tld", "reason"]
    case SetTldStatus(_, _) => ["type", "tld", "status"]
    case UpdateRegistryPointer(_, _) => ["type", "tld", "registry_hex"]
  }

  function ActionFields(a: MutationAction): Fields {
    [Txt(ActionTag(a))] +
    match a
    case PublishSite(domain, h) => [Txt(domain), Txt(h)]
    case UpdateDomainManifest(domain, h) => [Txt(domain), Txt(h)]
    case SetDomainStatus(domain, status) => [Txt(domain), Txt(DomainStatusName(status))]
    case IssueDomain(rec) => [Some(DomainJson(rec))]
    case DelegateTld(tld, owner, operator, name, kind, endpoint, expires) =>
      [Txt(tld), Txt(owner), Txt(operator), Txt(name), Txt(RegistryTypeName(kind)), OptText(endpoint), OptText(expires)]
    case UpdateTld(tld, endpoint, expires, notes) => [Txt(tld), OptText(endpoint), OptText(expires), OptText(notes)]
    case CreateTld(tld, purpose) => [Txt(tld), Txt(purpose)]
    case ReserveTld(tld, why) => [Txt(tld), Txt(why)]
    case BlockTld(tld, why) => [Txt(tld), Txt(why)]
    case SetTldStatus(tld, status) => [Txt(tld), Txt(TldStatusName(status))]
    case UpdateRegistryPointer(tld, hex) => [Txt(tld), Txt(hex)]
  }

  function ActionJson(a: MutationAction): Value {
    Struct(ActionKeys(a), ActionFields(a))
  }

  ghost predicate SameAction(a: MutationAction, b: MutationAction) {
    if a.IssueDomain? && b.IssueDomain? then SameDomain(a.record, b.record) else a == b
  }

  lemma ActionIsStruct(a: MutationAction)
    ensures Distinct(ActionKeys(a)) && |ActionKeys(a)| == |ActionFields(a)| > 0
    ensures ActionKeys(a)[0] == "type" && ActionFields(a)[0] == Txt(ActionTag(a))
  {
    hide DomainJson;
    hide RegistryTypeName;
    hide DomainStatusName;
    hide TldStatusName;
    hide ActionTag;
  }

  lemma TagsDistinct(a: MutationAction, b: MutationAction)
    requires ActionTag(a) == ActionTag(b)
    ensures ActionKeys(a) == ActionKeys(b)
    ensures a.PublishSite? == b.PublishSite? && a.UpdateDomainManifest? == b.UpdateDomainManifest?
    ensures a.SetDomainStatus? == b.SetDomainStatus? && a.IssueDomain? == b.IssueDomain? && a.DelegateTld? == b.DelegateTld?
    ensures a.UpdateTld? == b.UpdateTld? && a.CreateTld? == b.CreateTld? && a.ReserveTld? == b.ReserveTld?
    ensures a.BlockTld? == b.BlockTld? && a.SetTldStatus? == b.SetTldStatus? && a.UpdateRegistryPointer? == b.UpdateRegistryPointer?
  {
  }

  lemma StatusesDistinct()
    ensures forall a, b :: TldStatusName(a) == TldStatusName(b) ==> a == b
    ensures forall a, b :: DomainStatusName(a) == DomainStatusName(b) ==> a == b
    ensures forall a, b :: RegistryTypeName(a) == RegistryTypeName(b) ==> a == b
  {
  }

  lemma ActionFieldsTell(a: MutationAction, b: MutationAction)
    requires ActionTag(a) == ActionTag(b) && FieldsAgree(ActionFields(a), ActionFields(b))
    ensures SameAction(a, b)
  {
    TagsDistinct(a, b);
    StatusesDistinct();
    var x, y := ActionFields(a), ActionFields(b);
    hide ActionTag;
    hide Same;
    hide DomainJson;
    hide TldStatusName;
    hide DomainStatusName;
    hide RegistryTypeName;
    hide SameDomain;
    assert OptSame(x[1], y[1]);
    if a.IssueDomain? {
      DomainAgrees(a.record, b.record);
    } else {
      assert x[1] == y[1] && x[2] == y[2];
      if a.DelegateTld? {
        assert x[3] == y[3] && x[4] == y[4] && x[5] == y[5] && x[6] == y[6] && x[7] == y[7];
      } else if a.UpdateTld? {
        assert x[3] == y[3] && x[4] == y[4];
      }
    }
  }

  lemma ActionAgrees(a: MutationAction, b: MutationAction)
    requires Same(ActionJson(a), ActionJson(b))
    ensures SameAction(a, b)
  {
    ActionIsStruct(a);
    ActionIsStruct(b);
    hide ActionKeys;
    hide ActionFields;
    hide Struct;
    hide SameAction;
    TagsAgree(ActionKeys(a), ActionFields(a), ActionKeys(b), ActionFields(b));
    assert ActionTag(a) == ActionTag(b);
    TagsDistinct(a, b);
    StructsAgree(ActionKeys(a), ActionFields(a), ActionFields(b));
    ActionFieldsTell(a, b);
  }

  predicate ActionHolds(a: MutationAction) {
    a.IssueDomain? ==> DomainHolds(a.record)
  }

  lemma ActionFieldValues(a: MutationAction)
    requires a.IssueDomain? ==> OptIsValue(Some(DomainJson(a.record)))
    ensures forall i :: 0 <= i < |ActionFields(a)| ==> IsPlain(ActionFields(a)[i]) || OptIsValue(ActionFields(a)[i])
  {
    hide DomainJson;
    hide IsValue;
    hide ActionTag;
    hide TldStatusName;
    hide DomainStatusName;
    hide RegistryTypeName;
  }

  lemma ActionIsValue(a: MutationAction)
    requires ActionHolds(a)
    ensures IsValue(ActionJson(a))
  {
    if a.IssueDomain? {
      DomainIsValue(a.record);
    }
    ActionIsStruct(a);
    ActionFieldValues(a);
    hide Struct;
    hide ActionKeys;
    hide ActionFields;
    hide IsValue;
    StructMakesValue(ActionKeys(a), ActionFields(a));
  }

  const REQUEST_KEYS: seq<string> :=
    ["mutation_id", "nonce", "issued_at", "actor_public_key", "target_version", "action", "signature_algorithm", "signature"]

  function RequestFields(r: MutationRequest): Fields {
    [Txt(r.mutationId), Txt(r.nonce), Txt(r.issuedAt), Txt(r.actorPublicKey), Int(r.targetVersion), Some(ActionJson(r.action)),
     Txt(r.signatureAlgorithm), Some(NullableText(r.signature))]
  }

  function RequestJson(r: MutationRequest): Value {
    Struct(REQUEST_KEYS, RequestFields(r))
  }

  /** Equal in everything but, inside an issued record, the reading of its free-form fields. */
  ghost predicate SameRequest(a: MutationRequest, b: MutationRequest) {
    a.(action := b.action) == b && SameAction(a.action, b.action)
  }

  lemma RequestIsStruct(r: MutationRequest)
    ensures Distinct(REQUEST_KEYS)
    ensures |RequestFields(r)| == |REQUEST_KEYS| == 8 && RequestJson(r) == Struct(REQUEST_KEYS, RequestFields(r))
    ensures var f := RequestFields(r);
            && f[0] == Txt(r.mutationId) && f[1] == Txt(r.nonce) && f[2] == Txt(r.issuedAt) && f[3] == Txt(r.actorPublicKey)
            && f[4] == Int(r.targetVersion) && f[5] == Some(ActionJson(r.action)) && f[6] == Txt(r.signatureAlgorithm)
            && f[7] == Some(NullableText(r.signature))
  {
    hide Struct;
    hide ActionJson;
    hide NullableText;
  }

  lemma RequestFieldsTell(a: MutationRequest, b: MutationRequest)
    requires FieldsAgree(RequestFields(a), RequestFields(b))
    ensures SameRequest(a, b)
  {
    hide Same;
    hide RequestFields;
    hide ActionJson;
    hide SameAction;
    RequestIsStruct(a);
    RequestIsStruct(b);
    ActionAgrees(a.action, b.action);
  }

  lemma RequestAgrees(a: MutationRequest, b: MutationRequest)
    requires Same(RequestJson(a), RequestJson(b))
    ensures SameRequest(a, b)
  {
    hide *;
    RequestIsStruct(a);
    RequestIsStruct(b);
    StructsAgree(REQUEST_KEYS, RequestFields(a), RequestFields(b));
    RequestFieldsTell(a, b);
  }

  lemma RequestIsValue(r: MutationRequest)
    requires ActionHolds(r.action)
    ensures IsValue(RequestJson(r))
  {
    RequestIsStruct(r);
    ActionIsValue(r.action);
    hide ActionJson;
    hide RequestFields;
    hide Struct;
    StructMakesValue(REQUEST_KEYS, RequestFields(r));
  }

  // ------------------------------------------------------------------
  // all of them
  // ------------------------------------------------------------------

  /** A document with its signature blanked. */
  function Unsigned(d: Doc): Doc {
    match d
    case TldDoc(x) => TldDoc(x.(signature := None))
    case DomainDoc(x) => DomainDoc(x.(signature := None))
    case ManifestDoc(x) => ManifestDoc(x.(signature := None))
    case RegistryDoc(x) => RegistryDoc(x.(signature := None))
    case ZoneDoc(x) => ZoneDoc(x.(signature := None))
    case MutationDoc(x) => MutationDoc(x.(signature := None))
    case AuditDoc(x) => AuditDoc(x.(signature := None))
  }

  ghost function DocJson(d: Doc): Value {
    match d
    case TldDoc(x) => TldJson(x)
    case DomainDoc(x) => DomainJson(x)
    case ManifestDoc(x) => ManifestJson(x)
    case RegistryDoc(x) => RegistryJson(x)
    case ZoneDoc(x) => ZoneJson(x)
    case MutationDoc(x) => RequestJson(x)
    case AuditDoc(x) => AuditJson(x)
  }

  /** Free-form fields hold proper JSON values. */
  predicate DocHolds(d: Doc) {
    match d
    case TldDoc(x) => TldHolds(x)
    case DomainDoc(x) => DomainHolds(x)
    case RegistryDoc(x) => forall k <- x.domains :: DomainHolds(x.domains[k])
    case ZoneDoc(x) => ZoneHolds(x)
    case MutationDoc(x) => ActionHolds(x.action)
    case _ => true
  }

  predicate SameKind(a: Doc, b: Doc) {
    match a
    case TldDoc(_) => b.TldDoc?
    case DomainDoc(_) => b.DomainDoc?
    case ManifestDoc(_) => b.ManifestDoc?
    case RegistryDoc(_) => b.RegistryDoc?
    case ZoneDoc(_) => b.ZoneDoc?
    case MutationDoc(_) => b.MutationDoc?
    case AuditDoc(_) => b.AuditDoc?
  }

  /** The same document field by field, free-form JSON fields read as maps. */
  ghost predicate SameDoc(a: Doc, b: Doc)
    requires SameKind(a, b)
  {
    match a
    case TldDoc(x) => SameTld(x, b.tld)
    case DomainDoc(x) => SameDomain(x, b.domain)
    case RegistryDoc(x) => SameRegistry(x, b.registry)
    case ZoneDoc(x) => SameZone(x, b.zone)
    case MutationDoc(x) => SameRequest(x, b.mutation)
    case _ => a == b
  }

  ghost function SignableBytes(d: Doc): Bytes {
    CanonicalBytes(DocJson(Unsigned(d)))
  }

  lemma DocIsValue(d: Doc)
    requires DocHolds(d)
    ensures IsValue(DocJson(d))
  {
    hide IsValue;
    match d
    case TldDoc(x) => TldIsValue(x);
    case DomainDoc(x) => DomainIsValue(x);
    case ManifestDoc(x) => ManifestIsValue(x);
    case RegistryDoc(x) => RegistryIsValue(x);
    case ZoneDoc(x) => ZoneIsValue(x);
    case MutationDoc(x) => RequestIsValue(x);
    case AuditDoc(x) => AuditIsValue(x);
  }

  // ------------------------------------------------------------------
  // no signature passes for a document of another kind
  // ------------------------------------------------------------------

  function KeysOf(d: Doc): seq<string> {
    match d
    case TldDoc(_) => TLD_KEYS
    case DomainDoc(_) => DOMAIN_KEYS
    case ManifestDoc(_) => MANIFEST_KEYS
    case RegistryDoc(_) => REGISTRY_KEYS
    case ZoneDoc(_) => ZONE_KEYS
    case MutationDoc(_) => REQUEST_KEYS
    case AuditDoc(_) => AUDIT_KEYS
  }

  ghost function FieldsOf(d: Doc): Fields {
    match d
    case TldDoc(x) => TldFields(x)
    case DomainDoc(x) => DomainFields(x)
    case ManifestDoc(x) => ManifestFields(x)
    case RegistryDoc(x) => RegistryFields(x)
    case ZoneDoc(x) => ZoneFields(x)
    case MutationDoc(x) => RequestFields(x)
    case AuditDoc(x) => AuditFields(x)
  }

  const MARKS: seq<string> := ["operator_name", "label", "entry", "network", "nonce", "event_id"]

  /** A field that is always written and that no other kind of document has; registries, whose
      fields all occur elsewhere, have none. */
  function MarkOf(d: Doc): Option<nat> {
    match d
    case TldDoc(_) => Some(5)
    case DomainDoc(_) => Some(2)
    case ManifestDoc(_) => Some(2)
    case RegistryDoc(_) => None
    case ZoneDoc(_) => Some(0)
    case MutationDoc(_) => Some(1)
    case AuditDoc(_) => Some(0)
  }

  lemma DocIsStruct(d: Doc)
    ensures |KeysOf(d)| == |FieldsOf(d)| && Distinct(KeysOf(d)) && DocJson(d) == Struct(KeysOf(d), FieldsOf(d))
  {
    hide Struct;
    hide Distinct;
    hide TldFields;
    hide DomainFields;
    hide ManifestFields;
    hide RegistryFields;
    hide ZoneFields;
    hide RequestFields;
    hide AuditFields;
    match d
    case TldDoc(x) => TldIsStruct(x); TldKeysDistinct();
    case DomainDoc(x) => DomainIsStruct(x); DomainKeysDistinct();
    case ManifestDoc(x) => ManifestIsStruct(x);
    case RegistryDoc(x) => RegistryIsStruct(x);
    case ZoneDoc(x) => ZoneIsStruct(x);
    case MutationDoc(x) => RequestIsStruct(x);
    case AuditDoc(x) => AuditIsStruct(x); AuditKeysDistinct();
  }

  predicate Bears(keys: seq<string>, mark: string) {
    exists i :: 0 <= i < |keys| && keys[i] == mark
  }

  lemma TldMark(i: nat)
    requires i < |TLD_KEYS| && TLD_KEYS[i] in MARKS
    ensures i == 5
  {
    var mark := TLD_KEYS[i];
    var j :| 0 <= j < |MARKS| && MARKS[j] == mark;
    assert |MARKS[j]| == |mark| && MARKS[j][0] == mark[0] && MARKS[j][1] == mark[1] && MARKS[j][2] == mark[2];
  }

  lemma DomainMark(i: nat)
    requires i < |DOMAIN_KEYS| && DOMAIN_KEYS[i] in MARKS
    ensures i == 2
  {
    var mark := DOMAIN_KEYS[i];
    var j :| 0 <= j < |MARKS| && MARKS[j] == mark;
    assert |MARKS[j]| == |mark| && MARKS[j][0] == mark[0] && MARKS[j][1] == mark[1];
  }

  lemma OtherMark(d: Doc, i: nat)
    requires !d.TldDoc? && !d.DomainDoc? && i < |KeysOf(d)| && KeysOf(d)[i] in MARKS
    ensures MarkOf(d) == Some(i)
  {
    var mark := KeysOf(d)[i];
    var j :| 0 <= j < |MARKS| && MARKS[j] == mark;
    assert |MARKS[j]| == |mark| && MARKS[j][0] == mark[0] && MARKS[j][1] == mark[1];
  }

  /** Each mark is the mark of one kind only. */
  lemma MarksAreOwn(d: Doc, mark: string)
    requires mark in MARKS && Bears(KeysOf(d), mark)
    ensures MarkOf(d).Some? && MarkOf(d).value < |KeysOf(d)| && KeysOf(d)[MarkOf(d).value] == mark
  {
    var i :| 0 <= i < |KeysOf(d)| && KeysOf(d)[i] == mark;
    match d
    case TldDoc(_) => TldMark(i);
    case DomainDoc(_) => DomainMark(i);
    case _ => OtherMark(d, i);
  }

  lemma MarkTellsKind(a: Doc, b: Doc)
    requires MarkOf(a).Some? && MarkOf(b).Some?
    requires MarkOf(a).value < |KeysOf(a)| && MarkOf(b).value < |KeysOf(b)|
    requires KeysOf(a)[MarkOf(a).value] == KeysOf(b)[MarkOf(b).value]
    ensures SameKind(a, b)
  {
    var x, y := KeysOf(a)[MarkOf(a).value], KeysOf(b)[MarkOf(b).value];
    assert |x| == |y| && x[0] == y[0] && x[1] == y[1];
  }

  lemma MarkIsWritten(d: Doc)
    requires MarkOf(d).Some?
    ensures var i := MarkOf(d).value;
            i < |KeysOf(d)| == |FieldsOf(d)| && FieldsOf(d)[i].Some? && KeysOf(d)[i] in MARKS
  {
    var i := MarkOf(d).value;
    var j := match d
      case TldDoc(_) => 0
      case DomainDoc(_) => 1
      case ManifestDoc(_) => 2
      case ZoneDoc(_) => 3
      case MutationDoc(_) => 4
      case _ => 5;
    assert MARKS[j] == KeysOf(d)[i];
  }

  /** Every member of a struct's object is one of its fields. */
  lemma MemberIsKey(keys: seq<string>, fields: Fields, k: string)
    requires |keys| == |fields| && k in Keys(Struct(keys, fields).fields)
    ensures Bears(keys, k)
  {
    PresentKeys(Slots(keys, fields), k);
  }

  /** A mark written in one document is borne by any document with the same JSON. */
  lemma MarkCarries(a: Doc, b: Doc)
    requires Same(DocJson(a), DocJson(b)) && MarkOf(a).Some?
    ensures MarkOf(a).value < |KeysOf(a)| && KeysOf(a)[MarkOf(a).value] in MARKS
    ensures Bears(KeysOf(b), KeysOf(a)[MarkOf(a).value])
  {
    hide KeysOf;
    hide FieldsOf;
    hide DocJson;
    hide MarkOf;
    DocIsStruct(a);
    DocIsStruct(b);
    MarkIsWritten(a);
    var i := MarkOf(a).value;
    SlotFound(Slots(KeysOf(a), FieldsOf(a)), i);
    MemberIsKey(KeysOf(b), FieldsOf(b), KeysOf(a)[i]);
  }

  /** A registry's fields bear no mark, so it is told by its lack of one. */
  lemma KindsAgree(a: Doc, b: Doc)
    requires Same(DocJson(a), DocJson(b)) && Same(DocJson(b), DocJson(a))
    ensures SameKind(a, b)
  {
    hide *;
    if MarkOf(a).Some? {
      MarkCarries(a, b);
      MarksAreOwn(b, KeysOf(a)[MarkOf(a).value]);
      MarkTellsKind(a, b);
    } else {
      if MarkOf(b).Some? {
        MarkCarries(b, a);
        MarksAreOwn(a, KeysOf(b)[MarkOf(b).value]);
      }
      UnmarkedIsRegistry(a);
      UnmarkedIsRegistry(b);
      RegistriesAreOneKind(a, b);
    }
  }

  lemma UnmarkedIsRegistry(d: Doc)
    requires MarkOf(d).None?
    ensures d.RegistryDoc?
  {
  }

  lemma RegistriesAreOneKind(a: Doc, b: Doc)
    requires a.RegistryDoc? && b.RegistryDoc?
    ensures SameKind(a, b)
  {
  }

  /** Documents with the same canonical bytes are of one kind. */
  lemma BytesTellKind(a: Doc, b: Doc)
    requires DocHolds(a) && DocHolds(b)
    requires CanonicalBytes(DocJson(a)) == CanonicalBytes(DocJson(b))
    ensures SameKind(a, b) && Same(DocJson(a), DocJson(b))
  {
    hide *;
    DocIsValue(a);
    DocIsValue(b);
    BytesAreCanonical(DocJson(a), DocJson(b));
    BytesAreCanonical(DocJson(b), DocJson(a));
    KindsAgree(a, b);
  }

  /** Documents with the same canonical bytes are the same document, kind included: nothing
      outside the bytes has to say what kind was signed. */
  lemma BytesDetermine(a: Doc, b: Doc)
    requires DocHolds(a) && DocHolds(b)
    requires CanonicalBytes(DocJson(a)) == CanonicalBytes(DocJson(b))
    ensures SameKind(a, b) && SameDoc(a, b)
  {
    hide IsValue;
    hide Same;
    hide SameZone;
    hide SameRegistry;
    BytesTellKind(a, b);
    match a
    case TldDoc(x) => TldAgrees(x, b.tld);
    case DomainDoc(x) => DomainAgrees(x, b.domain);
    case ManifestDoc(x) => ManifestAgrees(x, b.manifest);
    case RegistryDoc(x) => RegistryAgrees(x, b.registry);
    case ZoneDoc(x) => ZoneAgrees(x, b.zone);
    case MutationDoc(x) => RequestAgrees(x, b.mutation);
    case AuditDoc(x) => AuditAgrees(x, b.event);
  }

  /** What a signature covers: equal signable bytes mean the same kind of document, equal in
      every field but the signature. */
  lemma SignatureCoversEverything(a: Doc, b: Doc)
    requires DocHolds(a) && DocHolds(b)
    requires SignableBytes(a) == SignableBytes(b)
    ensures SameKind(a, b) && SameKind(Unsigned(a), Unsigned(b)) && SameDoc(Unsigned(a), Unsigned(b))
  {
    UnsignedHolds(a);
    UnsignedHolds(b);
    hide *;
    SignableIsCanonical(a);
    SignableIsCanonical(b);
    BytesDetermine(Unsigned(a), Unsigned(b));
    UnsignedKind(a, b);
  }

  lemma UnsignedHolds(d: Doc)
    requires DocHolds(d)
    ensures DocHolds(Unsigned(d))
  {
    hide IsValue;
  }

  lemma UnsignedKind(a: Doc, b: Doc)
    requires SameKind(Unsigned(a), Unsigned(b))
    ensures SameKind(a, b)
  {
  }

  lemma SignableIsCanonical(d: Doc)
    ensures SignableBytes(d) == CanonicalBytes(DocJson(Unsigned(d)))
  {
    hide CanonicalBytes;
    hide DocJson;
  }
}
