/** The signed documents of the registry and the abstract primitives they rest on. */
module Records {
  import opened Prelude
  import Json

  type Key = string
  type Signature = string
  type Hash = string

  const SIGNATURE_ALGORITHM: string := "ed25519"

  /** A point in time in nanoseconds since the Unix epoch, wide enough for `chrono`. */
  type Instant = t: int | -0x8000_0000_0000_0000 * 1_000_000_000 <= t < 0x8000_0000_0000_0000 * 1_000_000_000
    witness 0

  /** Whole seconds, rounded towards the past as `DateTime::timestamp` does. */
  function Timestamp(t: Instant): int {
    t as int / 1_000_000_000
  }

  datatype TldMode = OfficialMode | DelegatedMode | ReservedMode | BlockedMode

  datatype RegistryType = RootManaged | DelegatedManifest | DelegatedNative | DelegatedHttp | OfflineManual

  datatype TargetType = ManifestTarget | ServiceTarget | NodeTarget | RedirectTarget | PlaceholderTarget

  datatype TldRecord = TldRecord(
    tld: string,
    status: TldStatus,
    mode: TldMode,
    ownerPublicKey: Key,
    operatorPublicKey: Key,
    operatorName: string,
    registryType: RegistryType,
    registryEndpoint: Option<string>,
    registryManifestHash: Option<Hash>,
    registryProviders: seq<string>,
    policyHash: Option<Hash>,
    pricing: Option<Json.Value>,
    createdAt: string,
    updatedAt: string,
    expiresAt: Option<string>,
    notes: Option<string>,
    signatureAlgorithm: string,
    signature: Option<Signature>)

  datatype DomainRecord = DomainRecord(
    domain: string,
    tld: string,
    hostLabel: string,
    ownerPublicKey: Key,
    targetType: TargetType,
    manifestHash: Hash,
    serviceId: Option<string>,
    nodeId: Option<string>,
    status: DomainStatus,
    createdAt: string,
    updatedAt: string,
    expiresAt: Option<string>,
    renewal: Option<Json.Value>,
    pricing: Option<Json.Value>,
    signatureAlgorithm: string,
    signature: Option<Signature>)

  datatype Manifest = Manifest(
    domain: string,
    version: u64,
    entry: string,
    files: map<string, Hash>,
    ownerPublicKey: Key,
    createdAt: string,
    signatureAlgorithm: string,
    signature: Option<Signature>)

  datatype TldRegistry = TldRegistry(
    tld: string,
    version: u64,
    generatedAt: string,
    operatorPublicKey: Key,
    domains: map<string, DomainRecord>,
    signatureAlgorithm: string,
    signature: Option<Signature>)

  datatype ActorRole = RootRole | TldOperatorRole | DomainOwnerRole

  /** Governance trail entry embedded in the zone. */
  datatype AuditEvent = AuditEvent(
    at: string,
    actor: ActorRole,
    action: ActionKind,
    subject: string,
    detail: Option<Hash>)

  datatype RootZone = RootZone(
    network: string,
    rootVersion: u64,
    generatedAt: string,
    rootPublicKey: Key,
    tlds: map<string, TldRecord>,
    domains: map<string, DomainRecord>,
    audit: seq<AuditEvent>,
    signatureAlgorithm: string,
    signature: Option<Signature>)

  datatype MutationAction =
    | PublishSite(domain: string, manifestHash: Hash)
    | UpdateDomainManifest(domain: string, manifestHash: Hash)
    | SetDomainStatus(domain: string, status: DomainStatus)
    | IssueDomain(record: DomainRecord)
    | DelegateTld(tld: string, ownerPublicKey: Key, operatorPublicKey: Key, operatorName: string,
                  registryType: RegistryType, registryEndpoint: Option<string>, expiresAt: Option<string>)
    | UpdateTld(tld: string, registryEndpoint: Option<string>, expiresAt: Option<string>, notes: Option<string>)
    | CreateTld(tld: string, purpose: string)
    | ReserveTld(tld: string, why: string)
    | BlockTld(tld: string, why: string)
    | SetTldStatus(tld: string, tldStatus: TldStatus)
    | UpdateRegistryPointer(tld: string, registryHex: string)

  /** The stable action names audit events record. */
  datatype ActionKind =
    | PublishKind | UpdateManifestKind | SetDomainStatusKind | IssueKind | DelegateKind | UpdateTldKind
    | CreateKind | ReserveKind | BlockKind | SetTldStatusKind | UpdatePointerKind | RootInitKind

  datatype MutationRequest = MutationRequest(
    mutationId: Hash,
    nonce: string,
    issuedAt: string,
    actorPublicKey: Key,
    targetVersion: u64,
    action: MutationAction,
    signatureAlgorithm: string,
    signature: Option<Signature>)

  datatype TargetKind = TldTarget | DomainTarget

  /** `"kind:id"`; the kinds have no colon, so the pair says the same. */
  datatype TargetKey = TargetKey(kind: TargetKind, id: string)

  datatype AuditRecord = AuditRecord(
    eventId: Hash,
    mutationId: Hash,
    actorPublicKey: Key,
    actorRole: ActorRole,
    action: ActionKind,
    target: TargetKey,
    previousStateHash: Hash,
    newStateHash: Hash,
    timestamp: string,
    signatureAlgorithm: string,
    signature: Option<Signature>)

  datatype AppliedMutation = AppliedMutation(
    mutation: MutationRequest,
    auditEventId: Hash,
    appliedAt: string,
    rootVersion: u64)

  /** Everything that is ever turned into canonical bytes. */
  datatype Doc =
    | TldDoc(tld: TldRecord)
    | DomainDoc(domain: DomainRecord)
    | ManifestDoc(manifest: Manifest)
    | RegistryDoc(registry: TldRegistry)
    | ZoneDoc(zone: RootZone)
    | MutationDoc(mutation: MutationRequest)
    | AuditDoc(event: AuditRecord)

  /** The foreign primitives: Ed25519, BLAKE3, canonical JSON, JSON parsing and RFC 3339.
      `isHash` is the format of a content address; it stays abstract because no fixed
      number of digits can name all contents without a collision. */
  datatype World = World(
    sign: (Key, Bytes) -> Signature,
    verify: (Key, Bytes, Signature) -> bool,
    hash: Bytes -> Hash,
    isHash: Hash -> bool,
    canon: Doc -> Bytes,
    parseManifest: Bytes -> Option<Manifest>,
    parseRegistry: Bytes -> Option<TldRegistry>,
    rfc3339: Instant -> string,
    parseTime: string -> Option<Instant>)

  /** What is assumed of the primitives: a key's own signature verifies, hashing
      never collides, and a computed hash is a well-formed content address. */
  ghost predicate Lawful(w: World) {
    && (forall k, m :: w.verify(k, m, w.sign(k, m)))
    && (forall a, b :: w.hash(a) == w.hash(b) ==> a == b)
    && (forall b :: w.isHash(w.hash(b)))
  }

  function AsText(b: Bytes): (s: string)
    ensures |s| == |b|
    ensures forall i :: 0 <= i < |b| ==> s[i] as int == b[i] as int
  {
    seq(|b|, i requires 0 <= i < |b| => (b[i] as int) as char)
  }

  /** The assumptions can be met together: no theorem below holds for want of a world. */
  lemma LawfulWorldExists() returns (w: World)
    ensures Lawful(w)
    ensures exists k, j, m :: !w.verify(k, m, w.sign(j, m))
  {
    w := World((k, _) => k, (k, _, s) => s == k, AsText, _ => true, _ => [], _ => None, _ => None, _ => "", _ => None);
    forall a, b | w.hash(a) == w.hash(b)
      ensures a == b
    {
      assert |a| == |AsText(a)| == |AsText(b)| == |b|;
      forall i | 0 <= i < |a|
        ensures a[i] == b[i]
      {
        assert AsText(a)[i] == AsText(b)[i];
      }
    }
    assert !w.verify("a", [], w.sign("b", []));
  }

  function SignDoc(w: World, key: Key, doc: Doc): Option<Signature> {
    Some(w.sign(key, w.canon(doc)))
  }

  predicate SignatureOk(w: World, key: Key, doc: Doc, signature: Option<Signature>) {
    signature.Some? && w.verify(key, w.canon(doc), signature.value)
  }

  /** Content check of `federate_storage::verify`. */
  function VerifyBytes(w: World, bytes: Bytes, expected: Hash): (r: Result<()>)
    ensures r.Ok? <==> w.isHash(expected) && w.hash(bytes) == expected
  {
    if !w.isHash(expected) || w.hash(bytes) != expected then Err(HashMismatch(expected)) else Ok(())
  }

  /** An address names one content: the bytes it was computed from pass the check, and
      nothing else does, whoever supplies it. */
  lemma AddressNamesContent(w: World, original: Bytes, supplied: Bytes)
    requires Lawful(w)
    ensures VerifyBytes(w, supplied, w.hash(original)).Ok? <==> supplied == original
  {
  }

  /** Two supplies that pass under one address are the same bytes. */
  lemma VerifiedBytesAgree(w: World, a: Bytes, b: Bytes, address: Hash)
    requires Lawful(w)
    requires VerifyBytes(w, a, address).Ok? && VerifyBytes(w, b, address).Ok?
    ensures a == b
  {
  }
}
