/** Signed mutation envelopes, site packages and audit records
    (`federate-mutation/src/request.rs`, `audit.rs`). */
module Requests {
  import opened Prelude
  import opened Records
  import opened Text

  const MUTATION_MAX_AGE_SECS := 300
  const CLOCK_SKEW_SECS := 30
  const NONCE_TTL_SECS := 300
  const MAX_PACKAGE_BYTES := 32 * 1024 * 1024
  const MAX_PACKAGE_BLOCKS := 2048

  function Kind(action: MutationAction): ActionKind {
    match action
    case PublishSite(_, _) => PublishKind
    case UpdateDomainManifest(_, _) => UpdateManifestKind
    case SetDomainStatus(_, _) => SetDomainStatusKind
    case IssueDomain(_) => IssueKind
    case DelegateTld(_, _, _, _, _, _, _) => DelegateKind
    case CreateTld(_, _) => CreateKind
    case ReserveTld(_, _) => ReserveKind
    case BlockTld(_, _) => BlockKind
    case UpdateTld(_, _, _, _) => UpdateTldKind
    case SetTldStatus(_, _) => SetTldStatusKind
    case UpdateRegistryPointer(_, _) => UpdatePointerKind
  }

  /** `target`: versions are monotonic per lower-cased name. */
  function Target(action: MutationAction): TargetKey {
    match action
    case PublishSite(domain, _) => TargetKey(DomainTarget, Lower(domain))
    case UpdateDomainManifest(domain, _) => TargetKey(DomainTarget, Lower(domain))
    case SetDomainStatus(domain, _) => TargetKey(DomainTarget, Lower(domain))
    case IssueDomain(record) => TargetKey(DomainTarget, Lower(record.domain))
    case _ => TargetKey(TldTarget, Lower(action.tld))
  }

  /** `compute_id`: the envelope with id and signature blanked. */
  function ComputeId(w: World, req: MutationRequest): Hash {
    w.hash(w.canon(MutationDoc(req.(mutationId := "", signature := None))))
  }

  /** `MutationRequest::verify` */
  function VerifyRequest(w: World, req: MutationRequest): Result<()> {
    if req.signatureAlgorithm != SIGNATURE_ALGORITHM then Err(MutationRejected(UnsupportedAlgorithm))
    else if req.mutationId != ComputeId(w, req) then Err(MutationRejected(IdMismatch))
    else if req.signature.None? then Err(MutationRejected(Unsigned))
    else if !SignatureOk(w, req.actorPublicKey, MutationDoc(req.(signature := None)), req.signature) then
      Err(InvalidSignature)
    else Ok(())
  }

  /** `check_age`: an unparseable timestamp is outside the window. */
  function CheckAge(w: World, req: MutationRequest, now: Instant): Result<()> {
    match w.parseTime(req.issuedAt)
    case None => Err(Replay)
    case Some(issued) =>
      var age := Timestamp(now) - Timestamp(issued);
      if -CLOCK_SKEW_SECS <= age <= MUTATION_MAX_AGE_SECS then Ok(()) else Err(Replay)
  }

  function HexValue(c: char): Option<int> {
    if '0' <= c <= '9' then Some(c as int - '0' as int)
    else if 'a' <= c <= 'f' then Some(c as int - 'a' as int + 10)
    else if 'A' <= c <= 'F' then Some(c as int - 'A' as int + 10)
    else None
  }

  /** `hex::decode`: pairs of digits of either case. */
  function HexDecode(s: string): Option<Bytes> {
    if s == "" then Some([])
    else if |s| == 1 then None
    else
      match (HexValue(s[0]), HexValue(s[1]), HexDecode(s[2..]))
      case (Some(hi), Some(lo), Some(rest)) => Some([(16 * hi + lo) as byte] + rest)
      case _ => None
  }

  /** The id of an audit record, over everything but id and signature. */
  function AuditId(w: World, e: AuditRecord): Hash {
    w.hash(w.canon(AuditDoc(e.(eventId := "", signature := None))))
  }

  /** `AuditRecord::finalize` */
  function FinalizeAudit(w: World, root: Key, e: AuditRecord): AuditRecord {
    var named := e.(eventId := AuditId(w, e));
    named.(signature := SignDoc(w, root, AuditDoc(named.(signature := None))))
  }

  /** `AuditRecord::verify` */
  predicate AuditVerifies(w: World, e: AuditRecord, root: Key) {
    && e.eventId == AuditId(w, e)
    && SignatureOk(w, root, AuditDoc(e.(signature := None)), e.signature)
  }

  /** A finalized record verifies under the key that finalized it. */
  lemma FinalizedAuditVerifies(w: World, root: Key, e: AuditRecord)
    requires Lawful(w)
    ensures AuditVerifies(w, FinalizeAudit(w, root, e), root)
  {
    var f := FinalizeAudit(w, root, e);
    assert f.(eventId := "", signature := None) == e.(eventId := "", signature := None);
  }

  datatype PackageBlock = PackageBlock(hash: Hash, dataHex: string)

  datatype SitePackage = SitePackage(mutation: MutationRequest, manifestHex: string, blocks: seq<PackageBlock>)

  datatype ContentBlock = ContentBlock(hash: Hash, bytes: Bytes)

  datatype SiteContent = SiteContent(manifest: Bytes, blocks: seq<ContentBlock>)

  function TotalSize(blocks: seq<ContentBlock>): nat {
    if blocks == [] then 0 else TotalSize(blocks[..|blocks| - 1]) + |blocks[|blocks| - 1].bytes|
  }

  /** What a decoded package is guaranteed to be. */
  ghost predicate DecodesTo(w: World, pkg: SitePackage, c: SiteContent) {
    && |pkg.blocks| == |c.blocks| <= MAX_PACKAGE_BLOCKS
    && HexDecode(pkg.manifestHex) == Some(c.manifest)
    && (forall i :: 0 <= i < |c.blocks| ==>
          && c.blocks[i].hash == pkg.blocks[i].hash
          && HexDecode(pkg.blocks[i].dataHex) == Some(c.blocks[i].bytes)
          && VerifyBytes(w, c.blocks[i].bytes, c.blocks[i].hash).Ok?)
    && (c.blocks != [] ==> |c.manifest| + TotalSize(c.blocks) <= MAX_PACKAGE_BYTES)
    && pkg.mutation.action.PublishSite?
    && VerifyBytes(w, c.manifest, pkg.mutation.action.manifestHash).Ok?
  }

  lemma TotalSizeGrows(blocks: seq<ContentBlock>, n: nat)
    requires n <= |blocks|
    ensures TotalSize(blocks[..n]) <= TotalSize(blocks)
    decreases |blocks|
  {
    if n < |blocks| {
      var front := blocks[..|blocks| - 1];
      assert front[..n] == blocks[..n];
      TotalSizeGrows(front, n);
    } else {
      assert blocks[..n] == blocks;
    }
  }

  /** A block that is not hex, or not what its hash names, spoils the package. */
  lemma BadBlock(w: World, pkg: SitePackage, i: nat)
    requires i < |pkg.blocks|
    requires var bytes := HexDecode(pkg.blocks[i].dataHex); bytes.None? || VerifyBytes(w, bytes.value, pkg.blocks[i].hash).Err?
    ensures !exists c :: DecodesTo(w, pkg, c)
  {
    hide HexDecode;
    hide VerifyBytes;
  }

  /** What the first blocks of a package decode to. */
  ghost predicate PartDecodes(w: World, pkg: SitePackage, blocks: seq<ContentBlock>) {
    && |blocks| <= |pkg.blocks|
    && forall j :: 0 <= j < |blocks| ==>
         && blocks[j].hash == pkg.blocks[j].hash
         && HexDecode(pkg.blocks[j].dataHex) == Some(blocks[j].bytes)
         && VerifyBytes(w, blocks[j].bytes, blocks[j].hash).Ok?
  }

  /** Every decoding of the package begins with what the first blocks decode to. */
  lemma PartIsPrefix(w: World, pkg: SitePackage, blocks: seq<ContentBlock>, c: SiteContent)
    requires PartDecodes(w, pkg, blocks) && DecodesTo(w, pkg, c)
    ensures c.blocks[..|blocks|] == blocks
  {
    hide HexDecode;
    hide VerifyBytes;
  }

  lemma TotalSizeStep(blocks: seq<ContentBlock>, n: nat)
    requires n < |blocks|
    ensures TotalSize(blocks[..n]) + |blocks[n].bytes| <= TotalSize(blocks)
  {
    assert blocks[..n + 1][..n] == blocks[..n];
    TotalSizeGrows(blocks, n + 1);
  }

  lemma DecodedBlock(w: World, pkg: SitePackage, c: SiteContent, n: nat)
    requires DecodesTo(w, pkg, c) && n < |pkg.blocks|
    ensures |c.blocks| == |pkg.blocks| && HexDecode(pkg.blocks[n].dataHex) == Some(c.blocks[n].bytes)
    ensures HexDecode(pkg.manifestHex) == Some(c.manifest) && |c.manifest| + TotalSize(c.blocks) <= MAX_PACKAGE_BYTES
  {
    hide HexDecode;
    hide VerifyBytes;
    hide TotalSize;
  }

  lemma TooLarge(w: World, pkg: SitePackage, manifest: Bytes, blocks: seq<ContentBlock>, bytes: Bytes)
    requires PartDecodes(w, pkg, blocks) && |blocks| < |pkg.blocks|
    requires HexDecode(pkg.manifestHex) == Some(manifest) && HexDecode(pkg.blocks[|blocks|].dataHex) == Some(bytes)
    requires |manifest| + TotalSize(blocks) + |bytes| > MAX_PACKAGE_BYTES
    ensures forall c :: !DecodesTo(w, pkg, c)
  {
    hide HexDecode;
    hide DecodesTo;
    hide TotalSize;
    forall c
      ensures !DecodesTo(w, pkg, c)
    {
      if DecodesTo(w, pkg, c) {
        PartIsPrefix(w, pkg, blocks, c);
        DecodedBlock(w, pkg, c, |blocks|);
        TotalSizeStep(c.blocks, |blocks|);
      }
    }
  }

  /** `SitePackage::decode` accepts exactly the packages that decode to something,
      and the running size cap is only looked at inside the block loop. */
  method DecodePackage(w: World, pkg: SitePackage) returns (r: Result<SiteContent>)
    ensures r.Ok? ==> DecodesTo(w, pkg, r.value)
    ensures r.Err? ==> !exists c :: DecodesTo(w, pkg, c)
  {
    hide HexDecode;
    hide VerifyBytes;
    if |pkg.blocks| > MAX_PACKAGE_BLOCKS {
      return Err(MutationRejected(TooManyBlocks));
    }
    var manifest := HexDecode(pkg.manifestHex);
    if manifest.None? {
      return Err(MutationRejected(NotHex));
    }
    var blocks :- DecodeBlocks(w, pkg, manifest.value);
    if !pkg.mutation.action.PublishSite? {
      return Err(MutationRejected(NotPublishSite));
    }
    var _ :- VerifyBytes(w, manifest.value, pkg.mutation.action.manifestHash);
    return Ok(SiteContent(manifest.value, blocks));
  }

  /** The block loop: decode, add up, check the cap, verify. */
  method DecodeBlocks(w: World, pkg: SitePackage, manifest: Bytes) returns (r: Result<seq<ContentBlock>>)
    requires HexDecode(pkg.manifestHex) == Some(manifest)
    ensures r.Ok? ==> PartDecodes(w, pkg, r.value) && |r.value| == |pkg.blocks|
    ensures r.Ok? && r.value != [] ==> |manifest| + TotalSize(r.value) <= MAX_PACKAGE_BYTES
    ensures r.Err? ==> !exists c :: DecodesTo(w, pkg, c)
  {
    hide HexDecode;
    hide VerifyBytes;
    hide DecodesTo;
    var total := |manifest|;
    var blocks: seq<ContentBlock> := [];
    for i := 0 to |pkg.blocks|
      invariant |blocks| == i && PartDecodes(w, pkg, blocks)
      invariant total == |manifest| + TotalSize(blocks)
      invariant blocks != [] ==> total <= MAX_PACKAGE_BYTES
    {
      var block := pkg.blocks[i];
      var bytes := HexDecode(block.dataHex);
      if bytes.None? {
        BadBlock(w, pkg, i);
        return Err(MutationRejected(NotHex));
      }
      total := total + |bytes.value|;
      if total > MAX_PACKAGE_BYTES {
        TooLarge(w, pkg, manifest, blocks, bytes.value);
        return Err(MutationRejected(PackageTooLarge));
      }
      var checked := VerifyBytes(w, bytes.value, block.hash);
      if checked.Err? {
        BadBlock(w, pkg, i);
        return Err(checked.error);
      }
      ghost var before := blocks;
      blocks := blocks + [ContentBlock(block.hash, bytes.value)];
      assert blocks[..i] == before;
    }
    return Ok(blocks);
  }
}
