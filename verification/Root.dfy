/** TLD records, the root zone, the blocklists and delegated registries
    (`federate-root`, `federate-registry`). */
module Root {
  import opened Prelude
  import opened Records
  import opened Naming

  /** `TldRecord::verify` */
  predicate TldVerifies(w: World, rec: TldRecord, root: Key) {
    SignatureOk(w, root, TldDoc(rec.(signature := None)), rec.signature)
  }

  function SignTld(w: World, root: Key, rec: TldRecord): TldRecord {
    rec.(signature := SignDoc(w, root, TldDoc(rec.(signature := None))))
  }

  /** `RootZone::verify`: anchor, zone signature, then every TLD record. */
  function VerifyZone(w: World, zone: RootZone, anchor: Key): (r: Result<()>)
    ensures r.Ok? <==> ZoneVerifies(w, zone, anchor)
    ensures r.Err? ==> r.error.VerificationFailed?
  {
    if zone.rootPublicKey != anchor then Err(VerificationFailed(RootLayer))
    else if !SignatureOk(w, anchor, ZoneDoc(zone.(signature := None)), zone.signature) then
      Err(VerificationFailed(RootLayer))
    else if exists t <- zone.tlds :: !TldVerifies(w, zone.tlds[t], anchor) then
      Err(VerificationFailed(TldLayer))
    else Ok(())
  }

  ghost predicate ZoneVerifies(w: World, zone: RootZone, anchor: Key) {
    && zone.rootPublicKey == anchor
    && SignatureOk(w, anchor, ZoneDoc(zone.(signature := None)), zone.signature)
    && forall t <- zone.tlds :: TldVerifies(w, zone.tlds[t], anchor)
  }

  function SignZone(w: World, root: Key, zone: RootZone): RootZone {
    zone.(signature := SignDoc(w, root, ZoneDoc(zone.(signature := None))))
  }

  /** `RootZone::validate` */
  predicate ZoneIsValid(zone: RootZone) {
    && zone.network != ""
    && forall d <- zone.domains :: zone.domains[d].tld in zone.tlds
  }

  function ValidateZone(zone: RootZone): Result<()> {
    if ZoneIsValid(zone) then Ok(()) else Err(InvalidRoot)
  }

  datatype Blocklists = Blocklists(iana: set<string>, reserved: set<string>, policy: set<string>, brandSafety: set<string>) {
    /** `validate_new_tld`: the naming rules, then every list in order. */
    function ValidateNewTld(input: string, allowReserved: bool): Result<string> {
      var tld :- ValidateTldName(input);
      if tld in iana then Err(BlockedTld(tld))
      else if tld in reserved then if allowReserved then Ok(tld) else Err(ReservedTld(tld))
      else if tld in policy || tld in brandSafety then Err(BlockedTld(tld))
      else Ok(tld)
    }
  }

  /** `TldRegistry::verify` */
  function VerifyRegistry(w: World, registry: TldRegistry, tld: string, operator: Key): (r: Result<()>)
    ensures r.Ok? <==> RegistryVerifies(w, registry, tld, operator)
    ensures r.Err? ==> r.error == VerificationFailed(RegistryLayer)
  {
    if registry.tld != tld || registry.operatorPublicKey != operator then Err(VerificationFailed(RegistryLayer))
    else if !SignatureOk(w, operator, RegistryDoc(registry.(signature := None)), registry.signature) then
      Err(VerificationFailed(RegistryLayer))
    else if exists d <- registry.domains :: registry.domains[d].tld != registry.tld || registry.domains[d].domain != d then
      Err(VerificationFailed(RegistryLayer))
    else Ok(())
  }

  ghost predicate RegistryVerifies(w: World, registry: TldRegistry, tld: string, operator: Key) {
    && registry.tld == tld
    && registry.operatorPublicKey == operator
    && SignatureOk(w, operator, RegistryDoc(registry.(signature := None)), registry.signature)
    && forall d <- registry.domains :: registry.domains[d].tld == tld && registry.domains[d].domain == d
  }
}
