/** Site manifests (`federate-manifest`). */
module Manifests {
  import opened Prelude
  import opened Records

  /** `Manifest::verify` */
  function VerifyManifest(w: World, m: Manifest, domain: string, owner: Key): (r: Result<()>)
    ensures r.Ok? <==> ManifestVerifies(w, m, domain, owner)
    ensures r.Err? ==> r.error == VerificationFailed(ManifestLayer)
  {
    if m.domain != domain || m.ownerPublicKey != owner then Err(VerificationFailed(ManifestLayer))
    else if !SignatureOk(w, owner, ManifestDoc(m.(signature := None)), m.signature) then
      Err(VerificationFailed(ManifestLayer))
    else Ok(())
  }

  ghost predicate ManifestVerifies(w: World, m: Manifest, domain: string, owner: Key) {
    && m.domain == domain
    && m.ownerPublicKey == owner
    && SignatureOk(w, owner, ManifestDoc(m.(signature := None)), m.signature)
  }

  /** `Manifest::validate` */
  function ValidateManifest(m: Manifest): Result<()> {
    if m.domain == "" || m.entry == "" then Err(InvalidRoot)
    else if m.entry !in m.files then Err(PathNotFound(m.entry))
    else Ok(())
  }

  function TrimSlashes(path: string): string {
    if path != "" && path[0] == '/' then TrimSlashes(path[1..]) else path
  }

  function Candidates(m: Manifest, path: string): seq<string> {
    var trimmed := TrimSlashes(path);
    if trimmed == "" then [m.entry]
    else if trimmed[|trimmed| - 1] == '/' then [trimmed + "index.html"]
    else [trimmed, trimmed + "/index.html"]
  }

  /** `Manifest::resolve_path`: the first candidate the manifest lists. */
  function ResolvePath(m: Manifest, path: string): (r: Option<(string, Hash)>)
    ensures r.Some? ==> r.value.0 in Candidates(m, path) && r.value.0 in m.files && m.files[r.value.0] == r.value.1
    ensures r.None? ==> forall c <- Candidates(m, path) :: c !in m.files
  {
    var cs := Candidates(m, path);
    if cs[0] in m.files then Some((cs[0], m.files[cs[0]]))
    else if |cs| > 1 && cs[1] in m.files then Some((cs[1], m.files[cs[1]]))
    else None
  }
}
