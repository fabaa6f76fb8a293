/** Who can change what, over whole runs of the registry. */
module AuthorityProofs {
  import opened Prelude
  import opened Records
  import opened Requests
  import opened Actions
  import opened Changes
  import opened ChangeProofs
  import opened RegistrySpec
  import opened Invariant
  import opened RestartProofs
  import opened HistoryProofs

  ghost predicate SignedBy(w: World, step: Step, actor: Key) {
    IsMutation(step) && VerifyRequest(w, step.req).Ok? && step.req.actorPublicKey == actor
  }

  /** The step carries a valid signature of the record's owner, its TLD's operator or root. */
  ghost predicate ByOwnerOrAbove(w: World, zone: RootZone, step: Step, rec: DomainRecord) {
    SignedBy(w, step, rec.ownerPublicKey) || ByOperatorOrRoot(w, zone, step, rec)
  }

  ghost predicate ByOperatorOrRoot(w: World, zone: RootZone, step: Step, rec: DomainRecord) {
    || ByRoot(w, zone, step)
    || (rec.tld in zone.tlds && SignedBy(w, step, zone.tlds[rec.tld].operatorPublicKey))
  }

  ghost predicate ByRoot(w: World, zone: RootZone, step: Step) {
    SignedBy(w, step, zone.rootPublicKey)
  }

  lemma AcceptedDomainChange(w: World, s: RegistryState, root: Key, req: MutationRequest, ctx: Context, a: Accepted, fqdn: string)
    requires Lawful(w) && Trusted(w, s, root)
    requires Decide(w, s, req, ctx) == Ok(a)
    requires fqdn in s.zone.domains && fqdn in a.zone.domains && a.zone.domains[fqdn] != s.zone.domains[fqdn]
    ensures VerifyRequest(w, req).Ok?
    ensures MayReplace(s, req.actorPublicKey, s.zone.domains[fqdn], a.zone.domains[fqdn])
  {
    var e := AcceptedFields(w, s, req, ctx, a);
    var c := ActionIsOneChange(w, s, root, req, ctx, e);
  }

  /** One step: a domain record that changes was changed by a signature with authority
      over the record as it stood before the step. */
  lemma StepAuthority(w: World, sys: System, root: Key, step: Step, fqdn: string)
    requires Lawful(w) && SystemInv(w, sys, root)
    requires fqdn in sys.mem.zone.domains && fqdn in Next(w, sys, step).mem.zone.domains
    requires Next(w, sys, step).mem.zone.domains[fqdn] != sys.mem.zone.domains[fqdn]
    ensures IsMutation(step) && VerifyRequest(w, step.req).Ok?
    ensures MayReplace(sys.mem, step.req.actorPublicKey, sys.mem.zone.domains[fqdn], Next(w, sys, step).mem.zone.domains[fqdn])
  {
    var pre, a := StepUnfolds(w, sys, root, step);
    AcceptedDomainChange(w, pre.mem, root, step.req, step.ctx, a.value, fqdn);
    assert Next(w, sys, step).mem.zone == a.value.zone;
  }

  /** Two zones agree on every record but possibly the one named. */
  ghost predicate AgreeExcept(a: RootZone, b: RootZone, key: TargetKey) {
    && (forall d :: (key.kind.DomainTarget? && d == key.id) || ((d in a.domains <==> d in b.domains) && (d in a.domains ==> a.domains[d] == b.domains[d])))
    && (forall t :: (key.kind.TldTarget? && t == key.id) || ((t in a.tlds <==> t in b.tlds) && (t in a.tlds ==> a.tlds[t] == b.tlds[t])))
  }

  lemma ChangeTouchesOne(w: World, s: RegistryState, actor: Key, ctx: Context, e: ActionEffect, c: Change)
    returns (key: TargetKey)
    requires ChangeOk(w, s, actor, ctx, e, c)
    ensures AgreeExcept(s.zone, e.zone, key)
  {
    match c
    case DomainPut(fqdn, _) => key := TargetKey(DomainTarget, fqdn);
    case TldAdded(name, _) => key := TargetKey(TldTarget, name);
    case TldReplaced(name, _) => key := TargetKey(TldTarget, name);
  }

  /** Every step changes at most one record of the zone. */
  lemma StepTouchesOneRecord(w: World, sys: System, root: Key, step: Step) returns (key: TargetKey)
    requires Lawful(w) && SystemInv(w, sys, root)
    ensures AgreeExcept(sys.mem.zone, Next(w, sys, step).mem.zone, key)
  {
    var pre, a := StepUnfolds(w, sys, root, step);
    if a.Some? {
      var e := AcceptedFields(w, pre.mem, step.req, step.ctx, a.value);
      var c := ActionIsOneChange(w, pre.mem, root, step.req, step.ctx, e);
      key := ChangeTouchesOne(w, pre.mem, step.req.actorPublicKey, step.ctx, e, c);
    } else {
      key := TargetKey(DomainTarget, "");
    }
  }

  // ------------------------------------------------------------------
  // whole runs
  // ------------------------------------------------------------------

  ghost function ZoneAfter(w: World, root: Key, now: Instant, steps: seq<Step>): RootZone {
    Run(w, InitialSystem(w, root, now), steps).mem.zone
  }

  lemma DomainsStay(w: World, root: Key, now: Instant, steps: seq<Step>, more: seq<Step>, fqdn: string)
    requires Lawful(w)
    requires fqdn in ZoneAfter(w, root, now, steps).domains
    ensures fqdn in ZoneAfter(w, root, now, steps + more).domains
  {
    RunGrows(w, root, now, steps, more);
  }

  /** Whatever property the zone loses over a run, it loses at one step. */
  lemma {:induction false} FindLoss(w: World, root: Key, now: Instant, steps: seq<Step>, more: seq<Step>, q: RootZone -> bool)
    returns (before: seq<Step>, step: Step, after: seq<Step>)
    requires q(ZoneAfter(w, root, now, steps)) && !q(ZoneAfter(w, root, now, steps + more))
    ensures more == before + [step] + after
    ensures q(ZoneAfter(w, root, now, steps + before)) && !q(ZoneAfter(w, root, now, steps + before + [step]))
    decreases |more|
  {
    hide *;
    assert more == [] ==> steps + more == steps;
    var front, last := more[..|more| - 1], more[|more| - 1];
    assert more == front + [last];
    assert steps + more == (steps + front) + [last];
    if q(ZoneAfter(w, root, now, steps + front)) {
      before, step, after := front, last, [];
    } else {
      before, step, after := FindLoss(w, root, now, steps, front, q);
      after := after + [last];
    }
  }

  /** At this step the record stops having the property. */
  ghost predicate LeavesAt(w: World, root: Key, now: Instant, steps: seq<Step>, step: Step, fqdn: string, p: DomainRecord -> bool) {
    && fqdn in ZoneAfter(w, root, now, steps).domains
    && fqdn in ZoneAfter(w, root, now, steps + [step]).domains
    && p(ZoneAfter(w, root, now, steps).domains[fqdn])
    && !p(ZoneAfter(w, root, now, steps + [step]).domains[fqdn])
  }

  ghost predicate HoldsAfter(w: World, root: Key, now: Instant, steps: seq<Step>, fqdn: string, p: DomainRecord -> bool) {
    fqdn in ZoneAfter(w, root, now, steps).domains && p(ZoneAfter(w, root, now, steps).domains[fqdn])
  }

  /** Whatever property a record loses over a run, it loses at one step; records never vanish. */
  lemma FindDeparture(w: World, root: Key, now: Instant, steps: seq<Step>, more: seq<Step>, fqdn: string, p: DomainRecord -> bool)
    returns (before: seq<Step>, step: Step, after: seq<Step>)
    requires Lawful(w)
    requires HoldsAfter(w, root, now, steps, fqdn, p) && !HoldsAfter(w, root, now, steps + more, fqdn, p)
    ensures more == before + [step] + after
    ensures LeavesAt(w, root, now, steps + before, step, fqdn, p)
  {
    hide ZoneAfter;
    hide Lawful;
    var q := (z: RootZone) => fqdn in z.domains && p(z.domains[fqdn]);
    before, step, after := FindLoss(w, root, now, steps, more, q);
    DomainsStay(w, root, now, steps + before, [step], fqdn);
  }

  /** The authority behind one departure. */
  lemma DepartureAuthority(w: World, root: Key, now: Instant, steps: seq<Step>, step: Step, fqdn: string, p: DomainRecord -> bool)
    requires Lawful(w)
    requires LeavesAt(w, root, now, steps, step, fqdn, p)
    ensures IsMutation(step) && VerifyRequest(w, step.req).Ok?
    ensures MayReplace(Run(w, InitialSystem(w, root, now), steps).mem, step.req.actorPublicKey,
                       ZoneAfter(w, root, now, steps).domains[fqdn], ZoneAfter(w, root, now, steps + [step]).domains[fqdn])
  {
    RunKeepsInv(w, root, now, steps);
    assert (steps + [step])[..|steps|] == steps;
    StepAuthority(w, Run(w, InitialSystem(w, root, now), steps), root, step, fqdn);
  }

  /** If a domain record differs after more steps, one of them was signed by the record's
      then owner, by its TLD's operator, or by root. */
  lemma ChangeNeedsAuthority(w: World, root: Key, now: Instant, steps: seq<Step>, more: seq<Step>, fqdn: string)
    returns (before: seq<Step>, step: Step, after: seq<Step>)
    requires Lawful(w)
    requires fqdn in ZoneAfter(w, root, now, steps).domains
    requires fqdn in ZoneAfter(w, root, now, steps + more).domains ==>
               ZoneAfter(w, root, now, steps + more).domains[fqdn] != ZoneAfter(w, root, now, steps).domains[fqdn]
    ensures more == before + [step] + after
    ensures var zone := ZoneAfter(w, root, now, steps + before);
            && fqdn in zone.domains
            && ByOwnerOrAbove(w, zone, step, zone.domains[fqdn])
  {
    DomainsStay(w, root, now, steps, more, fqdn);
    var rec := ZoneAfter(w, root, now, steps).domains[fqdn];
    var p := (r: DomainRecord) => r == rec;
    before, step, after := FindDeparture(w, root, now, steps, more, fqdn, p);
    DepartureAuthority(w, root, now, steps + before, step, fqdn, p);
  }

  /** A suspended record leaves that status only through a step signed by operator or root. */
  lemma SuspensionHolds(w: World, root: Key, now: Instant, steps: seq<Step>, more: seq<Step>, fqdn: string)
    returns (before: seq<Step>, step: Step, after: seq<Step>)
    requires Lawful(w)
    requires fqdn in ZoneAfter(w, root, now, steps).domains && ZoneAfter(w, root, now, steps).domains[fqdn].status.Suspended?
    requires fqdn in ZoneAfter(w, root, now, steps + more).domains ==>
               !ZoneAfter(w, root, now, steps + more).domains[fqdn].status.Suspended?
    ensures more == before + [step] + after
    ensures var zone := ZoneAfter(w, root, now, steps + before);
            && fqdn in zone.domains && zone.domains[fqdn].status.Suspended?
            && ByOperatorOrRoot(w, zone, step, zone.domains[fqdn])
  {
    DomainsStay(w, root, now, steps, more, fqdn);
    var p := (r: DomainRecord) => r.status.Suspended?;
    before, step, after := FindDeparture(w, root, now, steps, more, fqdn, p);
    DepartureAuthority(w, root, now, steps + before, step, fqdn, p);
  }

  /** A revoked record leaves that status only through a step signed by root. */
  lemma RevocationHolds(w: World, root: Key, now: Instant, steps: seq<Step>, more: seq<Step>, fqdn: string)
    returns (before: seq<Step>, step: Step, after: seq<Step>)
    requires Lawful(w)
    requires fqdn in ZoneAfter(w, root, now, steps).domains && ZoneAfter(w, root, now, steps).domains[fqdn].status.Revoked?
    requires fqdn in ZoneAfter(w, root, now, steps + more).domains ==>
               !ZoneAfter(w, root, now, steps + more).domains[fqdn].status.Revoked?
    ensures more == before + [step] + after
    ensures var zone := ZoneAfter(w, root, now, steps + before);
            && fqdn in zone.domains && zone.domains[fqdn].status.Revoked?
            && ByRoot(w, zone, step)
  {
    DomainsStay(w, root, now, steps, more, fqdn);
    var p := (r: DomainRecord) => r.status.Revoked?;
    before, step, after := FindDeparture(w, root, now, steps, more, fqdn, p);
    DepartureAuthority(w, root, now, steps + before, step, fqdn, p);
  }

  /** The owner and the lease of a record change only by a step signed by its TLD's operator:
      an owner can publish for ever, but never extend or hand over the name. */
  lemma LeaseHolds(w: World, root: Key, now: Instant, steps: seq<Step>, more: seq<Step>, fqdn: string)
    returns (before: seq<Step>, step: Step, after: seq<Step>)
    requires Lawful(w)
    requires fqdn in ZoneAfter(w, root, now, steps).domains
    requires fqdn in ZoneAfter(w, root, now, steps + more).domains ==>
               !SameLease(ZoneAfter(w, root, now, steps).domains[fqdn], ZoneAfter(w, root, now, steps + more).domains[fqdn])
    ensures more == before + [step] + after
    ensures var zone := ZoneAfter(w, root, now, steps + before);
            && fqdn in zone.domains && zone.domains[fqdn].tld in zone.tlds
            && SignedBy(w, step, zone.tlds[zone.domains[fqdn].tld].operatorPublicKey)
  {
    DomainsStay(w, root, now, steps, more, fqdn);
    var rec := ZoneAfter(w, root, now, steps).domains[fqdn];
    var p := (r: DomainRecord) => SameLease(rec, r);
    before, step, after := FindDeparture(w, root, now, steps, more, fqdn, p);
    DepartureAuthority(w, root, now, steps + before, step, fqdn, p);
  }

  /** The content a name points at changes only by a step signed by its owner or its operator;
      root can take a site down, never replace it. */
  lemma ContentHolds(w: World, root: Key, now: Instant, steps: seq<Step>, more: seq<Step>, fqdn: string)
    returns (before: seq<Step>, step: Step, after: seq<Step>)
    requires Lawful(w)
    requires fqdn in ZoneAfter(w, root, now, steps).domains
    requires fqdn in ZoneAfter(w, root, now, steps + more).domains ==>
               ZoneAfter(w, root, now, steps + more).domains[fqdn].manifestHash != ZoneAfter(w, root, now, steps).domains[fqdn].manifestHash
    ensures more == before + [step] + after
    ensures var zone := ZoneAfter(w, root, now, steps + before);
            && fqdn in zone.domains && zone.domains[fqdn].tld in zone.tlds
            && (|| SignedBy(w, step, zone.domains[fqdn].ownerPublicKey)
                || SignedBy(w, step, zone.tlds[zone.domains[fqdn].tld].operatorPublicKey))
  {
    DomainsStay(w, root, now, steps, more, fqdn);
    var h := ZoneAfter(w, root, now, steps).domains[fqdn].manifestHash;
    var p := (r: DomainRecord) => r.manifestHash == h;
    before, step, after := FindDeparture(w, root, now, steps, more, fqdn, p);
    DepartureAuthority(w, root, now, steps + before, step, fqdn, p);
  }

  // ------------------------------------------------------------------
  // TLD records
  // ------------------------------------------------------------------

  lemma AcceptedTldChange(w: World, s: RegistryState, root: Key, req: MutationRequest, ctx: Context, a: Accepted, tld: string)
    requires Lawful(w) && Trusted(w, s, root)
    requires Decide(w, s, req, ctx) == Ok(a)
    requires tld in s.zone.tlds && tld in a.zone.tlds && !SameTerms(s.zone.tlds[tld], a.zone.tlds[tld])
    ensures VerifyRequest(w, req).Ok? && req.actorPublicKey == root
  {
    var e := AcceptedFields(w, s, req, ctx, a);
    var c := ActionIsOneChange(w, s, root, req, ctx, e);
    hide Decide;
    hide ApplyAction;
    hide SameTerms;
  }

  lemma StepTldAuthority(w: World, sys: System, root: Key, step: Step, tld: string)
    requires Lawful(w) && SystemInv(w, sys, root)
    requires tld in sys.mem.zone.tlds && tld in Next(w, sys, step).mem.zone.tlds
    requires !SameTerms(sys.mem.zone.tlds[tld], Next(w, sys, step).mem.zone.tlds[tld])
    ensures SignedBy(w, step, root)
  {
    var pre, a := StepUnfolds(w, sys, root, step);
    hide SameTerms;
    AcceptedTldChange(w, pre.mem, root, step.req, step.ctx, a.value, tld);
  }

  lemma TldStepNeedsRoot(w: World, root: Key, now: Instant, steps: seq<Step>, step: Step, tld: string)
    requires Lawful(w)
    requires tld in ZoneAfter(w, root, now, steps).tlds && tld in ZoneAfter(w, root, now, steps + [step]).tlds
    requires !SameTerms(ZoneAfter(w, root, now, steps).tlds[tld], ZoneAfter(w, root, now, steps + [step]).tlds[tld])
    ensures SignedBy(w, step, root)
  {
    hide SameTerms;
    RunKeepsInv(w, root, now, steps);
    assert (steps + [step])[..|steps|] == steps;
    StepTldAuthority(w, Run(w, InitialSystem(w, root, now), steps), root, step, tld);
  }

  lemma TldsStay(w: World, root: Key, now: Instant, steps: seq<Step>, more: seq<Step>, tld: string)
    requires Lawful(w)
    requires tld in ZoneAfter(w, root, now, steps).tlds
    ensures tld in ZoneAfter(w, root, now, steps + more).tlds
  {
    RunGrows(w, root, now, steps, more);
  }

  /** A TLD's status, lease, endpoint and every other term but its pinned registry change only
      by a step signed by root. */
  lemma TldTermsHold(w: World, root: Key, now: Instant, steps: seq<Step>, more: seq<Step>, tld: string)
    returns (before: seq<Step>, step: Step, after: seq<Step>)
    requires Lawful(w)
    requires tld in ZoneAfter(w, root, now, steps).tlds
    requires tld in ZoneAfter(w, root, now, steps + more).tlds ==>
               !SameTerms(ZoneAfter(w, root, now, steps).tlds[tld], ZoneAfter(w, root, now, steps + more).tlds[tld])
    ensures more == before + [step] + after
    ensures SignedBy(w, step, root)
  {
    TldsStay(w, root, now, steps, more, tld);
    hide ZoneAfter;
    hide Lawful;
    var rec := ZoneAfter(w, root, now, steps).tlds[tld];
    var q := (z: RootZone) => tld in z.tlds && SameTerms(rec, z.tlds[tld]);
    before, step, after := FindLoss(w, root, now, steps, more, q);
    TldsStay(w, root, now, steps + before, [step], tld);
    TldStepNeedsRoot(w, root, now, steps + before, step, tld);
  }
}
