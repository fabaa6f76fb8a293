/** Seed files (`seed.rs`): filling an empty registry through the normal audited path. */
module Seed {
  import opened Prelude
  import opened Records
  import opened Naming
  import opened Root
  import opened Requests
  import opened Actions
  import opened ChangeProofs
  import opened RegistrySpec
  import opened Invariant
  import opened RestartProofs
  import opened HistoryProofs
  import opened Store

  datatype SeedTld = SeedTld(name: string, mode: string, purpose: Option<string>, why: Option<string>)

  datatype SeedOutcome = SeedOutcome(created: seq<string>, skipped: seq<string>)

  const NOTHING_DONE := SeedOutcome([], [])

  /** `MutationRequest::signed` */
  function SignedRequest(w: World, key: Key, nonce: string, issuedAt: string, version: u64, action: MutationAction): MutationRequest {
    var blank := MutationRequest("", nonce, issuedAt, key, version, action, SIGNATURE_ALGORITHM, None);
    var named := blank.(mutationId := ComputeId(w, blank));
    named.(signature := SignDoc(w, key, MutationDoc(named)))
  }

  /** An envelope built in one step is one that `verify` accepts. */
  lemma SignedRequestVerifies(w: World, key: Key, nonce: string, issuedAt: string, version: u64, action: MutationAction)
    requires Lawful(w)
    ensures VerifyRequest(w, SignedRequest(w, key, nonce, issuedAt, version, action)).Ok?
  {
    var req := SignedRequest(w, key, nonce, issuedAt, version, action);
    var blank := MutationRequest("", nonce, issuedAt, key, version, action, SIGNATURE_ALGORITHM, None);
    assert req.(mutationId := "", signature := None) == blank.(mutationId := "", signature := None);
    assert req.(signature := None) == blank.(mutationId := req.mutationId);
  }

  function OrText(a: Option<string>, b: Option<string>, fallback: string): string {
    if a.Some? then a.value else if b.Some? then b.value else fallback
  }

  function SeedAction(entry: SeedTld, name: string): Result<MutationAction> {
    if entry.mode == "official" then Ok(CreateTld(name, OrText(entry.purpose, None, "official Federate TLD")))
    else if entry.mode == "reserved" then Ok(ReserveTld(name, OrText(entry.why, entry.purpose, "reserved by seed file")))
    else if entry.mode == "blocked" then Ok(BlockTld(name, OrText(entry.why, entry.purpose, "blocked by seed file")))
    else Err(MutationRejected(UnknownSeedMode))
  }

  /** One past the target's version, with the wrap-around of a u64. */
  function SeedVersion(s: RegistryState, action: MutationAction): u64 {
    (CurrentVersion(s, Target(action)) + 1) % (MAX_U64 + 1)
  }

  function SeedRequest(w: World, s: RegistryState, name: string, action: MutationAction, ctx: Context): MutationRequest {
    SignedRequest(w, ctx.root, "seed:" + name, w.rfc3339(ctx.now), SeedVersion(s, action), action)
  }

  /** The entries from the `i`th on. */
  ghost function SeedFrom(w: World, sys: System, entries: seq<SeedTld>, i: nat, ctx: Context, done: SeedOutcome): (System, Result<SeedOutcome>)
    requires i <= |entries|
    decreases |entries| - i
  {
    if i == |entries| then (sys, Ok(done))
    else
      match ValidateTldName(entries[i].name)
      case Err(e) => (sys, Err(e))
      case Ok(name) =>
        if name in sys.mem.zone.tlds then
          SeedFrom(w, sys, entries, i + 1, ctx, done.(skipped := done.skipped + [name]))
        else
          match SeedAction(entries[i], name)
          case Err(e) => (sys, Err(e))
          case Ok(action) =>
            var req := SeedRequest(w, sys.mem, name, action, ctx);
            match Decide(w, sys.mem, req, ctx)
            case Err(e) => (sys, Err(e))
            case Ok(_) =>
              SeedFrom(w, ApplySystem(w, sys, req, ctx), entries, i + 1, ctx, done.(created := done.created + [name]))
  }

  /** `apply_seed` */
  ghost function SeedSystem(w: World, sys: System, entries: seq<SeedTld>, ctx: Context, force: bool): (System, Result<SeedOutcome>) {
    if sys.mem.zone.tlds != map[] && !force then (sys, Err(MutationRejected(AlreadySeeded)))
    else SeedFrom(w, sys, entries, 0, ctx, NOTHING_DONE)
  }

  method ApplySeed(store: RegistryStore, entries: seq<SeedTld>, ctx: Context, force: bool) returns (r: Result<SeedOutcome>)
    modifies store, store.backend, store.content
    ensures (store.Now(), r) == SeedSystem(store.w, old(store.Now()), entries, ctx, force)
  {
    if store.zone.tlds != map[] && !force {
      return Err(MutationRejected(AlreadySeeded));
    }
    hide Decide;
    hide ApplySystem;
    hide SeedRequest;
    hide ValidateTldName;
    var outcome := NOTHING_DONE;
    for i := 0 to |entries|
      invariant SeedFrom(store.w, store.Now(), entries, i, ctx, outcome) == SeedFrom(store.w, old(store.Now()), entries, 0, ctx, NOTHING_DONE)
    {
      var name :- ValidateTldName(entries[i].name);
      if name in store.zone.tlds {
        outcome := outcome.(skipped := outcome.skipped + [name]);
        continue;
      }
      var action :- SeedAction(entries[i], name);
      var state := RegistryState(store.zone, store.registries, store.manifests, store.targetVersions, store.applied, store.audit);
      var req := SeedRequest(store.w, state, name, action, ctx);
      var _ :- store.Apply(req, ctx);
      outcome := outcome.(created := outcome.created + [name]);
    }
    return Ok(outcome);
  }

  // ------------------------------------------------------------------
  // seeding only adds
  // ------------------------------------------------------------------

  /** One new TLD, and nothing else. */
  ghost predicate AddsTld(a: RootZone, b: RootZone, name: string) {
    && name !in a.tlds && name in b.tlds
    && b.tlds == a.tlds[name := b.tlds[name]]
    && b.domains == a.domains
  }

  lemma CreateAdds(w: World, s: RegistryState, actor: Key, name: string, purpose: string, ctx: Context, e: ActionEffect)
    requires ValidateTldName(name) == Ok(name)
    requires CreateEffect(w, s, actor, name, purpose, ctx) == Ok(e)
    ensures AddsTld(s.zone, e.zone, name)
  {
    hide ValidateTldName;
  }

  lemma RestrictAdds(w: World, s: RegistryState, actor: Key, name: string, why: string, status: TldStatus, mode: TldMode, ctx: Context, e: ActionEffect)
    requires ValidateTldName(name) == Ok(name)
    requires RestrictEffect(w, s, actor, name, why, status, mode, ctx) == Ok(e)
    ensures AddsTld(s.zone, e.zone, name)
  {
    hide ValidateTldName;
  }

  predicate SeedsTld(action: MutationAction, name: string) {
    (action.CreateTld? || action.ReserveTld? || action.BlockTld?) && action.tld == name
  }

  /** Which effect a seeded action has. */
  lemma SeedActionEffect(w: World, s: RegistryState, req: MutationRequest, ctx: Context)
    ensures req.action.CreateTld? ==>
              ApplyAction(w, s, req, ctx) == CreateEffect(w, s, req.actorPublicKey, req.action.tld, req.action.purpose, ctx)
    ensures req.action.ReserveTld? ==>
              ApplyAction(w, s, req, ctx) ==
              RestrictEffect(w, s, req.actorPublicKey, req.action.tld, req.action.why, TldStatus.Reserved, ReservedMode, ctx)
    ensures req.action.BlockTld? ==>
              ApplyAction(w, s, req, ctx) ==
              RestrictEffect(w, s, req.actorPublicKey, req.action.tld, req.action.why, TldStatus.Blocked, BlockedMode, ctx)
  {
    hide CreateEffect;
    hide RestrictEffect;
  }

  /** What a seeded action writes: one TLD that was not there. */
  lemma SeedActionAdds(w: World, s: RegistryState, req: MutationRequest, ctx: Context, name: string, e: ActionEffect)
    requires IsTldName(name) && SeedsTld(req.action, name)
    requires ApplyAction(w, s, req, ctx) == Ok(e)
    ensures AddsTld(s.zone, e.zone, name)
  {
    TldNameIsLower(name);
    hide IsTldName;
    hide ValidateTldName;
    hide ApplyAction;
    hide CreateEffect;
    hide RestrictEffect;
    hide AddsTld;
    SeedActionEffect(w, s, req, ctx);
    match req.action
    case CreateTld(tld, purpose) => CreateAdds(w, s, req.actorPublicKey, tld, purpose, ctx, e);
    case ReserveTld(tld, why) => RestrictAdds(w, s, req.actorPublicKey, tld, why, TldStatus.Reserved, ReservedMode, ctx, e);
    case BlockTld(tld, why) => RestrictAdds(w, s, req.actorPublicKey, tld, why, TldStatus.Blocked, BlockedMode, ctx, e);
    case _ =>
  }

  /** Nothing that was there is touched. */
  ghost predicate OnlyAdds(a: RootZone, b: RootZone) {
    (forall t <- a.tlds :: t in b.tlds && b.tlds[t] == a.tlds[t]) && b.domains == a.domains
  }

  lemma OnlyAddsTwice(a: RootZone, b: RootZone, c: RootZone)
    requires OnlyAdds(a, b) && OnlyAdds(b, c)
    ensures OnlyAdds(a, c)
  {
  }

  lemma AddingOnlyAdds(a: RootZone, b: RootZone, c: RootZone, name: string)
    requires AddsTld(a, b, name) && c.tlds == b.tlds && c.domains == b.domains
    ensures OnlyAdds(a, c) && name in c.tlds
  {
  }

  lemma SeedRequestSeeds(w: World, s: RegistryState, name: string, entry: SeedTld, ctx: Context)
    requires SeedAction(entry, name).Ok?
    ensures SeedsTld(SeedRequest(w, s, name, SeedAction(entry, name).value, ctx).action, name)
  {
  }

  lemma AcceptedZone(w: World, sys: System, req: MutationRequest, ctx: Context, a: Accepted)
    requires Decide(w, sys.mem, req, ctx) == Ok(a)
    ensures ApplySystem(w, sys, req, ctx).mem.zone == a.zone
  {
    hide Decide;
  }

  /** One created entry: the invariant holds on, and the zone has one TLD more. */
  lemma SeedStepAdds(w: World, sys: System, root: Key, name: string, req: MutationRequest, ctx: Context)
    requires Lawful(w) && SystemInv(w, sys, root)
    requires IsTldName(name) && SeedsTld(req.action, name)
    requires Decide(w, sys.mem, req, ctx).Ok?
    ensures var sys' := ApplySystem(w, sys, req, ctx);
            OnlyAdds(sys.mem.zone, sys'.mem.zone) && name in sys'.mem.zone.tlds && SystemInv(w, sys', root)
  {
    hide *;
    var a := Decide(w, sys.mem, req, ctx).value;
    ApplyKeepsInv(w, sys, root, req, ctx);
    AcceptedZone(w, sys, req, ctx, a);
    var e := AcceptedFields(w, sys.mem, req, ctx, a);
    SeedActionAdds(w, sys.mem, req, ctx, name, e);
    AddingOnlyAdds(sys.mem.zone, e.zone, a.zone, name);
  }

  /** What one entry of a seed file leads to. */
  lemma SeedUnfolds(w: World, sys: System, entries: seq<SeedTld>, i: nat, ctx: Context, done: SeedOutcome)
    requires i < |entries|
    ensures var name := ValidateTldName(entries[i].name); var out := SeedFrom(w, sys, entries, i, ctx, done);
            if name.Err? then out == (sys, Err(name.error))
            else if name.value in sys.mem.zone.tlds then
              out == SeedFrom(w, sys, entries, i + 1, ctx, done.(skipped := done.skipped + [name.value]))
            else
              var action := SeedAction(entries[i], name.value);
              if action.Err? then out == (sys, Err(action.error))
              else
                var req := SeedRequest(w, sys.mem, name.value, action.value, ctx);
                var decision := Decide(w, sys.mem, req, ctx);
                if decision.Err? then out == (sys, Err(decision.error))
                else out == SeedFrom(w, ApplySystem(w, sys, req, ctx), entries, i + 1, ctx, done.(created := done.created + [name.value]))
  {
    hide Decide;
    hide ApplySystem;
    hide SeedRequest;
    hide ValidateTldName;
    hide SeedAction;
  }

  lemma SeedEnds(w: World, sys: System, entries: seq<SeedTld>, ctx: Context, done: SeedOutcome)
    ensures SeedFrom(w, sys, entries, |entries|, ctx, done) == (sys, Ok(done))
  {
  }

  lemma OnlyAddsNothing(a: RootZone)
    ensures OnlyAdds(a, a)
  {
  }

  lemma StaysPresent(a: RootZone, b: RootZone, entry: SeedTld)
    requires OnlyAdds(a, b)
    requires ValidateTldName(entry.name).Ok? && ValidateTldName(entry.name).value in a.tlds
    ensures IsPresent(b, entry)
  {
    hide ValidateTldName;
  }

  lemma ValidatedIsName(input: string)
    ensures ValidateTldName(input).Ok? ==> IsTldName(ValidateTldName(input).value)
  {
    hide IsTldName;
  }

  /** A seed run leaves every existing record as it was, keeps every invariant of the registry,
      and on success every named TLD is there. */
  lemma {:induction false} SeedOnlyAdds(w: World, sys: System, root: Key, entries: seq<SeedTld>, i: nat, ctx: Context, done: SeedOutcome)
    requires Lawful(w) && SystemInv(w, sys, root) && i <= |entries|
    ensures var (sys', r) := SeedFrom(w, sys, entries, i, ctx, done);
            && SystemInv(w, sys', root)
            && OnlyAdds(sys.mem.zone, sys'.mem.zone)
            && (r.Ok? ==> forall j :: i <= j < |entries| ==> IsPresent(sys'.mem.zone, entries[j]))
    decreases |entries| - i
  {
    hide *;
    OnlyAddsNothing(sys.mem.zone);
    SeedEnds(w, sys, entries, ctx, done);
    if i < |entries| {
      SeedUnfolds(w, sys, entries, i, ctx, done);
      var (sys', r) := SeedFrom(w, sys, entries, i, ctx, done);
      ValidatedIsName(entries[i].name);
      if ValidateTldName(entries[i].name).Ok? {
        var name := ValidateTldName(entries[i].name).value;
        if name in sys.mem.zone.tlds {
          SeedOnlyAdds(w, sys, root, entries, i + 1, ctx, done.(skipped := done.skipped + [name]));
          StaysPresent(sys.mem.zone, sys'.mem.zone, entries[i]);
        } else if SeedAction(entries[i], name).Ok? {
          var req := SeedRequest(w, sys.mem, name, SeedAction(entries[i], name).value, ctx);
          if Decide(w, sys.mem, req, ctx).Ok? {
            SeedRequestSeeds(w, sys.mem, name, entries[i], ctx);
            SeedStepAdds(w, sys, root, name, req, ctx);
            var next := ApplySystem(w, sys, req, ctx);
            SeedOnlyAdds(w, next, root, entries, i + 1, ctx, done.(created := done.created + [name]));
            OnlyAddsTwice(sys.mem.zone, next.mem.zone, sys'.mem.zone);
            StaysPresent(next.mem.zone, sys'.mem.zone, entries[i]);
          }
        }
      }
    }
  }

  ghost predicate IsPresent(zone: RootZone, entry: SeedTld) {
    ValidateTldName(entry.name).Ok? && ValidateTldName(entry.name).value in zone.tlds
  }

  /** With every named TLD there, a run skips every entry and changes nothing. */
  lemma {:induction false} SeedSkips(w: World, sys: System, entries: seq<SeedTld>, i: nat, ctx: Context, done: SeedOutcome)
    requires i <= |entries| && forall j :: i <= j < |entries| ==> IsPresent(sys.mem.zone, entries[j])
    ensures var (sys', r) := SeedFrom(w, sys, entries, i, ctx, done);
            sys' == sys && r.Ok? && r.value.created == done.created
    decreases |entries| - i
  {
    hide Decide;
    hide ValidateTldName;
    if i < |entries| {
      var name := ValidateTldName(entries[i].name).value;
      assert IsPresent(sys.mem.zone, entries[i]);
      SeedSkips(w, sys, entries, i + 1, ctx, done.(skipped := done.skipped + [name]));
    }
  }

  /** Seeding is idempotent: once a seed file went through, forcing the same file again, at any
      later time, creates nothing and changes nothing; without force it is refused. */
  lemma ReseedIsNoOp(w: World, sys: System, root: Key, entries: seq<SeedTld>, ctx: Context, force: bool, again: Context)
    requires Lawful(w) && SystemInv(w, sys, root) && entries != []
    requires SeedSystem(w, sys, entries, ctx, force).1.Ok?
    ensures var sys' := SeedSystem(w, sys, entries, ctx, force).0;
            && SystemInv(w, sys', root)
            && OnlyAdds(sys.mem.zone, sys'.mem.zone)
            && SeedSystem(w, sys', entries, again, true).0 == sys'
            && SeedSystem(w, sys', entries, again, true).1.Ok?
            && SeedSystem(w, sys', entries, again, true).1.value.created == []
            && SeedSystem(w, sys', entries, again, false) == (sys', Err(MutationRejected(AlreadySeeded)))
  {
    SeedOnlyAdds(w, sys, root, entries, 0, ctx, NOTHING_DONE);
    hide SeedFrom;
    hide SystemInv;
    hide Lawful;
    var sys' := SeedSystem(w, sys, entries, ctx, force).0;
    assert IsPresent(sys'.mem.zone, entries[0]);
    SeedSkips(w, sys', entries, 0, again, NOTHING_DONE);
  }

  // ------------------------------------------------------------------
  // a valid request goes through
  // ------------------------------------------------------------------

  /** The re-signed zone of an action that put trusted records verifies under the root key. */
  lemma CountersignedVerifies(w: World, zone: RootZone, req: MutationRequest, role: ActorRole, ctx: Context)
    requires Lawful(w) && zone.rootPublicKey == ctx.root
    requires forall t <- zone.tlds :: TldVerifies(w, zone.tlds[t], ctx.root)
    ensures VerifyZone(w, Countersigned(w, zone, req, role, ctx), ctx.root).Ok?
  {
    var z := Countersigned(w, zone, req, role, ctx);
    assert z.(signature := None) ==
           zone.(rootVersion := z.rootVersion, generatedAt := z.generatedAt, audit := z.audit).(signature := None);
    hide TldVerifies;
    hide NextVersion;
    hide Tail;
  }

  lemma CreateSucceeds(w: World, s: RegistryState, root: Key, name: string, purpose: string, ctx: Context) returns (e: ActionEffect)
    requires Lawful(w) && Trusted(w, s, root) && ctx.root == root
    requires IsTldName(name) && name !in s.zone.tlds
    requires name !in ctx.blocklists.iana && name !in ctx.blocklists.policy && name !in ctx.blocklists.brandSafety
    ensures CreateEffect(w, s, root, name, purpose, ctx) == Ok(e)
    ensures e.zone.rootPublicKey == root && e.role == RootRole
    ensures forall t <- e.zone.tlds :: TldVerifies(w, e.zone.tlds[t], root)
  {
    TldNameIsLower(name);
    hide IsTldName;
    hide ValidateTldName;
    e := CreateEffect(w, s, root, name, purpose, ctx).value;
    var now := w.rfc3339(ctx.now);
    SignedTldVerifies(w, root, TldRecord(name, TldStatus.Official, OfficialMode, ctx.root, ctx.officialOperator, OFFICIAL_OPERATOR_NAME,
                                         RootManaged, None, None, [], None, None, now, now, None, Some(purpose),
                                         SIGNATURE_ALGORITHM, None));
    hide TldVerifies;
  }

  lemma FreshRequestPasses(w: World, s: RegistryState, nonce: string, version: u64, action: MutationAction, ctx: Context)
    requires Lawful(w) && w.parseTime(w.rfc3339(ctx.now)) == Some(ctx.now)
    requires version > CurrentVersion(s, Target(action))
    requires SignedRequest(w, ctx.root, nonce, w.rfc3339(ctx.now), version, action).mutationId !in s.applied
    ensures Screen(w, s, SignedRequest(w, ctx.root, nonce, w.rfc3339(ctx.now), version, action), ctx).Ok?
  {
    SignedRequestVerifies(w, ctx.root, nonce, w.rfc3339(ctx.now), version, action);
    hide VerifyRequest;
    hide Target;
  }

  /** The checks of `apply` refuse nothing they should let through: on any trusted registry a fresh
      envelope of the root key that creates a free, unlisted, well-formed TLD is accepted. */
  lemma RootCreatesTld(w: World, s: RegistryState, root: Key, name: string, purpose: string, nonce: string, version: u64, ctx: Context)
    requires Lawful(w) && Trusted(w, s, root) && ctx.root == root && w.parseTime(w.rfc3339(ctx.now)) == Some(ctx.now)
    requires IsTldName(name) && name !in s.zone.tlds
    requires name !in ctx.blocklists.iana && name !in ctx.blocklists.policy && name !in ctx.blocklists.brandSafety
    requires version > CurrentVersion(s, TargetKey(TldTarget, name))
    requires SignedRequest(w, root, nonce, w.rfc3339(ctx.now), version, CreateTld(name, purpose)).mutationId !in s.applied
    ensures Decide(w, s, SignedRequest(w, root, nonce, w.rfc3339(ctx.now), version, CreateTld(name, purpose)), ctx).Ok?
  {
    var action := CreateTld(name, purpose);
    var req := SignedRequest(w, root, nonce, w.rfc3339(ctx.now), version, action);
    assert req.action == action && req.actorPublicKey == root;
    TldNameIsLower(name);
    assert Target(action) == TargetKey(TldTarget, name);
    FreshRequestPasses(w, s, nonce, version, action, ctx);
    var e := CreateSucceeds(w, s, root, name, purpose, ctx);
    SeedActionEffect(w, s, req, ctx);
    CountersignedVerifies(w, e.zone, req, e.role, ctx);
    hide Screen;
    hide ApplyAction;
    hide CreateEffect;
    hide VerifyZone;
    hide Countersigned;
    hide SignedRequest;
    hide AuditOf;
    hide Lawful;
    hide Trusted;
  }
}
