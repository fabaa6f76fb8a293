/** The nonce protocol of the online path: issuing, pruning and consuming over whole runs
    (`issue_nonce`, `reserve_nonce`, `consume_nonce`, `run_mutation`). */
module NonceProofs {
  import opened Prelude
  import opened Records
  import opened Requests
  import opened DbTables
  import opened Actions
  import opened RegistrySpec
  import opened RestartProofs
  import opened HistoryProofs

  // ------------------------------------------------------------------
  // the table alone
  // ------------------------------------------------------------------

  /** What one step does to the nonce table. */
  function AfterStep(nonces: map<string, int>, step: Step): map<string, int> {
    match step
    case IssueNonce(nonce, now) => Reserve(nonces, nonce, now + NONCE_TTL_SECS)
    case Submit(req, _, _) => nonces - {req.nonce}
    case _ => nonces
  }

  function PrunedTable(steps: seq<Step>): map<string, int> {
    if steps == [] then map[] else AfterStep(PrunedTable(steps[..|steps| - 1]), steps[|steps| - 1])
  }

  /** The reference: a table that forgets a nonce only when it is consumed. */
  function KeptTable(steps: seq<Step>): map<string, int> {
    if steps == [] then map[]
    else
      var nonces := KeptTable(steps[..|steps| - 1]);
      match steps[|steps| - 1]
      case IssueNonce(nonce, now) => nonces[nonce := now + NONCE_TTL_SECS]
      case Submit(req, _, _) => nonces - {req.nonce}
      case _ => nonces
  }

  predicate Issues(step: Step, nonce: string) {
    step.IssueNonce? && step.nonce == nonce
  }

  /** Step `j` issued another nonce, dated more than a lifetime past the expiry `nonce` now has,
      and `nonce` has not been issued again since. */
  predicate Overtaken(steps: seq<Step>, nonce: string, j: nat)
    requires nonce in KeptTable(steps)
  {
    && j < |steps| && steps[j].IssueNonce?
    && steps[j].now > KeptTable(steps)[nonce] + NONCE_TTL_SECS
    && forall k :: j < k < |steps| ==> !Issues(steps[k], nonce)
  }

  ghost predicate IsOvertaken(steps: seq<Step>, nonce: string)
    requires nonce in KeptTable(steps)
  {
    exists j :: Overtaken(steps, nonce, j)
  }

  /** A step that neither issues nor spends the nonce leaves it its expiry, and overtakes it
      only by its own date. */
  lemma OvertakenStep(steps: seq<Step>, nonce: string)
    requires steps != [] && nonce in KeptTable(steps)
    ensures var front, last := steps[..|steps| - 1], steps[|steps| - 1];
            if Issues(last, nonce) then !IsOvertaken(steps, nonce)
            else
              && nonce in KeptTable(front) && KeptTable(front)[nonce] == KeptTable(steps)[nonce]
              && (IsOvertaken(steps, nonce) <==>
                    IsOvertaken(front, nonce) || (last.IssueNonce? && last.now > KeptTable(steps)[nonce] + NONCE_TTL_SECS))
  {
    var n := |steps| - 1;
    var front, last := steps[..n], steps[n];
    if Issues(last, nonce) {
      assert Issues(steps[n], nonce);
    } else {
      forall j: nat | j < n
        ensures Overtaken(steps, nonce, j) <==> Overtaken(front, nonce, j)
      {
        assert steps[j] == front[j];
        assert forall k :: j < k < n ==> steps[k] == front[k];
      }
      if last.IssueNonce? && last.now > KeptTable(steps)[nonce] + NONCE_TTL_SECS {
        assert Overtaken(steps, nonce, n);
      }
    }
  }

  /** The pruning table holds exactly the kept rows that no later issue has overtaken. */
  lemma {:induction false} PrunedExactly(steps: seq<Step>, nonce: string)
    ensures nonce in PrunedTable(steps) <==> nonce in KeptTable(steps) && !IsOvertaken(steps, nonce)
    ensures nonce in PrunedTable(steps) ==> PrunedTable(steps)[nonce] == KeptTable(steps)[nonce]
  {
    if steps != [] {
      PrunedExactly(steps[..|steps| - 1], nonce);
      if nonce in KeptTable(steps) {
        OvertakenStep(steps, nonce);
      }
      hide IsOvertaken;
    }
  }

  /** When pruning shows: the two tables answer differently exactly for a nonce that is still
      live but has been overtaken by an issue dated a lifetime past its expiry. */
  lemma PruningShowsExactly(steps: seq<Step>, nonce: string, t: int)
    ensures NonceIsLive(PrunedTable(steps), nonce, t) != NonceIsLive(KeptTable(steps), nonce, t) <==>
            NonceIsLive(KeptTable(steps), nonce, t) && IsOvertaken(steps, nonce)
  {
    PrunedExactly(steps, nonce);
  }

  /** Dropping rows never changes an answer about a time that no issue is dated more than a
      lifetime after; the clock may otherwise run back and forth. */
  lemma PruningIsInvisible(steps: seq<Step>, nonce: string, t: int)
    requires forall j :: 0 <= j < |steps| && steps[j].IssueNonce? ==> steps[j].now <= t + NONCE_TTL_SECS
    ensures NonceIsLive(PrunedTable(steps), nonce, t) == NonceIsLive(KeptTable(steps), nonce, t)
  {
    PrunedExactly(steps, nonce);
  }

  /** The condition is needed: asked about a time long before the last issue, the pruning table
      has forgotten a nonce that would still have been good. */
  lemma PruningShowsWhenClockRunsBack()
    ensures var steps := [IssueNonce("a", 0), IssueNonce("b", 1000)];
            !NonceIsLive(PrunedTable(steps), "a", 100) && NonceIsLive(KeptTable(steps), "a", 100)
  {
    var steps := [IssueNonce("a", 0), IssueNonce("b", 1000)];
    assert steps[..1] == [IssueNonce("a", 0)];
    assert steps[..1][..0] == [];
    assert PrunedTable(steps[..1]) == map["a" := 300];
    assert KeptTable(steps[..1]) == map["a" := 300];
  }

  predicate Spends(step: Step, nonce: string) {
    step.Submit? && step.req.nonce == nonce
  }

  /** A nonce in the table was issued, with the expiry the table says, and has not been
      presented since. */
  lemma {:induction false} TableRemembers(steps: seq<Step>, nonce: string) returns (i: nat)
    requires nonce in PrunedTable(steps)
    ensures i < |steps| && Issues(steps[i], nonce)
    ensures PrunedTable(steps)[nonce] == steps[i].now + NONCE_TTL_SECS
    ensures forall j :: i < j < |steps| ==> !Spends(steps[j], nonce)
    decreases |steps|
  {
    var n := |steps| - 1;
    if Issues(steps[n], nonce) {
      i := n;
    } else {
      i := TableRemembers(steps[..n], nonce);
    }
  }

  // ------------------------------------------------------------------
  // the running system
  // ------------------------------------------------------------------

  lemma ApplyKeepsNonces(w: World, sys: System, req: MutationRequest, ctx: Context)
    ensures ApplySystem(w, sys, req, ctx).disk.tables.nonces == sys.disk.tables.nonces
  {
  }

  lemma SubmitNonces(w: World, sys: System, req: MutationRequest, content: Option<SiteContent>, ctx: Context)
    ensures RunMutation(w, sys, req, content, ctx).disk.tables.nonces == sys.disk.tables.nonces - {req.nonce}
  {
    RunMutationCases(w, sys, req, content, ctx);
    ApplyKeepsNonces(w, BeforeApply(w, sys, req, content), req, ctx);
    hide RunMutation;
    hide ApplySystem;
  }

  lemma NextNonces(w: World, sys: System, step: Step)
    ensures Next(w, sys, step).disk.tables.nonces == AfterStep(sys.disk.tables.nonces, step)
  {
    hide RunMutation;
    hide ApplySystem;
    hide Opened;
    hide Opens;
    hide Reserve;
    match step
    case Submit(req, content, ctx) => SubmitNonces(w, sys, req, content, ctx);
    case Offline(req, ctx) => ApplyKeepsNonces(w, sys, req, ctx);
    case IssueNonce(_, _) =>
    case Restart(_) =>
  }

  /** Whatever else happens, restarts included, the table on disk is the pruned table. */
  lemma {:induction false} RunNonces(w: World, root: Key, now: Instant, steps: seq<Step>)
    ensures Run(w, InitialSystem(w, root, now), steps).disk.tables.nonces == PrunedTable(steps)
    decreases |steps|
  {
    if steps != [] {
      RunNonces(w, root, now, steps[..|steps| - 1]);
      NextNonces(w, Run(w, InitialSystem(w, root, now), steps[..|steps| - 1]), steps[|steps| - 1]);
    }
  }

  /** The step is an online submission that the registry accepted. */
  ghost predicate Lands(w: World, root: Key, now: Instant, steps: seq<Step>, step: Step) {
    && step.Submit?
    && Run(w, InitialSystem(w, root, now), steps + [step]).mem.audit != Run(w, InitialSystem(w, root, now), steps).mem.audit
  }

  lemma LandingNeedsNonce(w: World, root: Key, now: Instant, steps: seq<Step>, step: Step)
    requires Lawful(w) && Lands(w, root, now, steps, step)
    ensures NonceIsLive(PrunedTable(steps), step.req.nonce, Timestamp(step.ctx.now))
  {
    RunKeepsInv(w, root, now, steps);
    RunNonces(w, root, now, steps);
    assert (steps + [step])[..|steps|] == steps;
    var pre, a := SubmitUnfolds(w, Run(w, InitialSystem(w, root, now), steps), root, step);
  }

  /** An accepted online mutation carries a nonce the server issued less than its lifetime
      before, and which nobody has presented in between. */
  lemma LandsBeforeExpiry(w: World, root: Key, now: Instant, steps: seq<Step>, step: Step) returns (i: nat)
    requires Lawful(w) && Lands(w, root, now, steps, step)
    ensures i < |steps| && Issues(steps[i], step.req.nonce)
    ensures Timestamp(step.ctx.now) < steps[i].now + NONCE_TTL_SECS
    ensures forall j :: i < j < |steps| ==> !Spends(steps[j], step.req.nonce)
  {
    LandingNeedsNonce(w, root, now, steps, step);
    i := TableRemembers(steps, step.req.nonce);
  }

  function Count(steps: seq<Step>, nonce: string): nat {
    if steps == [] then 0
    else Count(steps[..|steps| - 1], nonce) + if Issues(steps[|steps| - 1], nonce) then 1 else 0
  }

  /** How many online submissions with this nonce the registry accepted. */
  ghost function Landed(w: World, root: Key, now: Instant, steps: seq<Step>, nonce: string): nat {
    if steps == [] then 0
    else
      var front, last := steps[..|steps| - 1], steps[|steps| - 1];
      Landed(w, root, now, front, nonce) + if Spends(last, nonce) && Lands(w, root, now, front, last) then 1 else 0
  }

  /** An issue buys at most one acceptance; a row still in the table is one not yet spent. */
  lemma {:induction false} LandedWithinIssued(w: World, root: Key, now: Instant, steps: seq<Step>, nonce: string)
    requires Lawful(w)
    ensures Landed(w, root, now, steps, nonce) + (if nonce in PrunedTable(steps) then 1 else 0) <= Count(steps, nonce)
  {
    if steps != [] {
      hide Run;
      hide InitialSystem;
      hide Lawful;
      var front, last := steps[..|steps| - 1], steps[|steps| - 1];
      LandedWithinIssued(w, root, now, front, nonce);
      if Spends(last, nonce) && Lands(w, root, now, front, last) {
        LandingNeedsNonce(w, root, now, front, last);
      }
    }
  }

  /** A nonce issued once admits at most one online mutation, over any run with restarts. */
  lemma NonceAdmitsOne(w: World, root: Key, now: Instant, steps: seq<Step>, nonce: string)
    requires Lawful(w) && Count(steps, nonce) <= 1
    ensures Landed(w, root, now, steps, nonce) <= 1
  {
    LandedWithinIssued(w, root, now, steps, nonce);
  }
}
