/** What every reachable registry guarantees, spelled out record by record. */
module TrustProofs {
  import opened Prelude
  import opened Records
  import opened Naming
  import opened Root
  import opened Actions
  import opened Changes
  import opened RegistrySpec
  import opened Invariant
  import opened RestartProofs
  import opened HistoryProofs

  /** The chain of trust in every reachable zone: the zone and each TLD record verify under the
      root key, each TLD record sits under its own name, which the rules accept, each domain record
      sits under its own name, belongs to an existing TLD and verifies under that TLD's current operator key, and
      each stored registry verifies. `RootZone::validate` holds although `apply` never calls it. */
  lemma ChainOfTrust(w: World, root: Key, now: Instant, steps: seq<Step>)
    requires Lawful(w)
    ensures var s := Run(w, InitialSystem(w, root, now), steps).mem;
            && ZoneVerifies(w, s.zone, root)
            && ZoneIsValid(s.zone)
            && (forall t <- s.zone.tlds :: s.zone.tlds[t].tld == t && IsTldName(t))
            && (forall d <- s.zone.domains ::
                  var rec := s.zone.domains[d];
                  && rec.domain == d
                  && rec.tld in s.zone.tlds
                  && VerifyDomain(w, rec, s.zone.tlds[rec.tld].operatorPublicKey).Ok?)
            && (forall t <- s.registries ::
                  t in s.zone.tlds && RegistryVerifies(w, s.registries[t].parsed, t, s.zone.tlds[t].operatorPublicKey))
  {
    RunKeepsInv(w, root, now, steps);
    TrustSpelledOut(w, Run(w, InitialSystem(w, root, now), steps).mem, root);
  }

  lemma TrustSpelledOut(w: World, s: RegistryState, root: Key)
    requires Trusted(w, s, root)
    ensures ZoneVerifies(w, s.zone, root) && ZoneIsValid(s.zone)
    ensures forall t <- s.zone.tlds :: s.zone.tlds[t].tld == t && IsTldName(t)
    ensures forall d <- s.zone.domains ::
              var rec := s.zone.domains[d];
              rec.domain == d && rec.tld in s.zone.tlds && VerifyDomain(w, rec, s.zone.tlds[rec.tld].operatorPublicKey).Ok?
    ensures forall t <- s.registries ::
              t in s.zone.tlds && RegistryVerifies(w, s.registries[t].parsed, t, s.zone.tlds[t].operatorPublicKey)
  {
    hide VerifyDomain;
    hide RegistryVerifies;
    hide ZoneVerifies;
    hide TldVerifies;
    forall d | d in s.zone.domains
      ensures DomainTrusted(w, s.zone.tlds, d, s.zone.domains[d])
    {
    }
    forall t | t in s.registries
      ensures RegistryTrusted(w, s.zone.tlds, t, s.registries[t])
    {
    }
  }

  /** Whenever a TLD pins a registry hash, the stored registry bytes and the manifest store both
      hold exactly the content of that hash, in memory and on disk; and whatever is stored is pinned. */
  lemma PointersAgree(w: World, root: Key, now: Instant, steps: seq<Step>, tld: string)
    requires Lawful(w)
    ensures var sys := Run(w, InitialSystem(w, root, now), steps);
            && (tld in sys.mem.zone.tlds && sys.mem.zone.tlds[tld].registryManifestHash.Some? ==>
                  var h := sys.mem.zone.tlds[tld].registryManifestHash.value;
                  && tld in sys.mem.registries && w.hash(sys.mem.registries[tld].bytes) == h
                  && h in sys.mem.manifests && sys.mem.manifests[h] == sys.mem.registries[tld].bytes
                  && tld in sys.disk.tables.delegatedRegistries && sys.disk.tables.delegatedRegistries[tld] == sys.mem.registries[tld].bytes
                  && h in sys.disk.manifestFiles && sys.disk.manifestFiles[h] == sys.mem.registries[tld].bytes)
            && (tld in sys.mem.registries ==>
                  tld in sys.mem.zone.tlds && sys.mem.zone.tlds[tld].registryManifestHash == Some(w.hash(sys.mem.registries[tld].bytes)))
  {
    RunKeepsInv(w, root, now, steps);
    var sys := Run(w, InitialSystem(w, root, now), steps);
    PinsSpelledOut(w, sys, tld);
  }

  lemma PinsSpelledOut(w: World, sys: System, tld: string)
    requires PinsAgree(w, sys.mem) && Mirrors(w, sys.mem, sys.disk)
    ensures tld in sys.mem.zone.tlds && sys.mem.zone.tlds[tld].registryManifestHash.Some? ==>
              var h := sys.mem.zone.tlds[tld].registryManifestHash.value;
              && tld in sys.mem.registries && w.hash(sys.mem.registries[tld].bytes) == h
              && h in sys.mem.manifests && sys.mem.manifests[h] == sys.mem.registries[tld].bytes
              && tld in sys.disk.tables.delegatedRegistries && sys.disk.tables.delegatedRegistries[tld] == sys.mem.registries[tld].bytes
              && h in sys.disk.manifestFiles && sys.disk.manifestFiles[h] == sys.mem.registries[tld].bytes
    ensures tld in sys.mem.registries ==>
              tld in sys.mem.zone.tlds && sys.mem.zone.tlds[tld].registryManifestHash == Some(w.hash(sys.mem.registries[tld].bytes))
  {
    assert tld in sys.mem.registries || (tld in sys.mem.zone.tlds && sys.mem.zone.tlds[tld].registryManifestHash.Some?) ==>
             Pinned(w, sys.mem, tld);
  }

  /** A stored registry is only ever replaced by one of a higher version. */
  lemma RegistryVersionsRise(w: World, root: Key, now: Instant, steps: seq<Step>, more: seq<Step>, tld: string)
    requires Lawful(w)
    requires tld in Run(w, InitialSystem(w, root, now), steps).mem.registries
    ensures tld in Run(w, InitialSystem(w, root, now), steps + more).mem.registries
    ensures var before := Run(w, InitialSystem(w, root, now), steps).mem.registries[tld];
            var after := Run(w, InitialSystem(w, root, now), steps + more).mem.registries[tld];
            after == before || after.parsed.version > before.parsed.version
  {
    RunGrows(w, root, now, steps, more);
    hide Run;
    hide InitialSystem;
    hide Lawful;
  }

  /** Every accepted mutation moves the zone to a strictly higher version, exactly as long as
      the version is below the u64 maximum; and the version never falls. */
  lemma AcceptanceRaisesVersion(w: World, root: Key, now: Instant, steps: seq<Step>, step: Step)
    requires Lawful(w)
    ensures var before := Run(w, InitialSystem(w, root, now), steps).mem;
            var after := Run(w, InitialSystem(w, root, now), steps + [step]).mem;
            && before.zone.rootVersion <= after.zone.rootVersion
            && (after.audit != before.audit ==>
                  (after.zone.rootVersion > before.zone.rootVersion <==> before.zone.rootVersion < MAX_U64))
            && (after.audit == before.audit ==> after.zone == before.zone)
  {
    RunKeepsInv(w, root, now, steps);
    var sys := Run(w, InitialSystem(w, root, now), steps);
    assert (steps + [step])[..|steps|] == steps;
    assert Run(w, InitialSystem(w, root, now), steps + [step]) == Next(w, sys, step);
    StepRaisesVersion(w, sys, root, step);
  }

  lemma StepRaisesVersion(w: World, sys: System, root: Key, step: Step)
    requires Lawful(w) && SystemInv(w, sys, root)
    ensures var before := sys.mem; var after := Next(w, sys, step).mem;
            && before.zone.rootVersion <= after.zone.rootVersion
            && (after.audit != before.audit ==>
                  (after.zone.rootVersion > before.zone.rootVersion <==> before.zone.rootVersion < MAX_U64))
            && (after.audit == before.audit ==> after.zone == before.zone)
  {
    var pre, a := StepUnfolds(w, sys, root, step);
    if a.Some? {
      AcceptGrowsZone(w, pre.mem, root, step.req, step.ctx, a.value);
      VersionRises(pre.mem.zone.rootVersion, step.ctx.now);
      hide Decide;
      hide SystemInv;
      hide Next;
      assert CommitMem(w, pre.mem, step.req, a.value).audit == pre.mem.audit + [a.value.event];
    }
  }
}
