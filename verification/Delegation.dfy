/** Server and client joined for delegated TLDs: the records of one registry's zones never let
    the client hand out an older delegated registry than before. */
module DelegationProofs {
  import opened Prelude
  import opened Records
  import opened Naming
  import opened RegistrySpec
  import opened HistoryProofs
  import opened TrustProofs
  import opened ResolverSpec
  import opened RollbackProofs
  import opened RegistryRollbackProofs

  /** The record stands in the registry's zone after the first `n` steps. */
  ghost predicate Recorded(w: World, root: Key, now: Instant, steps: seq<Step>, n: nat, t: string, rec: TldRecord) {
    && n <= |steps|
    && t in Run(w, InitialSystem(w, root, now), steps[..n]).mem.zone.tlds
    && Run(w, InitialSystem(w, root, now), steps[..n]).mem.zone.tlds[t] == rec
  }

  /** The record stood in the registry's zone at some time. */
  ghost predicate FromServer(w: World, root: Key, now: Instant, steps: seq<Step>, rec: TldRecord) {
    exists n, t :: Recorded(w, root, now, steps, n, t, rec)
  }

  /** A recorded name is in normal form, and its record sits under it. */
  lemma RecordedName(w: World, root: Key, now: Instant, steps: seq<Step>, n: nat, t: string, rec: TldRecord)
    requires Lawful(w) && Recorded(w, root, now, steps, n, t, rec)
    ensures rec.tld == t && IsTldName(t)
  {
    ChainOfTrust(w, root, now, steps[..n]);
    hide Run;
    hide InitialSystem;
    hide Lawful;
    hide IsTldName;
  }

  lemma GrownOperator(a: System, b: System, t: string)
    requires Grows(a, b) && t in a.mem.zone.tlds
    ensures t in b.mem.zone.tlds && b.mem.zone.tlds[t].operatorPublicKey == a.mem.zone.tlds[t].operatorPublicKey
  {
  }

  lemma RecordedIs(w: World, root: Key, now: Instant, steps: seq<Step>, n: nat, t: string, rec: TldRecord)
    requires Recorded(w, root, now, steps, n, t, rec)
    ensures n <= |steps| && t in Run(w, InitialSystem(w, root, now), steps[..n]).mem.zone.tlds
    ensures Run(w, InitialSystem(w, root, now), steps[..n]).mem.zone.tlds[t] == rec
  {
    hide Run;
    hide InitialSystem;
  }

  /** A TLD keeps its operator from one time to any later one. */
  lemma RecordedOperator(w: World, root: Key, now: Instant, steps: seq<Step>, n: nat, m: nat, t: string, a: TldRecord, b: TldRecord)
    requires Lawful(w) && n <= m
    requires Recorded(w, root, now, steps, n, t, a) && Recorded(w, root, now, steps, m, t, b)
    ensures a.operatorPublicKey == b.operatorPublicKey
  {
    hide *;
    RecordedIs(w, root, now, steps, n, t, a);
    RecordedIs(w, root, now, steps, m, t, b);
    RunGrows(w, root, now, steps[..n], steps[n..m]);
    assert steps[..n] + steps[n..m] == steps[..m];
    GrownOperator(Run(w, InitialSystem(w, root, now), steps[..n]), Run(w, InitialSystem(w, root, now), steps[..m]), t);
  }

  lemma OnePathOneOperator(a: TldRecord, b: TldRecord)
    requires IsTldName(a.tld) && IsTldName(b.tld)
    requires a.tld == b.tld ==> a.operatorPublicKey == b.operatorPublicKey
    ensures CachePath(b.tld).Some? && !Evicts(a, b.tld, b.operatorPublicKey)
  {
    hide CachePath;
    hide Asks;
    hide IsTldName;
    NamedPaths(a.tld, b.tld);
    NamedPaths(b.tld, b.tld);
  }

  lemma WhenRecorded(w: World, root: Key, now: Instant, steps: seq<Step>, rec: TldRecord) returns (n: nat, t: string)
    requires FromServer(w, root, now, steps, rec)
    ensures Recorded(w, root, now, steps, n, t, rec)
  {
    hide Recorded;
    n, t :| Recorded(w, root, now, steps, n, t, rec);
  }

  /** Two records of one registry's zones, of whatever times, share a cache file only when they
      are records of one TLD under one operator: neither takes the other's file over. */
  lemma ServerRecordsSpare(w: World, root: Key, now: Instant, steps: seq<Step>, a: TldRecord, b: TldRecord)
    requires Lawful(w) && FromServer(w, root, now, steps, a) && FromServer(w, root, now, steps, b)
    ensures CachePath(b.tld).Some? && !Evicts(a, b.tld, b.operatorPublicKey)
    ensures a.tld == b.tld ==> a.operatorPublicKey == b.operatorPublicKey
  {
    hide *;
    var n, s := WhenRecorded(w, root, now, steps, a);
    var m, t := WhenRecorded(w, root, now, steps, b);
    RecordedName(w, root, now, steps, n, s, a);
    RecordedName(w, root, now, steps, m, t, b);
    if s == t {
      if n <= m {
        RecordedOperator(w, root, now, steps, n, m, t, a, b);
      } else {
        RecordedOperator(w, root, now, steps, m, n, t, b, a);
      }
    }
    OnePathOneOperator(a, b);
  }

  /** Every live call of the run is for a record of the registry's zones. */
  ghost predicate CallsFromServer(w: World, root: Key, now: Instant, steps: seq<Step>, configured: Option<Key>, c: Client, run: seq<ClientStep>) {
    run == [] ||
    (var front := run[..|run| - 1];
     && CallsFromServer(w, root, now, steps, configured, c, front)
     && var call := CallOf(w, ClientRun(w, configured, c, front), run[|run| - 1]);
     && (call.Some? ==> FromServer(w, root, now, steps, call.value.rec)))
  }

  lemma {:induction false} ServerRunSpares(w: World, root: Key, now: Instant, steps: seq<Step>, configured: Option<Key>, c: Client, run: seq<ClientStep>, rec: TldRecord)
    requires Lawful(w) && FromServer(w, root, now, steps, rec)
    requires CallsFromServer(w, root, now, steps, configured, c, run)
    ensures RunSpares(w, configured, c, run, rec.tld, rec.operatorPublicKey)
  {
    if run != [] {
      hide Lawful;
      hide FromServer;
      hide CallOf;
      hide ClientRun;
      hide Evicts;
      var front := run[..|run| - 1];
      ServerRunSpares(w, root, now, steps, configured, c, front, rec);
      var call := CallOf(w, ClientRun(w, configured, c, front), run[|run| - 1]);
      if call.Some? {
        ServerRecordsSpare(w, root, now, steps, call.value.rec, rec);
      }
    }
  }

  /** A client that works in zones of one registry, of whatever times and in whatever order, is
      never handed an older live registry of a TLD than before: the guard always holds there. */
  lemma ServerZonesNeverRewind(w: World, root: Key, now: Instant, steps: seq<Step>,
                               configured: Option<Key>, c: Client, first: ClientStep, between: seq<ClientStep>, second: ClientStep)
    requires Lawful(w) && Untampered(between)
    requires RegistryOut(w, c, first).Some?
    requires var c1 := ClientNext(w, configured, c, first); RegistryOut(w, ClientRun(w, configured, c1, between), second).Some?
    requires var c1 := ClientNext(w, configured, c, first);
             var a, b := CallOf(w, c, first).value.rec, CallOf(w, ClientRun(w, configured, c1, between), second).value.rec;
             && FromServer(w, root, now, steps, a) && FromServer(w, root, now, steps, b) && a.tld == b.tld
             && CallsFromServer(w, root, now, steps, configured, c1, between)
    ensures var c1 := ClientNext(w, configured, c, first);
            RegistryOut(w, c, first).value.version <= RegistryOut(w, ClientRun(w, configured, c1, between), second).value.version
  {
    var c1 := ClientNext(w, configured, c, first);
    var c2 := ClientRun(w, configured, c1, between);
    var a, b := CallOf(w, c, first).value.rec, CallOf(w, c2, second).value.rec;
    hide *;
    ServerRecordsSpare(w, root, now, steps, b, a);
    ServerRunSpares(w, root, now, steps, configured, c1, between, a);
    SameFor(a, b);
    ResolutionsNeverRewind(w, configured, c, first, between, second);
  }

  lemma SameFor(a: TldRecord, b: TldRecord)
    requires a.tld == b.tld && a.operatorPublicKey == b.operatorPublicKey
    ensures IsFor(b, a.tld, a.operatorPublicKey)
  {
  }
}
