/** The ten tables of the registry database as values, and what one transaction does to them. */
module DbTables {
  import opened Prelude
  import opened Records
  import opened Requests
  import Ordering

  datatype SnapshotMeta = SnapshotMeta(rootVersion: u64, createdAt: string, stateHash: Hash)

  datatype Tables = Tables(
    tldRecords: map<string, TldRecord>,
    domainRecords: map<string, DomainRecord>,
    rootZoneVersions: map<u64, RootZone>,
    mutations: map<Hash, AppliedMutation>,
    auditEvents: map<nat, AuditRecord>,
    snapshots: map<u64, SnapshotMeta>,
    nonces: map<string, int>,
    currentVersion: Option<u64>,
    stateHash: Option<Hash>,
    delegatedRegistries: map<string, Bytes>,
    targetVersions: map<TargetKey, u64>)

  datatype InitialState = InitialState(
    zone: RootZone,
    stateHash: Hash,
    tlds: seq<TldRecord>,
    domains: seq<DomainRecord>,
    delegatedRegistries: map<string, Bytes>,
    snapshot: SnapshotMeta)

  datatype CommitBatch = CommitBatch(
    zone: RootZone,
    stateHash: Hash,
    tlds: seq<TldRecord>,
    domains: seq<DomainRecord>,
    targetKey: TargetKey,
    targetVersion: u64,
    applied: AppliedMutation,
    audit: AuditRecord,
    delegatedRegistry: Option<(string, Bytes)>,
    snapshot: SnapshotMeta)

  // ------------------------------------------------------------------
  // record tables: rows keyed by the record's own name
  // ------------------------------------------------------------------

  /** Insert every record under its own name; a later one replaces an earlier one. */
  function Table<R>(recs: seq<R>, name: R -> string): map<string, R> {
    if recs == [] then map[]
    else
      var last := recs[|recs| - 1];
      Table(recs[..|recs| - 1], name)[name(last) := last]
  }

  function TldName(rec: TldRecord): string {
    rec.tld
  }

  function DomainName(rec: DomainRecord): string {
    rec.domain
  }

  function MutationId(m: AppliedMutation): string {
    m.mutation.mutationId
  }

  /** `values()` of a `BTreeMap`: in key order. */
  ghost function Values<R>(m: map<string, R>): (r: seq<R>)
    ensures |r| == |m|
  {
    var ks := Ordering.SortedKeys(m.Keys);
    seq(|ks|, i requires 0 <= i < |ks| => assert ks[i] in ks; m[ks[i]])
  }

  ghost predicate KeyedBy<R>(m: map<string, R>, name: R -> string) {
    forall k <- m :: name(m[k]) == k
  }

  lemma {:induction false} TableOfPrefix<R>(m: map<string, R>, name: R -> string, ks: seq<string>, recs: seq<R>)
    requires KeyedBy(m, name)
    requires |ks| == |recs|
    requires forall i :: 0 <= i < |ks| ==> ks[i] in m && recs[i] == m[ks[i]]
    ensures Table(recs, name) == map k | k in ks :: m[k]
  {
    if recs != [] {
      var n := |recs| - 1;
      TableOfPrefix(m, name, ks[..n], recs[..n]);
      assert ks == ks[..n] + [ks[n]];
      assert recs[n] == m[ks[n]];
    }
  }

  /** Rewriting a table from a map whose records sit under their own name gives that map back. */
  lemma TableMirrors<R>(m: map<string, R>, name: R -> string)
    requires KeyedBy(m, name)
    ensures Table(Values(m), name) == m
  {
    TableOfPrefix(m, name, Ordering.SortedKeys(m.Keys), Values(m));
  }

  /** `values().collect()` */
  method CollectValues<R>(m: map<string, R>) returns (r: seq<R>)
    ensures r == Values(m)
  {
    var ks := Ordering.SortKeys(m.Keys);
    r := [];
    hide Ordering.SortedKeys;
    for i := 0 to |ks|
      invariant |r| == i
      invariant forall j :: 0 <= j < i ==> ks[j] in m && r[j] == m[ks[j]]
    {
      assert ks[i] in ks;
      r := r + [m[ks[i]]];
    }
  }

  // ------------------------------------------------------------------
  // the audit table: numbered rows read back in order
  // ------------------------------------------------------------------

  ghost predicate IsMaxKey(s: set<nat>, m: nat) {
    m in s && forall x <- s :: x <= m
  }

  lemma {:induction false} MaxKeyExists(s: set<nat>)
    requires s != {}
    ensures exists m :: IsMaxKey(s, m)
    decreases |s|
  {
    var x :| x in s;
    if s == {x} {
      assert IsMaxKey(s, x);
    } else {
      var rest := s - {x};
      assert rest != {};
      MaxKeyExists(rest);
      var m :| IsMaxKey(rest, m);
      var big := if x > m then x else m;
      assert IsMaxKey(s, big) by {
        forall y | y in s
          ensures y <= big
        {
          assert y == x || y in rest;
        }
      }
    }
  }

  ghost function MaxKey(s: set<nat>): (m: nat)
    requires s != {}
    ensures IsMaxKey(s, m)
  {
    MaxKeyExists(s);
    var m :| IsMaxKey(s, m);
    m
  }

  /** `next_audit_seq`: one past the last row. */
  ghost function NextSeq<R>(t: map<nat, R>): nat {
    if t == map[] then 0 else MaxKey(t.Keys) + 1
  }

  /** The rows in key order. */
  ghost function Rows<R>(t: map<nat, R>): (r: seq<R>)
    ensures |r| == |t|
    decreases |t|
  {
    if t == map[] then []
    else
      var k := MaxKey(t.Keys);
      var rest := t - {k};
      assert t.Keys == rest.Keys + {k};
      Rows(rest) + [t[k]]
  }

  lemma RowsStep<R>(t: map<nat, R>, k: nat)
    requires IsMaxKey(t.Keys, k)
    ensures Rows(t) == Rows(t - {k}) + [t[k]]
    ensures |t - {k}| < |t|
  {
    assert k == MaxKey(t.Keys);
    assert t.Keys == (t - {k}).Keys + {k};
  }

  /** A row put at the next sequence number is read back last. */
  lemma RowsAppend<R>(t: map<nat, R>, row: R)
    ensures Rows(t[NextSeq(t) := row]) == Rows(t) + [row]
  {
    var n := NextSeq(t);
    var t' := t[n := row];
    assert n !in t by {
      if t != map[] {
        assert forall x <- t.Keys :: x <= MaxKey(t.Keys);
      }
    }
    assert n in t';
    assert MaxKey(t'.Keys) == n by {
      assert MaxKey(t'.Keys) in t'.Keys && n <= MaxKey(t'.Keys);
      if t != map[] {
        assert forall x <- t.Keys :: x <= MaxKey(t.Keys);
      }
    }
    assert t' - {n} == t;
  }

  // ------------------------------------------------------------------
  // transactions
  // ------------------------------------------------------------------

  ghost function AfterZonePointer(t: Tables, zone: RootZone, stateHash: Hash): Tables {
    t.(rootZoneVersions := t.rootZoneVersions[zone.rootVersion := zone],
       currentVersion := Some(zone.rootVersion),
       stateHash := Some(stateHash))
  }

  ghost function AfterSnapshot(t: Tables, meta: SnapshotMeta): Tables {
    t.(snapshots := t.snapshots[meta.rootVersion := meta])
  }

  /** `commit_initial` */
  ghost function AfterInitial(t: Tables, s: InitialState): Tables {
    Tables(
      Table(s.tlds, TldName),
      Table(s.domains, DomainName),
      t.rootZoneVersions[s.zone.rootVersion := s.zone],
      t.mutations,
      t.auditEvents,
      t.snapshots[s.snapshot.rootVersion := s.snapshot],
      t.nonces,
      Some(s.zone.rootVersion),
      Some(s.stateHash),
      t.delegatedRegistries + s.delegatedRegistries,
      t.targetVersions)
  }

  /** `commit_mutation`: all tables in one transaction. */
  ghost function AfterMutation(t: Tables, b: CommitBatch): Tables {
    Tables(
      Table(b.tlds, TldName),
      Table(b.domains, DomainName),
      t.rootZoneVersions[b.zone.rootVersion := b.zone],
      t.mutations[b.applied.mutation.mutationId := b.applied],
      t.auditEvents[NextSeq(t.auditEvents) := b.audit],
      t.snapshots[b.snapshot.rootVersion := b.snapshot],
      t.nonces,
      Some(b.zone.rootVersion),
      Some(b.stateHash),
      if b.delegatedRegistry.Some? then
        t.delegatedRegistries[b.delegatedRegistry.value.0 := b.delegatedRegistry.value.1]
      else t.delegatedRegistries,
      t.targetVersions[b.targetKey := b.targetVersion])
  }

  /** `reserve_nonce`: long-expired challenges are dropped on the way. */
  function Reserve(nonces: map<string, int>, nonce: string, expiresAt: int): map<string, int> {
    (map k | k in nonces && nonces[k] >= expiresAt - 2 * NONCE_TTL_SECS :: nonces[k])[nonce := expiresAt]
  }

  /** `consume_nonce`: the row goes away whatever the answer. */
  predicate NonceIsLive(nonces: map<string, int>, nonce: string, now: int) {
    nonce in nonces && nonces[nonce] > now
  }

  const EMPTY_TABLES := Tables(map[], map[], map[], map[], map[], map[], map[], None, None, map[], map[])
}
