/** The embedded database (`redb_backend.rs`): a class whose fields are the tables.
    One write transaction is one method; the engine's own failures are not modelled. */
module RedbBackend {
  import opened Prelude
  import opened Records
  import opened Requests
  import opened DbTables

  class RedbRegistryStore {
    var tldRecords: map<string, TldRecord>
    var domainRecords: map<string, DomainRecord>
    var rootZoneVersions: map<u64, RootZone>
    var mutations: map<Hash, AppliedMutation>
    var auditEvents: map<nat, AuditRecord>
    var snapshots: map<u64, SnapshotMeta>
    var nonces: map<string, int>
    var currentVersion: Option<u64>
    var stateHash: Option<Hash>
    var delegatedRegistries: map<string, Bytes>
    var targetVersions: map<TargetKey, u64>

    ghost function Contents(): Tables
      reads this
    {
      Tables(tldRecords, domainRecords, rootZoneVersions, mutations, auditEvents, snapshots, nonces,
             currentVersion, stateHash, delegatedRegistries, targetVersions)
    }

    /** `create`: all tables present and empty. */
    constructor ()
      ensures Contents() == EMPTY_TABLES
    {
      tldRecords, domainRecords, rootZoneVersions := map[], map[], map[];
      mutations, auditEvents, snapshots, nonces := map[], map[], map[], map[];
      currentVersion, stateHash := None, None;
      delegatedRegistries, targetVersions := map[], map[];
    }

    /** Delete both record tables and insert every record under its own name. */
    method WriteRecordTables(tlds: seq<TldRecord>, domains: seq<DomainRecord>)
      modifies this`tldRecords, this`domainRecords
      ensures tldRecords == Table(tlds, TldName)
      ensures domainRecords == Table(domains, DomainName)
    {
      tldRecords := map[];
      domainRecords := map[];
      for i := 0 to |tlds|
        invariant tldRecords == Table(tlds[..i], TldName)
        invariant domainRecords == map[]
      {
        assert tlds[..i + 1][..i] == tlds[..i];
        tldRecords := tldRecords[tlds[i].tld := tlds[i]];
      }
      assert tlds[..|tlds|] == tlds;
      for i := 0 to |domains|
        invariant tldRecords == Table(tlds, TldName)
        invariant domainRecords == Table(domains[..i], DomainName)
      {
        assert domains[..i + 1][..i] == domains[..i];
        domainRecords := domainRecords[domains[i].domain := domains[i]];
      }
      assert domains[..|domains|] == domains;
    }

    method WriteZonePointer(zone: RootZone, hash: Hash)
      modifies this`rootZoneVersions, this`currentVersion, this`stateHash
      ensures Contents() == AfterZonePointer(old(Contents()), zone, hash)
    {
      rootZoneVersions := rootZoneVersions[zone.rootVersion := zone];
      currentVersion := Some(zone.rootVersion);
      stateHash := Some(hash);
    }

    method CreateSnapshot(meta: SnapshotMeta)
      modifies this`snapshots
      ensures Contents() == AfterSnapshot(old(Contents()), meta)
    {
      snapshots := snapshots[meta.rootVersion := meta];
    }

    /** The last row decides the next number. */
    method NextAuditSeq() returns (n: nat)
      ensures n == NextSeq(auditEvents)
    {
      n := 0;
      var keys := auditEvents.Keys;
      while keys != {}
        invariant keys <= auditEvents.Keys
        invariant forall k | k in auditEvents && k !in keys :: k < n
        invariant n > 0 ==> n - 1 in auditEvents
        decreases |keys|
      {
        var k :| k in keys;
        if k >= n {
          n := k + 1;
        }
        keys := keys - {k};
      }
      assert n > 0 ==> IsMaxKey(auditEvents.Keys, n - 1);
    }

    method CommitInitial(state: InitialState)
      modifies this
      ensures Contents() == AfterInitial(old(Contents()), state)
    {
      WriteRecordTables(state.tlds, state.domains);
      WriteZonePointer(state.zone, state.stateHash);
      delegatedRegistries := delegatedRegistries + state.delegatedRegistries;
      CreateSnapshot(state.snapshot);
    }

    method CommitMutation(batch: CommitBatch)
      modifies this
      ensures Contents() == AfterMutation(old(Contents()), batch)
    {
      WriteRecordTables(batch.tlds, batch.domains);
      WriteZonePointer(batch.zone, batch.stateHash);
      targetVersions := targetVersions[batch.targetKey := batch.targetVersion];
      mutations := mutations[batch.applied.mutation.mutationId := batch.applied];
      var n := NextAuditSeq();
      auditEvents := auditEvents[n := batch.audit];
      if batch.delegatedRegistry.Some? {
        var (tld, bytes) := batch.delegatedRegistry.value;
        delegatedRegistries := delegatedRegistries[tld := bytes];
      }
      CreateSnapshot(batch.snapshot);
    }

    /** Collect the expired keys, remove them one by one, then insert. */
    method ReserveNonce(nonce: string, expiresAt: int)
      modifies this`nonces
      ensures nonces == Reserve(old(nonces), nonce, expiresAt)
    {
      var limit := expiresAt - 2 * NONCE_TTL_SECS;
      var expired := set k | k in nonces && nonces[k] < limit;
      while expired != {}
        invariant expired == set k | k in nonces && nonces[k] < limit
        invariant nonces.Keys <= old(nonces).Keys
        invariant forall k <- nonces :: nonces[k] == old(nonces)[k]
        invariant forall k <- old(nonces) :: old(nonces)[k] >= limit ==> k in nonces
        decreases |expired|
      {
        var key :| key in expired;
        nonces := nonces - {key};
        expired := expired - {key};
      }
      forall k | k in nonces
        ensures nonces[k] >= limit
      {
        assert k !in expired;
      }
      assert nonces == map k | k in old(nonces) && old(nonces)[k] >= limit :: old(nonces)[k];
      nonces := nonces[nonce := expiresAt];
    }

    method ConsumeNonce(nonce: string, now: int) returns (valid: bool)
      modifies this`nonces
      ensures valid == NonceIsLive(old(nonces), nonce, now)
      ensures nonces == old(nonces) - {nonce}
    {
      valid := nonce in nonces && nonces[nonce] > now;
      nonces := nonces - {nonce};
    }

    /** Rows in key order: the smallest remaining number first. */
    method ListAuditEvents() returns (events: seq<AuditRecord>)
      ensures events == Rows(auditEvents)
    {
      events := [];
      var rest := auditEvents;
      ghost var all := Rows(auditEvents);
      assert Rows(rest) + events == all;
      while rest != map[]
        invariant Rows(rest) + events == all
        decreases |rest|
      {
        var k := LastKey(rest);
        var row := rest[k];
        RowsStep(rest, k);
        PrependRow(Rows(rest - {k}), row, events);
        events := [row] + events;
        rest := rest - {k};
      }
      assert Rows(rest) == [];
    }

    static lemma PrependRow<R>(front: seq<R>, row: R, back: seq<R>)
      ensures (front + [row]) + back == front + ([row] + back)
    {
    }

    static method LastKey(t: map<nat, AuditRecord>) returns (k: nat)
      requires t != map[]
      ensures IsMaxKey(t.Keys, k)
    {
      var keys := t.Keys;
      assert t.Keys != {};
      k :| k in keys;
      keys := keys - {k};
      while keys != {}
        invariant keys <= t.Keys && k in t
        invariant forall x | x in t && x !in keys :: x <= k
        decreases |keys|
      {
        var x :| x in keys;
        if x > k {
          k := x;
        }
        keys := keys - {x};
      }
    }
  }
}
