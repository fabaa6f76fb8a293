/** The content-addressed block store (`federate-storage`) and the LRU block cache on top of it
    (`federate-cdn`). */
module Cdn {
  import opened Prelude
  import opened Records

  /** `BlockStore`: one file per content address. */
  class BlockStore {
    const w: World
    var blocks: map<Hash, Bytes>

    constructor (w: World)
      ensures this.w == w && blocks == map[]
    {
      this.w, blocks := w, map[];
    }

    /** Verified again on every read. */
    method Get(h: Hash) returns (r: Result<Bytes>)
      ensures r.Ok? <==> h in blocks && VerifyBytes(w, blocks[h], h).Ok?
      ensures r.Ok? ==> r.value == blocks[h]
    {
      if !w.isHash(h) || h !in blocks {
        return Err(BlockNotFound(h));
      }
      var _ :- VerifyBytes(w, blocks[h], h);
      return Ok(blocks[h]);
    }

    method Put(h: Hash, bytes: Bytes) returns (r: Result<()>)
      modifies this
      ensures r == VerifyBytes(w, bytes, h)
      ensures blocks == if r.Ok? then old(blocks)[h := bytes] else old(blocks)
    {
      var _ :- VerifyBytes(w, bytes, h);
      blocks := blocks[h := bytes];
      return Ok(());
    }

    method Remove(h: Hash) returns (r: Result<()>)
      modifies this
      ensures r.Ok? <==> w.isHash(h) && h in old(blocks)
      ensures blocks == if r.Ok? then old(blocks) - {h} else old(blocks)
    {
      if !w.isHash(h) || h !in blocks {
        return Err(BlockNotFound(h));
      }
      blocks := blocks - {h};
      return Ok(());
    }
  }

  datatype Entry = Entry(lastUsed: nat, size: nat)
  type Index = map<Hash, Entry>

  // ------------------------------------------------------------------
  // sizes
  // ------------------------------------------------------------------

  /** The sum of all sizes, however the entries are visited. */
  ghost function Total(m: Index): nat
    decreases |m|
  {
    if m == map[] then 0
    else
      var k :| k in m;
      m[k].size + Total(m - {k})
  }

  lemma {:induction false} TotalMinus(m: Index, k: Hash)
    requires k in m
    ensures Total(m) == m[k].size + Total(m - {k})
    decreases |m|
  {
    var j :| j in m && Total(m) == m[j].size + Total(m - {j});
    if j != k {
      TotalMinus(m - {j}, k);
      TotalMinus(m - {k}, j);
      assert m - {j} - {k} == m - {k} - {j};
    }
  }

  /** Fewer entries weigh no more. */
  lemma {:induction false} TotalShrinks(m: Index, gone: set<Hash>)
    ensures Total(m - gone) <= Total(m)
    decreases |gone|
  {
    if gone == {} {
      assert m - gone == m;
    } else {
      var k :| k in gone;
      TotalShrinks(m, gone - {k});
      var rest := m - (gone - {k});
      assert rest - {k} == m - gone;
      if k in rest {
        TotalMinus(rest, k);
      } else {
        assert rest - {k} == rest;
      }
    }
  }

  method SumSizes(m: Index) returns (total: nat)
    ensures total == Total(m)
  {
    total := 0;
    var rest := m;
    while rest != map[]
      invariant total + Total(rest) == Total(m)
      decreases |rest|
    {
      var k :| k in rest;
      TotalMinus(rest, k);
      total := total + rest[k].size;
      rest := rest - {k};
    }
  }

  // ------------------------------------------------------------------
  // age order
  // ------------------------------------------------------------------

  /** Distinct keys, oldest first. */
  ghost predicate OldestToNewest<K(!new)>(order: seq<K>, age: K -> nat) {
    forall i, j :: 0 <= i < j < |order| ==> order[i] != order[j] && age(order[i]) <= age(order[j])
  }

  /** Stable insertion: after everything that is not newer. */
  function InsertByAge<K(!new)>(order: seq<K>, age: K -> nat, k: K): (longer: seq<K>)
    ensures forall h :: h in longer <==> h in order || h == k
  {
    if order == [] || age(k) < age(order[0]) then [k] + order
    else
      assert forall h :: h in order <==> h == order[0] || h in order[1..];
      [order[0]] + InsertByAge(order[1..], age, k)
  }

  lemma {:induction false} InsertKeepsAge<K(!new)>(order: seq<K>, age: K -> nat, k: K)
    requires OldestToNewest(order, age) && k !in order
    ensures OldestToNewest(InsertByAge(order, age, k), age)
  {
    if order != [] && age(order[0]) <= age(k) {
      var rest := InsertByAge(order[1..], age, k);
      InsertKeepsAge(order[1..], age, k);
      forall j | 0 <= j < |rest|
        ensures order[0] != rest[j] && age(order[0]) <= age(rest[j])
      {
        assert rest[j] in rest;
      }
    }
  }

  method SortByAge<K(!new, ==)>(keys: set<K>, age: K -> nat) returns (order: seq<K>)
    ensures OldestToNewest(order, age)
    ensures forall h :: h in order <==> h in keys
  {
    order := [];
    var rest := keys;
    while rest != {}
      invariant rest <= keys
      invariant forall h :: h in order <==> h in keys && h !in rest
      invariant OldestToNewest(order, age)
      decreases |rest|
    {
      var k :| k in rest;
      InsertKeepsAge(order, age, k);
      order := InsertByAge(order, age, k);
      rest := rest - {k};
    }
  }

  function AgeIn(m: Index): Hash -> nat {
    h => if h in m then m[h].lastUsed else 0
  }

  /** Every entry once, oldest first; ties in any order. */
  ghost predicate ByAge(order: seq<Hash>, m: Index) {
    OldestToNewest(order, AgeIn(m)) && forall h :: h in order <==> h in m
  }

  // ------------------------------------------------------------------
  // what an eviction may do
  // ------------------------------------------------------------------

  /** Nothing that stays, apart from the new block, was used before anything that goes. */
  ghost predicate OldestFirst(m: Index, fresh': Hash, victims: set<Hash>) {
    && victims <= m.Keys - {fresh'}
    && forall v, k :: v in victims && k in m && k !in victims && k != fresh' ==> m[v].lastUsed <= m[k].lastUsed
  }

  /** Without its youngest victim the eviction would have stopped short of the cap. */
  ghost predicate NoMoreThanNeeded(m: Index, victims: set<Hash>, cap: nat) {
    victims == {} || exists v :: IsLastVictim(m, victims, cap, v)
  }

  ghost predicate IsLastVictim(m: Index, victims: set<Hash>, cap: nat, v: Hash) {
    && v in victims && v in m
    && (forall u <- victims :: u in m && m[u].lastUsed <= m[v].lastUsed)
    && Total(m - victims) + m[v].size > cap
  }

  /** A correct eviction: within the cap unless only the new block is left, oldest first,
      and no more than needed. */
  ghost predicate Evicts(m: Index, fresh': Hash, victims: set<Hash>, cap: nat) {
    && OldestFirst(m, fresh', victims)
    && (Total(m - victims) <= cap || (m - victims).Keys <= {fresh'})
    && NoMoreThanNeeded(m, victims, cap)
  }

  ghost predicate DistinctAges(m: Index) {
    forall j, k :: j in m && k in m && j != k ==> m[j].lastUsed != m[k].lastUsed
  }

  /** Stopping short of a correct eviction leaves more than the cap, and something to evict. */
  lemma StoppingShort(m: Index, fresh': Hash, a: set<Hash>, b: set<Hash>, cap: nat)
    requires OldestFirst(m, fresh', a) && Evicts(m, fresh', b, cap) && DistinctAges(m)
    requires a < b
    ensures Total(m - a) > cap && !((m - a).Keys <= {fresh'})
  {
    var x :| x in b && x !in a;
    var v :| IsLastVictim(m, b, cap, v);
    assert m[x].lastUsed <= m[v].lastUsed;
    assert v !in a;
    var kept := m - a;
    assert v in kept.Keys && v != fresh';
    TotalMinus(kept, v);
    TotalShrinks(kept - {v}, b);
    assert kept - {v} - b == m - b;
  }

  lemma OldestFirstIsAPrefix(m: Index, fresh': Hash, a: set<Hash>, b: set<Hash>)
    requires OldestFirst(m, fresh', a) && OldestFirst(m, fresh', b) && DistinctAges(m)
    ensures a <= b || b <= a
  {
    if x :| x in a && x !in b {
      forall y | y in b
        ensures y in a
      {
        assert x in m && y in m && x != fresh' && y != fresh';
      }
    }
  }

  /** When no two blocks were last used at the same time, a correct eviction has no choice. */
  lemma EvictionIsDetermined(m: Index, fresh': Hash, a: set<Hash>, b: set<Hash>, cap: nat)
    requires Evicts(m, fresh', a, cap) && Evicts(m, fresh', b, cap) && DistinctAges(m)
    ensures a == b
  {
    OldestFirstIsAPrefix(m, fresh', a, b);
    if a < b {
      StoppingShort(m, fresh', a, b, cap);
    } else if b < a {
      StoppingShort(m, fresh', b, a, cap);
    }
  }

  // ------------------------------------------------------------------
  // the cache
  // ------------------------------------------------------------------

  /** The block files, the index in memory, and the index as it was last written out. */
  datatype CacheState = CacheState(blocks: map<Hash, Bytes>, entries: Index, saved: Index)

  /** The index names exactly the stored hashes, with true sizes, and every block is intact. */
  ghost predicate Describes(w: World, entries: Index, blocks: map<Hash, Bytes>) {
    && entries.Keys == blocks.Keys
    && forall h <- blocks :: VerifyBytes(w, blocks[h], h).Ok? && entries[h].size == |blocks[h]|
  }

  /** The index in memory and the one a restart will find both describe the store. */
  ghost predicate Agree(w: World, s: CacheState) {
    Describes(w, s.entries, s.blocks) && Describes(w, s.saved, s.blocks)
  }

  /** `get` as a step: at most the time of last use changes, and only in memory. */
  ghost predicate GetStep(w: World, s: CacheState, s': CacheState, h: Hash, now: nat, r: Result<Bytes>) {
    if h in s.blocks && VerifyBytes(w, s.blocks[h], h).Ok? then
      && r == Ok(s.blocks[h])
      && s' == s.(entries := s.entries[h := Entry(now, if h in s.entries then s.entries[h].size else |s.blocks[h]|)])
    else r.Err? && s' == s
  }

  /** The files a removal of these names takes away; a malformed name is not a file. */
  ghost function Files(w: World, names: set<Hash>): set<Hash> {
    set h | h in names && w.isHash(h)
  }

  /** `put` as a step: insert, then one correct eviction from index and store alike, then the
      index is written out. */
  ghost predicate PutStep(w: World, s: CacheState, s': CacheState, h: Hash, bytes: Bytes, now: nat, cap: nat, victims: set<Hash>, r: Result<()>) {
    && r == VerifyBytes(w, bytes, h)
    && (r.Err? ==> s' == s)
    && (r.Ok? ==>
          var entries := s.entries[h := Entry(now, |bytes|)];
          && Evicts(entries, h, victims, cap)
          && s'.entries == entries - victims
          && s'.blocks == s.blocks[h := bytes] - Files(w, victims)
          && s'.saved == s'.entries)
  }

  /** A restart: the index comes from its file. */
  ghost predicate ReopenStep(s: CacheState, s': CacheState) {
    s' == s.(entries := s.saved)
  }

  /** The index file; nothing when it is absent or does not parse. */
  class IndexFile {
    var index: Option<Index>

    constructor ()
      ensures index.None?
    {
      index := None;
    }

    ghost function Saved(): Index
      reads this
    {
      if index.Some? then index.value else map[]
    }
  }

  class CdnCache {
    const store: BlockStore
    const file: IndexFile
    var entries: Index
    const maxBytes: nat

    ghost function State(): CacheState
      reads this, store, file
    {
      CacheState(store.blocks, entries, file.Saved())
    }

    /** `new`: whatever the index file says, true or not. */
    constructor (store: BlockStore, file: IndexFile, maxBytes: nat)
      ensures this.store == store && this.file == file && this.maxBytes == maxBytes
      ensures State() == CacheState(store.blocks, file.Saved(), file.Saved())
    {
      this.store, this.file, this.maxBytes := store, file, maxBytes;
      entries := if file.index.Some? then file.index.value else map[];
    }

    method Get(h: Hash, now: nat) returns (r: Result<Bytes>)
      modifies this
      ensures GetStep(store.w, old(State()), State(), h, now, r)
    {
      r := store.Get(h);
      if r.Ok? {
        var size := if h in entries then entries[h].size else |r.value|;
        entries := entries[h := Entry(now, size)];
      }
    }

    method Put(h: Hash, bytes: Bytes, now: nat) returns (r: Result<()>, ghost victims: set<Hash>)
      modifies this, store, file
      ensures PutStep(store.w, old(State()), State(), h, bytes, now, maxBytes, victims, r)
      ensures old(Agree(store.w, State())) ==> Agree(store.w, State())
    {
      victims := {};
      r := store.Put(h, bytes);
      if r.Ok? {
        entries := entries[h := Entry(now, |bytes|)];
        victims := EvictOldest(h);
        file.index := Some(entries);
      }
      PutKeepsAgreement(store.w, old(State()), State(), h, bytes, now, maxBytes, victims, r);
    }

    /** Out of store and index; a file that is not there is no error. */
    method Drop(victim: Hash)
      modifies this, store
      ensures entries == old(entries) - {victim}
      ensures store.blocks == old(store.blocks) - Files(store.w, {victim})
    {
      var _ := store.Remove(victim);
      entries := entries - {victim};
      assert Files(store.w, {victim}) == if store.w.isHash(victim) then {victim} else {};
    }

    method EvictOldest(h: Hash) returns (ghost victims: set<Hash>)
      requires h in entries
      modifies this, store
      ensures Evicts(old(entries), h, victims, maxBytes)
      ensures entries == old(entries) - victims
      ensures store.blocks == old(store.blocks) - Files(store.w, victims)
    {
      var total := SumSizes(entries);
      if total <= maxBytes {
        victims := {};
        assert entries - {} == entries && store.blocks - Files(store.w, {}) == store.blocks;
        return;
      }
      var order := SortByAge(entries.Keys, AgeIn(entries));
      assert ByAge(order, entries);
      victims := EvictInOrder(h, order, total);
    }

    /** The running total is lowered victim by victim and never falls below zero. */
    method EvictInOrder(h: Hash, order: seq<Hash>, sum: nat) returns (ghost victims: set<Hash>)
      requires ByAge(order, entries) && sum == Total(entries)
      modifies this, store
      ensures Evicts(old(entries), h, victims, maxBytes)
      ensures entries == old(entries) - victims
      ensures store.blocks == old(store.blocks) - Files(store.w, victims)
    {
      var byAge := entries;
      var total := sum;
      victims := {};
      NothingPassed(byAge, h, order, maxBytes);
      NothingGone(entries);
      NoFilesGone(store.w, store.blocks);
      hide *;
      for i := 0 to |order|
        invariant victims == Passed(order, i, h)
        invariant entries == byAge - victims && store.blocks == old(store.blocks) - Files(store.w, victims)
        invariant total == Total(entries)
        invariant NoMoreThanNeeded(byAge, victims, maxBytes)
      {
        if total <= maxBytes {
          EvictedEnough(byAge, h, order, i, maxBytes);
          return;
        }
        var victim := order[i];
        NextVictim(byAge, h, order, i, maxBytes);
        if victim != h {
          TotalMinus(entries, victim);
          Drop(victim);
          total := total - byAge[victim].size;
          Grown(byAge, victims, {victim});
          Grown(old(store.blocks), Files(store.w, victims), Files(store.w, {victim}));
          FilesGrown(store.w, victims, {victim});
          victims := victims + {victim};
        }
      }
      EvictedAll(byAge, h, order, maxBytes);
    }
  }

  lemma NoFilesGone(w: World, blocks: map<Hash, Bytes>)
    ensures blocks - Files(w, {}) == blocks
  {
  }

  lemma FilesGrown(w: World, a: set<Hash>, b: set<Hash>)
    ensures Files(w, a + b) == Files(w, a) + Files(w, b)
  {
  }

  lemma NothingPassed(m: Index, fresh': Hash, order: seq<Hash>, cap: nat)
    ensures Passed(order, 0, fresh') == {} && NoMoreThanNeeded(m, {}, cap)
  {
  }

  lemma NothingGone<V>(m: map<Hash, V>)
    ensures m - {} == m
  {
  }

  lemma Grown<V>(m: map<Hash, V>, gone: set<Hash>, more: set<Hash>)
    ensures m - gone - more == m - (gone + more)
  {
  }

  /** The victims among the first `i` in age order. */
  ghost function Passed(order: seq<Hash>, i: nat, fresh': Hash): set<Hash>
    requires i <= |order|
  {
    set j | 0 <= j < i && order[j] != fresh' :: order[j]
  }

  lemma PassedIsOldest(m: Index, fresh': Hash, order: seq<Hash>, i: nat)
    requires ByAge(order, m) && i <= |order|
    ensures OldestFirst(m, fresh', Passed(order, i, fresh'))
  {
    var victims := Passed(order, i, fresh');
    forall v | v in victims
      ensures v in m
    {
      assert v in order;
    }
    forall v, k | v in victims && k in m && k !in victims && k != fresh'
      ensures m[v].lastUsed <= m[k].lastUsed
    {
      var a :| 0 <= a < i && order[a] == v;
      assert k in order && v in order;
      var b :| 0 <= b < |order| && order[b] == k;
      assert b >= i;
      assert AgeIn(m)(order[a]) <= AgeIn(m)(order[b]);
    }
  }

  lemma EvictedEnough(m: Index, fresh': Hash, order: seq<Hash>, i: nat, cap: nat)
    requires ByAge(order, m) && i <= |order|
    requires Total(m - Passed(order, i, fresh')) <= cap
    requires NoMoreThanNeeded(m, Passed(order, i, fresh'), cap)
    ensures Evicts(m, fresh', Passed(order, i, fresh'), cap)
  {
    PassedIsOldest(m, fresh', order, i);
  }

  lemma EvictedAll(m: Index, fresh': Hash, order: seq<Hash>, cap: nat)
    requires ByAge(order, m)
    requires NoMoreThanNeeded(m, Passed(order, |order|, fresh'), cap)
    ensures Evicts(m, fresh', Passed(order, |order|, fresh'), cap)
  {
    PassedIsOldest(m, fresh', order, |order|);
    forall k | k in m - Passed(order, |order|, fresh')
      ensures k == fresh'
    {
      assert k in order;
    }
  }

  lemma PassedStep(m: Index, fresh': Hash, order: seq<Hash>, i: nat)
    requires ByAge(order, m) && i < |order|
    ensures order[i] in m && order[i] !in Passed(order, i, fresh')
    ensures Passed(order, i + 1, fresh') == Passed(order, i, fresh') + if order[i] == fresh' then {} else {order[i]}
    ensures forall u <- Passed(order, i + 1, fresh') :: u in m && m[u].lastUsed <= m[order[i]].lastUsed
  {
    assert order[i] in order;
    forall u | u in Passed(order, i + 1, fresh')
      ensures u in m && m[u].lastUsed <= m[order[i]].lastUsed
    {
      var j :| 0 <= j < i + 1 && order[j] == u;
      assert order[j] in order;
      assert j < i ==> AgeIn(m)(order[j]) <= AgeIn(m)(order[i]);
    }
  }

  /** While the total is above the cap, the next oldest block is a justified victim. */
  lemma NextVictim(m: Index, fresh': Hash, order: seq<Hash>, i: nat, cap: nat)
    requires ByAge(order, m) && i < |order|
    requires Total(m - Passed(order, i, fresh')) > cap
    requires NoMoreThanNeeded(m, Passed(order, i, fresh'), cap)
    ensures order[i] in m && order[i] !in Passed(order, i, fresh')
    ensures Passed(order, i + 1, fresh') == Passed(order, i, fresh') + if order[i] == fresh' then {} else {order[i]}
    ensures NoMoreThanNeeded(m, Passed(order, i + 1, fresh'), cap)
  {
    PassedStep(m, fresh', order, i);
    hide Passed;
    hide ByAge;
    hide Total;
    var v, before, after := order[i], Passed(order, i, fresh'), Passed(order, i + 1, fresh');
    if v == fresh' {
      assert after == before;
    } else {
      Grown(m, before, {v});
      TotalMinus(m - before, v);
      assert IsLastVictim(m, after, cap, v);
    }
  }

  // ------------------------------------------------------------------
  // runs
  // ------------------------------------------------------------------

  datatype CacheStep =
    | GetOf(h: Hash, now: nat, got: Result<Bytes>)
    | PutOf(h: Hash, bytes: Bytes, now: nat, victims: set<Hash>, done: Result<()>)
    | Reopen

  ghost predicate Steps(w: World, s: CacheState, s': CacheState, step: CacheStep, cap: nat) {
    match step
    case GetOf(h, now, r) => GetStep(w, s, s', h, now, r)
    case PutOf(h, bytes, now, victims, r) => PutStep(w, s, s', h, bytes, now, cap, victims, r)
    case Reopen => ReopenStep(s, s')
  }

  /** A run of gets, puts and restarts from the empty cache, with ties resolved in any way and clocks of any kind. */
  ghost predicate IsRun(w: World, states: seq<CacheState>, steps: seq<CacheStep>, cap: nat) {
    && |states| == |steps| + 1
    && states[0] == CacheState(map[], map[], map[])
    && forall i :: 0 <= i < |steps| ==> Steps(w, states[i], states[i + 1], steps[i], cap)
  }

  lemma PutKeepsAgreement(w: World, s: CacheState, s': CacheState, h: Hash, bytes: Bytes, now: nat, cap: nat, victims: set<Hash>, r: Result<()>)
    requires PutStep(w, s, s', h, bytes, now, cap, victims, r)
    ensures Agree(w, s) ==> Agree(w, s')
  {
    if Agree(w, s) && r.Ok? {
      hide NoMoreThanNeeded;
      hide Total;
      var entries, blocks := s.entries[h := Entry(now, |bytes|)], s.blocks[h := bytes];
      assert Describes(w, entries, blocks);
      forall v | v in victims
        ensures v in Files(w, victims)
      {
        assert v in blocks && VerifyBytes(w, blocks[v], v).Ok?;
      }
      assert Files(w, victims) == victims;
      assert Describes(w, entries - victims, blocks - victims);
    }
  }

  lemma StepKeepsAgreement(w: World, s: CacheState, s': CacheState, step: CacheStep, cap: nat)
    requires Agree(w, s) && Steps(w, s, s', step, cap)
    ensures Agree(w, s')
  {
    if step.PutOf? {
      PutKeepsAgreement(w, s, s', step.h, step.bytes, step.now, cap, step.victims, step.done);
      hide Agree;
    }
  }

  /** Index and store agree after every step of every run, and so will what a restart finds. */
  lemma {:induction false} RunKeepsAgreement(w: World, states: seq<CacheState>, steps: seq<CacheStep>, cap: nat, i: nat)
    requires IsRun(w, states, steps, cap) && i <= |steps|
    ensures Agree(w, states[i])
  {
    if i > 0 {
      RunKeepsAgreement(w, states, steps, cap, i - 1);
      assert Steps(w, states[i - 1], states[i], steps[i - 1], cap);
      StepKeepsAgreement(w, states[i - 1], states[i], steps[i - 1], cap);
    }
  }

  /** What a crash inside a put costs: with the block written and the index not, the two agree
      after the restart exactly when the index knew the hash already. Otherwise the block is
      outside all accounting. */
  lemma TornPut(w: World, s: CacheState, h: Hash, bytes: Bytes)
    requires Lawful(w) && Agree(w, s) && VerifyBytes(w, bytes, h).Ok?
    ensures Agree(w, CacheState(s.blocks[h := bytes], s.saved, s.saved)) <==> h in s.saved
  {
    if h in s.saved {
      VerifiedBytesAgree(w, s.blocks[h], bytes, h);
      assert s.blocks[h := bytes] == s.blocks;
    }
  }

  ghost predicate WithinCap(entries: Index, cap: nat) {
    Total(entries) <= cap || |entries| <= 1
  }

  lemma TotalTouched(m: Index, h: Hash, now: nat)
    requires h in m
    ensures Total(m[h := Entry(now, m[h].size)]) == Total(m)
  {
    var touched := m[h := Entry(now, m[h].size)];
    TotalMinus(m, h);
    TotalMinus(touched, h);
    assert touched - {h} == m - {h};
  }

  /** Whatever the index said before, true or not, after a put it is within the cap or names the
      new block alone. */
  lemma PutRestoresCap(w: World, s: CacheState, s': CacheState, h: Hash, bytes: Bytes, now: nat, cap: nat, victims: set<Hash>)
    requires PutStep(w, s, s', h, bytes, now, cap, victims, Ok(()))
    ensures Total(s'.entries) <= cap || s'.entries == map[h := Entry(now, |bytes|)]
    ensures WithinCap(s'.entries, cap) && WithinCap(s'.saved, cap)
  {
    var m := s.entries[h := Entry(now, |bytes|)];
    assert OldestFirst(m, h, victims) && (Total(m - victims) <= cap || (m - victims).Keys <= {h});
    hide *;
    SparesTheNew(m, h, victims);
    NewAlone(m - victims, h, m[h]);
  }

  lemma SparesTheNew(m: Index, h: Hash, victims: set<Hash>)
    requires OldestFirst(m, h, victims) && h in m
    ensures h in m - victims && (m - victims)[h] == m[h]
  {
  }

  lemma NewAlone(m: Index, h: Hash, e: Entry)
    requires h in m && m[h] == e
    ensures m.Keys <= {h} ==> m == map[h := e]
    ensures forall cap :: Total(m) <= cap || m.Keys <= {h} ==> WithinCap(m, cap)
  {
    hide Total;
    if m.Keys <= {h} {
      AtMostOne(m, h);
    }
  }

  lemma GetStaysWithinCap(w: World, s: CacheState, s': CacheState, h: Hash, now: nat, cap: nat, r: Result<Bytes>)
    requires Agree(w, s) && WithinCap(s.entries, cap) && GetStep(w, s, s', h, now, r)
    ensures WithinCap(s'.entries, cap) && s'.saved == s.saved
  {
    if r.Ok? {
      TotalTouched(s.entries, h, now);
      assert s'.entries.Keys == s.entries.Keys;
      SameSize(s'.entries, s.entries);
    }
  }

  lemma SameSize(a: Index, b: Index)
    requires a.Keys == b.Keys
    ensures |a| == |b|
  {
    assert |a| == |a.Keys| && |b| == |b.Keys|;
  }

  lemma AtMostOne(m: Index, h: Hash)
    requires m.Keys <= {h}
    ensures |m| <= 1
  {
    assert m.Keys == {} || m.Keys == {h};
    assert |m| == |m.Keys|;
  }

  lemma StepStaysWithinCap(w: World, s: CacheState, s': CacheState, step: CacheStep, cap: nat)
    requires Agree(w, s) && Steps(w, s, s', step, cap)
    requires WithinCap(s.entries, cap) && WithinCap(s.saved, cap)
    ensures WithinCap(s'.entries, cap) && WithinCap(s'.saved, cap)
  {
    hide Agree;
    hide WithinCap;
    hide Evicts;
    match step
    case GetOf(h, now, r) => GetStaysWithinCap(w, s, s', h, now, cap, r);
    case PutOf(h, bytes, now, victims, r) =>
      if r.Ok? {
        PutRestoresCap(w, s, s', h, bytes, now, cap, victims);
      }
    case Reopen =>
  }

  lemma FreshIsWithinCap(cap: nat)
    ensures WithinCap(map[], cap)
  {
  }

  /** Over every run the index, in memory and on disk, stays within the cap or names a single block. */
  lemma {:induction false} RunStaysWithinCap(w: World, states: seq<CacheState>, steps: seq<CacheStep>, cap: nat, i: nat)
    requires IsRun(w, states, steps, cap) && i <= |steps|
    ensures WithinCap(states[i].entries, cap) && WithinCap(states[i].saved, cap)
  {
    hide Agree;
    hide WithinCap;
    if i == 0 {
      FreshIsWithinCap(cap);
    } else {
      RunStaysWithinCap(w, states, steps, cap, i - 1);
      RunKeepsAgreement(w, states, steps, cap, i - 1);
      StepOfRun(w, states, steps, cap, i - 1);
      hide Steps;
      StepStaysWithinCap(w, states[i - 1], states[i], steps[i - 1], cap);
    }
  }

  lemma StepOfRun(w: World, states: seq<CacheState>, steps: seq<CacheStep>, cap: nat, i: nat)
    requires IsRun(w, states, steps, cap) && i < |steps|
    ensures Steps(w, states[i], states[i + 1], steps[i], cap)
  {
    hide Steps;
  }
}
