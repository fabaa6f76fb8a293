/** The order of Rust strings and the key order of a `BTreeMap<String, _>`.
    UTF-8 keeps code-point order, so comparing characters is comparing bytes. */
module Ordering {

  predicate Below(a: string, b: string) {
    if a == "" then b != ""
    else b != "" && (a[0] < b[0] || (a[0] == b[0] && Below(a[1..], b[1..])))
  }

  predicate AtMost(a: string, b: string) {
    a == b || Below(a, b)
  }

  lemma {:induction false} BelowIrreflexive(a: string)
    ensures !Below(a, a)
  {
    if a != "" {
      BelowIrreflexive(a[1..]);
    }
  }

  lemma {:induction false} BelowTransitive(a: string, b: string, c: string)
    requires Below(a, b) && Below(b, c)
    ensures Below(a, c)
  {
    if a != "" && a[0] == b[0] && b[0] == c[0] {
      BelowTransitive(a[1..], b[1..], c[1..]);
    }
  }

  lemma {:induction false} BelowTotal(a: string, b: string)
    ensures a == b || Below(a, b) || Below(b, a)
  {
    if a != "" && b != "" && a[0] == b[0] {
      BelowTotal(a[1..], b[1..]);
      assert a == [a[0]] + a[1..];
      assert b == [b[0]] + b[1..];
    }
  }

  ghost predicate IsMin(s: set<string>, m: string) {
    m in s && forall x <- s :: AtMost(m, x)
  }

  lemma {:induction false} MinExists(s: set<string>) returns (m: string)
    requires s != {}
    ensures IsMin(s, m)
    decreases |s|
  {
    var x :| x in s;
    if s == {x} {
      m := x;
    } else {
      var rest := s - {x};
      assert rest != {};
      var m' := MinExists(rest);
      BelowTotal(x, m');
      m := if Below(x, m') then x else m';
      forall y | y in s
        ensures AtMost(m, y)
      {
        assert y != x ==> y in rest;
        if y != x && m == x && m' != y {
          BelowTransitive(x, m', y);
        }
      }
    }
  }

  ghost function Min(s: set<string>): (m: string)
    requires s != {}
    ensures IsMin(s, m)
  {
    var _ := MinExistsWitness(s);
    var m :| IsMin(s, m);
    m
  }

  ghost function MinExistsWitness(s: set<string>): bool
    requires s != {}
    ensures exists m :: IsMin(s, m)
  {
    assert exists m :: IsMin(s, m) by {
      var m := MinExists(s);
    }
    true
  }

  /** The keys of a `BTreeMap` in iteration order. */
  ghost function SortedKeys(s: set<string>): (r: seq<string>)
    ensures forall k :: k in r <==> k in s
    ensures |r| == |s|
    decreases |s|
  {
    if s == {} then []
    else
      var m := Min(s);
      [m] + SortedKeys(s - {m})
  }

  predicate StrictlySorted(r: seq<string>) {
    forall i, j :: 0 <= i < j < |r| ==> Below(r[i], r[j])
  }

  lemma {:induction false} SortedKeysAreSorted(s: set<string>)
    ensures StrictlySorted(SortedKeys(s))
    decreases |s|
  {
    if s != {} {
      var m := Min(s);
      var rest := SortedKeys(s - {m});
      SortedKeysAreSorted(s - {m});
      forall j | 0 <= j < |rest|
        ensures Below(m, rest[j])
      {
        assert rest[j] in rest;
      }
    }
  }

  /** Two strictly sorted sequences of the same keys are the same sequence. */
  lemma {:induction false} SortedUnique(r: seq<string>, q: seq<string>)
    requires StrictlySorted(r) && StrictlySorted(q)
    requires forall k :: k in r <==> k in q
    ensures r == q
  {
    assert q != [] ==> q[0] in q;
    if r != [] {
      assert r[0] in r;
      assert q != [];
      HeadsAgree(r, q);
      forall k
        ensures k in r[1..] <==> k in q[1..]
      {
        TailMembers(r, k);
        TailMembers(q, k);
      }
      assert StrictlySorted(r[1..]) && StrictlySorted(q[1..]);
      SortedUnique(r[1..], q[1..]);
      assert r == [r[0]] + r[1..];
      assert q == [q[0]] + q[1..];
    }
  }

  lemma HeadsAgree(r: seq<string>, q: seq<string>)
    requires StrictlySorted(r) && StrictlySorted(q) && r != [] && q != []
    requires forall k :: k in r <==> k in q
    ensures r[0] == q[0]
  {
    assert r[0] in q && q[0] in r;
    if r[0] != q[0] {
      BelowTransitive(r[0], q[0], r[0]);
      BelowIrreflexive(r[0]);
    }
  }

  lemma TailMembers(r: seq<string>, k: string)
    requires StrictlySorted(r) && r != []
    ensures k in r[1..] <==> k in r && k != r[0]
  {
    if k in r[1..] {
      var i :| 0 < i < |r| && r[i] == k;
      BelowIrreflexive(k);
    }
    if k in r && k != r[0] {
      var i :| 0 <= i < |r| && r[i] == k;
      assert r[1..][i - 1] == k;
    }
  }

  /** Insert a new key at its place. */
  function Insert(r: seq<string>, k: string): (q: seq<string>)
    ensures forall x :: x in q <==> x in r || x == k
  {
    if r == [] then [k]
    else if Below(k, r[0]) then [k] + r
    else [r[0]] + Insert(r[1..], k)
  }

  lemma {:induction false} InsertKeepsSorted(r: seq<string>, k: string)
    requires StrictlySorted(r) && k !in r
    ensures StrictlySorted(Insert(r, k))
  {
    if r != [] {
      if Below(k, r[0]) {
        forall j | 0 <= j < |r|
          ensures Below(k, r[j])
        {
          if j > 0 {
            BelowTransitive(k, r[0], r[j]);
          }
        }
      } else {
        var q := Insert(r[1..], k);
        InsertKeepsSorted(r[1..], k);
        BelowTotal(k, r[0]);
        forall j | 0 <= j < |q|
          ensures Below(r[0], q[j])
        {
          assert q[j] in q;
        }
      }
    }
  }

  /** Sorting by insertion visits the keys in any order and ends in the one sorted order. */
  method SortKeys(s: set<string>) returns (r: seq<string>)
    ensures r == SortedKeys(s)
  {
    r := [];
    var rest := s;
    while rest != {}
      invariant rest <= s
      invariant forall k :: k in r <==> k in s && k !in rest
      invariant StrictlySorted(r)
      decreases |rest|
    {
      var k :| k in rest;
      InsertKeepsSorted(r, k);
      r := Insert(r, k);
      rest := rest - {k};
    }
    SortedKeysAreSorted(s);
    SortedUnique(r, SortedKeys(s));
  }
}
