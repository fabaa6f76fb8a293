/** JSON objects as serde derives them from structs, maps and enumerations. */
module Documents {
  import opened Prelude
  import opened Json
  import opened Records
  import opened Canonical
  import Ordering

  // ------------------------------------------------------------------
  // structs
  // ------------------------------------------------------------------

  /** One struct field; a skipped field has no value. */
  datatype Slot = Slot(key: string, value: Option<Value>)

  function Present(slots: seq<Slot>): seq<Field> {
    if slots == [] then []
    else (if slots[0].value.Some? then [Field(slots[0].key, slots[0].value.value)] else []) + Present(slots[1..])
  }

  function ObjectOf(slots: seq<Slot>): Value {
    Object(Present(slots))
  }

  predicate DistinctSlots(slots: seq<Slot>) {
    forall i, j :: 0 <= i < j < |slots| ==> slots[i].key != slots[j].key
  }

  predicate SlotValues(slots: seq<Slot>) {
    forall i :: 0 <= i < |slots| ==> slots[i].value.Some? ==> IsValue(slots[i].value.value)
  }

  ghost predicate OptSame(a: Option<Value>, b: Option<Value>) {
    a.Some? == b.Some? && (a.Some? ==> Same(a.value, b.value))
  }

  lemma {:induction false} PresentKeys(slots: seq<Slot>, k: string)
    ensures k in Keys(Present(slots)) <==> exists i :: 0 <= i < |slots| && slots[i].key == k && slots[i].value.Some?
  {
    if slots != [] {
      var rest := slots[1..];
      PresentKeys(rest, k);
      HeadKeys(slots, k);
      if k in Keys(Present(rest)) {
        var i :| 0 <= i < |rest| && rest[i].key == k && rest[i].value.Some?;
        assert slots[i + 1] == rest[i];
      }
      forall i | 0 <= i < |slots| && slots[i].key == k && slots[i].value.Some?
        ensures k in Keys(Present(slots))
      {
        if i > 0 {
          assert rest[i - 1] == slots[i];
        }
      }
    }
  }

  lemma HeadKeys(slots: seq<Slot>, k: string)
    requires slots != []
    ensures k in Keys(Present(slots)) <==>
            (slots[0].value.Some? && k == slots[0].key) || k in Keys(Present(slots[1..]))
  {
    var fields, rest := Present(slots), Present(slots[1..]);
    var n := if slots[0].value.Some? then 1 else 0;
    assert fields[n..] == rest;
    forall i | 0 <= i < |rest|
      ensures rest[i].key in Keys(fields)
    {
      assert fields[i + n] == rest[i];
    }
    if n == 1 {
      assert fields[0].key == slots[0].key;
    }
  }

  /** A present field is found under its key. */
  lemma {:induction false} SlotFound(slots: seq<Slot>, i: nat)
    requires DistinctSlots(slots) && i < |slots| && slots[i].value.Some?
    ensures slots[i].key in Keys(Present(slots))
    ensures ValueAt(ObjectOf(slots), slots[i].key) == slots[i].value.value
  {
    PresentKeys(slots, slots[i].key);
    if i > 0 {
      var rest := slots[1..];
      assert rest[i - 1] == slots[i];
      SlotFound(rest, i - 1);
      if slots[0].value.Some? {
        assert Present(slots)[1..] == Present(rest);
      } else {
        assert Present(slots) == Present(rest);
      }
    }
  }

  /** Structs whose JSON is the same agree field by field. */
  lemma SlotsAgree(a: seq<Slot>, b: seq<Slot>, i: nat)
    requires |a| == |b| && DistinctSlots(a) && DistinctSlots(b)
    requires forall j :: 0 <= j < |a| ==> a[j].key == b[j].key
    requires Same(ObjectOf(a), ObjectOf(b)) && i < |a|
    ensures OptSame(a[i].value, b[i].value)
  {
    PresentKeys(a, a[i].key);
    PresentKeys(b, b[i].key);
    if a[i].value.Some? {
      SlotFound(a, i);
      SlotFound(b, i);
    }
  }

  predicate IsAtom(v: Option<Value>) {
    v.None? || (!v.value.Array? && !v.value.Object?)
  }

  lemma {:induction false} SlotsMakeValue(slots: seq<Slot>)
    requires DistinctSlots(slots) && SlotValues(slots)
    ensures IsValue(ObjectOf(slots))
  {
    if slots != [] {
      var rest := slots[1..];
      SlotsMakeValue(rest);
      var fields := Present(slots);
      if slots[0].value.Some? {
        assert fields[1..] == Present(rest);
        forall i | 0 < i < |fields|
          ensures fields[i].key != slots[0].key && IsValue(fields[i].value)
        {
          assert fields[i] == Present(rest)[i - 1];
          assert Present(rest)[i - 1].key in Keys(Present(rest));
          PresentKeys(rest, fields[i].key);
          var j :| 0 <= j < |rest| && rest[j].key == fields[i].key && rest[j].value.Some?;
          assert slots[j + 1] == rest[j];
        }
        forall i, j | 0 <= i < j < |fields|
          ensures fields[i].key != fields[j].key
        {
          assert i > 0 ==> fields[i] == Present(rest)[i - 1] && fields[j] == Present(rest)[j - 1];
        }
      } else {
        assert fields == Present(rest);
      }
    }
  }

  // ------------------------------------------------------------------
  // structs by field names and field values
  // ------------------------------------------------------------------

  type Fields = seq<Option<Value>>

  function Slots(keys: seq<string>, fields: Fields): seq<Slot>
    requires |keys| == |fields|
  {
    seq(|keys|, i requires 0 <= i < |keys| => Slot(keys[i], fields[i]))
  }

  function Struct(keys: seq<string>, fields: Fields): Value
    requires |keys| == |fields|
  {
    ObjectOf(Slots(keys, fields))
  }

  predicate Distinct(keys: seq<string>) {
    forall i, j :: 0 <= i < j < |keys| ==> keys[i] != keys[j]
  }

  /** Text, number and null fields agree outright, the others as JSON values. */
  ghost predicate FieldsAgree(a: Fields, b: Fields) {
    && |a| == |b|
    && (forall i :: 0 <= i < |a| ==> OptSame(a[i], b[i]))
    && (forall i :: 0 <= i < |a| && IsAtom(a[i]) ==> a[i] == b[i])
  }

  lemma StructsAgree(keys: seq<string>, a: Fields, b: Fields)
    requires |keys| == |a| == |b| && Distinct(keys)
    requires Same(Struct(keys, a), Struct(keys, b))
    ensures FieldsAgree(a, b)
  {
    var x, y := Slots(keys, a), Slots(keys, b);
    forall i | 0 <= i < |a|
      ensures OptSame(a[i], b[i])
      ensures IsAtom(a[i]) ==> a[i] == b[i]
    {
      SlotsAgree(x, y, i);
    }
  }

  /** The discriminating first field agrees even between structs of different types. */
  lemma TagsAgree(keys: seq<string>, a: Fields, others: seq<string>, b: Fields)
    requires |keys| == |a| > 0 && |others| == |b| > 0 && Distinct(keys) && Distinct(others)
    requires keys[0] == others[0] && a[0].Some? && b[0].Some?
    requires Same(Struct(keys, a), Struct(others, b))
    ensures Same(a[0].value, b[0].value)
  {
    SlotFound(Slots(keys, a), 0);
    SlotFound(Slots(others, b), 0);
  }

  /** Text or null. */
  predicate IsPlain(f: Option<Value>) {
    f.None? || f.value.Null? || f.value.Str?
  }

  lemma StructMakesValue(keys: seq<string>, fields: Fields)
    requires |keys| == |fields| && Distinct(keys)
    requires forall i :: 0 <= i < |fields| ==> IsPlain(fields[i]) || OptIsValue(fields[i])
    ensures IsValue(Struct(keys, fields))
  {
    SlotsMakeValue(Slots(keys, fields));
  }

  // ------------------------------------------------------------------
  // maps and options
  // ------------------------------------------------------------------

  /** A `BTreeMap` with string keys. */
  ghost function MapJson<R>(m: map<string, R>, f: R -> Value): Value {
    var ks := Ordering.SortedKeys(m.Keys);
    Object(seq(|ks|, i requires 0 <= i < |ks| => assert ks[i] in ks; Field(ks[i], f(m[ks[i]]))))
  }

  lemma MapField<R>(m: map<string, R>, f: R -> Value, k: string)
    ensures k in Keys(MapJson(m, f).fields) <==> k in m
    ensures k in m ==> ValueAt(MapJson(m, f), k) == f(m[k])
  {
    var ks := Ordering.SortedKeys(m.Keys);
    var fields := MapJson(m, f).fields;
    if k in m {
      assert k in ks;
      var i :| 0 <= i < |ks| && ks[i] == k;
      assert fields[i].key == k;
    }
  }

  lemma MapsAgree<R>(a: map<string, R>, b: map<string, R>, f: R -> Value)
    requires Same(MapJson(a, f), MapJson(b, f))
    ensures a.Keys == b.Keys
    ensures forall k <- a :: Same(f(a[k]), f(b[k]))
  {
    forall k
      ensures k in a <==> k in b
      ensures k in a ==> Same(f(a[k]), f(b[k]))
    {
      MapField(a, f, k);
      MapField(b, f, k);
    }
  }

  lemma MapMakesValue<R>(m: map<string, R>, f: R -> Value)
    requires forall k <- m :: IsValue(f(m[k]))
    ensures IsValue(MapJson(m, f))
  {
    var ks := Ordering.SortedKeys(m.Keys);
    Ordering.SortedKeysAreSorted(m.Keys);
    var fields := MapJson(m, f).fields;
    forall i, j | 0 <= i < j < |fields|
      ensures fields[i].key != fields[j].key
    {
      Ordering.BelowIrreflexive(ks[i]);
    }
    forall i | 0 <= i < |fields|
      ensures IsValue(fields[i].value)
    {
      assert ks[i] in ks;
    }
  }

  function OptText(s: Option<string>): Option<Value> {
    if s.Some? then Some(Str(s.value)) else None
  }

  /** A field without `skip_serializing_if`: null when absent. */
  function NullableText(s: Option<string>): Value {
    if s.Some? then Str(s.value) else Null
  }

  function Txt(s: string): Option<Value> {
    Some(Str(s))
  }

  function Int(n: u64): Option<Value> {
    Some(Num(PosInt(n)))
  }

  predicate OptIsValue(v: Option<Value>) {
    v.Some? ==> IsValue(v.value)
  }

  // ------------------------------------------------------------------
  // enumerations
  // ------------------------------------------------------------------

  function TldStatusName(s: TldStatus): string {
    match s
    case Official => "official"
    case Delegated => "delegated"
    case Reserved => "reserved"
    case Blocked => "blocked"
    case Disabled => "disabled"
    case Pending => "pending"
    case Expired => "expired"
    case Revoked => "revoked"
  }

  function DomainStatusName(s: DomainStatus): string {
    match s
    case Active => "active"
    case Reserved => "reserved"
    case Pending => "pending"
    case Suspended => "suspended"
    case Expired => "expired"
    case Revoked => "revoked"
    case Transferred => "transferred"
  }

  function TldModeName(m: TldMode): string {
    match m
    case OfficialMode => "official"
    case DelegatedMode => "delegated"
    case ReservedMode => "reserved"
    case BlockedMode => "blocked"
  }

  function RegistryTypeName(t: RegistryType): string {
    match t
    case RootManaged => "root_managed"
    case DelegatedManifest => "delegated_manifest"
    case DelegatedNative => "delegated_native"
    case DelegatedHttp => "delegated_http"
    case OfflineManual => "offline_manual"
  }

  function TargetTypeName(t: TargetType): string {
    match t
    case ManifestTarget => "manifest"
    case ServiceTarget => "service"
    case NodeTarget => "node"
    case RedirectTarget => "redirect"
    case PlaceholderTarget => "placeholder"
  }

  function RoleName(r: ActorRole): string {
    match r
    case RootRole => "root"
    case TldOperatorRole => "tld-operator"
    case DomainOwnerRole => "domain-owner"
  }

  function ActionName(k: ActionKind): string {
    match k
    case PublishKind => "domain.publish"
    case UpdateManifestKind => "domain.update_manifest"
    case SetDomainStatusKind => "domain.set_status"
    case IssueKind => "domain.issue"
    case DelegateKind => "tld.delegate"
    case CreateKind => "tld.create"
    case ReserveKind => "tld.reserve"
    case BlockKind => "tld.block"
    case UpdateTldKind => "tld.update"
    case SetTldStatusKind => "tld.set_status"
    case UpdatePointerKind => "tld.update_registry_pointer"
    case RootInitKind => "root.init"
  }


}
