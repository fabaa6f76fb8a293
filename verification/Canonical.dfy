/** Canonical JSON (`federate_core::canonical`): compact text with object keys sorted at every
    level, the form every signature and every content id is computed over. */
module Canonical {
  import opened Prelude
  import opened Json
  import opened Unicode
  import Ordering

  // ------------------------------------------------------------------
  // strings, as section 7 of RFC 8259 escapes them
  // ------------------------------------------------------------------

  function HexDigit(n: int): char
    requires 0 <= n < 16
  {
    if n < 10 then ('0' as int + n) as char else ('a' as int + n - 10) as char
  }

  /** Only what must be escaped is, in the short form where there is one. */
  function EscapeChar(c: char): string {
    if c == '"' then "\\\""
    else if c == '\\' then "\\\\"
    else if c == '\U{8}' then "\\b"
    else if c == '\U{c}' then "\\f"
    else if c == '\n' then "\\n"
    else if c == '\r' then "\\r"
    else if c == '\t' then "\\t"
    else if c < ' ' then "\\u00" + [HexDigit(c as int / 16), HexDigit(c as int % 16)]
    else [c]
  }

  function Escape(s: string): string {
    if s == "" then "" else EscapeChar(s[0]) + Escape(s[1..])
  }

  function Quote(s: string): string {
    "\"" + Escape(s) + "\""
  }

  // ------------------------------------------------------------------
  // numbers
  // ------------------------------------------------------------------

  function Digits(n: nat): string {
    if n < 10 then [HexDigit(n)] else Digits(n / 10) + [HexDigit(n % 10)]
  }

  function NumberText(n: Number): string {
    match n
    case PosInt(n) => Digits(n)
    case NegInt(m) => "-" + Digits(if m < 0 then -m else m)
    case Float(text) => text
  }

  predicate IsNumberChar(c: char) {
    '0' <= c <= '9' || c == '-' || c == '+' || c == '.' || c == 'e'
  }

  /** The widths serde_json keeps, and the shape in which a finite float prints. */
  predicate IsNumber(n: Number) {
    match n
    case PosInt(n) => n <= MAX_U64
    case NegInt(m) => -0x8000_0000_0000_0000 <= m < 0
    case Float(text) =>
      && text != "" && ('0' <= text[0] <= '9' || text[0] == '-')
      && (forall c <- text :: IsNumberChar(c))
      && ('.' in text || 'e' in text)
  }

  // ------------------------------------------------------------------
  // values
  // ------------------------------------------------------------------

  function Keys(fields: seq<Field>): set<string> {
    set i | 0 <= i < |fields| :: fields[i].key
  }

  function IndexOfKey(fields: seq<Field>, k: string): (i: nat)
    requires k in Keys(fields)
    ensures i < |fields| && fields[i].key == k
  {
    if fields[0].key == k then 0
    else
      assert Keys(fields) == Keys(fields[1..]) + {fields[0].key} by {
        assert forall i :: 0 < i < |fields| ==> fields[i] == fields[1..][i - 1];
      }
      1 + IndexOfKey(fields[1..], k)
  }

  predicate UniqueKeys(fields: seq<Field>) {
    forall i, j :: 0 <= i < j < |fields| ==> fields[i].key != fields[j].key
  }

  /** A value as serde_json can hold it. */
  predicate IsValue(v: Value) {
    match v
    case Num(n) => IsNumber(n)
    case Array(items) => forall i :: 0 <= i < |items| ==> IsValue(items[i])
    case Object(fields) => UniqueKeys(fields) && forall i :: 0 <= i < |fields| ==> IsValue(fields[i].value)
    case _ => true
  }

  /** `map[k]` */
  function ValueAt(v: Value, k: string): (r: Value)
    requires v.Object? && k in Keys(v.fields)
    ensures r < v
  {
    v.fields[IndexOfKey(v.fields, k)].value
  }

  /** The same value, with objects read as maps. */
  ghost predicate Same(a: Value, b: Value)
    decreases a
  {
    match (a, b)
    case (Array(items), Array(others)) =>
      |items| == |others| && forall i :: 0 <= i < |items| ==> Same(items[i], others[i])
    case (Object(fields), Object(others)) =>
      Keys(fields) == Keys(others) && forall k <- Keys(fields) :: Same(ValueAt(a, k), ValueAt(b, k))
    case _ => a == b
  }

  function Comma(i: nat): string {
    if i > 0 then "," else ""
  }

  /** The canonical text. */
  ghost function Text(v: Value): string
    decreases v, 1, 0
  {
    match v
    case Null => "null"
    case Bool(b) => if b then "true" else "false"
    case Num(n) => NumberText(n)
    case Str(s) => Quote(s)
    case Array(items) => "[" + Items(v, 0) + "]"
    case Object(fields) => "{" + Members(v, Ordering.SortedKeys(Keys(fields)), 0) + "}"
  }

  /** Array items from the `i`th on. */
  ghost function Items(v: Value, i: nat): string
    requires v.Array? && i <= |v.items|
    decreases v, 0, |v.items| - i
  {
    if i == |v.items| then "" else Comma(i) + Text(v.items[i]) + Items(v, i + 1)
  }

  /** Object members from the `i`th key on. */
  ghost function Members(v: Value, ks: seq<string>, i: nat): string
    requires v.Object? && i <= |ks| && forall k <- ks :: k in Keys(v.fields)
    decreases v, 0, |ks| - i
  {
    if i == |ks| then ""
    else
      assert ks[i] in ks;
      Comma(i) + Quote(ks[i]) + ":" + Text(ValueAt(v, ks[i])) + Members(v, ks, i + 1)
  }

  // ------------------------------------------------------------------
  // reading back without ambiguity
  // ------------------------------------------------------------------

  lemma {:induction false} DigitsAreDigits(n: nat)
    ensures Digits(n) != "" && forall i :: 0 <= i < |Digits(n)| ==> '0' <= Digits(n)[i] <= '9'
  {
    if n >= 10 {
      DigitsAreDigits(n / 10);
    }
  }

  lemma {:induction false} DigitsUnique(m: nat, n: nat)
    requires Digits(m) == Digits(n)
    ensures m == n
  {
    DigitsAreDigits(m / 10);
    DigitsAreDigits(n / 10);
    var d := Digits(m);
    if m < 10 || n < 10 {
      assert |d| == 1;
    } else {
      assert Digits(m / 10) == d[..|d| - 1] == Digits(n / 10);
      DigitsUnique(m / 10, n / 10);
      assert HexDigit(m % 10) == d[|d| - 1] == HexDigit(n % 10);
    }
  }

  lemma NumberChars(n: Number)
    requires IsNumber(n)
    ensures var t := NumberText(n);
            t != "" && ('0' <= t[0] <= '9' || t[0] == '-') && forall i :: 0 <= i < |t| ==> IsNumberChar(t[i])
  {
    match n
    case PosInt(n) => DigitsAreDigits(n);
    case NegInt(m) => DigitsAreDigits(-m);
    case Float(text) =>
      forall i | 0 <= i < |text|
        ensures IsNumberChar(text[i])
      {
        assert text[i] in text;
      }
  }

  /** No integer prints with a point or an exponent. */
  lemma IntegersHaveNoPoint(n: Number)
    requires IsNumber(n) && !n.Float?
    ensures '.' !in NumberText(n) && 'e' !in NumberText(n)
  {
    DigitsAreDigits(if n.PosInt? then n.n else -n.m);
  }

  lemma NumberUnique(a: Number, b: Number)
    requires IsNumber(a) && IsNumber(b) && NumberText(a) == NumberText(b)
    ensures a == b
  {
    if a.Float? || b.Float? {
      if !a.Float? {
        IntegersHaveNoPoint(a);
      } else if !b.Float? {
        IntegersHaveNoPoint(b);
      }
    } else {
      SignTells(a);
      SignTells(b);
      DigitsUnique(if a.PosInt? then a.n else -a.m, if b.PosInt? then b.n else -b.m);
    }
  }

  lemma SignTells(n: Number)
    requires IsNumber(n) && !n.Float?
    ensures NumberText(n) != "" && (NumberText(n)[0] == '-' <==> n.NegInt?)
    ensures n.NegInt? ==> NumberText(n)[1..] == Digits(-n.m)
  {
    DigitsAreDigits(if n.PosInt? then n.n else -n.m);
  }

  /** No escape is the beginning of another, and none begins with the closing quote. */
  lemma EscapePrefixFree(c: char, d: char, r: string, s: string)
    requires EscapeChar(c) + r == EscapeChar(d) + s
    ensures c == d && r == s
  {
    var t := EscapeChar(c) + r;
    assert t[0] == EscapeChar(c)[0] == EscapeChar(d)[0];
    if t[0] == '\\' {
      assert t[1] == EscapeChar(c)[1] == EscapeChar(d)[1];
      if t[1] == 'u' {
        assert t[4] == EscapeChar(c)[4] == EscapeChar(d)[4];
        assert t[5] == EscapeChar(c)[5] == EscapeChar(d)[5];
      }
    }
    assert EscapeChar(c) == EscapeChar(d);
    assert r == t[|EscapeChar(c)|..] == s;
  }

  /** The rest of a string literal: more characters, the closing quote, what follows. */
  function StringTail(s: string, r: string): string {
    Escape(s) + "\"" + r
  }

  lemma StringTailStep(s: string, r: string)
    ensures StringTail(s, r) != ""
    ensures s == "" ==> StringTail(s, r) == "\"" + r && StringTail(s, r)[0] == '"'
    ensures s != "" ==> StringTail(s, r) == EscapeChar(s[0]) + StringTail(s[1..], r) && StringTail(s, r)[0] != '"'
  {
    if s != "" {
      EscapeStart(s[0]);
      hide EscapeChar;
      Regroup("", EscapeChar(s[0]), Escape(s[1..]), "\"", r);
    }
  }

  lemma EscapeStart(c: char)
    ensures EscapeChar(c) != "" && EscapeChar(c)[0] != '"'
  {
  }

  lemma Regroup(a: string, b: string, c: string, d: string, e: string)
    ensures a + b + c + d + e == a + (b + (c + d + e))
    ensures "" + b == b
  {
    assert a + b + c + d + e == a + (b + (c + d + e));
  }

  lemma {:induction false} StringUnique(s: string, t: string, r: string, q: string)
    requires StringTail(s, r) == StringTail(t, q)
    ensures s == t && r == q
  {
    hide *;
    StringTailStep(s, r);
    StringTailStep(t, q);
    if s == "" {
      SplitsAlike("\"", r, "\"", q);
    } else {
      EscapePrefixFree(s[0], t[0], StringTail(s[1..], r), StringTail(t[1..], q));
      StringUnique(s[1..], t[1..], r, q);
      assert s == [s[0]] + s[1..];
      assert t == [t[0]] + t[1..];
    }
  }

  lemma QuoteUnique(s: string, t: string, r: string, q: string)
    requires Quote(s) + r == Quote(t) + q
    ensures s == t && r == q
  {
    assert (Quote(s) + r)[1..] == StringTail(s, r);
    assert (Quote(t) + q)[1..] == StringTail(t, q);
    StringUnique(s, t, r, q);
  }

  /** What may follow a value inside a document. */
  predicate Stops(r: string) {
    r == "" || r[0] == ',' || r[0] == ']' || r[0] == '}'
  }

  /** How many number characters a text begins with. */
  function NumberRun(t: string): nat {
    if t == "" || !IsNumberChar(t[0]) then 0 else 1 + NumberRun(t[1..])
  }

  lemma {:induction false} RunOfNumber(x: string, r: string)
    requires Stops(r) && forall i :: 0 <= i < |x| ==> IsNumberChar(x[i])
    ensures NumberRun(x + r) == |x|
  {
    if x == "" {
      assert x + r == r;
    } else {
      assert (x + r)[1..] == x[1..] + r;
      RunOfNumber(x[1..], r);
    }
  }

  lemma NumberReadsBack(a: Number, b: Number, r: string, s: string)
    requires IsNumber(a) && IsNumber(b) && Stops(r) && Stops(s)
    requires NumberText(a) + r == NumberText(b) + s
    ensures a == b && r == s
  {
    NumberChars(a);
    NumberChars(b);
    RunOfNumber(NumberText(a), r);
    RunOfNumber(NumberText(b), s);
    SplitsAlike(NumberText(a), r, NumberText(b), s);
    NumberUnique(a, b);
  }

  lemma SplitsAlike(x: string, r: string, y: string, s: string)
    requires x + r == y + s && |x| == |y|
    ensures x == y && r == s
  {
    assert x == (x + r)[..|x|] && r == (x + r)[|x|..];
    assert y == (y + s)[..|y|] && s == (y + s)[|y|..];
  }

  datatype Shape = NullShape | TrueShape | FalseShape | NumberShape | StringShape | ArrayShape | ObjectShape

  function ShapeOf(v: Value): Shape {
    match v
    case Null => NullShape
    case Bool(b) => if b then TrueShape else FalseShape
    case Num(_) => NumberShape
    case Str(_) => StringShape
    case Array(_) => ArrayShape
    case Object(_) => ObjectShape
  }

  function ShapeFrom(c: char): Shape {
    if c == 'n' then NullShape
    else if c == 't' then TrueShape
    else if c == 'f' then FalseShape
    else if c == '"' then StringShape
    else if c == '[' then ArrayShape
    else if c == '{' then ObjectShape
    else NumberShape
  }

  /** The first character says what kind of value follows. */
  lemma FirstCharTells(v: Value)
    requires IsValue(v)
    ensures Text(v) != "" && ShapeFrom(Text(v)[0]) == ShapeOf(v) && !Stops(Text(v))
  {
    hide Items;
    hide Members;
    hide Escape;
    hide NumberText;
    if v.Num? {
      NumberChars(v.number);
    }
  }

  /** What is left of an array from the `i`th item on, and what follows the array. */
  ghost function ItemsTail(v: Value, i: nat, r: string): string
    requires v.Array? && i <= |v.items|
  {
    Items(v, i) + "]" + r
  }

  ghost function MembersTail(v: Value, ks: seq<string>, i: nat, r: string): string
    requires v.Object? && i <= |ks| && forall k <- ks :: k in Keys(v.fields)
  {
    Members(v, ks, i) + "}" + r
  }

  ghost function SortedFields(v: Value): (ks: seq<string>)
    requires v.Object?
    ensures forall k :: k in ks <==> k in Keys(v.fields)
  {
    Ordering.SortedKeys(Keys(v.fields))
  }

  lemma ArrayText(v: Value, r: string)
    requires v.Array?
    ensures Text(v) + r == "[" + ItemsTail(v, 0, r)
  {
  }

  lemma ObjectText(v: Value, r: string)
    requires v.Object?
    ensures Text(v) + r == "{" + MembersTail(v, SortedFields(v), 0, r)
  {
  }

  lemma RegroupMember(comma: string, key: string, text: string, rest: string, r: string)
    ensures comma + key + ":" + text + rest + "}" + r == comma + (key + (":" + (text + (rest + "}" + r))))
  {
    Regroup(comma + key + ":", text, rest, "}", r);
    var tail := text + (rest + "}" + r);
    assert comma + key + ":" + tail == comma + (key + (":" + tail));
  }

  /** After the last item comes the bracket, and only then. */
  lemma ItemsTailStep(v: Value, i: nat, r: string)
    requires v.Array? && IsValue(v) && i <= |v.items|
    ensures var t := ItemsTail(v, i, r); t != "" && (t[0] == ']' <==> i == |v.items|) && (i > 0 ==> Stops(t))
    ensures i == |v.items| ==> ItemsTail(v, i, r) == "]" + r
    ensures i < |v.items| ==>
              && IsValue(v.items[i])
              && ItemsTail(v, i, r) == Comma(i) + (Text(v.items[i]) + ItemsTail(v, i + 1, r))
  {
    if i < |v.items| {
      FirstCharTells(v.items[i]);
      var text, rest := Text(v.items[i]), Items(v, i + 1);
      assert Items(v, i) == Comma(i) + text + rest;
      hide Text;
      hide Items;
      Regroup(Comma(i), text, rest, "]", r);
    }
  }

  lemma MembersTailStep(v: Value, ks: seq<string>, i: nat, r: string)
    requires v.Object? && IsValue(v) && i <= |ks| && forall k <- ks :: k in Keys(v.fields)
    ensures var t := MembersTail(v, ks, i, r); t != "" && (t[0] == '}' <==> i == |ks|) && (i > 0 ==> Stops(t))
    ensures i == |ks| ==> MembersTail(v, ks, i, r) == "}" + r
    ensures i < |ks| ==>
              && ks[i] in Keys(v.fields)
              && IsValue(ValueAt(v, ks[i]))
              && MembersTail(v, ks, i, r) == Comma(i) + (Quote(ks[i]) + (":" + (Text(ValueAt(v, ks[i])) + MembersTail(v, ks, i + 1, r))))
  {
    if i < |ks| {
      assert ks[i] in ks;
      var key, text, rest := Quote(ks[i]), Text(ValueAt(v, ks[i])), Members(v, ks, i + 1);
      assert key[0] == '"';
      assert Members(v, ks, i) == Comma(i) + key + ":" + text + rest;
      hide Text;
      hide Members;
      hide Quote;
      RegroupMember(Comma(i), key, text, rest, r);
    }
  }

  /** Canonical text followed by anything that may follow it reads back as one value only. */
  lemma {:induction false} ReadsBack(a: Value, b: Value, r: string, s: string)
    requires IsValue(a) && IsValue(b) && Stops(r) && Stops(s)
    requires Text(a) + r == Text(b) + s
    ensures Same(a, b) && r == s
    decreases a, 1, 0
  {
    hide *;
    SameShape(a, b, r, s);
    if a.Array? {
      ArrayText(a, r);
      ArrayText(b, s);
      SplitsAlike("[", ItemsTail(a, 0, r), "[", ItemsTail(b, 0, s));
      ItemsReadBack(a, b, 0, r, s);
      SameArrays(a, b);
    } else if a.Object? {
      ObjectText(a, r);
      ObjectText(b, s);
      SplitsAlike("{", MembersTail(a, SortedFields(a), 0, r), "{", MembersTail(b, SortedFields(b), 0, s));
      MembersReadBack(a, b, SortedFields(a), SortedFields(b), 0, r, s);
      SameObjects(a, b, SortedFields(a));
    } else {
      AtomReadsBack(a, b, r, s);
      SameAtoms(a);
    }
  }

  lemma SameAtoms(a: Value)
    requires !a.Array? && !a.Object?
    ensures Same(a, a)
  {
  }

  lemma SameShape(a: Value, b: Value, r: string, s: string)
    requires IsValue(a) && IsValue(b) && Text(a) + r == Text(b) + s
    ensures ShapeOf(a) == ShapeOf(b)
    ensures (a.Array? <==> b.Array?) && (a.Object? <==> b.Object?)
  {
    hide Text;
    FirstCharTells(a);
    FirstCharTells(b);
    assert (Text(a) + r)[0] == Text(a)[0];
    assert (Text(b) + s)[0] == Text(b)[0];
  }

  lemma AtomReadsBack(a: Value, b: Value, r: string, s: string)
    requires IsValue(a) && IsValue(b) && Stops(r) && Stops(s)
    requires Text(a) + r == Text(b) + s && ShapeOf(a) == ShapeOf(b)
    requires !a.Array? && !a.Object?
    ensures a == b && r == s
  {
    match a
    case Null => SplitsAlike("null", r, "null", s);
    case Bool(yes) => SplitsAlike(Text(a), r, Text(b), s);
    case Num(n) => NumberReadsBack(n, b.number, r, s);
    case Str(x) => QuoteUnique(x, b.s, r, s);
  }

  lemma SameArrays(a: Value, b: Value)
    requires a.Array? && b.Array? && |a.items| == |b.items|
    requires forall j :: 0 <= j < |a.items| ==> Same(a.items[j], b.items[j])
    ensures Same(a, b)
  {
  }

  lemma SameObjects(a: Value, b: Value, ks: seq<string>)
    requires a.Object? && b.Object?
    requires ks == SortedFields(a) == SortedFields(b)
    requires forall j :: 0 <= j < |ks| ==> SameAt(a, b, ks[j])
    ensures Same(a, b)
  {
    assert Keys(a.fields) == Keys(b.fields);
    forall k | k in Keys(a.fields)
      ensures Same(ValueAt(a, k), ValueAt(b, k))
    {
      assert k in ks;
      var j :| 0 <= j < |ks| && ks[j] == k;
      assert SameAt(a, b, ks[j]);
    }
  }

  ghost predicate SameAt(a: Value, b: Value, k: string)
    requires a.Object? && b.Object?
  {
    k in Keys(a.fields) && k in Keys(b.fields) && Same(ValueAt(a, k), ValueAt(b, k))
  }

  lemma {:induction false} ItemsReadBack(a: Value, b: Value, i: nat, r: string, s: string)
    requires a.Array? && b.Array? && IsValue(a) && IsValue(b)
    requires i <= |a.items| && i <= |b.items|
    requires ItemsTail(a, i, r) == ItemsTail(b, i, s)
    ensures |a.items| == |b.items| && r == s
    ensures forall j :: i <= j < |a.items| ==> Same(a.items[j], b.items[j])
    decreases a, 0, |a.items| - i
  {
    hide *;
    ItemsTailStep(a, i, r);
    ItemsTailStep(b, i, s);
    if i == |a.items| {
      SplitsAlike("]", r, "]", s);
    } else {
      var x, y := Text(a.items[i]) + ItemsTail(a, i + 1, r), Text(b.items[i]) + ItemsTail(b, i + 1, s);
      SplitsAlike(Comma(i), x, Comma(i), y);
      ItemsTailStep(a, i + 1, r);
      ItemsTailStep(b, i + 1, s);
      ReadsBack(a.items[i], b.items[i], ItemsTail(a, i + 1, r), ItemsTail(b, i + 1, s));
      ItemsReadBack(a, b, i + 1, r, s);
    }
  }

  lemma {:induction false} MembersReadBack(a: Value, b: Value, ks: seq<string>, ls: seq<string>, i: nat, r: string, s: string)
    requires a.Object? && b.Object? && IsValue(a) && IsValue(b)
    requires forall k <- ks :: k in Keys(a.fields)
    requires forall k <- ls :: k in Keys(b.fields)
    requires i <= |ks| && i <= |ls| && ks[..i] == ls[..i]
    requires MembersTail(a, ks, i, r) == MembersTail(b, ls, i, s)
    ensures ks == ls && r == s
    ensures forall j :: i <= j < |ks| ==> SameAt(a, b, ks[j])
    decreases a, 0, |ks| - i
  {
    hide *;
    MembersTailStep(a, ks, i, r);
    MembersTailStep(b, ls, i, s);
    if i == |ks| {
      assert ks == ks[..i] && ls == ls[..i];
      SplitsAlike("}", r, "}", s);
    } else {
      var x, y := ValueAt(a, ks[i]), ValueAt(b, ls[i]);
      var restA, restB := MembersTail(a, ks, i + 1, r), MembersTail(b, ls, i + 1, s);
      SplitsAlike(Comma(i), Quote(ks[i]) + (":" + (Text(x) + restA)), Comma(i), Quote(ls[i]) + (":" + (Text(y) + restB)));
      QuoteUnique(ks[i], ls[i], ":" + (Text(x) + restA), ":" + (Text(y) + restB));
      SplitsAlike(":", Text(x) + restA, ":", Text(y) + restB);
      MembersTailStep(a, ks, i + 1, r);
      MembersTailStep(b, ls, i + 1, s);
      ReadsBack(x, y, restA, restB);
      assert SameAt(a, b, ks[i]) by {
        SameAtHolds(a, b, ks[i]);
      }
      assert ks[..i + 1] == ks[..i] + [ks[i]];
      assert ls[..i + 1] == ls[..i] + [ls[i]];
      MembersReadBack(a, b, ks, ls, i + 1, r, s);
    }
  }

  lemma SameAtHolds(a: Value, b: Value, k: string)
    requires a.Object? && b.Object? && k in Keys(a.fields) && k in Keys(b.fields) && Same(ValueAt(a, k), ValueAt(b, k))
    ensures SameAt(a, b, k)
  {
  }

  // ------------------------------------------------------------------
  // order independence
  // ------------------------------------------------------------------

  /** Equal values have equal canonical text, whatever order their fields were given in. */
  lemma {:induction false} SameText(a: Value, b: Value)
    requires Same(a, b)
    ensures Text(a) == Text(b)
    decreases a, 1, 0
  {
    match a
    case Array(_) => SameItems(a, b, 0);
    case Object(_) => SameMembers(a, b, Ordering.SortedKeys(Keys(a.fields)), 0);
    case _ =>
  }

  lemma {:induction false} SameItems(a: Value, b: Value, i: nat)
    requires a.Array? && Same(a, b) && i <= |a.items|
    ensures Items(a, i) == Items(b, i)
    decreases a, 0, |a.items| - i
  {
    if i < |a.items| {
      SameText(a.items[i], b.items[i]);
      SameItems(a, b, i + 1);
    }
  }

  lemma {:induction false} SameMembers(a: Value, b: Value, ks: seq<string>, i: nat)
    requires a.Object? && Same(a, b) && i <= |ks| && forall k <- ks :: k in Keys(a.fields)
    ensures Members(a, ks, i) == Members(b, ks, i)
    decreases a, 0, |ks| - i
  {
    if i < |ks| {
      assert ks[i] in ks;
      SameText(ValueAt(a, ks[i]), ValueAt(b, ks[i]));
      SameMembers(a, b, ks, i + 1);
    }
  }

  /** Two values have the same canonical text exactly when they are the same value with
      objects read as maps. */
  lemma TextIsCanonical(a: Value, b: Value)
    requires IsValue(a) && IsValue(b)
    ensures Text(a) == Text(b) <==> Same(a, b)
  {
    if Text(a) == Text(b) {
      assert Text(a) + "" == Text(b) + "";
      ReadsBack(a, b, "", "");
    }
    if Same(a, b) {
      SameText(a, b);
    }
  }

  // ------------------------------------------------------------------
  // bytes
  // ------------------------------------------------------------------

  /** `canonical_bytes` of a value tree. */
  ghost function CanonicalBytes(v: Value): Bytes {
    Utf8(Text(v))
  }

  /** Canonical bytes are injective and order-independent: two values have the same bytes
      exactly when they are the same value with objects read as maps. */
  lemma BytesAreCanonical(a: Value, b: Value)
    requires IsValue(a) && IsValue(b)
    ensures CanonicalBytes(a) == CanonicalBytes(b) <==> Same(a, b)
  {
    TextIsCanonical(a, b);
    if CanonicalBytes(a) == CanonicalBytes(b) {
      Utf8Unique(Text(a), Text(b));
    }
  }

  // ------------------------------------------------------------------
  // the writer
  // ------------------------------------------------------------------

  /** The shared output vector. */
  class Buffer {
    var bytes: Bytes

    constructor ()
      ensures bytes == []
    {
      bytes := [];
    }

    method Extend(s: string)
      modifies this
      ensures bytes == old(bytes) + Utf8(s)
    {
      bytes := bytes + Utf8(s);
    }
  }

  lemma Extended(done: Bytes, part: string, rest: string)
    ensures done + Utf8(part + rest) == done + Utf8(part) + Utf8(rest)
  {
    Utf8Concat(part, rest);
    assert done + (Utf8(part) + Utf8(rest)) == done + Utf8(part) + Utf8(rest);
  }

  /** `write_canonical`: appends the canonical form of `v` and touches nothing before it. */
  method WriteCanonical(v: Value, out: Buffer)
    modifies out
    ensures out.bytes == old(out.bytes) + CanonicalBytes(v)
    decreases v, 1, 0
  {
    match v
    case Null => out.Extend("null");
    case Bool(b) => out.Extend(if b then "true" else "false");
    case Num(n) => out.Extend(NumberText(n));
    case Str(s) => out.Extend(Quote(s));
    case Array(_) => WriteArray(v, out);
    case Object(_) => WriteObject(v, out);
  }

  method WriteArray(v: Value, out: Buffer)
    requires v.Array?
    modifies out
    ensures out.bytes == old(out.bytes) + CanonicalBytes(v)
    decreases v, 0, 1
  {
    hide Items;
    hide Utf8;
    ghost var all := old(out.bytes) + Utf8(Text(v));
    Extended(old(out.bytes), "[", Items(v, 0) + "]");
    assert "[" + (Items(v, 0) + "]") == Text(v);
    out.Extend("[");
    for i := 0 to |v.items|
      invariant out.bytes + Utf8(Items(v, i) + "]") == all
    {
      WriteItem(v, i, out);
    }
    ItemsUnfold(v, |v.items|);
    out.Extend("]");
  }

  lemma ItemsUnfold(v: Value, i: nat)
    requires v.Array? && i <= |v.items|
    ensures Items(v, i) + "]" == if i == |v.items| then "]" else Comma(i) + (Text(v.items[i]) + (Items(v, i + 1) + "]"))
  {
    if i < |v.items| {
      var text, rest := Text(v.items[i]), Items(v, i + 1);
      assert Items(v, i) == Comma(i) + text + rest;
      hide *;
      assert Comma(i) + text + rest + "]" == Comma(i) + (text + (rest + "]"));
    }
  }

  /** One round of the item loop: comma, item. */
  method WriteItem(v: Value, i: nat, out: Buffer)
    requires v.Array? && i < |v.items|
    modifies out
    ensures out.bytes + Utf8(Items(v, i + 1) + "]") == old(out.bytes + Utf8(Items(v, i) + "]"))
    decreases v, 0, 0
  {
    hide *;
    ItemsUnfold(v, i);
    var x := v.items[i];
    Extended(out.bytes, Comma(i), Text(x) + (Items(v, i + 1) + "]"));
    out.Extend(Comma(i));
    Extended(out.bytes, Text(x), Items(v, i + 1) + "]");
    WriteCanonical(x, out);
    assert CanonicalBytes(x) == Utf8(Text(x)) by {
      CanonicalIsUtf8(x);
    }
  }

  method WriteObject(v: Value, out: Buffer)
    requires v.Object?
    modifies out
    ensures out.bytes == old(out.bytes) + CanonicalBytes(v)
    decreases v, 0, 1
  {
    hide Members;
    hide Utf8;
    ghost var all := old(out.bytes) + Utf8(Text(v));
    var ks := Ordering.SortKeys(Keys(v.fields));
    Extended(old(out.bytes), "{", Members(v, ks, 0) + "}");
    assert "{" + (Members(v, ks, 0) + "}") == Text(v);
    out.Extend("{");
    for i := 0 to |ks|
      invariant out.bytes + Utf8(Members(v, ks, i) + "}") == all
    {
      WriteMember(v, ks, i, out);
    }
    NoMoreMembers(v, ks);
    out.Extend("}");
  }

  lemma NoMoreMembers(v: Value, ks: seq<string>)
    requires v.Object? && forall k <- ks :: k in Keys(v.fields)
    ensures Members(v, ks, |ks|) + "}" == "}"
  {
  }

  lemma MembersUnfold(v: Value, ks: seq<string>, i: nat)
    requires v.Object? && i < |ks| && forall k <- ks :: k in Keys(v.fields)
    ensures ks[i] in Keys(v.fields)
    ensures Members(v, ks, i) + "}" ==
            Comma(i) + (Quote(ks[i]) + (":" + (Text(ValueAt(v, ks[i])) + (Members(v, ks, i + 1) + "}"))))
  {
    assert ks[i] in ks;
    var key, text, rest := Quote(ks[i]), Text(ValueAt(v, ks[i])), Members(v, ks, i + 1);
    assert Members(v, ks, i) == Comma(i) + key + ":" + text + rest;
    hide *;
    RegroupMember(Comma(i), key, text, rest, "");
    assert Comma(i) + key + ":" + text + rest + "}" + "" == Comma(i) + key + ":" + text + rest + "}";
    assert rest + "}" + "" == rest + "}";
  }

  /** One round of the member loop: comma, key, colon, value. */
  method WriteMember(v: Value, ks: seq<string>, i: nat, out: Buffer)
    requires v.Object? && i < |ks| && forall k <- ks :: k in Keys(v.fields)
    modifies out
    ensures out.bytes + Utf8(Members(v, ks, i + 1) + "}") == old(out.bytes + Utf8(Members(v, ks, i) + "}"))
    decreases v, 0, 0
  {
    hide *;
    MembersUnfold(v, ks, i);
    var x := ValueAt(v, ks[i]);
    ghost var rest := Members(v, ks, i + 1) + "}";
    Extended(out.bytes, Comma(i), Quote(ks[i]) + (":" + (Text(x) + rest)));
    out.Extend(Comma(i));
    Extended(out.bytes, Quote(ks[i]), ":" + (Text(x) + rest));
    out.Extend(Quote(ks[i]));
    Extended(out.bytes, ":", Text(x) + rest);
    out.Extend(":");
    Extended(out.bytes, Text(x), rest);
    WriteCanonical(x, out);
    assert CanonicalBytes(x) == Utf8(Text(x)) by {
      CanonicalIsUtf8(x);
    }
  }

  lemma CanonicalIsUtf8(v: Value)
    ensures CanonicalBytes(v) == Utf8(Text(v))
  {
  }
}
