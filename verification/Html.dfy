/** The markup the renderer emits, as tokens; text and attribute values are escaped in print. */
module Html {
  import Str = Text

  datatype Attribute = Attribute(name: string, value: string)

  datatype Token =
    | Open(tag: string, attributes: seq<Attribute>)
    | Close(tag: string)
    | Void(tag: string, attributes: seq<Attribute>)
    | Text(text: string)

  type Markup = seq<Token>

  /** `escapeHtml`, character by character. */
  function EscapeChar(c: char): string {
    if c == '&' then "&amp;"
    else if c == '<' then "&lt;"
    else if c == '>' then "&gt;"
    else if c == '"' then "&quot;"
    else if c == '\'' then "&#39;"
    else [c]
  }

  function Escape(s: string): string {
    if s == "" then "" else EscapeChar(s[0]) + Escape(s[1..])
  }

  function PrintAttributes(attributes: seq<Attribute>): string {
    if attributes == [] then ""
    else " " + attributes[0].name + "=\"" + Escape(attributes[0].value) + "\"" + PrintAttributes(attributes[1..])
  }

  function PrintToken(t: Token): string {
    match t
    case Open(tag, attributes) => "<" + tag + PrintAttributes(attributes) + ">"
    case Close(tag) => "</" + tag + ">"
    case Void(tag, attributes) => "<" + tag + PrintAttributes(attributes) + ">"
    case Text(text) => Escape(text)
  }

  function Print(m: Markup): string {
    if m == [] then "" else PrintToken(m[0]) + Print(m[1..])
  }

  /** Tag and attribute names of the renderer's own vocabulary. */
  predicate IsName(s: string) {
    s != "" && forall i :: 0 <= i < |s| ==> 'a' <= s[i] <= 'z' || '0' <= s[i] <= '9'
  }

  predicate AttributesNamed(attributes: seq<Attribute>) {
    forall i :: 0 <= i < |attributes| ==> IsName(attributes[i].name)
  }

  predicate TokenNamed(t: Token) {
    match t
    case Open(tag, attributes) => IsName(tag) && AttributesNamed(attributes)
    case Close(tag) => IsName(tag)
    case Void(tag, attributes) => IsName(tag) && AttributesNamed(attributes)
    case Text(_) => true
  }

  predicate Named(m: Markup) {
    forall i :: 0 <= i < |m| ==> TokenNamed(m[i])
  }

  // ------------------------------------------------------------------
  // links
  // ------------------------------------------------------------------

  const SAFE_PREFIXES: seq<string> := ["http:", "https:", "mailto:", "/", "./", "../", "#"]

  predicate IsSafe(url: string) {
    exists i :: 0 <= i < |SAFE_PREFIXES| && SAFE_PREFIXES[i] <= Str.Lower(url)
  }

  predicate IsLinkName(name: string) {
    name == "href" || name == "src"
  }

  predicate LinksSafeIn(attributes: seq<Attribute>) {
    forall i :: 0 <= i < |attributes| && IsLinkName(attributes[i].name) ==> IsSafe(attributes[i].value)
  }

  /** Every destination has one of the allowed forms. */
  predicate LinksSafe(m: Markup) {
    forall i :: 0 <= i < |m| ==> (m[i].Open? || m[i].Void?) ==> LinksSafeIn(m[i].attributes)
  }

  // ------------------------------------------------------------------
  // nesting
  // ------------------------------------------------------------------

  datatype Nesting = Broken | Stack(tags: seq<string>)

  /** The open elements after a token. */
  function After(n: Nesting, t: Token): Nesting {
    match n
    case Broken => Broken
    case Stack(tags) =>
      match t
      case Open(tag, _) => Stack([tag] + tags)
      case Close(tag) => if tags != [] && tags[0] == tag then Stack(tags[1..]) else Broken
      case _ => n
  }

  function Nest(n: Nesting, m: Markup): Nesting
    decreases m
  {
    if m == [] then n else Nest(After(n, m[0]), m[1..])
  }

  /** Every element closes in order, inside whatever encloses the markup. */
  ghost predicate WellNested(m: Markup) {
    forall tags :: Nest(Stack(tags), m) == Stack(tags)
  }

  lemma {:induction false} NestConcat(n: Nesting, a: Markup, b: Markup)
    ensures Nest(n, a + b) == Nest(Nest(n, a), b)
    decreases a
  {
    if a == [] {
      assert a + b == b;
    } else {
      assert (a + b)[1..] == a[1..] + b;
      NestConcat(After(n, a[0]), a[1..], b);
    }
  }

  lemma NestedConcat(a: Markup, b: Markup)
    requires WellNested(a) && WellNested(b)
    ensures WellNested(a + b)
  {
    forall tags
      ensures Nest(Stack(tags), a + b) == Stack(tags)
    {
      NestConcat(Stack(tags), a, b);
    }
  }

  function Element(tag: string, attributes: seq<Attribute>, inner: Markup): Markup {
    [Open(tag, attributes)] + inner + [Close(tag)]
  }

  lemma NestedElement(tag: string, attributes: seq<Attribute>, inner: Markup)
    requires WellNested(inner)
    ensures WellNested(Element(tag, attributes, inner))
  {
    forall tags
      ensures Nest(Stack(tags), Element(tag, attributes, inner)) == Stack(tags)
    {
      NestConcat(Stack(tags), [Open(tag, attributes)] + inner, [Close(tag)]);
      NestConcat(Stack(tags), [Open(tag, attributes)], inner);
      assert Nest(Stack(tags), [Open(tag, attributes)]) == Stack([tag] + tags);
      assert Nest(Stack([tag] + tags), [Close(tag)]) == Stack(([tag] + tags)[1..]);
      assert ([tag] + tags)[1..] == tags;
    }
  }

  lemma NestedLeaf(t: Token)
    requires t.Text? || t.Void?
    ensures WellNested([t])
  {
    forall tags
      ensures Nest(Stack(tags), [t]) == Stack(tags)
    {
      assert [t][1..] == [];
    }
  }

  lemma NestedNothing()
    ensures WellNested([])
  {
  }

  /** Nested, in the renderer's own vocabulary, and with safe destinations only. */
  ghost predicate Sound(m: Markup) {
    WellNested(m) && Named(m) && LinksSafe(m)
  }

  lemma SoundConcat(a: Markup, b: Markup)
    requires Sound(a) && Sound(b)
    ensures Sound(a + b)
  {
    NestedConcat(a, b);
  }

  lemma SoundElement(tag: string, attributes: seq<Attribute>, inner: Markup)
    requires Sound(inner) && IsName(tag) && AttributesNamed(attributes) && LinksSafeIn(attributes)
    ensures Sound(Element(tag, attributes, inner))
  {
    NestedElement(tag, attributes, inner);
  }

  lemma SoundLeaf(t: Token)
    requires (t.Text? || t.Void?) && TokenNamed(t)
    requires t.Void? ==> LinksSafeIn(t.attributes)
    ensures Sound([t])
  {
    NestedLeaf(t);
  }

  // ------------------------------------------------------------------
  // angle brackets
  // ------------------------------------------------------------------

  lemma EscapedCharIsInert(c: char)
    ensures var e := EscapeChar(c); '<' !in e && '>' !in e && '"' !in e && '\'' !in e
  {
  }

  lemma {:induction false} EscapedIsInert(s: string)
    ensures '<' !in Escape(s) && '>' !in Escape(s) && '"' !in Escape(s) && '\'' !in Escape(s)
  {
    if s != "" {
      EscapedCharIsInert(s[0]);
      EscapedIsInert(s[1..]);
      hide EscapeChar;
    }
  }

  lemma {:induction false} AttributesAreInert(attributes: seq<Attribute>)
    requires AttributesNamed(attributes)
    ensures '<' !in PrintAttributes(attributes) && '>' !in PrintAttributes(attributes)
  {
    if attributes != [] {
      var a := attributes[0];
      EscapedIsInert(a.value);
      assert '<' !in a.name && '>' !in a.name;
      AttributesAreInert(attributes[1..]);
    }
  }

  lemma TagAngle(a: string, b: string, c: string, i: nat)
    requires '<' !in a && '<' !in b && '<' !in c
    requires i < |"<" + a + b + c| && ("<" + a + b + c)[i] == '<'
    ensures i == 0
  {
    var body := a + b + c;
    assert forall j :: 0 <= j < |body| ==> body[j] in a || body[j] in b || body[j] in c;
    assert "<" + a + b + c == "<" + body;
  }

  /** An angle bracket in a printed token is the first character of a tag. */
  lemma TokenAngle(t: Token, i: nat)
    requires TokenNamed(t) && i < |PrintToken(t)| && PrintToken(t)[i] == '<'
    ensures i == 0 && !t.Text?
  {
    hide Escape;
    hide PrintAttributes;
    match t
    case Text(text) => EscapedIsInert(text);
    case Open(tag, attributes) =>
      AttributesAreInert(attributes);
      TagAngle(tag, PrintAttributes(attributes), ">", i);
    case Void(tag, attributes) =>
      AttributesAreInert(attributes);
      TagAngle(tag, PrintAttributes(attributes), ">", i);
    case Close(tag) =>
      assert PrintToken(t) == "<" + "/" + tag + ">";
      TagAngle("/", tag, ">", i);
  }

  /** Every `<` in the output is the start of one of the renderer's own tags. */
  lemma {:induction false} AnglesAreTags(m: Markup, i: nat) returns (k: nat)
    requires Named(m) && i < |Print(m)| && Print(m)[i] == '<'
    ensures k < |m| && !m[k].Text? && |Print(m[..k])| == i
  {
    var first, rest := PrintToken(m[0]), m[1..];
    if i < |first| {
      assert TokenNamed(m[0]);
      TokenAngle(m[0], i);
      k := 0;
      assert m[..0] == [];
    } else {
      assert forall j :: 0 <= j < |rest| ==> rest[j] == m[j + 1];
      k := AnglesAreTags(rest, i - |first|);
      assert m[..k + 1][1..] == rest[..k];
      assert m[..k + 1][0] == m[0];
      k := k + 1;
    }
  }
}
