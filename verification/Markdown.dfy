/** The markdown renderer of the sites (`fed-md.js`): what it matches and what it emits. */
module Markdown {
  import opened Prelude
  import Text
  import opened Html

  // ------------------------------------------------------------------
  // character classes and scans
  // ------------------------------------------------------------------

  /** `\s` and `trim()` of JavaScript. */
  predicate Space(c: char) {
    || '\U{9}' <= c <= '\U{d}' || c == ' ' || c == '\U{a0}' || c == '\U{1680}' || '\U{2000}' <= c <= '\U{200a}'
    || Separator(c) || c == '\U{202f}' || c == '\U{205f}' || c == '\U{3000}' || c == '\U{feff}'
  }

  /** The line terminators that survive line splitting; `.` does not match them. */
  predicate Separator(c: char) {
    c == '\U{2028}' || c == '\U{2029}'
  }

  predicate Digit(c: char) {
    '0' <= c <= '9'
  }

  predicate Escapable(c: char) {
    c in "\\`*_{}[]()#+-.!~|"
  }

  /** Length of the longest prefix of characters with a property. */
  function RunOf(s: string, p: char -> bool): (n: nat)
    ensures n <= |s|
    ensures forall i :: 0 <= i < n ==> p(s[i])
    ensures n < |s| ==> !p(s[n])
  {
    if s == "" || !p(s[0]) then 0 else 1 + RunOf(s[1..], p)
  }

  function SpaceRun(s: string): (n: nat)
    ensures n <= |s|
  {
    RunOf(s, c => Space(c))
  }

  predicate Blank(s: string) {
    SpaceRun(s) == |s|
  }

  function TrimEnd(s: string): (r: string)
    ensures r <= s
  {
    if s != "" && Space(s[|s| - 1]) then TrimEnd(s[..|s| - 1]) else s
  }

  function Trim(s: string): (r: string)
    ensures |r| <= |s|
  {
    TrimEnd(s[SpaceRun(s)..])
  }

  // ------------------------------------------------------------------
  // inline spans
  // ------------------------------------------------------------------

  datatype Span =
    | Plain(c: string)
    | Code(code: string)
    | Image(alt: string, src: string, imageTitle: string)
    | Link(caption: string, href: string, title: string)
    | Wrapped(tag: string, inner: string)

  /** The inner text that is itself inline markdown. */
  function Held(span: Span): string {
    match span
    case Link(caption, _, _) => caption
    case Wrapped(_, inner) => inner
    case _ => ""
  }

  /** Length of what is inside up to the first `stop`, if the stop is there. */
  function UpTo(s: string, stop: char): Option<nat> {
    var k := Text.IndexOf(s, stop);
    if k < |s| then Some(k) else None
  }

  datatype Target = Target(caption: string, url: string, title: string, length: nat)

  /** After the URL: `)`, or white space, a quoted title and `)`. */
  function TitleAndClose(tail: string): (r: Option<(string, nat)>)
    ensures r.Some? ==> 0 < r.value.1 <= |tail|
  {
    if tail != "" && tail[0] == ')' then Some(("", 1))
    else
      var w := SpaceRun(tail);
      if w == 0 || w == |tail| || tail[w] != '"' then None
      else
        match UpTo(tail[w + 1..], '"')
        case None => None
        case Some(q) =>
          var close := w + 1 + q + 1;
          if close < |tail| && tail[close] == ')' then Some((tail[w + 1..w + 1 + q], close + 1)) else None
  }

  /** `[caption](url "title")` at the start of the text. */
  function MatchTarget(s: string, mayBeEmpty: bool): (r: Option<Target>)
    ensures r.Some? ==> 0 < r.value.length <= |s| && |r.value.caption| + 2 <= r.value.length
  {
    if s == "" || s[0] != '[' then None
    else
      match UpTo(s[1..], ']')
      case None => None
      case Some(k) =>
        var open := k + 2;
        if (k == 0 && !mayBeEmpty) || open >= |s| || s[open] != '(' then None
        else
          var rest := s[open + 1..];
          var u := RunOf(rest, c => c != ')' && !Space(c));
          if u == 0 then None
          else
            match TitleAndClose(rest[u..])
            case None => None
            case Some((title, n)) => Some(Target(s[1..1 + k], rest[..u], title, open + 1 + u + n))
  }

  /** Non-empty text between two equal marks, free of the mark's character. */
  function Delimited(s: string, mark: string): (r: Option<string>)
    requires mark != ""
    ensures r.Some? ==> r.value != "" && 2 * |mark| + |r.value| <= |s|
  {
    if !(mark <= s) then None
    else
      match UpTo(s[|mark|..], mark[0])
      case None => None
      case Some(k) =>
        var end := |mark| + k;
        if k > 0 && end + |mark| <= |s| && s[end..end + |mark|] == mark then Some(s[|mark|..end]) else None
  }

  function Emphasis(s: string): (r: Option<(string, nat, string)>)
    ensures r.Some? ==> |r.value.2| + 2 * r.value.1 <= |s| && r.value.1 > 0 && IsName(r.value.0)
  {
    if Delimited(s, "**").Some? then Some(("strong", 2, Delimited(s, "**").value))
    else if Delimited(s, "__").Some? then Some(("strong", 2, Delimited(s, "__").value))
    else if Delimited(s, "*").Some? then Some(("em", 1, Delimited(s, "*").value))
    else if Delimited(s, "_").Some? then Some(("em", 1, Delimited(s, "_").value))
    else if Delimited(s, "~~").Some? then Some(("del", 2, Delimited(s, "~~").value))
    else None
  }

  /** The first rule that matches decides; otherwise one character goes through. */
  function NextSpan(s: string): (r: (Span, nat))
    requires s != ""
    ensures 0 < r.1 <= |s| && |Held(r.0)| < |s|
    ensures r.0.Wrapped? ==> IsName(r.0.tag)
  {
    if s[0] == '\\' && |s| > 1 && Escapable(s[1]) then (Plain([s[1]]), 2)
    else if Delimited(s, "`").Some? then (Code(Delimited(s, "`").value), |Delimited(s, "`").value| + 2)
    else if s[0] == '!' && MatchTarget(s[1..], true).Some? then
      var t := MatchTarget(s[1..], true).value;
      (Image(t.caption, t.url, t.title), 1 + t.length)
    else if MatchTarget(s, false).Some? then
      var t := MatchTarget(s, false).value;
      (Link(t.caption, t.url, t.title), t.length)
    else
      match Emphasis(s)
      case Some((tag, mark, inner)) => (Wrapped(tag, inner), |inner| + 2 * mark)
      case None => (Plain([s[0]]), 1)
  }

  /** `safeUrl` */
  function SafeUrl(url: string): (r: string)
    ensures IsSafe(r)
  {
    if IsSafe(Trim(url)) then Trim(url)
    else
      assert SAFE_PREFIXES[6] <= Text.Lower("#");
      "#"
  }

  function TitleAttribute(title: string): seq<Attribute> {
    if title == "" then [] else [Attribute("title", title)]
  }

  /** The markup of a span around the markup of what it holds. */
  function SpanMarkup(span: Span, held: Markup): Markup {
    match span
    case Plain(c) => [Html.Text(c)]
    case Code(code) => Element("code", [], [Html.Text(code)])
    case Image(alt, src, title) => [Void("img", [Attribute("src", SafeUrl(src)), Attribute("alt", alt)] + TitleAttribute(title))]
    case Link(_, href, title) => Element("a", [Attribute("href", SafeUrl(href))] + TitleAttribute(title), held)
    case Wrapped(tag, _) => Element(tag, [], held)
  }

  /** `inline` */
  function Inline(text: string): Markup
    decreases |text|
  {
    if text == "" then []
    else
      var (span, n) := NextSpan(text);
      SpanMarkup(span, Inline(Held(span))) + Inline(text[n..])
  }

  // ------------------------------------------------------------------
  // lines
  // ------------------------------------------------------------------

  /** `^```(\S*)\s*$` */
  function Fence(l: string): Option<string> {
    if !("```" <= l) then None
    else
      var n := RunOf(l[3..], c => !Space(c));
      if Blank(l[3 + n..]) then Some(l[3..3 + n]) else None
  }

  predicate FenceEnd(l: string) {
    "```" <= l && Blank(l[3..])
  }

  /** `\s*#*\s*$` */
  predicate HeadingEnd(s: string) {
    var t := s[SpaceRun(s)..];
    Blank(t[RunOf(t, c => c == '#')..])
  }

  /** The shortest heading text whose rest is a heading end; `.` stops at a separator. */
  function HeadingText(s: string): Option<string> {
    if HeadingEnd(s) then Some("")
    else if s == "" || Separator(s[0]) then None
    else
      match HeadingText(s[1..])
      case None => None
      case Some(t) => Some([s[0]] + t)
  }

  /** `^(#{1,6})\s+(.*?)\s*#*\s*$` */
  function Heading(l: string): Option<(nat, string)> {
    var n := RunOf(l, c => c == '#');
    var w := SpaceRun(l[n..]);
    if !(1 <= n <= 6) || w == 0 then None
    else
      match HeadingText(l[n + w..])
      case None => None
      case Some(t) => Some((n, t))
  }

  function CountOf(s: string, c: char): nat {
    if s == "" then 0 else (if s[0] == c then 1 else 0) + CountOf(s[1..], c)
  }

  /** Three or more of one of `-`, `*`, `_`, with nothing but white space around them. */
  predicate IsRule(l: string) {
    var s := l[SpaceRun(l)..];
    && s != "" && s[0] in "-*_"
    && RunOf(s, c => c == s[0] || Space(c)) == |s|
    && CountOf(s, s[0]) >= 3
  }

  predicate IsQuote(l: string) {
    SpaceRun(l) < |l| && l[SpaceRun(l)] == '>'
  }

  /** The line without its quote mark and one space. */
  function QuoteBody(l: string): (r: string)
    requires IsQuote(l)
    ensures |r| < |l|
  {
    var s := l[SpaceRun(l) + 1..];
    if s != "" && Space(s[0]) then s[1..] else s
  }

  predicate RuleChar(c: char) {
    Space(c) || c == ':' || c == '|' || c == '-'
  }

  /** The separator row of a table. */
  predicate IsTableRule(l: string) {
    RunOf(l, c => RuleChar(c)) == |l| && exists k :: 1 <= k < |l| && l[k] == '|'
  }

  function Split(s: string, c: char): seq<string> {
    var k := Text.IndexOf(s, c);
    if k == |s| then [s] else [s[..k]] + Split(s[k + 1..], c)
  }

  /** A row without its outer bars, cut at the bars and trimmed. */
  function Cells(l: string): seq<string> {
    var a := if SpaceRun(l) < |l| && l[SpaceRun(l)] == '|' then l[SpaceRun(l) + 1..] else l;
    var t := TrimEnd(a);
    Split(if t != "" && t[|t| - 1] == '|' then t[..|t| - 1] else a, '|')
  }

  /** Where a list marker at a position ends: one of `-*+`, or digits and a full stop. */
  function MarkerEnd(l: string, at: nat): (r: Option<nat>)
    requires at <= |l|
    ensures r.Some? ==> at < r.value <= |l|
  {
    if at < |l| && l[at] in "-*+" then Some(at + 1)
    else
      var d := RunOf(l[at..], c => Digit(c));
      if d > 0 && at + d < |l| && l[at + d] == '.' then Some(at + d + 1) else None
  }

  /** A marker behind the leading white space, with white space after it. */
  predicate HasMarker(l: string) {
    var e := MarkerEnd(l, SpaceRun(l));
    e.Some? && e.value < |l| && Space(l[e.value])
  }

  predicate IsOrdered(l: string) {
    HasMarker(l) && Digit(l[SpaceRun(l)])
  }

  /** `(.*)$` */
  predicate DotMatchesAll(s: string) {
    RunOf(s, c => !Separator(c)) == |s|
  }

  /** The content of a list item at exactly this indentation; `.` stops at a separator. */
  function Item(l: string, indent: nat): Option<string> {
    if SpaceRun(l) != indent || !HasMarker(l) then None
    else
      var e := MarkerEnd(l, indent).value;
      var content := l[e + SpaceRun(l[e..])..];
      if DotMatchesAll(content) then Some(content) else None
  }

  /** Indented by at least `n`, and not blank. */
  predicate Deeper(l: string, n: nat) {
    n <= SpaceRun(l) < |l|
  }

  predicate SubItem(l: string, n: nat) {
    SpaceRun(l) == n && HasMarker(l)
  }

  // ------------------------------------------------------------------
  // lists
  // ------------------------------------------------------------------

  /** The line belongs to the item above: deeper, or blank before a deeper one. */
  predicate Belongs(lines: seq<string>, j: nat, n: nat) {
    j < |lines| && (Deeper(lines[j], n) || (Blank(lines[j]) && j + 1 < |lines| && Deeper(lines[j + 1], n)))
  }

  function DeepEnd(lines: seq<string>, j: nat, n: nat): (end: nat)
    requires j <= |lines|
    ensures j <= end <= |lines|
    ensures forall i :: j <= i < end ==> Belongs(lines, i, n)
    ensures !Belongs(lines, end, n)
    decreases |lines| - j
  {
    if Belongs(lines, j, n) then DeepEnd(lines, j + 1, n) else j
  }

  /** Continuation lines from the `i`th on, joined by single spaces. */
  function JoinInline(ls: seq<string>, i: nat): Markup
    requires i <= |ls|
    decreases |ls| - i
  {
    if i == |ls| then []
    else (if i > 0 then [Html.Text(" ")] else []) + Inline(Trim(ls[i])) + JoinInline(ls, i + 1)
  }

  predicate AnySubItem(ls: seq<string>, n: nat) {
    exists i :: 0 <= i < |ls| && SubItem(ls[i], n)
  }

  /** What stands below an item: a nested list, or continuation text. The nested call gets the
      whole text, not only the item's own lines. */
  function Below(lines: seq<string>, sub: nat, end: nat, indent: nat): Markup
    requires sub <= end <= |lines|
    decreases |lines| - sub, 2
  {
    if sub == end then []
    else if AnySubItem(lines[sub..end], indent + 2) then List(lines, sub, indent + 2).0
    else [Html.Text(" ")] + JoinInline(lines[sub..end], 0)
  }

  /** Items at one indentation from line `j` on, and the line after them. */
  function Items(lines: seq<string>, j: nat, indent: nat): (r: (Markup, nat))
    requires j <= |lines|
    ensures j <= r.1 <= |lines|
    decreases |lines| - j, 0
  {
    if j == |lines| || Item(lines[j], indent).None? then ([], j)
    else
      var end := DeepEnd(lines, j + 1, indent + 2);
      var item := Element("li", [], Inline(Item(lines[j], indent).value) + Below(lines, j + 1, end, indent));
      var (rest, next) := Items(lines, end, indent);
      (item + rest, next)
  }

  function ListTag(l: string): string {
    if IsOrdered(l) then "ol" else "ul"
  }

  /** `parseList` */
  function List(lines: seq<string>, start: nat, indent: nat): (r: (Markup, nat))
    requires start < |lines|
    ensures start <= r.1 <= |lines|
    decreases |lines| - start, 1
  {
    var (items, next) := Items(lines, start, indent);
    (Element(ListTag(lines[start]), [], items), next)
  }

  // ------------------------------------------------------------------
  // blocks
  // ------------------------------------------------------------------

  predicate EndsInBreak(l: string) {
    |l| >= 2 && Space(l[|l| - 1]) && Space(l[|l| - 2])
  }

  function ParagraphLine(l: string): Markup {
    if EndsInBreak(l) then Inline(TrimEnd(l)) + [Void("br", [])] else Inline(Trim(l))
  }

  function JoinParagraph(para: seq<string>): Markup {
    if para == [] then []
    else if |para| == 1 then ParagraphLine(para[0])
    else ParagraphLine(para[0]) + [Html.Text("\n")] + JoinParagraph(para[1..])
  }

  /** `paragraphBuffer` */
  function Flush(para: seq<string>): seq<Markup> {
    if para == [] then [] else [Element("p", [], JoinParagraph(para))]
  }

  function Row(cells: seq<string>, tag: string): Markup {
    if cells == [] then [] else Element(tag, [], Inline(Trim(cells[0]))) + Row(cells[1..], tag)
  }

  function Body(rows: seq<string>): Markup {
    if rows == [] then [] else Element("tr", [], Row(Cells(rows[0]), "td")) + Body(rows[1..])
  }

  function Table(head: string, rows: seq<string>): Markup {
    Element("table", [],
            Element("thead", [], Element("tr", [], Row(Cells(head), "th"))) + Element("tbody", [], Body(rows)))
  }

  function JoinLines(ls: seq<string>): string {
    if ls == [] then "" else if |ls| == 1 then ls[0] else ls[0] + "\n" + JoinLines(ls[1..])
  }

  function CodeBlock(language: string, code: seq<string>): Markup {
    Element("pre", [],
            Element("code", if language == "" then [] else [Attribute("class", "language-" + language)],
                    [Html.Text(JoinLines(code))]))
  }

  const LEVELS: seq<string> := ["h1", "h2", "h3", "h4", "h5", "h6"]

  /** How many lines from `i` on have a property. */
  function LinesWhile(lines: seq<string>, i: nat, p: string -> bool): (n: nat)
    requires i <= |lines|
    ensures i + n <= |lines|
    ensures forall k :: i <= k < i + n ==> p(lines[k])
    ensures i + n < |lines| ==> !p(lines[i + n])
    decreases |lines| - i
  {
    if i == |lines| || !p(lines[i]) then 0 else 1 + LinesWhile(lines, i + 1, p)
  }

  predicate IsRow(l: string) {
    '|' in l && !Blank(l)
  }

  function Unquoted(ls: seq<string>): seq<string>
    requires forall l <- ls :: IsQuote(l)
  {
    seq(|ls|, i requires 0 <= i < |ls| => QuoteBody(ls[i]))
  }

  /** What the main loop does at a line. A list that consumes nothing leaves the loop where it
      is, for ever. */
  datatype Action =
    | Skip
    | Keep
    | Emit(markup: Markup, next: nat)
    | Quote(body: seq<string>, after: nat)
    | Stuck

  function TakeCode(lines: seq<string>, i: nat): (a: Action)
    requires i < |lines| && Fence(lines[i]).Some?
    ensures a.Emit? && i < a.next
  {
    var n := LinesWhile(lines, i + 1, l => !FenceEnd(l));
    Emit(CodeBlock(Fence(lines[i]).value, lines[i + 1..i + 1 + n]), i + 1 + n + 1)
  }

  function TakeQuote(lines: seq<string>, i: nat): (a: Action)
    requires i < |lines|
    ensures a.Quote?
  {
    var n := LinesWhile(lines, i, l => IsQuote(l));
    Quote(Unquoted(lines[i..i + n]), i + n)
  }

  function TakeTable(lines: seq<string>, i: nat): (a: Action)
    requires i + 1 < |lines|
    ensures a.Emit? && i < a.next
  {
    var n := LinesWhile(lines, i + 2, l => IsRow(l));
    Emit(Table(lines[i], lines[i + 2..i + 2 + n]), i + 2 + n)
  }

  function TakeList(lines: seq<string>, i: nat): (a: Action)
    requires i < |lines|
    ensures a.Stuck? || (a.Emit? && i < a.next)
  {
    var (markup, next) := List(lines, i, SpaceRun(lines[i]));
    if next == i then Stuck else Emit(markup, next)
  }

  function ActionAt(lines: seq<string>, i: nat): Action
    requires i < |lines|
  {
    var line := lines[i];
    if Blank(line) then Skip
    else if Fence(line).Some? then TakeCode(lines, i)
    else if Heading(line).Some? then
      var (level, text) := Heading(line).value;
      assert 1 <= level <= 6;
      Emit(Element(LEVELS[level - 1], [], Inline(text)), i + 1)
    else if IsRule(line) then Emit([Void("hr", [])], i + 1)
    else if IsQuote(line) then TakeQuote(lines, i)
    else if '|' in line && i + 1 < |lines| && IsTableRule(lines[i + 1]) then TakeTable(lines, i)
    else if HasMarker(line) then TakeList(lines, i)
    else Keep
  }

  function Size(ls: seq<string>): nat {
    if ls == [] then 0 else |ls[0]| + Size(ls[1..])
  }

  lemma {:induction false} SliceSize(ls: seq<string>, i: nat, j: nat)
    requires i <= j <= |ls|
    ensures Size(ls[i..j]) <= Size(ls)
    decreases |ls|
  {
    if i < j {
      if i == 0 {
        assert ls[0..j][1..] == ls[1..][0..j - 1];
        SliceSize(ls[1..], 0, j - 1);
      } else {
        assert ls[i..j] == ls[1..][i - 1..j - 1];
        SliceSize(ls[1..], i - 1, j - 1);
      }
    }
  }

  lemma {:induction false} UnquotedSize(ls: seq<string>)
    requires forall l <- ls :: IsQuote(l)
    ensures Size(Unquoted(ls)) + |ls| <= Size(ls)
  {
    if ls != [] {
      assert Unquoted(ls)[1..] == Unquoted(ls[1..]);
      assert IsQuote(ls[0]);
      UnquotedSize(ls[1..]);
    }
  }

  lemma QuoteAction(lines: seq<string>, i: nat)
    requires i < |lines| && ActionAt(lines, i).Quote?
    ensures IsQuote(lines[i]) && ActionAt(lines, i) == TakeQuote(lines, i)
  {
    hide TakeCode;
    hide TakeTable;
    hide TakeList;
    hide TakeQuote;
    hide Inline;
  }

  lemma QuoteParts(lines: seq<string>, i: nat) returns (n: nat)
    requires i < |lines| && ActionAt(lines, i).Quote?
    ensures 0 < n && i + n <= |lines| && forall l <- lines[i..i + n] :: IsQuote(l)
    ensures ActionAt(lines, i) == Quote(Unquoted(lines[i..i + n]), i + n)
  {
    QuoteAction(lines, i);
    hide ActionAt;
    hide IsQuote;
    hide Unquoted;
    n := LinesWhile(lines, i, l => IsQuote(l));
  }

  /** A quotation holds fewer characters than the text it stands in. */
  lemma QuoteIsSmaller(lines: seq<string>, i: nat)
    requires i < |lines| && ActionAt(lines, i).Quote?
    ensures Size(ActionAt(lines, i).body) < Size(lines) && i < ActionAt(lines, i).after <= |lines|
  {
    hide *;
    var n := QuoteParts(lines, i);
    UnquotedSize(lines[i..i + n]);
    SliceSize(lines, i, i + n);
  }

  lemma ActionMoves(lines: seq<string>, i: nat)
    requires i < |lines| && ActionAt(lines, i).Emit?
    ensures i < ActionAt(lines, i).next
  {
    hide TakeCode;
    hide TakeTable;
    hide TakeList;
    hide TakeQuote;
    hide Inline;
  }

  function Prepend(blocks: seq<Markup>, rest: Option<seq<Markup>>): Option<seq<Markup>> {
    if rest.None? then None else Some(blocks + rest.value)
  }

  function JoinBlocks(blocks: seq<Markup>): Markup {
    if blocks == [] then []
    else if |blocks| == 1 then blocks[0]
    else blocks[0] + [Html.Text("\n")] + JoinBlocks(blocks[1..])
  }

  /** The blocks from line `i` on with these paragraph lines pending; none when the loop is stuck. */
  function Blocks(lines: seq<string>, i: nat, para: seq<string>): Option<seq<Markup>>
    decreases Size(lines), 0, if i < |lines| then |lines| - i else 0
  {
    if i >= |lines| then Some(Flush(para))
    else
      match ActionAt(lines, i)
      case Skip => Prepend(Flush(para), Blocks(lines, i + 1, []))
      case Keep => Blocks(lines, i + 1, para + [lines[i]])
      case Stuck => None
      case Emit(markup, next) =>
        ActionMoves(lines, i);
        Prepend(Flush(para) + [markup], Blocks(lines, next, []))
      case Quote(body, after) =>
        QuoteIsSmaller(lines, i);
        match Lines(body)
        case None => None
        case Some(inner) => Prepend(Flush(para) + [Element("blockquote", [], inner)], Blocks(lines, after, []))
  }

  /** `render` on split lines. */
  function Lines(lines: seq<string>): Option<Markup>
    decreases Size(lines), 1, 0
  {
    match Blocks(lines, 0, [])
    case None => None
    case Some(blocks) => Some(JoinBlocks(blocks))
  }

  /** Carriage returns, alone or before a newline, become newlines. */
  function Normalized(s: string): string {
    if s == "" then ""
    else if s[0] == '\r' then
      if |s| > 1 && s[1] == '\n' then "\n" + Normalized(s[2..]) else "\n" + Normalized(s[1..])
    else [s[0]] + Normalized(s[1..])
  }

  /** `render`: none when it does not return. */
  function Render(md: string): Option<Markup> {
    Lines(Split(Normalized(md), '\n'))
  }

  // ------------------------------------------------------------------
  // when a list stays where it is
  // ------------------------------------------------------------------

  predicate NoSeparator(s: string) {
    forall c <- s :: !Separator(c)
  }

  function ContentAfterMarker(l: string): string
    requires HasMarker(l)
  {
    var e := MarkerEnd(l, SpaceRun(l)).value;
    l[e + SpaceRun(l[e..])..]
  }

  lemma DotMatchesFree(s: string)
    ensures DotMatchesAll(s) <==> NoSeparator(s)
  {
    var n := RunOf(s, c => !Separator(c));
    if n < |s| {
      assert s[n] in s;
    } else {
      forall c | c in s
        ensures !Separator(c)
      {
        var i :| 0 <= i < |s| && s[i] == c;
      }
    }
  }

  lemma ItemIffFree(l: string)
    requires HasMarker(l)
    ensures Item(l, SpaceRun(l)).Some? <==> NoSeparator(ContentAfterMarker(l))
  {
    DotMatchesFree(ContentAfterMarker(l));
    var e := MarkerEnd(l, SpaceRun(l)).value;
    assert ContentAfterMarker(l) == l[e + SpaceRun(l[e..])..];
    assert Item(l, SpaceRun(l)).Some? <==> DotMatchesAll(l[e + SpaceRun(l[e..])..]);
  }

  lemma ItemsMove(lines: seq<string>, j: nat, indent: nat)
    requires j < |lines|
    ensures Items(lines, j, indent).1 == j <==> Item(lines[j], indent).None?
  {
    hide Inline;
    hide Below;
    hide Item;
    if Item(lines[j], indent).Some? {
      var end := DeepEnd(lines, j + 1, indent + 2);
      assert Items(lines, j, indent).1 == Items(lines, end, indent).1 >= end > j;
    }
  }

  /** A list stays where it is exactly at a line whose content holds a separator. */
  lemma StuckIffSeparator(lines: seq<string>, i: nat)
    requires i < |lines| && HasMarker(lines[i])
    ensures TakeList(lines, i).Stuck? <==> !NoSeparator(ContentAfterMarker(lines[i]))
  {
    ItemIffFree(lines[i]);
    ItemsMove(lines, i, SpaceRun(lines[i]));
    hide ContentAfterMarker;
    hide NoSeparator;
    hide Item;
    hide Items;
    hide HasMarker;
    hide SpaceRun;
  }
}
