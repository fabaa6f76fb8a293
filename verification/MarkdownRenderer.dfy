/** The markdown renderer as it runs: cursors, buffers and loops, proved against `Markdown`. */
module MarkdownRenderer {
  import opened Prelude
  import opened Html
  import opened Markdown

  lemma Assoc(a: Markup, b: Markup, c: Markup)
    ensures a + b + c == a + (b + c)
  {
  }

  lemma InlineStep(text: string, i: nat)
    requires i < |text|
    ensures var (span, n) := NextSpan(text[i..]);
            && i + n <= |text|
            && Inline(text[i..]) == SpanMarkup(span, Inline(Held(span))) + Inline(text[i + n..])
  {
    hide NextSpan;
    hide SpanMarkup;
    var (span, n) := NextSpan(text[i..]);
    assert text[i..][n..] == text[i + n..];
  }

  lemma NoText()
    ensures Inline("") == []
  {
  }

  /** `inline`: one span after the other, the cursor always moving on. */
  method RenderInline(text: string) returns (out: Markup)
    ensures out == Inline(text)
    decreases |text|
  {
    hide *;
    out := [];
    var i := 0;
    assert text[0..] == text;
    while i < |text|
      invariant i <= |text|
      invariant out + Inline(text[i..]) == Inline(text)
    {
      InlineStep(text, i);
      var (span, n) := NextSpan(text[i..]);
      var held := RenderInline(Held(span));
      Assoc(out, SpanMarkup(span, held), Inline(text[i + n..]));
      out := out + SpanMarkup(span, held);
      i := i + n;
    }
    assert text[i..] == "";
    NoText();
  }

  method RenderContinuation(ls: seq<string>) returns (out: Markup)
    ensures out == JoinInline(ls, 0)
  {
    hide Inline;
    out := [];
    for i := 0 to |ls|
      invariant out + JoinInline(ls, i) == JoinInline(ls, 0)
    {
      var piece := RenderInline(Trim(ls[i]));
      piece := (if i > 0 then [Html.Text(" ")] else []) + piece;
      Assoc(out, piece, JoinInline(ls, i + 1));
      out := out + piece;
    }
  }

  /** The inner loop of a list item: how far its own lines reach. */
  method ItemEnd(lines: seq<string>, start: nat, n: nat) returns (end: nat)
    requires start <= |lines|
    ensures end == DeepEnd(lines, start, n)
  {
    end := start;
    while end < |lines| && (Deeper(lines[end], n) || Blank(lines[end]))
      invariant start <= end <= |lines|
      invariant DeepEnd(lines, start, n) == DeepEnd(lines, end, n)
    {
      if Blank(lines[end]) && !(end + 1 < |lines| && Deeper(lines[end + 1], n)) {
        break;
      }
      end := end + 1;
    }
  }

  /** `parseList` */
  method ParseList(lines: seq<string>, start: nat, indent: nat) returns (html: Markup, next: nat)
    requires start < |lines|
    ensures (html, next) == List(lines, start, indent)
    decreases |lines| - start, 0
  {
    hide *;
    var out: Markup := [];
    next := start;
    while next < |lines| && Item(lines[next], indent).Some?
      invariant start <= next <= |lines|
      invariant out + Items(lines, next, indent).0 == Items(lines, start, indent).0
      invariant Items(lines, next, indent).1 == Items(lines, start, indent).1
    {
      ItemsStep(lines, next, indent);
      var content := Item(lines[next], indent).value;
      var sub := next + 1;
      var end := ItemEnd(lines, sub, indent + 2);
      var below := RenderBelow(lines, sub, end, indent);
      var text := RenderInline(content);
      Assoc(out, Element("li", [], text + below), Items(lines, end, indent).0);
      out := out + Element("li", [], text + below);
      next := end;
    }
    ItemsStop(lines, next, indent);
    assert out + [] == out;
    ListIs(lines, start, indent);
    html := Element(ListTag(lines[start]), [], out);
  }

  lemma ItemsStop(lines: seq<string>, j: nat, indent: nat)
    requires j <= |lines| && (j == |lines| || Item(lines[j], indent).None?)
    ensures Items(lines, j, indent) == ([], j)
  {
    hide Item;
  }

  lemma ListIs(lines: seq<string>, start: nat, indent: nat)
    requires start < |lines|
    ensures List(lines, start, indent) == (Element(ListTag(lines[start]), [], Items(lines, start, indent).0), Items(lines, start, indent).1)
  {
    hide Items;
  }

  lemma ItemsStep(lines: seq<string>, j: nat, indent: nat)
    requires j < |lines| && Item(lines[j], indent).Some?
    ensures var end := DeepEnd(lines, j + 1, indent + 2);
            Items(lines, j, indent) ==
            (Element("li", [], Inline(Item(lines[j], indent).value) + Below(lines, j + 1, end, indent)) + Items(lines, end, indent).0,
             Items(lines, end, indent).1)
  {
    hide Item;
    hide Inline;
    hide Below;
  }

  method RenderBelow(lines: seq<string>, sub: nat, end: nat, indent: nat) returns (out: Markup)
    requires sub <= end <= |lines|
    ensures out == Below(lines, sub, end, indent)
    decreases |lines| - sub, 1
  {
    if sub == end {
      return [];
    }
    if AnySubItem(lines[sub..end], indent + 2) {
      var nested, _ := ParseList(lines, sub, indent + 2);
      return nested;
    }
    var rest := RenderContinuation(lines[sub..end]);
    return [Html.Text(" ")] + rest;
  }

  /** Lines up to the closing fence, or to the end of the text. */
  method ReadCode(lines: seq<string>, start: nat) returns (code: seq<string>, next: nat)
    requires start <= |lines|
    ensures next == start + LinesWhile(lines, start, l => !FenceEnd(l)) && code == lines[start..next]
  {
    code, next := [], start;
    while next < |lines| && !FenceEnd(lines[next])
      invariant start <= next <= |lines| && code == lines[start..next]
      invariant start + LinesWhile(lines, start, l => !FenceEnd(l)) == next + LinesWhile(lines, next, l => !FenceEnd(l))
    {
      code := code + [lines[next]];
      next := next + 1;
    }
  }

  method ReadQuote(lines: seq<string>, start: nat) returns (quote: seq<string>, next: nat)
    requires start <= |lines|
    ensures next == start + LinesWhile(lines, start, l => IsQuote(l)) && quote == Unquoted(lines[start..next])
  {
    quote, next := [], start;
    while next < |lines| && IsQuote(lines[next])
      invariant start <= next <= |lines|
      invariant forall k :: start <= k < next ==> IsQuote(lines[k])
      invariant quote == Unquoted(lines[start..next])
      invariant start + LinesWhile(lines, start, l => IsQuote(l)) == next + LinesWhile(lines, next, l => IsQuote(l))
    {
      UnquotedStep(lines, start, next);
      quote := quote + [QuoteBody(lines[next])];
      next := next + 1;
    }
  }

  lemma UnquotedStep(lines: seq<string>, start: nat, next: nat)
    requires start <= next < |lines| && forall k :: start <= k <= next ==> IsQuote(lines[k])
    ensures forall l <- lines[start..next + 1] :: IsQuote(l)
    ensures Unquoted(lines[start..next + 1]) == Unquoted(lines[start..next]) + [QuoteBody(lines[next])]
  {
    hide IsQuote;
    hide QuoteBody;
  }

  method ReadRows(lines: seq<string>, start: nat) returns (next: nat)
    requires start <= |lines|
    ensures next == start + LinesWhile(lines, start, l => IsRow(l))
  {
    next := start;
    while next < |lines| && '|' in lines[next] && !Blank(lines[next])
      invariant start <= next <= |lines|
      invariant start + LinesWhile(lines, start, l => IsRow(l)) == next + LinesWhile(lines, next, l => IsRow(l))
    {
      next := next + 1;
    }
  }

  method TakeCodeBlock(lines: seq<string>, i: nat) returns (a: Action)
    requires i < |lines| && Fence(lines[i]).Some?
    ensures a == TakeCode(lines, i)
  {
    hide CodeBlock;
    hide Fence;
    var code, end := ReadCode(lines, i + 1);
    a := Emit(CodeBlock(Fence(lines[i]).value, code), end + 1);
  }

  method TakeQuotation(lines: seq<string>, i: nat) returns (a: Action)
    requires i < |lines|
    ensures a == TakeQuote(lines, i)
  {
    var quote, next := ReadQuote(lines, i);
    a := Quote(quote, next);
  }

  method TakeTableRows(lines: seq<string>, i: nat) returns (a: Action)
    requires i + 1 < |lines|
    ensures a == TakeTable(lines, i)
  {
    hide Table;
    var next := ReadRows(lines, i + 2);
    a := Emit(Table(lines[i], lines[i + 2..next]), next);
  }

  method TakeWholeList(lines: seq<string>, i: nat) returns (a: Action)
    requires i < |lines|
    ensures a == TakeList(lines, i)
  {
    hide List;
    var html, next := ParseList(lines, i, SpaceRun(lines[i]));
    a := if next == i then Stuck else Emit(html, next);
  }

  /** One turn of the main loop, the recursion into quotations apart. */
  method Act(lines: seq<string>, i: nat) returns (a: Action)
    requires i < |lines|
    ensures a == ActionAt(lines, i)
  {
    hide Inline;
    hide TakeCode;
    hide TakeQuote;
    hide TakeTable;
    hide TakeList;
    hide Blank;
    hide Fence;
    hide IsRule;
    hide IsQuote;
    hide IsTableRule;
    hide HasMarker;
    hide HeadingText;
    var line := lines[i];
    if Blank(line) {
      return Skip;
    }
    if Fence(line).Some? {
      a := TakeCodeBlock(lines, i);
      return;
    }
    var heading := Heading(line);
    if heading.Some? {
      var text := RenderInline(heading.value.1);
      return Emit(Element(LEVELS[heading.value.0 - 1], [], text), i + 1);
    }
    if IsRule(line) {
      return Emit([Void("hr", [])], i + 1);
    }
    if IsQuote(line) {
      a := TakeQuotation(lines, i);
      return;
    }
    if '|' in line && i + 1 < |lines| && IsTableRule(lines[i + 1]) {
      a := TakeTableRows(lines, i);
      return;
    }
    if HasMarker(line) {
      a := TakeWholeList(lines, i);
      return;
    }
    return Keep;
  }

  lemma PrependTwice(a: seq<Markup>, b: seq<Markup>, rest: Option<seq<Markup>>)
    ensures Prepend(a, Prepend(b, rest)) == Prepend(a + b, rest)
    ensures Prepend([], rest) == rest
  {
    if rest.Some? {
      assert a + (b + rest.value) == a + b + rest.value;
      assert [] + rest.value == rest.value;
    }
  }

  /** What one turn of the main loop contributes. */
  lemma BlocksStep(lines: seq<string>, i: nat, para: seq<string>)
    requires i < |lines|
    ensures match ActionAt(lines, i)
            case Skip => Blocks(lines, i, para) == Prepend(Flush(para), Blocks(lines, i + 1, []))
            case Keep => Blocks(lines, i, para) == Blocks(lines, i + 1, para + [lines[i]])
            case Stuck => Blocks(lines, i, para) == None
            case Emit(markup, next) => Blocks(lines, i, para) == Prepend(Flush(para) + [markup], Blocks(lines, next, []))
            case Quote(body, after) =>
              Blocks(lines, i, para) ==
              if Lines(body).None? then None
              else Prepend(Flush(para) + [Element("blockquote", [], Lines(body).value)], Blocks(lines, after, []))
  {
    hide ActionAt;
    hide Flush;
    if ActionAt(lines, i).Quote? {
      QuoteIsSmaller(lines, i);
    }
  }

  /** `render` on split lines: blocks pushed to a list, pending paragraph lines in a buffer. */
  method RenderLines(lines: seq<string>) returns (r: Option<Markup>)
    ensures r == Lines(lines)
    decreases Size(lines)
  {
    hide *;
    var html: seq<Markup> := [];
    var para: seq<string> := [];
    var i: nat := 0;
    PrependTwice([], [], Blocks(lines, 0, []));
    while i < |lines|
      invariant Prepend(html, Blocks(lines, i, para)) == Blocks(lines, 0, [])
      decreases |lines| - i
    {
      BlocksStep(lines, i, para);
      var action := Act(lines, i);
      match action {
        case Skip =>
          PrependTwice(html, Flush(para), Blocks(lines, i + 1, []));
          html, para, i := html + Flush(para), [], i + 1;
        case Keep =>
          para, i := para + [lines[i]], i + 1;
        case Stuck =>
          NoBlocks(html, lines);
          return None;
        case Emit(markup, next) =>
          ActionMoves(lines, i);
          PrependTwice(html, Flush(para) + [markup], Blocks(lines, next, []));
          html, para, i := html + (Flush(para) + [markup]), [], next;
        case Quote(body, after) =>
          QuoteIsSmaller(lines, i);
          var inner := RenderLines(body);
          if inner.None? {
            NoBlocks(html, lines);
            return None;
          }
          var quoted := Element("blockquote", [], inner.value);
          PrependTwice(html, Flush(para) + [quoted], Blocks(lines, after, []));
          html, para, i := html + (Flush(para) + [quoted]), [], after;
      }
    }
    AtTheEnd(html, lines, i, para);
    r := Some(JoinBlocks(html + Flush(para)));
  }

  lemma NoBlocks(html: seq<Markup>, lines: seq<string>)
    ensures Prepend(html, None) == None
    ensures Blocks(lines, 0, []).None? ==> Lines(lines) == None
  {
    hide Blocks;
  }

  lemma AtTheEnd(html: seq<Markup>, lines: seq<string>, i: nat, para: seq<string>)
    requires i >= |lines| && Prepend(html, Blocks(lines, i, para)) == Blocks(lines, 0, [])
    ensures Lines(lines) == Some(JoinBlocks(html + Flush(para)))
  {
    hide Flush;
    hide JoinBlocks;
    assert Blocks(lines, i, para) == Some(Flush(para));
  }

  /** `render` */
  method RenderText(md: string) returns (r: Option<Markup>)
    ensures r == Render(md)
  {
    r := RenderLines(Split(Normalized(md), '\n'));
  }
}
