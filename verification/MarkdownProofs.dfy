/** What the markdown renderer guarantees: well-nested markup in its own vocabulary, lists that
    stay inside their parent item, and links with safe schemes only. */
module MarkdownProofs {
  import opened Prelude
  import Text
  import opened Html
  import opened Markdown

  // ------------------------------------------------------------------
  // well-nested markup
  // ------------------------------------------------------------------

  lemma InlineNames()
    ensures IsName("code") && IsName("a") && IsName("img") && IsName("src") && IsName("alt") && IsName("href") && IsName("title")
  {
  }

  lemma BlockNames()
    ensures IsName("p") && IsName("br") && IsName("hr") && IsName("li") && IsName("ol") && IsName("ul")
    ensures IsName("blockquote") && IsName("pre") && IsName("code") && IsName("class")
  {
  }

  lemma TableNames()
    ensures IsName("table") && IsName("thead") && IsName("tbody") && IsName("tr") && IsName("th") && IsName("td")
  {
  }

  lemma LevelNames()
    ensures forall i :: 0 <= i < |LEVELS| ==> IsName(LEVELS[i])
  {
  }

  lemma SoundText(s: string)
    ensures Sound([Html.Text(s)])
  {
    SoundLeaf(Html.Text(s));
  }

  lemma SoundNothing()
    ensures Sound([])
  {
    NestedNothing();
  }

  lemma TitleHasNoLink(title: string)
    ensures LinksSafeIn(TitleAttribute(title)) && LinksSafeIn([Attribute("alt", title)])
  {
    hide IsSafe;
  }

  lemma LinkIsSafe(name: string, url: string)
    ensures LinksSafeIn([Attribute(name, SafeUrl(url))])
  {
    hide IsSafe;
  }

  lemma LinksJoin(a: seq<Attribute>, b: seq<Attribute>)
    requires LinksSafeIn(a) && LinksSafeIn(b)
    ensures LinksSafeIn(a + b)
  {
    hide IsSafe;
  }

  lemma SpanIsSound(span: Span, held: Markup)
    requires Sound(held) && (span.Wrapped? ==> IsName(span.tag))
    ensures Sound(SpanMarkup(span, held))
  {
    InlineNames();
    hide IsName;
    hide Sound;
    hide SafeUrl;
    hide LinksSafeIn;
    if span.Image? {
      LinkIsSafe("src", span.src);
      TitleHasNoLink(span.alt);
      TitleHasNoLink(span.imageTitle);
      LinksJoin([Attribute("src", SafeUrl(span.src))], [Attribute("alt", span.alt)]);
      var attributes := [Attribute("src", SafeUrl(span.src)), Attribute("alt", span.alt)];
      assert attributes == [Attribute("src", SafeUrl(span.src))] + [Attribute("alt", span.alt)];
      LinksJoin(attributes, TitleAttribute(span.imageTitle));
    } else if span.Link? {
      LinkIsSafe("href", span.href);
      TitleHasNoLink(span.title);
      LinksJoin([Attribute("href", SafeUrl(span.href))], TitleAttribute(span.title));
    }
    match span
    case Plain(c) => SoundText(c);
    case Code(code) =>
      SoundText(code);
      SoundElement("code", [], [Html.Text(code)]);
    case Image(alt, src, title) =>
      SoundLeaf(Void("img", [Attribute("src", SafeUrl(src)), Attribute("alt", alt)] + TitleAttribute(title)));
    case Link(_, href, title) => SoundElement("a", [Attribute("href", SafeUrl(href))] + TitleAttribute(title), held);
    case Wrapped(tag, _) => SoundElement(tag, [], held);
  }

  lemma {:induction false} InlineIsSound(text: string)
    ensures Sound(Inline(text))
    decreases |text|
  {
    hide IsName;
    hide Sound;
    hide SpanMarkup;
    hide NextSpan;
    if text == "" {
      SoundNothing();
    } else {
      var (span, n) := NextSpan(text);
      InlineIsSound(Held(span));
      InlineIsSound(text[n..]);
      SpanIsSound(span, Inline(Held(span)));
      SoundConcat(SpanMarkup(span, Inline(Held(span))), Inline(text[n..]));
    }
  }

  lemma {:induction false} JoinInlineIsSound(ls: seq<string>, i: nat)
    requires i <= |ls|
    ensures Sound(JoinInline(ls, i))
    decreases |ls| - i
  {
    hide Sound;
    hide Inline;
    SoundNothing();
    if i < |ls| {
      var space := if i > 0 then [Html.Text(" ")] else [];
      SoundText(" ");
      InlineIsSound(Markdown.Trim(ls[i]));
      JoinInlineIsSound(ls, i + 1);
      SoundConcat(space, Inline(Markdown.Trim(ls[i])));
      SoundConcat(space + Inline(Markdown.Trim(ls[i])), JoinInline(ls, i + 1));
    }
  }

  lemma {:induction false} BelowIsSound(lines: seq<string>, sub: nat, end: nat, indent: nat)
    requires sub <= end <= |lines|
    ensures Sound(Below(lines, sub, end, indent))
    decreases |lines| - sub, 2
  {
    hide Sound;
    hide AnySubItem;
    hide Items;
    hide JoinInline;
    if sub == end {
      SoundNothing();
    } else if AnySubItem(lines[sub..end], indent + 2) {
      ListIsSound(lines, sub, indent + 2);
    } else {
      SoundText(" ");
      JoinInlineIsSound(lines[sub..end], 0);
      SoundConcat([Html.Text(" ")], JoinInline(lines[sub..end], 0));
    }
  }

  lemma {:induction false} ItemsAreSound(lines: seq<string>, j: nat, indent: nat)
    requires j <= |lines|
    ensures Sound(Items(lines, j, indent).0)
    decreases |lines| - j, 0
  {
    hide Sound;
    hide Inline;
    hide Below;
    hide Item;
    hide IsName;
    if j == |lines| || Item(lines[j], indent).None? {
      SoundNothing();
    } else {
      var end := DeepEnd(lines, j + 1, indent + 2);
      var content, below := Inline(Item(lines[j], indent).value), Below(lines, j + 1, end, indent);
      hide DeepEnd;
      InlineIsSound(Item(lines[j], indent).value);
      BelowIsSound(lines, j + 1, end, indent);
      SoundConcat(content, below);
      BlockNames();
      SoundElement("li", [], content + below);
      ItemsAreSound(lines, end, indent);
      SoundConcat(Element("li", [], content + below), Items(lines, end, indent).0);
    }
  }

  lemma {:induction false} ListIsSound(lines: seq<string>, start: nat, indent: nat)
    requires start < |lines|
    ensures Sound(List(lines, start, indent).0)
    decreases |lines| - start, 1
  {
    hide Sound;
    hide Items;
    hide IsName;
    ItemsAreSound(lines, start, indent);
    BlockNames();
    SoundElement(ListTag(lines[start]), [], Items(lines, start, indent).0);
  }

  lemma ParagraphLineIsSound(l: string)
    ensures Sound(ParagraphLine(l))
  {
    InlineIsSound(Markdown.TrimEnd(l));
    InlineIsSound(Markdown.Trim(l));
    BlockNames();
    hide Sound;
    hide Inline;
    hide IsName;
    SoundLeaf(Void("br", []));
    SoundConcat(Inline(Markdown.TrimEnd(l)), [Void("br", [])]);
  }

  lemma {:induction false} ParagraphIsSound(para: seq<string>)
    ensures Sound(JoinParagraph(para))
  {
    hide Sound;
    hide ParagraphLine;
    if para == [] {
      SoundNothing();
    } else {
      ParagraphLineIsSound(para[0]);
      if |para| > 1 {
        SoundText("\n");
        ParagraphIsSound(para[1..]);
        SoundConcat(ParagraphLine(para[0]), [Html.Text("\n")]);
        SoundConcat(ParagraphLine(para[0]) + [Html.Text("\n")], JoinParagraph(para[1..]));
      }
    }
  }

  ghost predicate AllSound(blocks: seq<Markup>) {
    forall i :: 0 <= i < |blocks| ==> Sound(blocks[i])
  }

  lemma FlushIsSound(para: seq<string>)
    ensures AllSound(Flush(para))
  {
    hide Sound;
    hide IsName;
    hide JoinParagraph;
    ParagraphIsSound(para);
    BlockNames();
    SoundElement("p", [], JoinParagraph(para));
  }

  lemma {:induction false} RowIsSound(cells: seq<string>, tag: string)
    requires IsName(tag)
    ensures Sound(Row(cells, tag))
  {
    hide Sound;
    hide Inline;
    hide IsName;
    if cells == [] {
      SoundNothing();
    } else {
      InlineIsSound(Markdown.Trim(cells[0]));
      SoundElement(tag, [], Inline(Markdown.Trim(cells[0])));
      RowIsSound(cells[1..], tag);
      SoundConcat(Element(tag, [], Inline(Markdown.Trim(cells[0]))), Row(cells[1..], tag));
    }
  }

  lemma {:induction false} BodyIsSound(rows: seq<string>)
    ensures Sound(Body(rows))
  {
    hide Sound;
    hide Row;
    hide IsName;
    hide Cells;
    if rows == [] {
      SoundNothing();
    } else {
      TableNames();
      RowIsSound(Cells(rows[0]), "td");
      SoundElement("tr", [], Row(Cells(rows[0]), "td"));
      BodyIsSound(rows[1..]);
      SoundConcat(Element("tr", [], Row(Cells(rows[0]), "td")), Body(rows[1..]));
    }
  }

  lemma TableIsSound(head: string, rows: seq<string>)
    ensures Sound(Table(head, rows))
  {
    hide Sound;
    hide Row;
    hide Body;
    hide IsName;
    TableNames();
    RowIsSound(Cells(head), "th");
    BodyIsSound(rows);
    var top := Element("tr", [], Row(Cells(head), "th"));
    SoundElement("tr", [], Row(Cells(head), "th"));
    SoundElement("thead", [], top);
    SoundElement("tbody", [], Body(rows));
    SoundConcat(Element("thead", [], top), Element("tbody", [], Body(rows)));
    SoundElement("table", [], Element("thead", [], top) + Element("tbody", [], Body(rows)));
  }

  lemma CodeBlockIsSound(language: string, code: seq<string>)
    ensures Sound(CodeBlock(language, code))
  {
    hide Sound;
    hide IsName;
    hide JoinLines;
    BlockNames();
    var attributes := if language == "" then [] else [Attribute("class", "language-" + language)];
    SoundText(JoinLines(code));
    SoundElement("code", attributes, [Html.Text(JoinLines(code))]);
    SoundElement("pre", [], Element("code", attributes, [Html.Text(JoinLines(code))]));
  }

  lemma HeadingIsSound(level: nat, text: string)
    requires 1 <= level <= 6
    ensures Sound(Element(LEVELS[level - 1], [], Inline(text)))
  {
    LevelNames();
    InlineIsSound(text);
    SoundElement(LEVELS[level - 1], [], Inline(text));
  }

  lemma TakenCodeIsSound(lines: seq<string>, i: nat)
    requires i < |lines| && Fence(lines[i]).Some?
    ensures Sound(TakeCode(lines, i).markup)
  {
    hide Sound;
    hide CodeBlock;
    hide Fence;
    var n := LinesWhile(lines, i + 1, l => !FenceEnd(l));
    CodeBlockIsSound(Fence(lines[i]).value, lines[i + 1..i + 1 + n]);
  }

  lemma TakenTableIsSound(lines: seq<string>, i: nat)
    requires i + 1 < |lines|
    ensures Sound(TakeTable(lines, i).markup)
  {
    hide Sound;
    hide Table;
    var n := LinesWhile(lines, i + 2, l => IsRow(l));
    TableIsSound(lines[i], lines[i + 2..i + 2 + n]);
  }

  lemma TakenListIsSound(lines: seq<string>, i: nat)
    requires i < |lines|
    ensures TakeList(lines, i).Emit? ==> Sound(TakeList(lines, i).markup)
  {
    hide Sound;
    hide List;
    ListIsSound(lines, i, SpaceRun(lines[i]));
  }

  lemma EmittedIsSound(lines: seq<string>, i: nat)
    requires i < |lines| && ActionAt(lines, i).Emit?
    ensures Sound(ActionAt(lines, i).markup)
  {
    hide Sound;
    hide Inline;
    hide IsName;
    hide TakeCode;
    hide TakeTable;
    hide TakeList;
    hide TakeQuote;
    hide Heading;
    hide IsRule;
    hide HasMarker;
    hide IsTableRule;
    hide IsQuote;
    hide Blank;
    hide Fence;
    var line := lines[i];
    BlockNames();
    SoundLeaf(Void("hr", []));
    TakenListIsSound(lines, i);
    if Fence(line).Some? {
      TakenCodeIsSound(lines, i);
    }
    if i + 1 < |lines| {
      TakenTableIsSound(lines, i);
    }
    if Heading(line).Some? {
      HeadingLevel(line);
      HeadingIsSound(Heading(line).value.0, Heading(line).value.1);
    }
  }

  lemma HeadingLevel(l: string)
    requires Heading(l).Some?
    ensures 1 <= Heading(l).value.0 <= 6
  {
    hide HeadingText;
  }

  lemma {:induction false} BlocksJoinSound(blocks: seq<Markup>)
    requires AllSound(blocks)
    ensures Sound(JoinBlocks(blocks))
  {
    hide Sound;
    if blocks == [] {
      SoundNothing();
    } else if |blocks| > 1 {
      SoundText("\n");
      BlocksJoinSound(blocks[1..]);
      SoundConcat(blocks[0], [Html.Text("\n")]);
      SoundConcat(blocks[0] + [Html.Text("\n")], JoinBlocks(blocks[1..]));
    }
  }

  lemma {:induction false} BlocksAreSound(lines: seq<string>, i: nat, para: seq<string>)
    requires Blocks(lines, i, para).Some?
    ensures AllSound(Blocks(lines, i, para).value)
    decreases Size(lines), 0, if i < |lines| then |lines| - i else 0
  {
    hide Sound;
    hide ActionAt;
    hide Flush;
    hide IsName;
    FlushIsSound(para);
    if i < |lines| {
      match ActionAt(lines, i)
      case Skip => BlocksAreSound(lines, i + 1, []);
      case Keep => BlocksAreSound(lines, i + 1, para + [lines[i]]);
      case Emit(_, next) =>
        ActionMoves(lines, i);
        EmittedIsSound(lines, i);
        BlocksAreSound(lines, next, []);
      case Quote(body, after) =>
        QuoteIsSmaller(lines, i);
        LinesAreSound(body);
        BlockNames();
        SoundElement("blockquote", [], Lines(body).value);
        BlocksAreSound(lines, after, []);
    }
  }

  lemma {:induction false} LinesAreSound(lines: seq<string>)
    requires Lines(lines).Some?
    ensures Sound(Lines(lines).value)
    decreases Size(lines), 1, 0
  {
    BlocksAreSound(lines, 0, []);
    BlocksJoinSound(Blocks(lines, 0, []).value);
  }

  /** Whatever the text, every link and image destination in the output has one of the allowed
      forms. */
  lemma RenderedLinksAreSafe(md: string)
    requires Render(md).Some?
    ensures LinksSafe(Render(md).value)
  {
    LinesAreSound(Split(Normalized(md), '\n'));
    hide LinksSafe;
    hide Lines;
  }

  /** Whatever the text, the output is well-nested, and every `<` in it begins a tag of the
      renderer's own vocabulary. */
  lemma RenderedIsWellNested(md: string)
    requires Render(md).Some?
    ensures WellNested(Render(md).value) && Named(Render(md).value)
    ensures forall i :: 0 <= i < |Print(Render(md).value)| && Print(Render(md).value)[i] == '<' ==>
              exists k :: IsTagAt(Render(md).value, k, i)
  {
    var m := Render(md).value;
    LinesAreSound(Split(Normalized(md), '\n'));
    hide Render;
    forall i | 0 <= i < |Print(m)| && Print(m)[i] == '<'
      ensures exists k :: IsTagAt(m, k, i)
    {
      var k := AnglesAreTags(m, i);
      assert IsTagAt(m, k, i);
    }
  }

  /** Token `k` is a tag and its print starts at character `i`. */
  ghost predicate IsTagAt(m: Markup, k: nat, i: nat) {
    k < |m| && !m[k].Text? && |Print(m[..k])| == i
  }

  // ------------------------------------------------------------------
  // lists stay inside their item
  // ------------------------------------------------------------------

  lemma ItemIsDeeper(l: string, indent: nat, n: nat)
    requires Item(l, indent).Some? && n <= indent
    ensures Deeper(l, n)
  {
    hide DotMatchesAll;
  }

  lemma BelongsDeeper(lines: seq<string>, j: nat, n: nat, m: nat)
    requires Belongs(lines, j, m) && n <= m
    ensures Belongs(lines, j, n)
  {
  }

  /** What belongs to a deeper item also belongs to a shallower one. */
  lemma {:induction false} DeepEndInside(lines: seq<string>, j: nat, end: nat, n: nat, m: nat)
    requires j <= end <= |lines| && n <= m && !Belongs(lines, end, n)
    ensures DeepEnd(lines, j, m) <= end
    decreases |lines| - j
  {
    if Belongs(lines, j, m) {
      BelongsDeeper(lines, j, n, m);
      DeepEndInside(lines, j + 1, end, n, m);
    }
  }

  lemma {:induction false} ItemsStayInside(lines: seq<string>, j: nat, end: nat, indent: nat, n: nat)
    requires j <= end <= |lines| && n <= indent && !Belongs(lines, end, n)
    ensures Items(lines, j, indent).1 <= end
    decreases |lines| - j
  {
    if j < |lines| && Item(lines[j], indent).Some? {
      ItemIsDeeper(lines[j], indent, n);
      assert Belongs(lines, j, n);
      assert j < end;
      DeepEndInside(lines, j + 1, end, n, indent + 2);
      ItemsNext(lines, j, indent);
      hide *;
      ItemsStayInside(lines, DeepEnd(lines, j + 1, indent + 2), end, indent, n);
    } else {
      ItemsNext(lines, j, indent);
    }
  }

  lemma ItemsNext(lines: seq<string>, j: nat, indent: nat)
    requires j <= |lines|
    ensures Items(lines, j, indent).1 ==
            if j == |lines| || Item(lines[j], indent).None? then j else Items(lines, DeepEnd(lines, j + 1, indent + 2), indent).1
  {
    hide Inline;
    hide Below;
    hide Item;
  }

  /** A nested list is parsed out of the whole text, yet it never consumes a line past the lines
      of its parent item. */
  lemma NestedListStaysInside(lines: seq<string>, sub: nat, indent: nat)
    requires sub < |lines|
    ensures List(lines, sub, indent + 2).1 <= DeepEnd(lines, sub, indent + 2)
  {
    hide Items;
    ItemsStayInside(lines, sub, DeepEnd(lines, sub, indent + 2), indent + 2, indent + 2);
  }

  // ------------------------------------------------------------------
  // quotations
  // ------------------------------------------------------------------

  /** Lines joined and split again are the same lines, so rendering a quotation's joined text
      is rendering its lines. */
  lemma {:induction false} RejoinedLines(ls: seq<string>)
    requires ls != [] && forall l <- ls :: '\n' !in l && '\r' !in l
    ensures Split(Normalized(JoinLines(ls)), '\n') == ls
  {
    NormalizedJoined(ls);
    SplitJoined(ls);
  }

  lemma {:induction false} NormalizedPlain(s: string)
    requires '\r' !in s
    ensures Normalized(s) == s
  {
    if s != "" {
      assert s[0] in s;
      NormalizedPlain(s[1..]);
    }
  }

  lemma {:induction false} JoinedHasNoReturn(ls: seq<string>)
    requires forall l <- ls :: '\r' !in l
    ensures '\r' !in JoinLines(ls)
  {
    if ls != [] {
      assert ls[0] in ls;
      JoinedHasNoReturn(ls[1..]);
    }
  }

  lemma NormalizedJoined(ls: seq<string>)
    requires forall l <- ls :: '\r' !in l
    ensures Normalized(JoinLines(ls)) == JoinLines(ls)
  {
    JoinedHasNoReturn(ls);
    NormalizedPlain(JoinLines(ls));
  }

  lemma {:induction false} SplitJoined(ls: seq<string>)
    requires ls != [] && forall l <- ls :: '\n' !in l
    ensures Split(JoinLines(ls), '\n') == ls
  {
    var s := JoinLines(ls);
    assert ls[0] in ls;
    Text.IndexOfUnique(s, '\n', |ls[0]|);
    if |ls| > 1 {
      assert s[..|ls[0]|] == ls[0] && s[|ls[0]| + 1..] == JoinLines(ls[1..]);
      SplitJoined(ls[1..]);
    }
  }

  // ------------------------------------------------------------------
  // what the marks mean
  // ------------------------------------------------------------------

  /** The emphasis marks and their elements. */
  predicate IsMark(mark: string, tag: string) {
    || (mark == "**" && tag == "strong") || (mark == "__" && tag == "strong")
    || (mark == "*" && tag == "em") || (mark == "_" && tag == "em")
    || (mark == "~~" && tag == "del")
  }

  lemma DelimitedWord(mark: string, word: string, rest: string)
    requires mark != "" && word != "" && mark[0] !in word
    ensures Delimited(mark + word + mark + rest, mark) == Some(word)
  {
    var s := mark + word + mark + rest;
    var tail := s[|mark|..];
    assert tail == word + (mark + rest);
    Text.IndexOfUnique(tail, mark[0], |word|);
    var end := |mark| + |word|;
    assert s[|mark|..end] == word && s[end..end + |mark|] == mark;
  }

  lemma NotDelimited(s: string, mark: string, i: nat)
    requires i < |s| && i < |mark| && s[i] != mark[i]
    ensures Delimited(s, mark).None?
  {
    assert !(mark <= s);
  }

  /** The marks that are tried before this one do not match. */
  lemma EarlierMarksFail(s: string, mark: string, tag: string, c: char)
    requires IsMark(mark, tag) && |mark| < |s| && mark <= s && s[|mark|] == c && c != mark[0]
    ensures Delimited(s, "`").None? && s[0] != '\\' && s[0] != '!' && s[0] != '['
    ensures mark != "**" ==> Delimited(s, "**").None?
    ensures mark == "*" || mark == "_" || mark == "~~" ==> Delimited(s, "__").None?
    ensures mark == "_" || mark == "~~" ==> Delimited(s, "*").None?
    ensures mark == "~~" ==> Delimited(s, "_").None?
  {
    assert s[0] == mark[0];
    hide Delimited;
    NotDelimited(s, "`", 0);
    if mark == "*" {
      NotDelimited(s, "**", 1);
      NotDelimited(s, "__", 0);
    } else if mark == "__" {
      NotDelimited(s, "**", 0);
    } else if mark == "_" {
      NotDelimited(s, "**", 0);
      NotDelimited(s, "__", 1);
      NotDelimited(s, "*", 0);
    } else if mark == "~~" {
      NotDelimited(s, "**", 0);
      NotDelimited(s, "__", 0);
      NotDelimited(s, "*", 0);
      NotDelimited(s, "_", 0);
    }
  }

  lemma EmphasisFromMarks(s: string, mark: string, tag: string, word: string)
    requires IsMark(mark, tag) && Delimited(s, mark) == Some(word)
    requires mark != "**" ==> Delimited(s, "**").None?
    requires mark == "*" || mark == "_" || mark == "~~" ==> Delimited(s, "__").None?
    requires mark == "_" || mark == "~~" ==> Delimited(s, "*").None?
    requires mark == "~~" ==> Delimited(s, "_").None?
    ensures Emphasis(s) == Some((tag, |mark|, word))
  {
    hide Delimited;
  }

  lemma SpanFromEmphasis(s: string)
    requires s != "" && s[0] != '\\' && s[0] != '!' && s[0] != '[' && Delimited(s, "`").None? && Emphasis(s).Some?
    ensures var (tag, mark, inner) := Emphasis(s).value; NextSpan(s) == (Wrapped(tag, inner), |inner| + 2 * mark)
  {
    hide Delimited;
    hide Emphasis;
  }

  lemma MarkedHead(mark: string, tag: string, word: string, rest: string)
    requires IsMark(mark, tag) && word != "" && mark[0] !in word
    ensures var s := mark + word + mark + rest; mark != "" && |mark| < |s| && mark <= s && s[|mark|] == word[0] && word[0] != mark[0]
  {
    assert word[0] in word;
  }

  lemma MarkedSpan(mark: string, tag: string, word: string, rest: string)
    requires IsMark(mark, tag) && word != "" && mark[0] !in word
    ensures NextSpan(mark + word + mark + rest) == (Wrapped(tag, word), 2 * |mark| + |word|)
  {
    hide *;
    var s := mark + word + mark + rest;
    MarkedHead(mark, tag, word, rest);
    DelimitedWord(mark, word, rest);
    EarlierMarksFail(s, mark, tag, word[0]);
    EmphasisFromMarks(s, mark, tag, word);
    SpanFromEmphasis(s);
  }

  /** A word between emphasis marks becomes that element, and the text goes on behind it. */
  lemma MarkedWord(mark: string, tag: string, word: string, rest: string)
    requires IsMark(mark, tag) && word != "" && mark[0] !in word
    ensures Inline(mark + word + mark + rest) == Element(tag, [], Inline(word)) + Inline(rest)
  {
    MarkedSpan(mark, tag, word, rest);
    var s := mark + word + mark + rest;
    assert s[2 * |mark| + |word|..] == rest;
    hide NextSpan;
    hide IsMark;
  }

  /** Characters without a meaning of their own. */
  predicate IsPlain(c: char) {
    c !in "\\`![*_~"
  }

  /** Text without markdown characters comes out as itself, escaped. */
  lemma {:induction false} PlainTextIsKept(text: string)
    requires forall c <- text :: IsPlain(c)
    ensures Print(Inline(text)) == Escape(text)
  {
    if text != "" {
      assert IsPlain(text[0]) by {
        assert text[0] in text;
      }
      PlainSpan(text);
      assert forall c <- text[1..] :: c in text;
      PlainTextIsKept(text[1..]);
      hide NextSpan;
      assert Inline(text) == [Html.Text([text[0]])] + Inline(text[1..]);
      assert Inline(text)[1..] == Inline(text[1..]);
      EscapeOne(text[0]);
    }
  }

  lemma EscapeOne(c: char)
    ensures Escape([c]) == EscapeChar(c)
  {
    assert [c][1..] == "";
  }

  lemma PlainSpan(text: string)
    requires text != "" && IsPlain(text[0])
    ensures NextSpan(text) == (Plain([text[0]]), 1)
  {
    NotDelimited(text, "`", 0);
    NotDelimited(text, "**", 0);
    NotDelimited(text, "__", 0);
    NotDelimited(text, "*", 0);
    NotDelimited(text, "_", 0);
    NotDelimited(text, "~~", 0);
    hide Delimited;
  }
}
