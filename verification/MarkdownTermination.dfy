/** When the markdown renderer returns: exactly when its block loop never meets a list item
    whose text holds a line or paragraph separator. */
module MarkdownTermination {
  import opened Prelude
  import Text
  import opened Markdown

  // ------------------------------------------------------------------
  // one line
  // ------------------------------------------------------------------

  /** The guards that send the block loop into the list parser at a line. */
  predicate ReachesList(lines: seq<string>, i: nat)
    requires i < |lines|
  {
    var line := lines[i];
    && !Blank(line)
    && Fence(line).None?
    && Heading(line).None?
    && !IsRule(line)
    && !IsQuote(line)
    && !('|' in line && i + 1 < |lines| && IsTableRule(lines[i + 1]))
    && HasMarker(line)
  }

  /** The list parser is called at a line whose item text holds a separator. */
  predicate HangsAt(lines: seq<string>, i: nat)
    requires i < |lines|
  {
    ReachesList(lines, i) && !NoSeparator(ContentAfterMarker(lines[i]))
  }

  lemma ListAction(lines: seq<string>, i: nat)
    requires i < |lines|
    ensures ReachesList(lines, i) ==> ActionAt(lines, i) == TakeList(lines, i)
    ensures !ReachesList(lines, i) ==> !ActionAt(lines, i).Stuck?
  {
    hide TakeCode;
    hide TakeTable;
    hide TakeList;
    hide TakeQuote;
    hide HasMarker;
    hide Heading;
    hide IsRule;
    hide IsQuote;
    hide IsTableRule;
    hide Blank;
    hide Fence;
    hide Inline;
    if Heading(lines[i]).Some? {
      HeadingLevels(lines[i]);
    }
  }

  lemma HeadingLevels(l: string)
    requires Heading(l).Some?
    ensures 1 <= Heading(l).value.0 <= |LEVELS|
  {
    hide HeadingText;
  }

  lemma ReachedHasMarker(lines: seq<string>, i: nat)
    requires i < |lines| && ReachesList(lines, i)
    ensures HasMarker(lines[i])
  {
  }

  /** The loop stays at a line for ever exactly under these guards. */
  lemma StuckExactly(lines: seq<string>, i: nat)
    requires i < |lines|
    ensures ActionAt(lines, i).Stuck? <==> HangsAt(lines, i)
  {
    hide ActionAt;
    hide ReachesList;
    hide NoSeparator;
    hide ContentAfterMarker;
    ListAction(lines, i);
    if ReachesList(lines, i) {
      ReachedHasMarker(lines, i);
      StuckIffSeparator(lines, i);
    }
  }

  // ------------------------------------------------------------------
  // a text
  // ------------------------------------------------------------------

  /** From line `i` on the block loop comes to a line it hangs at, here or in a quotation. */
  predicate Meets(lines: seq<string>, i: nat)
    decreases Size(lines), if i < |lines| then |lines| - i else 0
  {
    i < |lines| &&
    (HangsAt(lines, i) ||
     match ActionAt(lines, i)
     case Emit(_, next) =>
       ActionMoves(lines, i);
       Meets(lines, next)
     case Quote(body, after) =>
       QuoteIsSmaller(lines, i);
       Meets(body, 0) || Meets(lines, after)
     case _ => Meets(lines, i + 1))
  }

  lemma {:induction false} BlocksHang(lines: seq<string>, i: nat, para: seq<string>)
    ensures Blocks(lines, i, para).None? <==> Meets(lines, i)
    decreases Size(lines), 0, if i < |lines| then |lines| - i else 0
  {
    hide ActionAt;
    hide HangsAt;
    hide Flush;
    if i < |lines| {
      StuckExactly(lines, i);
      match ActionAt(lines, i)
      case Skip => BlocksHang(lines, i + 1, []);
      case Keep => BlocksHang(lines, i + 1, para + [lines[i]]);
      case Stuck =>
      case Emit(_, next) =>
        ActionMoves(lines, i);
        BlocksHang(lines, next, []);
      case Quote(body, after) =>
        QuoteIsSmaller(lines, i);
        LinesHang(body);
        BlocksHang(lines, after, []);
    }
  }

  /** There is no result exactly when the loop meets a line it hangs at. */
  lemma {:induction false} LinesHang(lines: seq<string>)
    ensures Lines(lines).None? <==> Meets(lines, 0)
    decreases Size(lines), 1, 0
  {
    BlocksHang(lines, 0, []);
  }

  /** `render` returns exactly when the block loop never meets a line it hangs at. */
  lemma RenderHangs(md: string)
    ensures Render(md).None? <==> Meets(Split(Normalized(md), '\n'), 0)
  {
    LinesHang(Split(Normalized(md), '\n'));
    hide Lines;
    hide Meets;
  }

  // ------------------------------------------------------------------
  // one line alone
  // ------------------------------------------------------------------

  /** The line without any of its quote marks. */
  function Peeled(l: string): string
    decreases |l|
  {
    if IsQuote(l) then Peeled(QuoteBody(l)) else l
  }

  lemma QuotedLine(l: string)
    requires IsQuote(l)
    ensures !Blank(l) && Fence(l).None? && Heading(l).None? && !IsRule(l)
  {
    var n := SpaceRun(l);
    hide SpaceRun;
    hide HeadingText;
    hide CountOf;
    if n == 0 {
      assert l[0] == '>';
    } else {
      SpaceStarts(l);
    }
  }

  lemma SpaceStarts(l: string)
    requires SpaceRun(l) > 0
    ensures l != "" && Space(l[0]) && l[0] != '#' && l[0] != '`'
  {
  }

  lemma LoneQuote(l: string)
    requires IsQuote(l)
    ensures ActionAt([l], 0) == Quote([QuoteBody(l)], 1)
  {
    QuotedLine(l);
    hide Blank;
    hide Fence;
    hide Heading;
    hide IsRule;
    hide QuoteBody;
    hide IsQuote;
    var n := LinesWhile([l], 0, l => IsQuote(l));
    assert n == 1;
    assert [l][0..1] == [l];
    assert Unquoted([l]) == [QuoteBody(l)];
  }

  /** A text of one line hangs exactly when that line, without its quote marks, is a list item
      whose text holds a separator. */
  lemma {:induction false} LoneLineHangs(l: string)
    ensures Lines([l]).None? <==> HangsAt([Peeled(l)], 0)
    decreases |l|
  {
    LinesHang([l]);
    hide HangsAt;
    hide ActionAt;
    hide Lines;
    if IsQuote(l) {
      LoneQuote(l);
      LoneLineHangs(QuoteBody(l));
      LinesHang([QuoteBody(l)]);
      QuoteDoesNotHang(l);
    } else {
      StuckExactly([l], 0);
      LoneStops(l);
    }
  }

  lemma QuoteDoesNotHang(l: string)
    requires IsQuote(l)
    ensures !HangsAt([l], 0)
  {
    hide IsQuote;
  }

  lemma LoneStops(l: string)
    requires !IsQuote(l)
    ensures match ActionAt([l], 0)
            case Emit(_, next) => next >= 1
            case Quote(_, _) => false
            case _ => true
  {
    if ActionAt([l], 0).Emit? {
      ActionMoves([l], 0);
    }
    if ActionAt([l], 0).Quote? {
      QuoteAction([l], 0);
    }
    hide ActionAt;
    hide IsQuote;
  }

  // ------------------------------------------------------------------
  // a condition on the lines alone
  // ------------------------------------------------------------------

  /** Without its quote marks the line has a list marker and a separator behind it. */
  predicate IsRisky(l: string) {
    var p := Peeled(l);
    HasMarker(p) && !NoSeparator(ContentAfterMarker(p))
  }

  ghost predicate NoneRisky(lines: seq<string>) {
    forall i :: 0 <= i < |lines| ==> !IsRisky(lines[i])
  }

  lemma HangsAtRisky(lines: seq<string>, i: nat)
    requires i < |lines| && HangsAt(lines, i)
    ensures IsRisky(lines[i])
  {
    hide HasMarker;
    hide NoSeparator;
    hide ContentAfterMarker;
    hide IsQuote;
    assert Peeled(lines[i]) == lines[i];
  }

  lemma QuoteOfSafe(lines: seq<string>, i: nat)
    requires NoneRisky(lines) && i < |lines| && ActionAt(lines, i).Quote?
    ensures NoneRisky(ActionAt(lines, i).body)
  {
    var n := QuoteParts(lines, i);
    hide ActionAt;
    hide IsQuote;
    hide IsRisky;
    var body := Unquoted(lines[i..i + n]);
    forall k | 0 <= k < |body|
      ensures !IsRisky(body[k])
    {
      assert lines[i..i + n][k] == lines[i + k];
      assert body[k] == QuoteBody(lines[i + k]);
      BodyIsRisky(lines[i + k]);
    }
  }

  lemma BodyIsRisky(l: string)
    requires IsQuote(l)
    ensures IsRisky(QuoteBody(l)) == IsRisky(l)
  {
    hide HasMarker;
    hide NoSeparator;
    hide ContentAfterMarker;
    hide IsQuote;
    hide QuoteBody;
  }

  lemma {:induction false} SafeNeverMeets(lines: seq<string>, i: nat)
    requires NoneRisky(lines)
    ensures !Meets(lines, i)
    decreases Size(lines), if i < |lines| then |lines| - i else 0
  {
    hide ActionAt;
    hide HangsAt;
    hide IsRisky;
    if i < |lines| {
      if HangsAt(lines, i) {
        HangsAtRisky(lines, i);
      }
      match ActionAt(lines, i)
      case Emit(_, next) =>
        ActionMoves(lines, i);
        SafeNeverMeets(lines, next);
      case Quote(body, after) =>
        QuoteIsSmaller(lines, i);
        QuoteOfSafe(lines, i);
        SafeNeverMeets(body, 0);
        SafeNeverMeets(lines, after);
      case _ => SafeNeverMeets(lines, i + 1);
    }
  }

  /** A text returns when none of its lines, looked at alone, is risky; separators anywhere
      else do no harm. */
  lemma HarmlessLinesReturn(md: string)
    requires NoneRisky(Split(Normalized(md), '\n'))
    ensures Render(md).Some?
  {
    SafeNeverMeets(Split(Normalized(md), '\n'), 0);
    RenderHangs(md);
  }

  /** Text free of line and paragraph separators is always rendered. */
  lemma FreeTextReturns(md: string)
    requires NoSeparator(md)
    ensures Render(md).Some?
  {
    NormalizedFree(md);
    SplitFree(Normalized(md));
    var lines := Split(Normalized(md), '\n');
    hide IsRisky;
    hide NoSeparator;
    hide Split;
    forall i | 0 <= i < |lines|
      ensures !IsRisky(lines[i])
    {
      FreeIsHarmless(lines[i]);
    }
    HarmlessLinesReturn(md);
  }

  lemma {:induction false} FreeIsHarmless(l: string)
    requires NoSeparator(l)
    ensures !IsRisky(l)
    decreases |l|
  {
    if IsQuote(l) {
      assert forall c <- QuoteBody(l) :: c in l;
      FreeIsHarmless(QuoteBody(l));
      BodyIsRisky(l);
    } else if HasMarker(l) {
      hide MarkerEnd;
      hide SpaceRun;
      assert forall c <- ContentAfterMarker(l) :: c in l;
    }
  }

  lemma {:induction false} NormalizedFree(s: string)
    requires NoSeparator(s)
    ensures NoSeparator(Normalized(s))
    decreases |s|
  {
    if s != "" {
      var rest := if s[0] == '\r' && |s| > 1 && s[1] == '\n' then s[2..] else s[1..];
      assert forall c <- rest :: c in s;
      NormalizedFree(rest);
      assert s[0] in s;
    }
  }

  lemma {:induction false} SplitFree(s: string)
    requires NoSeparator(s)
    ensures forall i :: 0 <= i < |Split(s, '\n')| ==> NoSeparator(Split(s, '\n')[i])
    decreases |s|
  {
    var k := Text.IndexOf(s, '\n');
    assert forall c <- s[..k] :: c in s;
    if k < |s| {
      assert forall c <- s[k + 1..] :: c in s;
      SplitFree(s[k + 1..]);
    }
  }

  /** The condition is needed: one list item with a line separator in its text, and the
      renderer stays at that line for ever. */
  lemma SeparatorInItemHangs()
    ensures Lines(["- a\U{2028}b"]).None?
  {
    var l := "- a\U{2028}b";
    ItemMarks(l);
    hide *;
    SeparatorThere(ContentAfterMarker(l));
    PeeledPlain(l);
    LoneItem(l);
    LoneLineHangs(l);
  }

  lemma PeeledPlain(l: string)
    requires !IsQuote(l)
    ensures Peeled(l) == l
  {
  }

  lemma SeparatorThere(s: string)
    requires s == "a\U{2028}b"
    ensures !NoSeparator(s)
  {
    assert s[1] in s;
  }

  lemma LoneItem(l: string)
    requires HasMarker(l) && !NoSeparator(ContentAfterMarker(l))
    requires !Blank(l) && Fence(l).None? && Heading(l).None? && !IsRule(l) && !IsQuote(l) && '|' !in l
    ensures HangsAt([l], 0)
  {
  }

  lemma ItemMarks(l: string)
    requires l == "- a\U{2028}b"
    ensures SpaceRun(l) == 0 && MarkerEnd(l, 0) == Some(1) && HasMarker(l)
    ensures ContentAfterMarker(l) == "a\U{2028}b"
    ensures !Blank(l) && Fence(l).None? && Heading(l).None? && !IsRule(l) && !IsQuote(l) && '|' !in l
  {
    assert l[1..][1..] == "a\U{2028}b";
    assert SpaceRun(l[1..][1..]) == 0;
    assert SpaceRun(l[1..]) == 1;
    assert l[0..] == l;
    assert l[2..] == "a\U{2028}b";
    assert RunOf(l, c => c == '#') == 0;
  }
}
