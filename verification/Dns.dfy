/** The DNS wire format (`federate-dns/src/wire.rs`): sections 3.1, 4.1.1, 4.1.2 and 4.1.4 of
    RFC 1035 and section 2 of RFC 3596. Packets are octets; names are the octets of their UTF-8. */
module Dns {
  import opened Prelude
  import opened Unicode

  type u16 = x: int | 0 <= x < 0x1_0000
  type u32 = x: int | 0 <= x < 0x1_0000_0000
  type Octets4 = b: Bytes | |b| == 4 witness [0, 0, 0, 0]
  type Octets16 = b: Bytes | |b| == 16 witness [0, 0, 0, 0, 0, 0, 0, 0, 0, 0, 0, 0, 0, 0, 0, 0]

  const MAX_ANSWERS := 8

  datatype Ip = V4(v4: Octets4) | V6(v6: Octets16)

  datatype QueryType = A | Aaaa | Other(code: u16)

  datatype DnsQuery = DnsQuery(id: u16, name: Bytes, qtype: QueryType, question: Bytes, recursionDesired: bool)

  datatype ParseError =
    | PacketTooShort | NotAQuery | NoQuestion | TruncatedName | CompressedName | TruncatedLabel | TruncatedType
    | TruncatedAnswer | TruncatedData

  datatype Parsed<+T> = Good(value: T) | Bad(error: ParseError)

  datatype Answers = Answers(rcode: int, records: seq<(Ip, u32)>)

  function U16(hi: byte, lo: byte): u16 {
    hi as int * 0x100 + lo as int
  }

  function Be16(n: u16): (b: Bytes)
    ensures |b| == 2 && U16(b[0], b[1]) == n
  {
    [(n / 0x100) as byte, (n % 0x100) as byte]
  }

  function U32(b: Bytes): u32
    requires |b| == 4
  {
    U16(b[0], b[1]) * 0x1_0000 + U16(b[2], b[3])
  }

  function Be32(n: u32): (b: Bytes)
    ensures |b| == 4 && U32(b) == n
  {
    Be16(n / 0x1_0000) + Be16(n % 0x1_0000)
  }

  lemma Assoc(a: Bytes, b: Bytes, c: Bytes)
    ensures a + b + c == a + (b + c)
  {
  }

  function FromCode(v: u16): QueryType {
    if v == 1 then A else if v == 28 then Aaaa else Other(v)
  }

  // ------------------------------------------------------------------
  // questions
  // ------------------------------------------------------------------

  function JoinDots(labels: seq<Bytes>): Bytes {
    if labels == [] then []
    else if |labels| == 1 then labels[0]
    else labels[0] + [DOT] + JoinDots(labels[1..])
  }

  /** Labels from `pos` up to the zero octet, and the position after it. */
  function ReadName(p: Bytes, pos: nat): Parsed<(seq<Bytes>, nat)>
    decreases |p| - pos
  {
    if pos >= |p| then Bad(TruncatedName)
    else
      var len := p[pos] as int;
      if len == 0 then Good(([], pos + 1))
      else if len >= 0x40 then Bad(CompressedName)
      else if pos + 1 + len > |p| then Bad(TruncatedLabel)
      else
        match ReadName(p, pos + 1 + len)
        case Bad(e) => Bad(e)
        case Good((rest, end)) => Good(([p[pos + 1..pos + 1 + len]] + rest, end))
  }

  /** Each label's octets made text; `lossy` stands for `String::from_utf8_lossy`. */
  function Texts(lossy: Bytes -> Bytes, labels: seq<Bytes>): seq<Bytes> {
    seq(|labels|, i requires 0 <= i < |labels| => lossy(labels[i]))
  }

  /** Octets that are text already are left alone. */
  ghost predicate KeepsText(lossy: Bytes -> Bytes) {
    forall b :: IsText(b) ==> lossy(b) == b
  }

  /** `DnsQuery::parse` */
  function ParseQuery(lossy: Bytes -> Bytes, p: Bytes): Parsed<DnsQuery> {
    if |p| < 12 then Bad(PacketTooShort)
    else if p[2] >= 0x80 then Bad(NotAQuery)
    else if U16(p[4], p[5]) == 0 then Bad(NoQuestion)
    else
      match ReadName(p, 12)
      case Bad(e) => Bad(e)
      case Good((labels, end)) =>
        if end + 4 > |p| then Bad(TruncatedType)
        else
          assert 12 <= end by { ReadNameMoves(p, 12); }
          Good(DnsQuery(U16(p[0], p[1]), JoinDots(Texts(lossy, labels)), FromCode(U16(p[end], p[end + 1])), p[12..end + 4], p[2] % 2 == 1))
  }

  /** A name that is read ends inside the packet, after where it began. */
  lemma {:induction false} ReadNameMoves(p: Bytes, pos: nat)
    ensures ReadName(p, pos).Good? ==> pos < ReadName(p, pos).value.1 <= |p|
    decreases |p| - pos
  {
    if pos < |p| && 0 < p[pos] < 0x40 && pos + 1 + p[pos] as int <= |p| {
      ReadNameMoves(p, pos + 1 + p[pos] as int);
    }
  }

  function Prefixed(labels: seq<Bytes>, r: Parsed<(seq<Bytes>, nat)>): Parsed<(seq<Bytes>, nat)> {
    match r
    case Bad(e) => Bad(e)
    case Good((rest, end)) => Good((labels + rest, end))
  }

  lemma PrefixedNone(r: Parsed<(seq<Bytes>, nat)>)
    ensures Prefixed([], r) == r
  {
    if r.Good? {
      assert [] + r.value.0 == r.value.0;
    }
  }

  lemma PrefixedTwice(labels: seq<Bytes>, l: Bytes, r: Parsed<(seq<Bytes>, nat)>)
    ensures Prefixed(labels + [l], r) == Prefixed(labels, Prefixed([l], r))
  {
    if r.Good? {
      assert labels + [l] + r.value.0 == labels + ([l] + r.value.0);
    }
  }

  /** The cursor loop of the parser; every read is inside the packet, whatever the octets are. */
  method Parse(lossy: Bytes -> Bytes, p: Bytes) returns (r: Parsed<DnsQuery>)
    ensures r == ParseQuery(lossy, p)
  {
    if |p| < 12 {
      return Bad(PacketTooShort);
    }
    var id := U16(p[0], p[1]);
    if p[2] >= 0x80 {
      return Bad(NotAQuery);
    }
    if U16(p[4], p[5]) == 0 {
      return Bad(NoQuestion);
    }
    var pos: nat := 12;
    var labels: seq<Bytes> := [];
    ghost var parts: seq<Bytes> := [];
    PrefixedNone(ReadName(p, 12));
    while true
      invariant 12 <= pos <= |p|
      invariant ReadName(p, 12) == Prefixed(parts, ReadName(p, pos))
      invariant labels == Texts(lossy, parts)
      decreases |p| - pos
    {
      if pos >= |p| {
        return Bad(TruncatedName);
      }
      var len := p[pos] as int;
      ghost var here := ReadName(p, pos);
      pos := pos + 1;
      if len == 0 {
        assert here == Good(([], pos));
        break;
      }
      if len >= 0x40 {
        return Bad(CompressedName);
      }
      if pos + len > |p| {
        return Bad(TruncatedLabel);
      }
      var part := p[pos..pos + len];
      assert here == Prefixed([part], ReadName(p, pos + len));
      PrefixedTwice(parts, part, ReadName(p, pos + len));
      parts := parts + [part];
      labels := labels + [lossy(part)];
      pos := pos + len;
    }
    assert ReadName(p, 12) == Good((parts, pos)) by {
      assert parts + [] == parts;
    }
    if pos + 4 > |p| {
      return Bad(TruncatedType);
    }
    return Good(DnsQuery(id, JoinDots(labels), FromCode(U16(p[pos], p[pos + 1])), p[12..pos + 4], p[2] % 2 == 1));
  }

  // ------------------------------------------------------------------
  // building queries
  // ------------------------------------------------------------------

  /** `trim_end_matches('.')` */
  function TrimEndDots(name: Bytes): Bytes {
    if name != [] && name[|name| - 1] == DOT then TrimEndDots(name[..|name| - 1]) else name
  }

  function DotAt(name: Bytes): (k: nat)
    ensures k <= |name|
    ensures forall i :: 0 <= i < k ==> name[i] != DOT
    ensures k < |name| ==> name[k] == DOT
  {
    if name == [] then 0 else if name[0] == DOT then 0 else 1 + DotAt(name[1..])
  }

  /** `split('.')`: always at least one part. */
  function SplitDots(name: Bytes): (parts: seq<Bytes>)
    ensures parts != []
    decreases |name|
  {
    var k := DotAt(name);
    if k == |name| then [name] else [name[..k]] + SplitDots(name[k + 1..])
  }

  /** Length octet and label; the length is cut to eight bits. */
  function EncodeLabel(l: Bytes): Bytes {
    [(|l| % 0x100) as byte] + l
  }

  function EncodeLabels(labels: seq<Bytes>): Bytes {
    if labels == [] then [] else EncodeLabel(labels[0]) + EncodeLabels(labels[1..])
  }

  function QueryHeader(id: u16): (b: Bytes)
    ensures |b| == 12
  {
    Be16(id) + [0x01, 0x00] + Be16(1) + [0, 0, 0, 0, 0, 0]
  }

  function QueryPacket(id: u16, name: Bytes, qtype: u16): Bytes {
    QueryHeader(id) + (EncodeLabels(SplitDots(TrimEndDots(name))) + ([0] + Be16(qtype) + Be16(1)))
  }

  /** `build_query` */
  method BuildQuery(id: u16, name: Bytes, qtype: u16) returns (out: Bytes)
    ensures out == QueryPacket(id, name, qtype)
  {
    out := Be16(id) + [0x01, 0x00] + Be16(1) + [0, 0, 0, 0, 0, 0];
    var labels := SplitDots(TrimEndDots(name));
    ghost var head := out;
    ghost var all := EncodeLabels(labels);
    assert labels[0..] == labels;
    for i := 0 to |labels|
      invariant out + EncodeLabels(labels[i..]) == head + all
    {
      assert labels[i..][1..] == labels[i + 1..];
      Assoc(out, [(|labels[i]| % 0x100) as byte], labels[i]);
      Assoc(out, EncodeLabel(labels[i]), EncodeLabels(labels[i + 1..]));
      out := out + [(|labels[i]| % 0x100) as byte];
      out := out + labels[i];
    }
    assert out == head + all;
    out := out + [0] + Be16(qtype) + Be16(1);
    assert out == head + (all + ([0] + Be16(qtype) + Be16(1)));
  }

  // ------------------------------------------------------------------
  // what a built query parses back to
  // ------------------------------------------------------------------

  predicate GoodLabel(l: Bytes) {
    1 <= |l| <= 63
  }

  predicate GoodLabels(labels: seq<Bytes>) {
    forall i :: 0 <= i < |labels| ==> GoodLabel(labels[i])
  }

  lemma SplitStep(name: Bytes)
    ensures var k := DotAt(name);
            SplitDots(name) == if k == |name| then [name] else [name[..k]] + SplitDots(name[k + 1..])
  {
    hide DotAt;
  }

  lemma JoinStep(l: Bytes, rest: seq<Bytes>)
    requires rest != []
    ensures JoinDots([l] + rest) == l + [DOT] + JoinDots(rest)
    ensures JoinDots([l]) == l
  {
    assert ([l] + rest)[1..] == rest;
  }

  lemma NoDotsCons(l: Bytes, rest: seq<Bytes>)
    requires DOT !in l && NoDots(rest)
    ensures NoDots([l] + rest)
  {
  }

  lemma {:induction false} SplitJoins(name: Bytes)
    ensures JoinDots(SplitDots(name)) == name
    ensures NoDots(SplitDots(name))
    decreases |name|
  {
    hide SplitDots;
    hide JoinDots;
    hide NoDots;
    var k := DotAt(name);
    SplitStep(name);
    if k < |name| {
      SplitJoins(name[k + 1..]);
      JoinStep(name[..k], SplitDots(name[k + 1..]));
      NoDotsCons(name[..k], SplitDots(name[k + 1..]));
      assert name == name[..k] + [DOT] + name[k + 1..];
    } else {
      LoneLabel(name);
    }
  }

  lemma LoneLabel(name: Bytes)
    requires DOT !in name
    ensures JoinDots([name]) == name && NoDots([name])
  {
  }

  lemma FirstLabel(labels: seq<Bytes>, tail: Bytes)
    requires labels != []
    ensures EncodeLabels(labels) + tail == EncodeLabel(labels[0]) + (EncodeLabels(labels[1..]) + tail)
  {
  }

  /** The octets at a position, cut into length, label and the rest. */
  lemma LabelAt(p: Bytes, pos: nat, l: Bytes, rest: Bytes)
    requires pos <= |p| && p[pos..] == EncodeLabel(l) + rest
    ensures pos < |p| && p[pos] as int == |l| % 0x100
    ensures pos + 1 + |l| <= |p| && p[pos + 1..pos + 1 + |l|] == l && p[pos + 1 + |l|..] == rest
  {
    var q := p[pos..];
    assert p[pos] == q[0];
    assert p[pos + 1..pos + 1 + |l|] == q[1..1 + |l|];
    assert p[pos + 1 + |l|..] == q[1 + |l|..];
  }

  /** Labels of legal length are read back as they were written. */
  lemma {:induction false} EncodedNameReads(p: Bytes, pos: nat, labels: seq<Bytes>, tail: Bytes)
    requires GoodLabels(labels) && pos <= |p| && p[pos..] == EncodeLabels(labels) + ([0] + tail)
    ensures ReadName(p, pos) == Good((labels, |p| - |tail|))
    decreases |labels|
  {
    if labels == [] {
      assert p[pos..][0] == 0;
    } else {
      FirstLabel(labels, [0] + tail);
      LabelAt(p, pos, labels[0], EncodeLabels(labels[1..]) + ([0] + tail));
      assert GoodLabel(labels[0]);
      EncodedNameReads(p, pos + 1 + |labels[0]|, labels[1..], tail);
      assert labels == [labels[0]] + labels[1..];
    }
  }

  /** One step of reading a label that was written whole. */
  lemma ReadLabelStep(p: Bytes, pos: nat, l: Bytes, rest: Bytes)
    requires pos <= |p| && p[pos..] == EncodeLabel(l) + rest
    ensures var len := |l| % 0x100;
            && (ReadName(p, pos).Good? && ReadName(p, pos).value.0 != [] ==>
                  && 0 < len < 0x40
                  && ReadName(p, pos + 1 + len).Good?
                  && ReadName(p, pos).value.0 == [l[..len]] + ReadName(p, pos + 1 + len).value.0)
  {
    LabelAt(p, pos, l, rest);
    var len := |l| % 0x100;
    hide EncodeLabel;
    if pos + 1 + len <= |p| {
      assert p[pos + 1..pos + 1 + len] == p[pos + 1..pos + 1 + |l|][..len];
    }
  }

  lemma CutLength(l: Bytes)
    ensures GoodLabel(l) ==> |l| % 0x100 == |l| && l[..|l|] == l
    ensures !GoodLabel(l) && 0 < |l| % 0x100 < 0x40 ==> |l| % 0x100 < |l|
  {
  }

  // ------------------------------------------------------------------
  // names as text
  // ------------------------------------------------------------------

  ghost predicate AreTexts(labels: seq<Bytes>) {
    forall i :: 0 <= i < |labels| ==> IsText(labels[i])
  }

  lemma {:induction false} TrimmedIsText(name: Bytes)
    requires IsText(name)
    ensures IsText(TrimEndDots(name))
  {
    if name != [] && name[|name| - 1] == DOT {
      var s := TextOf(name);
      DotCutsText(s, |name| - 1);
      TrimmedIsText(name[..|name| - 1]);
    }
  }

  lemma TextsGrow(l: Bytes, rest: seq<Bytes>)
    requires IsText(l) && AreTexts(rest)
    ensures AreTexts([l] + rest) && AreTexts([l])
  {
    hide IsText;
  }

  lemma {:induction false} SplitIsText(name: Bytes)
    requires IsText(name)
    ensures AreTexts(SplitDots(name))
    decreases |name|
  {
    hide *;
    var k := DotAt(name);
    SplitStep(name);
    if k < |name| {
      var s := TextOf(name);
      DotCutsText(s, k);
      SplitIsText(name[k + 1..]);
      TextsGrow(name[..k], SplitDots(name[k + 1..]));
    } else {
      NoTexts();
      TextsGrow(name, []);
    }
  }

  lemma NoTexts()
    ensures AreTexts([])
  {
  }

  lemma TextsKept(lossy: Bytes -> Bytes, labels: seq<Bytes>)
    requires KeepsText(lossy) && AreTexts(labels)
    ensures Texts(lossy, labels) == labels
  {
    hide IsText;
  }

  lemma TextsCons(lossy: Bytes -> Bytes, l: Bytes, rest: seq<Bytes>)
    ensures Texts(lossy, [l] + rest) == [lossy(l)] + Texts(lossy, rest)
  {
  }

  predicate NoDots(labels: seq<Bytes>) {
    forall i :: 0 <= i < |labels| ==> DOT !in labels[i]
  }

  predicate Stands(p: Bytes, pos: nat, b: Bytes) {
    pos <= |p| && p[pos..] == b
  }

  /** What reading the first of some encoded labels amounts to. */
  lemma ReadHeadStep(p: Bytes, pos: nat, labels: seq<Bytes>, tail: Bytes)
    requires labels != [] && NoDots(labels) && Stands(p, pos, EncodeLabels(labels) + tail)
    ensures DOT !in labels[0] && NoDots(labels[1..])
    ensures GoodLabel(labels[0]) ==> Stands(p, pos + 1 + |labels[0]| % 0x100, EncodeLabels(labels[1..]) + tail)
    ensures var len := |labels[0]| % 0x100;
            && (ReadName(p, pos).Good? && ReadName(p, pos).value.0 != [] ==>
                  && ReadName(p, pos + 1 + len).Good?
                  && ReadName(p, pos).value.0 == [if GoodLabel(labels[0]) then labels[0] else labels[0][..len]] + ReadName(p, pos + 1 + len).value.0
                  && (!GoodLabel(labels[0]) ==> len < |labels[0]| && pos + 1 + len < |p| && p[pos + 1 + len] == labels[0][len]))
  {
    hide ReadName;
    hide EncodeLabel;
    hide EncodeLabels;
    FirstLabel(labels, tail);
    ReadLabelStep(p, pos, labels[0], EncodeLabels(labels[1..]) + tail);
    LabelAt(p, pos, labels[0], EncodeLabels(labels[1..]) + tail);
    CutLength(labels[0]);
    var len, l := |labels[0]| % 0x100, labels[0];
    assert len < |l| ==> p[pos + 1 + len] == p[pos + 1..pos + 1 + |l|][len];
  }

  lemma ReadStopsAt(p: Bytes, pos: nat)
    requires pos < |p| && p[pos] >= 0x80
    ensures ReadName(p, pos).Bad?
  {
  }

  /** A label cut short and still read on is cut between characters. */
  lemma CutIsText(p: Bytes, at: nat, l: Bytes, len: nat)
    requires IsText(l) && len < |l| && at < |p| && p[at] == l[len] && ReadName(p, at).Good?
    ensures IsText(l[..len])
  {
    hide ReadName;
    var s := TextOf(l);
    CutText(s, len);
    if p[at] >= 0x80 {
      ReadStopsAt(p, at);
    }
  }

  lemma CutHeadDiffers(lossy: Bytes -> Bytes, p: Bytes, pos: nat, labels: seq<Bytes>, tail: Bytes)
    requires KeepsText(lossy) && AreTexts(labels) && labels != [] && !GoodLabel(labels[0])
    requires NoDots(labels) && Stands(p, pos, EncodeLabels(labels) + tail)
    requires ReadName(p, pos).Good? && ReadName(p, pos).value.0 != []
    ensures JoinDots(Texts(lossy, ReadName(p, pos).value.0)) != JoinDots(labels)
  {
    hide *;
    ReadHeadStep(p, pos, labels, tail);
    var l, len := labels[0], |labels[0]| % 0x100;
    var rest := ReadName(p, pos + 1 + len).value.0;
    HeadIsText(labels);
    CutIsText(p, pos + 1 + len, l, len);
    TextKept(lossy, l[..len]);
    TextsCons(lossy, l[..len], rest);
    CutLabelDiffers(l, len, Texts(lossy, rest), labels);
  }

  lemma GoodHeadDiffers(lossy: Bytes -> Bytes, labels: seq<Bytes>, rest: seq<Bytes>)
    requires KeepsText(lossy) && AreTexts(labels) && |labels| > 1
    requires rest != [] ==> JoinDots(Texts(lossy, rest)) != JoinDots(labels[1..])
    ensures JoinDots(Texts(lossy, [labels[0]] + rest)) != JoinDots(labels)
  {
    hide *;
    HeadIsText(labels);
    TextKept(lossy, labels[0]);
    TextsCons(lossy, labels[0], rest);
    TextsEmpty(lossy, rest);
    GoodHeadMangled(labels[0], Texts(lossy, rest), labels);
  }

  /** Behind a good label the octets of the others stand, and are read. */
  lemma GoodHeadReads(p: Bytes, pos: nat, labels: seq<Bytes>, tail: Bytes) returns (next: nat, rest: seq<Bytes>)
    requires labels != [] && GoodLabel(labels[0]) && !GoodLabels(labels) && AreTexts(labels)
    requires NoDots(labels) && Stands(p, pos, EncodeLabels(labels) + tail)
    requires ReadName(p, pos).Good? && ReadName(p, pos).value.0 != []
    ensures |labels| > 1 && !GoodLabels(labels[1..]) && AreTexts(labels[1..]) && NoDots(labels[1..])
    ensures Stands(p, next, EncodeLabels(labels[1..]) + tail)
    ensures ReadName(p, next).Good? && rest == ReadName(p, next).value.0
    ensures ReadName(p, pos).value.0 == [labels[0]] + rest
  {
    hide *;
    ReadHeadStep(p, pos, labels, tail);
    HeadIsText(labels);
    RestIsBad(labels);
    next := pos + 1 + |labels[0]| % 0x100;
    rest := ReadName(p, next).value.0;
  }

  /** With a label of illegal length, whatever non-empty name is read is another name. */
  lemma {:induction false} MangledNameDiffers(lossy: Bytes -> Bytes, p: Bytes, pos: nat, labels: seq<Bytes>, tail: Bytes)
    requires KeepsText(lossy) && AreTexts(labels)
    requires !GoodLabels(labels) && NoDots(labels) && Stands(p, pos, EncodeLabels(labels) + tail)
    ensures ReadName(p, pos).Good? && ReadName(p, pos).value.0 != [] ==>
              JoinDots(Texts(lossy, ReadName(p, pos).value.0)) != JoinDots(labels)
    decreases |labels|
  {
    assert labels != [];
    hide *;
    if ReadName(p, pos).Good? && ReadName(p, pos).value.0 != [] {
      if GoodLabel(labels[0]) {
        var next, rest := GoodHeadReads(p, pos, labels, tail);
        MangledNameDiffers(lossy, p, next, labels[1..], tail);
        GoodHeadDiffers(lossy, labels, rest);
      } else {
        CutHeadDiffers(lossy, p, pos, labels, tail);
      }
    }
  }

  lemma HeadIsText(labels: seq<Bytes>)
    requires labels != [] && AreTexts(labels)
    ensures IsText(labels[0]) && AreTexts(labels[1..])
  {
    hide IsText;
  }

  lemma TextKept(lossy: Bytes -> Bytes, b: Bytes)
    requires KeepsText(lossy) && IsText(b)
    ensures lossy(b) == b
  {
  }

  lemma TextsEmpty(lossy: Bytes -> Bytes, labels: seq<Bytes>)
    ensures Texts(lossy, labels) == [] <==> labels == []
  {
  }

  lemma RestIsBad(labels: seq<Bytes>)
    requires !GoodLabels(labels) && GoodLabel(labels[0])
    ensures |labels| > 1 && !GoodLabels(labels[1..])
  {
    var i :| 0 <= i < |labels| && !GoodLabel(labels[i]);
    assert labels[1..][i - 1] == labels[i];
  }

  lemma GoodHeadMangled(l: Bytes, rest: seq<Bytes>, labels: seq<Bytes>)
    requires |labels| > 1 && labels[0] == l
    requires rest != [] ==> JoinDots(rest) != JoinDots(labels[1..])
    ensures JoinDots([l] + rest) != JoinDots(labels)
  {
    var read := [l] + rest;
    assert read[1..] == rest;
    if rest != [] {
      assert JoinDots(read) == l + [DOT] + JoinDots(rest);
      assert JoinDots(labels) == l + [DOT] + JoinDots(labels[1..]);
      assert JoinDots(read)[|l| + 1..] == JoinDots(rest);
      assert JoinDots(labels)[|l| + 1..] == JoinDots(labels[1..]);
    }
  }

  /** A label read too short ends, or is followed by a dot, where the label has more octets. */
  lemma CutLabelDiffers(l: Bytes, len: nat, rest: seq<Bytes>, labels: seq<Bytes>)
    requires labels != [] && labels[0] == l && DOT !in l && len < |l|
    ensures JoinDots([l[..len]] + rest) != JoinDots(labels)
  {
    var read := [l[..len]] + rest;
    assert read[1..] == rest;
    assert JoinDots(labels)[..|l|] == l;
    if rest != [] {
      assert JoinDots(read)[len] == DOT;
      assert JoinDots(labels)[len] == l[len];
    }
  }

  predicate ParsesBack(lossy: Bytes -> Bytes, id: u16, name: Bytes, qtype: u16) {
    match ParseQuery(lossy, QueryPacket(id, name, qtype))
    case Bad(_) => false
    case Good(q) => q.id == id && q.name == TrimEndDots(name) && q.qtype == FromCode(qtype)
  }

  lemma HeaderOf(id: u16, rest: Bytes)
    ensures var p := QueryHeader(id) + rest;
            && p[12..] == rest && U16(p[0], p[1]) == id && p[2] == 1 && U16(p[4], p[5]) == 1
  {
  }

  /** What parsing comes to once the name has been read. */
  lemma ParsedFrom(lossy: Bytes -> Bytes, p: Bytes, id: u16, qtype: u16, labels: seq<Bytes>, end: nat)
    requires |p| >= 12 && U16(p[0], p[1]) == id && p[2] == 1 && U16(p[4], p[5]) == 1
    requires ReadName(p, 12) == Good((labels, end)) && end + 4 <= |p| && U16(p[end], p[end + 1]) == qtype
    ensures ParseQuery(lossy, p).Good?
    ensures var q := ParseQuery(lossy, p).value; q.id == id && q.name == JoinDots(Texts(lossy, labels)) && q.qtype == FromCode(qtype)
  {
    hide ReadName;
    hide JoinDots;
    ReadNameMoves(p, 12);
  }

  lemma NameOf(lossy: Bytes -> Bytes, p: Bytes)
    ensures ParseQuery(lossy, p).Good? ==>
              ReadName(p, 12).Good? && ParseQuery(lossy, p).value.name == JoinDots(Texts(lossy, ReadName(p, 12).value.0))
  {
    hide ReadName;
    hide JoinDots;
    ReadNameMoves(p, 12);
  }

  function QueryTail(qtype: u16): Bytes {
    [0] + Be16(qtype) + Be16(1)
  }

  lemma EmptyNamePacket(id: u16, name: Bytes, qtype: u16)
    requires TrimEndDots(name) == []
    ensures var p := QueryPacket(id, name, qtype);
            && |p| == 18 && p[12] == 0 && p[13] == 0 && p[14] as int == qtype / 0x100
            && U16(p[0], p[1]) == id && p[2] == 1 && U16(p[4], p[5]) == 1
  {
    EmptyNameEncodes();
    var body := [0] + QueryTail(qtype);
    HeaderOf(id, body);
    var p := QueryPacket(id, name, qtype);
    assert p == QueryHeader(id) + body;
    hide QueryHeader;
    hide QueryPacket;
    assert p[12] == p[12..][0] && p[13] == p[12..][1] && p[14] == p[12..][2];
  }

  lemma EmptyNameQuery(lossy: Bytes -> Bytes, id: u16, name: Bytes, qtype: u16)
    requires TrimEndDots(name) == []
    ensures ParsesBack(lossy, id, name, qtype) <==> qtype == 0
  {
    hide QueryPacket;
    hide JoinDots;
    EmptyNamePacket(id, name, qtype);
    var p := QueryPacket(id, name, qtype);
    assert ReadName(p, 12) == Good(([], 13));
    assert JoinDots(Texts(lossy, [])) == [] by {
      NothingJoined(lossy);
    }
    ParsedFrom(lossy, p, id, qtype / 0x100, [], 13);
  }

  lemma NothingJoined(lossy: Bytes -> Bytes)
    ensures JoinDots(Texts(lossy, [])) == []
  {
  }

  lemma EmptyNameEncodes()
    ensures EncodeLabels(SplitDots([])) == [0]
  {
    var one: seq<Bytes> := [[]];
    assert SplitDots([]) == one;
    assert one[1..] == [];
    assert EncodeLabels(one) == EncodeLabel([]) + EncodeLabels(one[1..]);
  }

  lemma TailTells(p: Bytes, body: Bytes, encoded: Bytes, qtype: u16)
    requires |p| >= 12 && p[12..] == body && body == encoded + QueryTail(qtype)
    ensures |QueryTail(qtype)| == 5 && QueryTail(qtype) == [0] + QueryTail(qtype)[1..]
    ensures var end := |p| - 4; end >= 13 && U16(p[end], p[end + 1]) == qtype
  {
    var end := |p| - 4;
    assert p[end] == body[|body| - 4] == QueryTail(qtype)[1];
    assert p[end + 1] == body[|body| - 3] == QueryTail(qtype)[2];
  }

  /** A query built for a name parses back to its id, name and type exactly when every label has 1
      to 63 octets (section 3.1 of RFC 1035), the one accident being the empty name with type 0. */
  lemma QueryRoundTrip(lossy: Bytes -> Bytes, id: u16, name: string, qtype: u16)
    requires KeepsText(lossy)
    ensures var trimmed := TrimEndDots(Utf8(name));
            ParsesBack(lossy, id, Utf8(name), qtype) <==>
            GoodLabels(SplitDots(trimmed)) || (trimmed == [] && qtype == 0)
  {
    var octets := Utf8(name);
    assert IsText(octets);
    hide *;
    var trimmed := TrimEndDots(octets);
    if trimmed == [] {
      EmptyNameQuery(lossy, id, octets, qtype);
      EmptyNameIsBad();
    } else {
      var labels := SplitDots(trimmed);
      TrimmedIsText(octets);
      SplitIsText(trimmed);
      SplitJoins(trimmed);
      if GoodLabels(labels) {
        GoodQueryParses(lossy, id, octets, qtype);
      } else {
        BadQueryMangled(lossy, id, octets, qtype);
      }
    }
  }

  lemma EmptyNameIsBad()
    ensures !GoodLabels(SplitDots([]))
  {
    assert SplitDots([])[0] == [];
  }

  /** The parts of a built packet. */
  lemma PacketParts(id: u16, name: Bytes, qtype: u16)
    ensures var p := QueryPacket(id, name, qtype); var encoded := EncodeLabels(SplitDots(TrimEndDots(name)));
            && |p| >= 17 && U16(p[0], p[1]) == id && p[2] == 1 && U16(p[4], p[5]) == 1
            && Stands(p, 12, encoded + QueryTail(qtype))
            && |QueryTail(qtype)| == 5 && QueryTail(qtype) == [0] + QueryTail(qtype)[1..]
            && U16(p[|p| - 4], p[|p| - 3]) == qtype
  {
    var encoded := EncodeLabels(SplitDots(TrimEndDots(name)));
    hide EncodeLabels;
    var body := encoded + QueryTail(qtype);
    HeaderOf(id, body);
    var p := QueryPacket(id, name, qtype);
    assert p == QueryHeader(id) + body;
    TailTells(p, body, encoded, qtype);
  }

  lemma GoodQueryParses(lossy: Bytes -> Bytes, id: u16, name: Bytes, qtype: u16)
    requires KeepsText(lossy) && AreTexts(SplitDots(TrimEndDots(name)))
    requires GoodLabels(SplitDots(TrimEndDots(name)))
    ensures ParsesBack(lossy, id, name, qtype)
  {
    hide QueryPacket;
    hide QueryTail;
    hide EncodeLabels;
    hide SplitDots;
    hide ParseQuery;
    hide GoodLabels;
    var labels := SplitDots(TrimEndDots(name));
    var p := QueryPacket(id, name, qtype);
    SplitJoins(TrimEndDots(name));
    PacketParts(id, name, qtype);
    EncodedNameReads(p, 12, labels, QueryTail(qtype)[1..]);
    TextsKept(lossy, labels);
    ParsedFrom(lossy, p, id, qtype, labels, |p| - 4);
  }

  lemma BadQueryMangled(lossy: Bytes -> Bytes, id: u16, name: Bytes, qtype: u16)
    requires KeepsText(lossy) && AreTexts(SplitDots(TrimEndDots(name)))
    requires TrimEndDots(name) != [] && !GoodLabels(SplitDots(TrimEndDots(name)))
    ensures !ParsesBack(lossy, id, name, qtype)
  {
    var labels := SplitDots(TrimEndDots(name));
    SplitJoins(TrimEndDots(name));
    assert NoDots(labels);
    hide QueryPacket;
    hide QueryTail;
    hide EncodeLabels;
    hide SplitDots;
    hide ParseQuery;
    hide GoodLabels;
    hide ReadName;
    hide JoinDots;
    hide TrimEndDots;
    hide NoDots;
    hide Stands;
    var p := QueryPacket(id, name, qtype);
    PacketParts(id, name, qtype);
    MangledNameDiffers(lossy, p, 12, labels, QueryTail(qtype));
    NameOf(lossy, p);
    NothingJoined(lossy);
  }

  // ------------------------------------------------------------------
  // responses
  // ------------------------------------------------------------------

  /** `header` */
  function Header(q: DnsQuery, rcode: byte, ancount: u16): (b: Bytes)
    ensures |b| == 12
  {
    Be16(q.id) + [0x84 + (if q.recursionDesired then 1 else 0), 0x80 + rcode % 0x10]
    + Be16(1) + Be16(ancount) + [0, 0, 0, 0]
  }

  /** One answer: a pointer to the question's name, then type, class, TTL and address. */
  function Record(ip: Ip, ttl: u32): Bytes {
    match ip
    case V4(o) => [0xC0, 0x0C] + Be16(1) + Be16(1) + Be32(ttl) + Be16(4) + o
    case V6(o) => [0xC0, 0x0C] + Be16(28) + Be16(1) + Be32(ttl) + Be16(16) + o
  }

  function Records(ips: seq<Ip>, ttl: u32): Bytes {
    if ips == [] then [] else Record(ips[0], ttl) + Records(ips[1..], ttl)
  }

  /** The answer count is cut to sixteen bits. */
  function Response(q: DnsQuery, ips: seq<Ip>, ttl: u32): Bytes {
    Header(q, 0, |ips| % 0x1_0000) + (q.question + Records(ips, ttl))
  }

  /** `build_response` */
  method BuildResponse(q: DnsQuery, ips: seq<Ip>, ttl: u32) returns (out: Bytes)
    ensures out == Response(q, ips, ttl)
  {
    hide *;
    out := Header(q, 0, |ips| % 0x1_0000);
    ghost var header := out;
    out := out + q.question;
    Assoc(header, q.question, Records(ips, ttl));
    ghost var all := out + Records(ips, ttl);
    assert ips[0..] == ips;
    for i := 0 to |ips|
      invariant out + Records(ips[i..], ttl) == all
    {
      RecordsStep(ips, i, ttl);
      Assoc(out, Record(ips[i], ttl), Records(ips[i + 1..], ttl));
      out := AppendRecord(out, ips[i], ttl);
    }
    RecordsStep(ips, |ips|, ttl);
    ResponseIs(q, ips, ttl);
  }

  lemma RecordsStep(ips: seq<Ip>, i: nat, ttl: u32)
    requires i <= |ips|
    ensures Records(ips[i..], ttl) == if i == |ips| then [] else Record(ips[i], ttl) + Records(ips[i + 1..], ttl)
  {
    hide Record;
    if i < |ips| {
      assert ips[i..][1..] == ips[i + 1..];
    }
  }

  lemma ResponseIs(q: DnsQuery, ips: seq<Ip>, ttl: u32)
    ensures Response(q, ips, ttl) == Header(q, 0, |ips| % 0x1_0000) + (q.question + Records(ips, ttl))
  {
    hide Header;
    hide Records;
  }

  method AppendRecord(packet: Bytes, ip: Ip, ttl: u32) returns (out: Bytes)
    ensures out == packet + Record(ip, ttl)
  {
    out := packet + [0xC0, 0x0C];
    match ip
    case V4(o) =>
      out := out + Be16(1) + Be16(1) + Be32(ttl);
      out := out + Be16(4) + o;
    case V6(o) =>
      out := out + Be16(28) + Be16(1) + Be32(ttl);
      out := out + Be16(16) + o;
  }

  function Servfail(q: DnsQuery): Bytes {
    Header(q, 2, 0) + q.question
  }

  /** `skip_name`: a pointer ends it at once, and lengths below 0xC0 are taken as they are. */
  function SkipName(p: Bytes, pos: nat): (r: Parsed<nat>)
    ensures r.Good? ==> pos < r.value
    decreases |p| - pos
  {
    if pos >= |p| then Bad(TruncatedName)
    else if p[pos] >= 0xC0 then Good(pos + 2)
    else if p[pos] == 0 then Good(pos + 1)
    else SkipName(p, pos + 1 + p[pos] as int)
  }

  function SkipQuestions(p: Bytes, pos: nat, n: nat): Parsed<nat>
    decreases n
  {
    if n == 0 then Good(pos)
    else
      match SkipName(p, pos)
      case Bad(e) => Bad(e)
      case Good(next) => SkipQuestions(p, next + 4, n - 1)
  }

  /** What one record contributes; other types are skipped. */
  function Address(rtype: u16, data: Bytes, ttl: u32): seq<(Ip, u32)> {
    if rtype == 1 && |data| == 4 then [(V4(data), ttl)]
    else if rtype == 28 && |data| == 16 then [(V6(data), ttl)]
    else []
  }

  function ReadRecords(p: Bytes, pos: nat, n: nat): Parsed<seq<(Ip, u32)>>
    decreases n
  {
    if n == 0 then Good([])
    else
      match SkipName(p, pos)
      case Bad(e) => Bad(e)
      case Good(at) =>
        if at + 10 > |p| then Bad(TruncatedAnswer)
        else
          var len := U16(p[at + 8], p[at + 9]);
          if at + 10 + len > |p| then Bad(TruncatedData)
          else
            match ReadRecords(p, at + 10 + len, n - 1)
            case Bad(e) => Bad(e)
            case Good(rest) =>
              Good(Address(U16(p[at], p[at + 1]), p[at + 10..at + 10 + len], U32(p[at + 4..at + 8])) + rest)
  }

  /** `parse_answers` */
  function ReadAnswers(p: Bytes): Parsed<Answers> {
    if |p| < 12 then Bad(PacketTooShort)
    else
      match SkipQuestions(p, 12, U16(p[4], p[5]))
      case Bad(e) => Bad(e)
      case Good(pos) =>
        match ReadRecords(p, pos, U16(p[6], p[7]))
        case Bad(e) => Bad(e)
        case Good(records) => Good(Answers(p[3] as int % 0x10, records))
  }

  method SkipNameAt(p: Bytes, start: nat) returns (r: Parsed<nat>)
    ensures r == SkipName(p, start)
  {
    var pos := start;
    while true
      invariant SkipName(p, start) == SkipName(p, pos)
      decreases |p| - pos
    {
      if pos >= |p| {
        return Bad(TruncatedName);
      }
      var len := p[pos] as int;
      if len >= 0xC0 {
        return Good(pos + 2);
      }
      pos := pos + 1;
      if len == 0 {
        return Good(pos);
      }
      pos := pos + len;
    }
  }

  function After(done: seq<(Ip, u32)>, r: Parsed<seq<(Ip, u32)>>): Parsed<seq<(Ip, u32)>> {
    match r
    case Bad(e) => Bad(e)
    case Good(rest) => Good(done + rest)
  }

  lemma AfterNone(r: Parsed<seq<(Ip, u32)>>)
    ensures After([], r) == r
  {
    if r.Good? {
      assert [] + r.value == r.value;
    }
  }

  lemma AfterTwice(a: seq<(Ip, u32)>, b: seq<(Ip, u32)>, r: Parsed<seq<(Ip, u32)>>)
    ensures After(a + b, r) == After(a, After(b, r))
  {
    if r.Good? {
      assert a + b + r.value == a + (b + r.value);
    }
  }

  method SkipQuestionsAt(p: Bytes, start: nat, n: nat) returns (r: Parsed<nat>)
    ensures r == SkipQuestions(p, start, n)
  {
    var pos: nat := start;
    for i := 0 to n
      invariant SkipQuestions(p, start, n) == SkipQuestions(p, pos, n - i)
    {
      var next := SkipNameAt(p, pos);
      if next.Bad? {
        return Bad(next.error);
      }
      pos := next.value + 4;
    }
    return Good(pos);
  }

  /** One record: its contribution and where the next one starts. */
  method ReadRecordAt(p: Bytes, pos: nat, ghost n: nat) returns (r: Parsed<(seq<(Ip, u32)>, nat)>)
    requires n > 0
    ensures r.Bad? ==> ReadRecords(p, pos, n) == Bad(r.error)
    ensures r.Good? ==> ReadRecords(p, pos, n) == After(r.value.0, ReadRecords(p, r.value.1, n - 1))
  {
    ReadRecordsStop(p, pos, n);
    hide ReadRecords;
    hide SkipName;
    hide After;
    hide Address;
    hide U32;
    var next := SkipNameAt(p, pos);
    if next.Bad? {
      return Bad(next.error);
    }
    var at := next.value;
    if at + 10 > |p| {
      return Bad(TruncatedAnswer);
    }
    var len := U16(p[at + 8], p[at + 9]);
    if at + 10 + len > |p| {
      return Bad(TruncatedData);
    }
    ReadRecordsStep(p, pos, n, at);
    return Good((Address(U16(p[at], p[at + 1]), p[at + 10..at + 10 + len], U32(p[at + 4..at + 8])), at + 10 + len));
  }

  method ReadRecordsAt(p: Bytes, start: nat, n: nat) returns (r: Parsed<seq<(Ip, u32)>>)
    ensures r == ReadRecords(p, start, n)
  {
    hide *;
    var pos: nat := start;
    var records: seq<(Ip, u32)> := [];
    AfterNone(ReadRecords(p, start, n));
    for i := 0 to n
      invariant ReadRecords(p, start, n) == After(records, ReadRecords(p, pos, n - i))
    {
      var got := ReadRecordAt(p, pos, n - i);
      if got.Bad? {
        AfterBad(records, got.error);
        return Bad(got.error);
      }
      AfterTwice(records, got.value.0, ReadRecords(p, got.value.1, n - i - 1));
      records := records + got.value.0;
      pos := got.value.1;
    }
    NoneLeft(p, pos);
    NothingAfter(records);
    return Good(records);
  }

  /** Where the record loop gives up. */
  lemma ReadRecordsStop(p: Bytes, pos: nat, n: nat)
    requires n > 0
    ensures SkipName(p, pos).Bad? ==> ReadRecords(p, pos, n) == Bad(SkipName(p, pos).error)
    ensures SkipName(p, pos).Good? ==>
              var at := SkipName(p, pos).value;
              && (at + 10 > |p| ==> ReadRecords(p, pos, n) == Bad(TruncatedAnswer))
              && (at + 10 <= |p| && at + 10 + U16(p[at + 8], p[at + 9]) > |p| ==> ReadRecords(p, pos, n) == Bad(TruncatedData))
  {
    hide SkipName;
    hide Address;
  }

  lemma NoneLeft(p: Bytes, pos: nat)
    ensures ReadRecords(p, pos, 0) == Good([])
  {
  }

  lemma NothingAfter(records: seq<(Ip, u32)>)
    ensures After(records, Good([])) == Good(records)
  {
    assert records + [] == records;
  }

  lemma AfterBad(records: seq<(Ip, u32)>, e: ParseError)
    ensures After(records, Bad(e)) == Bad(e)
  {
  }

  lemma ReadRecordsStep(p: Bytes, pos: nat, n: nat, at: nat)
    requires n > 0 && SkipName(p, pos) == Good(at) && at + 10 <= |p|
    requires at + 10 + U16(p[at + 8], p[at + 9]) <= |p|
    ensures var len := U16(p[at + 8], p[at + 9]);
            ReadRecords(p, pos, n) ==
            After(Address(U16(p[at], p[at + 1]), p[at + 10..at + 10 + len], U32(p[at + 4..at + 8])),
                  ReadRecords(p, at + 10 + len, n - 1))
  {
    hide Address;
    hide SkipName;
  }

  /** The answer parser, in bounds and finite on any octets. */
  method ParseAnswers(p: Bytes) returns (r: Parsed<Answers>)
    ensures r == ReadAnswers(p)
  {
    if |p| < 12 {
      return Bad(PacketTooShort);
    }
    var first := SkipQuestionsAt(p, 12, U16(p[4], p[5]));
    if first.Bad? {
      return Bad(first.error);
    }
    var records := ReadRecordsAt(p, first.value, U16(p[6], p[7]));
    if records.Bad? {
      return Bad(records.error);
    }
    return Good(Answers(p[3] as int % 0x10, records.value));
  }

  // ------------------------------------------------------------------
  // what a response parses back to
  // ------------------------------------------------------------------

  /** A question name read in one packet is skipped whole in any packet that echoes it. */
  lemma {:induction false} EchoIsSkipped(p: Bytes, pos: nat, r: Bytes, at: nat)
    requires ReadName(p, pos).Good?
    requires var end := ReadName(p, pos).value.1; pos < end <= |p| && at + (end - pos) <= |r| && r[at..at + (end - pos)] == p[pos..end]
    ensures SkipName(r, at) == Good(at + (ReadName(p, pos).value.1 - pos))
    decreases |p| - pos
  {
    var end := ReadName(p, pos).value.1;
    assert r[at] == r[at..at + (end - pos)][0] == p[pos];
    if p[pos] != 0 {
      var step := 1 + p[pos] as int;
      ReadNameMoves(p, pos + step);
      assert r[at + step..at + (end - pos)] == r[at..at + (end - pos)][step..];
      assert p[pos + step..end] == p[pos..end][step..];
      EchoIsSkipped(p, pos + step, r, at + step);
    }
  }

  lemma RecordShape(ip: Ip, ttl: u32)
    ensures var b := Record(ip, ttl);
            && |b| == (if ip.V4? then 16 else 28)
            && b[0] == 0xC0
            && U16(b[10], b[11]) == |b| - 12
            && U32(b[6..10]) == ttl
            && Address(U16(b[2], b[3]), b[12..], U32(b[6..10])) == [(ip, ttl)]
  {
    var b := Record(ip, ttl);
    assert b[6..10] == Be32(ttl);
    assert b[12..] == if ip.V4? then ip.v4 else ip.v6;
  }

  /** Octets of a packet at a position where another sequence of octets is known to stand. */
  lemma Window(r: Bytes, pos: nat, b: Bytes, rest: Bytes)
    requires pos <= |r| && r[pos..] == b + rest
    ensures pos + |b| <= |r| && r[pos + |b|..] == rest
    ensures forall i :: 0 <= i < |b| ==> r[pos + i] == b[i]
    ensures forall i, j :: 0 <= i <= j <= |b| ==> r[pos + i..pos + j] == b[i..j]
  {
    var q := r[pos..];
    assert forall i :: 0 <= i < |b| ==> r[pos + i] == q[i] == b[i];
    assert r[pos + |b|..] == q[|b|..];
  }

  lemma ReadOneRecord(r: Bytes, pos: nat, ip: Ip, ttl: u32, rest: Bytes, n: nat)
    requires pos <= |r| && r[pos..] == Record(ip, ttl) + rest && n > 0
    ensures pos + |Record(ip, ttl)| <= |r| && r[pos + |Record(ip, ttl)|..] == rest
    ensures ReadRecords(r, pos, n) == After([(ip, ttl)], ReadRecords(r, pos + |Record(ip, ttl)|, n - 1))
  {
    RecordShape(ip, ttl);
    var b := Record(ip, ttl);
    Window(r, pos, b, rest);
    hide Record;
    hide Address;
    assert SkipName(r, pos) == Good(pos + 2) by {
      assert r[pos] == b[0];
    }
    var at := pos + 2;
    assert r[at + 4..at + 8] == b[6..10] && r[at + 10..at + 10 + (|b| - 12)] == b[12..];
    assert r[at] == b[2] && r[at + 1] == b[3] && r[at + 8] == b[10] && r[at + 9] == b[11];
    assert at + 10 + (|b| - 12) == pos + |b|;
  }

  function Stamped(ips: seq<Ip>, ttl: u32): seq<(Ip, u32)> {
    seq(|ips|, i requires 0 <= i < |ips| => (ips[i], ttl))
  }

  function FirstStamped(ips: seq<Ip>, ttl: u32, n: nat): seq<(Ip, u32)>
    requires n <= |ips|
  {
    if n == 0 then [] else [(ips[0], ttl)] + FirstStamped(ips[1..], ttl, n - 1)
  }

  lemma {:induction false} FirstStampedIs(ips: seq<Ip>, ttl: u32, n: nat)
    requires n <= |ips|
    ensures FirstStamped(ips, ttl, n) == Stamped(ips[..n], ttl)
  {
    if n > 0 {
      FirstStampedIs(ips[1..], ttl, n - 1);
      assert ips[..n][1..] == ips[1..][..n - 1];
    }
  }

  lemma {:induction false} RecordsReadBack(r: Bytes, pos: nat, ips: seq<Ip>, ttl: u32, n: nat)
    requires pos <= |r| && r[pos..] == Records(ips, ttl) && n <= |ips|
    ensures ReadRecords(r, pos, n) == Good(FirstStamped(ips, ttl, n))
    decreases n
  {
    hide *;
    if n == 0 {
      NothingToRead(r, pos, ips, ttl);
    } else {
      ConsRecords(ips, ttl, n);
      var rest := Records(ips[1..], ttl);
      ReadOneRecord(r, pos, ips[0], ttl, rest, n);
      var next := pos + |Record(ips[0], ttl)|;
      RecordsReadBack(r, next, ips[1..], ttl, n - 1);
      AfterOne((ips[0], ttl), FirstStamped(ips[1..], ttl, n - 1));
    }
  }

  lemma NothingToRead(r: Bytes, pos: nat, ips: seq<Ip>, ttl: u32)
    ensures ReadRecords(r, pos, 0) == Good(FirstStamped(ips, ttl, 0))
  {
  }

  lemma ConsRecords(ips: seq<Ip>, ttl: u32, n: nat)
    requires 0 < n <= |ips|
    ensures Records(ips, ttl) == Record(ips[0], ttl) + Records(ips[1..], ttl)
    ensures FirstStamped(ips, ttl, n) == [(ips[0], ttl)] + FirstStamped(ips[1..], ttl, n - 1)
  {
    hide Record;
  }

  lemma AfterOne(x: (Ip, u32), rest: seq<(Ip, u32)>)
    ensures After([x], Good(rest)) == Good([x] + rest)
  {
  }

  lemma HeaderReads(q: DnsQuery, rcode: byte, n: u16, rest: Bytes)
    ensures |Header(q, rcode, n)| == 12
    ensures var r := Header(q, rcode, n) + rest;
            && |r| == 12 + |rest| && r[12..] == rest
            && U16(r[4], r[5]) == 1 && U16(r[6], r[7]) == n && r[3] as int % 0x10 == rcode as int % 0x10
  {
  }

  lemma SliceOfSlice(p: Bytes, a: nat, b: nat, i: nat, j: nat)
    requires a <= b <= |p| && i <= j <= b - a
    ensures p[a..b][i..j] == p[a + i..a + j]
  {
    var x := p[a..b];
    var y, z := x[i..j], p[a + i..a + j];
    assert |y| == |z|;
    forall k | 0 <= k < j - i
      ensures y[k] == z[k]
    {
      assert y[k] == x[i + k] == p[a + (i + k)];
    }
  }

  /** The question of a parsed query is its name's octets and four more. */
  lemma QuestionOf(lossy: Bytes -> Bytes, p: Bytes, q: DnsQuery) returns (end: nat)
    requires ParseQuery(lossy, p) == Good(q)
    ensures ReadName(p, 12).Good? && end == ReadName(p, 12).value.1
    ensures 12 < end && end + 4 <= |p| && |q.question| == end - 8
    ensures q.question[0..end - 12] == p[12..end]
  {
    ReadNameMoves(p, 12);
    hide ReadName;
    hide JoinDots;
    end := ReadName(p, 12).value.1;
    SliceOfSlice(p, 12, end + 4, 0, end - 12);
  }

  lemma OneQuestion(r: Bytes, at: nat)
    requires SkipName(r, 12) == Good(at)
    ensures SkipQuestions(r, 12, 1) == Good(at + 4)
  {
    assert SkipQuestions(r, at + 4, 0) == Good(at + 4);
  }

  /** The question of a parsed query, echoed after a header, is skipped whole. */
  lemma QuestionSkipped(lossy: Bytes -> Bytes, p: Bytes, q: DnsQuery, r: Bytes, rest: Bytes)
    requires ParseQuery(lossy, p) == Good(q)
    requires |r| >= 12 && r[12..] == q.question + rest
    ensures SkipQuestions(r, 12, 1) == Good(12 + |q.question|)
    ensures r[12 + |q.question|..] == rest
  {
    hide *;
    var end := QuestionOf(lossy, p, q);
    Window(r, 12, q.question, rest);
    assert r[12 + 0..12 + (end - 12)] == q.question[0..end - 12];
    EchoIsSkipped(p, 12, r, 12);
    OneQuestion(r, end);
  }

  lemma AnswersFrom(r: Bytes, pos: nat, records: seq<(Ip, u32)>)
    requires |r| >= 12 && U16(r[4], r[5]) == 1
    requires SkipQuestions(r, 12, 1) == Good(pos)
    requires ReadRecords(r, pos, U16(r[6], r[7])) == Good(records)
    ensures ReadAnswers(r) == Good(Answers(r[3] as int % 0x10, records))
  {
    hide SkipQuestions;
    hide ReadRecords;
  }

  /** For any query the parser accepts, the answers of the response are the given addresses in
      order, each with the given TTL; past 65535 addresses, as many as the cut count says. */
  lemma ResponseRoundTrip(lossy: Bytes -> Bytes, p: Bytes, q: DnsQuery, ips: seq<Ip>, ttl: u32)
    requires ParseQuery(lossy, p) == Good(q)
    ensures ReadAnswers(Response(q, ips, ttl)) == Good(Answers(0, Stamped(ips[..|ips| % 0x1_0000], ttl)))
    ensures |ips| < 0x1_0000 ==> ReadAnswers(Response(q, ips, ttl)) == Good(Answers(0, Stamped(ips, ttl)))
  {
    hide *;
    var n := |ips| % 0x1_0000;
    var r := Response(q, ips, ttl);
    ResponseIs(q, ips, ttl);
    HeaderReads(q, 0, n, q.question + Records(ips, ttl));
    QuestionSkipped(lossy, p, q, r, Records(ips, ttl));
    RecordsReadBack(r, 12 + |q.question|, ips, ttl, n);
    FirstStampedIs(ips, ttl, n);
    AnswersFrom(r, 12 + |q.question|, Stamped(ips[..n], ttl));
    if |ips| < 0x1_0000 {
      assert ips[..n] == ips;
    }
  }

  lemma ServfailIs(q: DnsQuery)
    ensures Servfail(q) == Header(q, 2, 0) + q.question && q.question == q.question + []
    ensures forall r: Bytes, pos :: ReadRecords(r, pos, 0) == Good([])
  {
    hide Header;
  }

  /** A failure reply carries code 2 and no answers. */
  lemma ServfailReads(lossy: Bytes -> Bytes, p: Bytes, q: DnsQuery)
    requires ParseQuery(lossy, p) == Good(q)
    ensures ReadAnswers(Servfail(q)) == Good(Answers(2, []))
  {
    hide *;
    ServfailIs(q);
    HeaderReads(q, 2, 0, q.question);
    QuestionSkipped(lossy, p, q, Servfail(q), []);
    AnswersFrom(Servfail(q), 12 + |q.question|, []);
  }

  lemma {:induction false} RecordsSize(ips: seq<Ip>, ttl: u32)
    ensures 16 * |ips| <= |Records(ips, ttl)| <= 28 * |ips|
  {
    if ips != [] {
      RecordShape(ips[0], ttl);
      hide Record;
      RecordsSize(ips[1..], ttl);
    }
  }

  /** With a name of at most 255 octets and the capped number of answers the reply fits
      a plain UDP message of 512 octets (section 4.2.1 of RFC 1035). */
  lemma ReplyFits(lossy: Bytes -> Bytes, p: Bytes, q: DnsQuery, ips: seq<Ip>, ttl: u32)
    requires ParseQuery(lossy, p) == Good(q) && |q.question| <= 255 + 4 && |ips| <= MAX_ANSWERS
    ensures |Response(q, ips, ttl)| <= 512
  {
    RecordsSize(ips, ttl);
  }
}
