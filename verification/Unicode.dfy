/** Text as octets: UTF-8, and where it may be cut. */
module Unicode {
  import opened Prelude

  /** UTF-8, section 3 of RFC 3629. */
  function Utf8Char(c: char): Bytes {
    var n := c as int;
    var (n1, last) := (n / 0x40, (0x80 + n % 0x40) as byte);
    var (n2, third) := (n1 / 0x40, (0x80 + n1 % 0x40) as byte);
    if n < 0x80 then [n as byte]
    else if n < 0x800 then [(0xC0 + n1) as byte, last]
    else if n < 0x10000 then [(0xE0 + n2) as byte, third, last]
    else [(0xF0 + n2 / 0x40) as byte, (0x80 + n2 % 0x40) as byte, third, last]
  }

  function Utf8(s: string): Bytes {
    if s == "" then [] else Utf8Char(s[0]) + Utf8(s[1..])
  }

  /** The scalar value a well-formed sequence stands for. */
  function Decoded(b: Bytes): int {
    if |b| == 1 then b[0] as int
    else if |b| == 2 then (b[0] as int - 0xC0) * 0x40 + (b[1] as int - 0x80)
    else if |b| == 3 then (b[0] as int - 0xE0) * 0x1000 + (b[1] as int - 0x80) * 0x40 + (b[2] as int - 0x80)
    else if |b| == 4 then
      (b[0] as int - 0xF0) * 0x40000 + (b[1] as int - 0x80) * 0x1000 + (b[2] as int - 0x80) * 0x40 + (b[3] as int - 0x80)
    else 0
  }

  /** The length of a sequence, from its first byte. */
  function SequenceLength(first: byte): nat {
    if first < 0xC0 then 1 else if first < 0xE0 then 2 else if first < 0xF0 then 3 else 4
  }

  lemma Utf8CharDecodes(c: char)
    ensures var b := Utf8Char(c); b != [] && |b| == SequenceLength(b[0]) && Decoded(b) == c as int
  {
  }

  lemma {:induction false} Utf8Unique(s: string, t: string)
    requires Utf8(s) == Utf8(t)
    ensures s == t
  {
    if s != "" {
      Utf8CharDecodes(s[0]);
      if t != "" {
        Utf8CharDecodes(t[0]);
        assert Utf8(s)[0] == Utf8Char(s[0])[0];
        assert Utf8(t)[0] == Utf8Char(t[0])[0];
        hide Utf8Char;
        assert Utf8Char(s[0]) == Utf8(s)[..|Utf8Char(s[0])|];
        assert Utf8Char(t[0]) == Utf8(t)[..|Utf8Char(t[0])|];
        assert Utf8(s[1..]) == Utf8(s)[|Utf8Char(s[0])|..];
        assert Utf8(t[1..]) == Utf8(t)[|Utf8Char(t[0])|..];
        Utf8Unique(s[1..], t[1..]);
        assert s == [s[0]] + s[1..];
        assert t == [t[0]] + t[1..];
      }
    } else if t != "" {
      Utf8CharDecodes(t[0]);
    }
  }

  lemma {:induction false} Utf8Concat(s: string, t: string)
    ensures Utf8(s + t) == Utf8(s) + Utf8(t)
  {
    if s == "" {
      assert s + t == t;
    } else {
      assert (s + t)[1..] == s[1..] + t;
      Utf8Concat(s[1..], t);
      assert Utf8Char(s[0]) + (Utf8(s[1..]) + Utf8(t)) == Utf8Char(s[0]) + Utf8(s[1..]) + Utf8(t);
    }
  }

  // ------------------------------------------------------------------
  // cutting text
  // ------------------------------------------------------------------

  const DOT: byte := 0x2E

  ghost predicate IsText(b: Bytes) {
    exists s: string :: Utf8(s) == b
  }

  /** A character is one octet below 0x80, or a leading and continuing octets from 0x80 on. */
  lemma CharOctets(c: char)
    ensures var b := Utf8Char(c);
            && b != []
            && (b[0] < 0x80 ==> b == [c as int as byte])
            && (forall i :: 0 < i < |b| ==> b[i] >= 0x80)
            && (DOT in b <==> c == '.') && (c == '.' ==> b == [DOT])
  {
  }

  /** Text cut anywhere is text, or the next octet continues a character. */
  lemma {:induction false} CutText(s: string, k: nat)
    requires k < |Utf8(s)|
    ensures IsText(Utf8(s)[..k]) || Utf8(s)[k] >= 0x80
  {
    var b, rest := Utf8Char(s[0]), Utf8(s[1..]);
    CharOctets(s[0]);
    hide Utf8Char;
    if k == 0 {
      assert Utf8("") == Utf8(s)[..k];
    } else if k < |b| {
      assert Utf8(s)[k] == b[k];
    } else {
      CutText(s[1..], k - |b|);
      assert Utf8(s)[k] == rest[k - |b|];
      if IsText(rest[..k - |b|]) {
        var t :| Utf8(t) == rest[..k - |b|];
        assert ([s[0]] + t)[1..] == t;
        assert Utf8([s[0]] + t) == b + rest[..k - |b|] == Utf8(s)[..k];
      }
    }
  }

  /** What stands before and behind a dot in text is text. */
  lemma {:induction false} DotCutsText(s: string, k: nat)
    requires k < |Utf8(s)| && Utf8(s)[k] == DOT
    ensures IsText(Utf8(s)[..k]) && IsText(Utf8(s)[k + 1..])
  {
    CutText(s, k);
    DotTail(s, k);
  }

  lemma {:induction false} DotTail(s: string, k: nat)
    requires k < |Utf8(s)| && Utf8(s)[k] == DOT
    ensures IsText(Utf8(s)[k + 1..])
  {
    var b, rest := Utf8Char(s[0]), Utf8(s[1..]);
    CharOctets(s[0]);
    hide Utf8Char;
    if k < |b| {
      assert b[k] == DOT;
      assert Utf8(s)[k + 1..] == rest;
    } else {
      assert Utf8(s)[k] == rest[k - |b|];
      DotTail(s[1..], k - |b|);
      assert Utf8(s)[k + 1..] == rest[k - |b| + 1..];
    }
  }

  lemma TextOf(b: Bytes) returns (s: string)
    requires IsText(b)
    ensures Utf8(s) == b
  {
    s :| Utf8(s) == b;
  }
}
