/** The few `str` operations of Rust's standard library the name rules rely on. */
module Text {

  predicate IsWhitespace(c: char) {
    || '\U{9}' <= c <= '\U{d}' || c == ' ' || c == '\U{85}' || c == '\U{a0}' || c == '\U{1680}'
    || '\U{2000}' <= c <= '\U{200a}' || c == '\U{2028}' || c == '\U{2029}'
    || c == '\U{202f}' || c == '\U{205f}' || c == '\U{3000}'
  }

  predicate IsLowerLetter(c: char) {
    'a' <= c <= 'z'
  }

  predicate IsDigit(c: char) {
    '0' <= c <= '9'
  }

  function LowerChar(c: char): char {
    if 'A' <= c <= 'Z' then (c as int + 32) as char else c
  }

  /** `to_ascii_lowercase` */
  function Lower(s: string): (r: string)
    ensures |r| == |s|
    ensures forall i :: 0 <= i < |s| ==> r[i] == LowerChar(s[i])
  {
    seq(|s|, i requires 0 <= i < |s| => LowerChar(s[i]))
  }

  function TrimStart(s: string): (r: string)
    ensures exists k :: 0 <= k <= |s| && r == s[k..]
    ensures r == "" || !IsWhitespace(r[0])
  {
    if s == "" then
      assert s == s[0..];
      s
    else if !IsWhitespace(s[0]) then
      assert s == s[0..];
      s
    else
      var r := TrimStart(s[1..]);
      assert exists k :: 0 <= k <= |s| && r == s[k..] by {
        var k :| 0 <= k <= |s| - 1 && r == s[1..][k..];
        assert r == s[k + 1..];
      }
      r
  }

  function TrimEnd(s: string): (r: string)
    ensures r <= s
    ensures r == "" || !IsWhitespace(r[|r| - 1])
  {
    if s == "" then s
    else if !IsWhitespace(s[|s| - 1]) then s
    else TrimEnd(s[..|s| - 1])
  }

  /** `trim`: strips white space at both ends. */
  function Trim(s: string): string {
    TrimEnd(TrimStart(s))
  }

  /** `trim_start_matches('.')` */
  function TrimDots(s: string): string {
    if s != "" && s[0] == '.' then TrimDots(s[1..]) else s
  }

  /** Index of the first `c`, or the length of `s` when there is none. */
  function IndexOf(s: string, c: char): (k: nat)
    ensures k <= |s|
    ensures forall i :: 0 <= i < k ==> s[i] != c
    ensures k < |s| ==> s[k] == c
  {
    if s == "" then 0
    else if s[0] == c then 0
    else 1 + IndexOf(s[1..], c)
  }

  /** `IndexOf` is the only index with its two properties. */
  lemma IndexOfUnique(s: string, c: char, k: nat)
    requires k <= |s|
    requires forall i :: 0 <= i < k ==> s[i] != c
    requires k < |s| ==> s[k] == c
    ensures IndexOf(s, c) == k
  {
    var j := IndexOf(s, c);
    assert j < |s| ==> s[j] == c;
    assert k < |s| ==> s[k] == c;
  }

  /** Text with no white space at either end is left alone by `trim`. */
  lemma TrimIdentity(s: string)
    requires s == "" || (!IsWhitespace(s[0]) && !IsWhitespace(s[|s| - 1]))
    ensures Trim(s) == s
  {
  }

  /** Trimming drops nothing but white space. */
  lemma TrimKeeps(s: string, c: char)
    requires c in s
    ensures IsWhitespace(c) || c in Trim(s)
  {
    TrimStartKeeps(s, c);
    if !IsWhitespace(c) {
      TrimEndKeeps(TrimStart(s), c);
    }
  }

  lemma {:induction false} TrimStartKeeps(s: string, c: char)
    requires c in s
    ensures IsWhitespace(c) || c in TrimStart(s)
  {
    if IsWhitespace(s[0]) && c != s[0] {
      TrimStartKeeps(s[1..], c);
    }
  }

  lemma {:induction false} TrimEndKeeps(s: string, c: char)
    requires c in s
    ensures IsWhitespace(c) || c in TrimEnd(s)
  {
    var n := |s| - 1;
    if IsWhitespace(s[n]) && c != s[n] {
      assert s == s[..n] + [s[n]];
      TrimEndKeeps(s[..n], c);
    }
  }
}
