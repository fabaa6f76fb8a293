/** Name rules, expiry and domain records (`federate-naming`). */
module Naming {
  import opened Prelude
  import opened Records
  import opened Text

  /** `expired_at`: an unparseable expiry counts as expired. */
  predicate HasExpired(w: World, expiresAt: Option<string>, now: Instant) {
    match expiresAt
    case None => false
    case Some(text) =>
      match w.parseTime(text)
      case None => true
      case Some(t) => t <= now
  }

  predicate IsTldChar(c: char) {
    IsLowerLetter(c)
  }

  predicate IsLabelChar(c: char) {
    IsLowerLetter(c) || IsDigit(c) || c == '-'
  }

  predicate IsTldName(s: string) {
    2 <= |s| <= 32 && forall i :: 0 <= i < |s| ==> IsTldChar(s[i])
  }

  predicate IsLabel(s: string) {
    && 1 <= |s| <= 63
    && (forall i :: 0 <= i < |s| ==> IsLabelChar(s[i]))
    && s[0] != '-' && s[|s| - 1] != '-'
  }

  /** `validate_tld_name` */
  function ValidateTldName(input: string): Result<string> {
    var tld := Lower(TrimDots(Trim(input)));
    if IsTldName(tld) then Ok(tld) else Err(InvalidTldName)
  }

  /** `validate_label` */
  function ValidateLabel(input: string): Result<string> {
    var name := Lower(Trim(input));
    if IsLabel(name) then Ok(name) else Err(NotFederateDomain)
  }

  datatype FederateDomain = FederateDomain(name: string, tld: string) {
    function Fqdn(): string {
      name + "." + tld
    }
  }

  /** `FederateDomain::parse`: the port is cut off, then exactly one label and one TLD. */
  function ParseDomain(host: string): (r: Result<FederateDomain>)
    ensures r.Ok? ==> IsLabel(r.value.name) && IsTldName(r.value.tld)
  {
    var bare := Lower(host[..IndexOf(host, ':')]);
    var dot := IndexOf(bare, '.');
    if dot == |bare| then Err(NotFederateDomain)
    else if '.' in bare[dot + 1..] then Err(NotFederateDomain)
    else
      var name :- ValidateLabel(bare[..dot]);
      var tld :- ValidateTldName(bare[dot + 1..]);
      Ok(FederateDomain(name, tld))
  }

  /** `DomainRecord::verify` */
  function VerifyDomain(w: World, rec: DomainRecord, operator: Key): Result<()> {
    if rec.domain != rec.hostLabel + "." + rec.tld then Err(VerificationFailed(DomainLayer))
    else if !SignatureOk(w, operator, DomainDoc(rec.(signature := None)), rec.signature) then
      Err(VerificationFailed(DomainLayer))
    else Ok(())
  }

  /** Sign a domain record over its canonical form with the signature blanked. */
  function SignDomain(w: World, operator: Key, rec: DomainRecord): DomainRecord {
    rec.(signature := SignDoc(w, operator, DomainDoc(rec.(signature := None))))
  }

  lemma LowerIdentity(s: string)
    requires forall i :: 0 <= i < |s| ==> LowerChar(s[i]) == s[i]
    ensures Lower(s) == s
  {
  }

  lemma LabelIsLower(s: string)
    requires IsLabel(s)
    ensures Lower(s) == s && Trim(s) == s && '.' !in s && ':' !in s
    ensures ValidateLabel(s) == Ok(s)
  {
    assert forall i :: 0 <= i < |s| ==> IsLabelChar(s[i]);
    TrimIdentity(s);
    LowerIdentity(s);
    hide Lower;
    hide Trim;
  }

  lemma TldNameIsLower(s: string)
    requires IsTldName(s)
    ensures Lower(s) == s && Trim(s) == s && '.' !in s && ':' !in s
    ensures ValidateTldName(s) == Ok(s)
  {
    assert forall i :: 0 <= i < |s| ==> IsTldChar(s[i]);
    TrimIdentity(s);
    assert TrimDots(s) == s;
    assert Lower(s) == s;
  }

  /** Where the dot and the end of a full name are. */
  lemma FqdnParts(name: string, tld: string)
    requires '.' !in name && ':' !in name && ':' !in tld
    ensures var f := name + "." + tld;
            && IndexOf(f, ':') == |f| && f[..|f|] == f
            && IndexOf(f, '.') == |name| && f[..|name|] == name && f[|name| + 1..] == tld
  {
    var f := name + "." + tld;
    assert forall i :: 0 <= i < |f| ==> f[i] == '.' || f[i] in name || f[i] in tld;
    IndexOfUnique(f, ':', |f|);
    IndexOfUnique(f, '.', |name|);
  }

  /** A canonical name parses back to itself. */
  lemma ParseFqdn(d: FederateDomain)
    requires IsLabel(d.name) && IsTldName(d.tld)
    ensures ParseDomain(d.Fqdn()) == Ok(d)
  {
    LabelIsLower(d.name);
    TldNameIsLower(d.tld);
    FqdnIsLower(d);
    FqdnParts(d.name, d.tld);
    hide IsLabel;
    hide IsTldName;
    hide ValidateLabel;
    hide ValidateTldName;
    hide Lower;
  }

  lemma FqdnIsLower(d: FederateDomain)
    requires IsLabel(d.name) && IsTldName(d.tld)
    ensures Lower(d.Fqdn()) == d.Fqdn()
  {
    LabelIsLower(d.name);
    TldNameIsLower(d.tld);
    var f := d.Fqdn();
    forall i | 0 <= i < |f|
      ensures Lower(f)[i] == f[i]
    {
      if i < |d.name| {
        assert f[i] == Lower(d.name)[i];
      } else if i > |d.name| {
        assert f[i] == Lower(d.tld)[i - |d.name| - 1];
      }
    }
  }

  /** How a host is read: up to the port, in lower case, it is label and TLD around its only dot,
      and both are legal once the white space around them is gone. */
  predicate Reading(host: string, d: FederateDomain, bare: string, first: string, tld: string) {
    && bare <= host && ':' !in bare && (|bare| < |host| ==> host[|bare|] == ':')
    && Lower(bare) == first + "." + tld && '.' !in first && '.' !in tld
    && Trim(first) == d.name && IsLabel(d.name)
    && Trim(tld) == d.tld && IsTldName(d.tld)
  }

  lemma TrimIsPart(s: string, c: char)
    requires c in Trim(s)
    ensures c in s
  {
    var k :| 0 <= k <= |s| && TrimStart(s) == s[k..];
    assert Trim(s) <= TrimStart(s);
    assert c in TrimStart(s);
  }

  lemma LowerTwice(c: char)
    ensures LowerChar(LowerChar(c)) == LowerChar(c)
  {
  }

  /** Nothing is left to lower or to strip of dots in a part of the lower-cased host. */
  lemma PartIsPlain(bare: string, part: string)
    requires forall c <- part :: c in Lower(bare)
    ensures Lower(Trim(part)) == Trim(part)
    ensures '.' !in part ==> TrimDots(Trim(part)) == Trim(part)
  {
    var t := Trim(part);
    forall i | 0 <= i < |t|
      ensures LowerChar(t[i]) == t[i]
    {
      TrimIsPart(part, t[i]);
      assert t[i] in Lower(bare);
      var j :| 0 <= j < |bare| && Lower(bare)[j] == t[i];
      LowerTwice(bare[j]);
    }
    hide Trim;
    LowerIdentity(t);
    if '.' !in part && t != "" {
      assert t[0] in t;
      if t[0] == '.' {
        TrimIsPart(part, '.');
      }
    }
  }

  lemma PartsArePlain(bare: string, first: string, tld: string)
    requires Lower(bare) == first + "." + tld && '.' !in first && '.' !in tld
    ensures IndexOf(Lower(bare), '.') == |first| && Lower(bare)[..|first|] == first && Lower(bare)[|first| + 1..] == tld
    ensures Lower(Trim(first)) == Trim(first)
    ensures Lower(TrimDots(Trim(tld))) == Trim(tld)
  {
    IndexOfUnique(Lower(bare), '.', |first|);
    assert forall c <- first :: c in first + "." + tld;
    assert forall c <- tld :: c in first + "." + tld;
    PartIsPlain(bare, first);
    PartIsPlain(bare, tld);
  }

  /** Parsing, once the parts are known. */
  lemma ParseOfParts(host: string, bare: string, first: string, tld: string)
    requires bare == host[..IndexOf(host, ':')] && '.' !in tld
    requires |first| < |Lower(bare)| && IndexOf(Lower(bare), '.') == |first|
    requires Lower(bare)[..|first|] == first && Lower(bare)[|first| + 1..] == tld
    ensures ParseDomain(host).Ok? <==> ValidateLabel(first).Ok? && ValidateTldName(tld).Ok?
    ensures ParseDomain(host).Ok? ==> ParseDomain(host).value == FederateDomain(ValidateLabel(first).value, ValidateTldName(tld).value)
  {
    hide ValidateLabel;
    hide ValidateTldName;
    hide Lower;
    hide IndexOf;
    hide IsLabel;
    hide IsTldName;
  }

  lemma ValidParts(first: string, tld: string)
    requires Lower(Trim(first)) == Trim(first) && Lower(TrimDots(Trim(tld))) == Trim(tld)
    ensures ValidateLabel(first).Ok? <==> IsLabel(Trim(first))
    ensures ValidateTldName(tld).Ok? <==> IsTldName(Trim(tld))
    ensures ValidateLabel(first).Ok? ==> ValidateLabel(first).value == Trim(first)
    ensures ValidateTldName(tld).Ok? ==> ValidateTldName(tld).value == Trim(tld)
  {
    hide Lower;
    hide Trim;
    hide TrimDots;
    hide IsLabel;
    hide IsTldName;
  }

  lemma PartsParse(host: string, bare: string, first: string, tld: string)
    requires bare == host[..IndexOf(host, ':')]
    requires Lower(bare) == first + "." + tld && '.' !in first && '.' !in tld
    ensures ParseDomain(host).Ok? <==> IsLabel(Trim(first)) && IsTldName(Trim(tld))
    ensures ParseDomain(host).Ok? ==> ParseDomain(host).value == FederateDomain(Trim(first), Trim(tld))
  {
    hide *;
    PartsArePlain(bare, first, tld);
    ParseOfParts(host, bare, first, tld);
    ValidParts(first, tld);
  }

  lemma ReadingParses(host: string, d: FederateDomain, bare: string, first: string, tld: string)
    requires Reading(host, d, bare, first, tld)
    ensures ParseDomain(host) == Ok(d)
  {
    assert bare <= host && ':' !in bare && (|bare| < |host| ==> host[|bare|] == ':');
    assert Lower(bare) == first + "." + tld && '.' !in first && '.' !in tld && Trim(first) == d.name && Trim(tld) == d.tld;
    assert IsLabel(d.name) && IsTldName(d.tld);
    hide *;
    IndexOfUnique(host, ':', |bare|);
    PartsParse(host, bare, first, tld);
  }

  lemma ParsedHasDot(host: string)
    requires ParseDomain(host).Ok?
    ensures var low := Lower(host[..IndexOf(host, ':')]); IndexOf(low, '.') < |low| && '.' !in low[IndexOf(low, '.') + 1..]
  {
    hide ValidateLabel;
    hide ValidateTldName;
    hide Lower;
    hide IndexOf;
    hide IsLabel;
    hide IsTldName;
  }

  lemma ReadingHolds(host: string, d: FederateDomain, bare: string, first: string, tld: string)
    requires bare <= host && ':' !in bare && (|bare| < |host| ==> host[|bare|] == ':')
    requires Lower(bare) == first + "." + tld && '.' !in first && '.' !in tld
    requires Trim(first) == d.name && Trim(tld) == d.tld && IsLabel(d.name) && IsTldName(d.tld)
    ensures Reading(host, d, bare, first, tld)
  {
    hide Lower;
    hide Trim;
    hide IsLabel;
    hide IsTldName;
  }

  lemma ParsedHasReading(host: string, d: FederateDomain) returns (bare: string, first: string, tld: string)
    requires ParseDomain(host) == Ok(d)
    ensures Reading(host, d, bare, first, tld)
  {
    hide *;
    bare := host[..IndexOf(host, ':')];
    var low := Lower(bare);
    ParsedHasDot(host);
    var dot := IndexOf(low, '.');
    first, tld := low[..dot], low[dot + 1..];
    assert low == first + "." + tld;
    PartsParse(host, bare, first, tld);
    ReadingHolds(host, d, bare, first, tld);
  }

  /** Exactly which hosts are accepted, and as what. */
  lemma ParseDomainExactly(host: string, d: FederateDomain)
    ensures ParseDomain(host) == Ok(d) <==> exists bare, first, tld :: Reading(host, d, bare, first, tld)
  {
    if ParseDomain(host) == Ok(d) {
      var bare, first, tld := ParsedHasReading(host, d);
    }
    hide ParseDomain;
    hide Reading;
    if exists bare, first, tld :: Reading(host, d, bare, first, tld) {
      var bare, first, tld :| Reading(host, d, bare, first, tld);
      ReadingParses(host, d, bare, first, tld);
    }
  }

  /** Every character of an accepted label is white space or a label character. */
  lemma AcceptedLabelChar(input: string, c: char)
    requires ValidateLabel(input).Ok? && c in input
    ensures IsWhitespace(c) || IsLabelChar(LowerChar(c))
  {
    TrimKeeps(input, c);
    if c in Trim(input) {
      var i :| 0 <= i < |Trim(input)| && Trim(input)[i] == c;
      assert Lower(Trim(input))[i] == LowerChar(c);
    }
  }

  /** A label the rules accept holds no dot, even before it is normalised. */
  lemma AcceptedLabelHasNoDot(input: string)
    requires ValidateLabel(input).Ok?
    ensures '.' !in input
  {
    forall c | c in input
      ensures c != '.'
    {
      AcceptedLabelChar(input, c);
    }
  }

  /** Without dots in the labels, a full name has one reading only. */
  lemma FqdnSplitsUniquely(l1: string, t1: string, l2: string, t2: string)
    requires '.' !in l1 && '.' !in l2
    requires l1 + "." + t1 == l2 + "." + t2
    ensures l1 == l2 && t1 == t2
  {
    var f := l1 + "." + t1;
    IndexOfUnique(f, '.', |l1|);
    IndexOfUnique(f, '.', |l2|);
    assert l1 == f[..|l1|] == l2;
    assert t1 == f[|l1| + 1..] == t2;
  }
}
