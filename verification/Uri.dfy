/** The native address format (`federate-uri`): parser, printer and the gateway's translation. */
module Uri {
  import opened Prelude
  import opened Text
  import opened Naming
  import Unicode

  const MAX_PATH_LEN := 2048
  const SCHEME_PREFIX: string := "fed://"

  datatype FederateUri = FederateUri(domain: FederateDomain, path: string, query: Option<string>)

  /** Length in bytes, as `str::len` counts. */
  function ByteLength(s: string): nat {
    |Unicode.Utf8(s)|
  }

  predicate EndsAuthority(c: char) {
    c == '/' || c == '?' || c == '#'
  }

  /** `find(['/', '?', '#'])`, or the length. */
  function AuthorityEnd(s: string): (k: nat)
    ensures k <= |s|
    ensures forall i :: 0 <= i < k ==> !EndsAuthority(s[i])
    ensures k < |s| ==> EndsAuthority(s[k])
  {
    if s == "" || EndsAuthority(s[0]) then 0 else 1 + AuthorityEnd(s[1..])
  }

  lemma AuthorityEndUnique(s: string, k: nat)
    requires k <= |s| && (forall i :: 0 <= i < k ==> !EndsAuthority(s[i])) && (k < |s| ==> EndsAuthority(s[k]))
    ensures AuthorityEnd(s) == k
  {
    var j := AuthorityEnd(s);
    assert j < |s| ==> EndsAuthority(s[j]);
    assert k < |s| ==> EndsAuthority(s[k]);
  }

  /** `split_once('?')`; an empty query is no query. */
  function SplitQuery(s: string): (string, Option<string>) {
    var k := IndexOf(s, '?');
    if k == |s| then (s, None)
    else (s[..k], if k + 1 == |s| then None else Some(s[k + 1..]))
  }

  function RootIfEmpty(path: string): string {
    if path == "" then "/" else path
  }

  const MALFORMED: FederateError := NotFederateDomain

  /** `FederateUri::parse` */
  function Parse(input: string): Result<FederateUri> {
    var s := Trim(input);
    if !(SCHEME_PREFIX <= s) || s == SCHEME_PREFIX then Err(MALFORMED)
    else
      var rest := s[|SCHEME_PREFIX|..];
      var cut := AuthorityEnd(rest);
      var authority, tail := rest[..cut], rest[cut..];
      if '@' in authority || ':' in authority then Err(MALFORMED)
      else
        var domain :- ParseDomain(authority);
        var (path, query) := SplitQuery(tail[..IndexOf(tail, '#')]);
        var full := RootIfEmpty(path);
        if full[0] != '/' || ByteLength(full) > MAX_PATH_LEN then Err(MALFORMED)
        else Ok(FederateUri(domain, full, query))
  }

  /** `FederateUri::from_http` */
  function FromHttp(host: string, pathAndQuery: string): Result<FederateUri> {
    var domain :- ParseDomain(host);
    var (path, query) := SplitQuery(pathAndQuery);
    var full := RootIfEmpty(path);
    if full[0] != '/' then Err(MALFORMED) else Ok(FederateUri(domain, full, query))
  }

  function TailOf(u: FederateUri): string {
    (if u.path == "/" then "" else u.path) + (if u.query.Some? then "?" + u.query.value else "")
  }

  /** `Display`: the root path is left out. */
  function Print(u: FederateUri): string {
    SCHEME_PREFIX + u.domain.Fqdn() + TailOf(u)
  }

  // ------------------------------------------------------------------
  // round trips
  // ------------------------------------------------------------------

  /** What every parsed URI satisfies. */
  predicate IsUri(u: FederateUri) {
    && IsLabel(u.domain.name) && IsTldName(u.domain.tld)
    && u.path != "" && u.path[0] == '/' && '?' !in u.path && '#' !in u.path && ByteLength(u.path) <= MAX_PATH_LEN
    && (u.query.Some? ==> u.query.value != "" && '#' !in u.query.value)
  }

  lemma SplitQueryParts(s: string)
    requires '#' !in s
    ensures var (path, query) := SplitQuery(s);
            && '?' !in path && '#' !in path
            && (query.Some? ==> query.value != "" && '#' !in query.value)
  {
  }

  lemma BeforeHash(s: string)
    ensures '#' !in s[..IndexOf(s, '#')]
  {
  }

  lemma ParsedIsUri(input: string)
    requires Parse(input).Ok?
    ensures IsUri(Parse(input).value)
  {
    hide ByteLength;
    hide IsLabel;
    hide IsTldName;
    hide SplitQuery;
    var rest := Trim(input)[|SCHEME_PREFIX|..];
    var tail := rest[AuthorityEnd(rest)..];
    BeforeHash(tail);
    SplitQueryParts(tail[..IndexOf(tail, '#')]);
    assert '?' !in "/" && '#' !in "/";
  }

  /** Parsing what stands for itself: a printed authority followed by a tail. */
  lemma ParseJoined(s: string, host: string, tail: string)
    requires s == SCHEME_PREFIX + host + tail && s != SCHEME_PREFIX && Trim(s) == s
    requires forall i :: 0 <= i < |host| ==> !EndsAuthority(host[i]) && host[i] != '@' && host[i] != ':'
    requires tail == "" || EndsAuthority(tail[0])
    requires '#' !in tail
    ensures Parse(s) ==
            match ParseDomain(host)
            case Err(e) => Err(e)
            case Ok(d) =>
              var (path, query) := SplitQuery(tail);
              var full := RootIfEmpty(path);
              if full[0] != '/' || ByteLength(full) > MAX_PATH_LEN then Err(MALFORMED) else Ok(FederateUri(d, full, query))
  {
    hide ParseDomain;
    hide SplitQuery;
    hide ByteLength;
    var rest := s[|SCHEME_PREFIX|..];
    JoinedParts(host, tail);
    assert rest == host + tail;
    assert tail[..IndexOf(tail, '#')] == tail;
  }

  lemma JoinedParts(host: string, tail: string)
    requires forall i :: 0 <= i < |host| ==> !EndsAuthority(host[i]) && host[i] != '@' && host[i] != ':'
    requires tail == "" || EndsAuthority(tail[0])
    requires '#' !in tail
    ensures AuthorityEnd(host + tail) == |host| && (host + tail)[..|host|] == host && (host + tail)[|host|..] == tail
    ensures '@' !in host && ':' !in host
    ensures IndexOf(tail, '#') == |tail| && tail[..|tail|] == tail
  {
    AuthorityEndUnique(host + tail, |host|);
    IndexOfUnique(tail, '#', |tail|);
  }

  lemma SplitPrinted(u: FederateUri)
    requires IsUri(u)
    ensures var (path, query) := SplitQuery(TailOf(u)); RootIfEmpty(path) == u.path && query == u.query
    ensures '#' !in TailOf(u) && (TailOf(u) == "" || EndsAuthority(TailOf(u)[0]))
  {
    hide ByteLength;
    hide IsLabel;
    hide IsTldName;
    var shown := if u.path == "/" then "" else u.path;
    var tail := TailOf(u);
    var query := if u.query.Some? then "?" + u.query.value else "";
    assert tail == shown + query;
    IndexOfUnique(tail, '?', |shown|);
    assert tail[..|shown|] == shown && tail[|shown|..] == query;
    if u.query.Some? {
      assert tail[|shown| + 1..] == query[1..] == u.query.value;
    }
  }

  lemma FqdnIsBare(d: FederateDomain)
    requires IsLabel(d.name) && IsTldName(d.tld)
    ensures forall i :: 0 <= i < |d.Fqdn()| ==>
              var c := d.Fqdn()[i]; !EndsAuthority(c) && c != '@' && c != ':' && !IsWhitespace(c)
  {
    var f := d.Fqdn();
    forall i | 0 <= i < |f|
      ensures !EndsAuthority(f[i]) && f[i] != '@' && f[i] != ':' && !IsWhitespace(f[i])
    {
      if i < |d.name| {
        assert IsLabelChar(d.name[i]);
      } else if i > |d.name| {
        assert IsTldChar(d.tld[i - |d.name| - 1]);
      }
    }
  }

  predicate EndsInWhitespace(s: string) {
    s != "" && IsWhitespace(s[|s| - 1])
  }

  lemma PrintedTrims(u: FederateUri)
    requires IsUri(u)
    ensures Print(u) != "" && Print(u)[0] == 'f'
    ensures !EndsInWhitespace(Print(u)) ==> Trim(Print(u)) == Print(u)
  {
    hide IsUri;
    if !EndsInWhitespace(Print(u)) {
      TrimIdentity(Print(u));
    }
  }

  lemma PrintedReads(u: FederateUri)
    requires IsUri(u) && !EndsInWhitespace(Print(u))
    ensures Parse(Print(u)) == Ok(u)
  {
    FqdnIsBare(u.domain);
    ParseFqdn(u.domain);
    SplitPrinted(u);
    PrintedTrims(u);
    hide ParseDomain;
    hide SplitQuery;
    hide ByteLength;
    hide TailOf;
    hide IsLabel;
    hide IsTldName;
    ParseJoined(Print(u), u.domain.Fqdn(), TailOf(u));
  }

  lemma TrimStartTail(s: string)
    ensures |TrimStart(s)| <= |s|
    ensures TrimStart(s) != "" ==> s != "" && TrimStart(s)[|TrimStart(s)| - 1] == s[|s| - 1]
  {
    var t := TrimStart(s);
    var k :| 0 <= k <= |s| && t == s[k..];
  }

  lemma TrimCuts(s: string)
    requires EndsInWhitespace(s)
    ensures |Trim(s)| < |s|
  {
    TrimStartTail(s);
    var t := TrimStart(s);
    hide TrimStart;
    assert TrimEnd(t) <= t;
    assert t != "" ==> TrimEnd(t) != t;
  }

  /** However much white space is cut off the end, what is read is shorter than what was printed. */
  lemma TrimmedReadsShorter(u: FederateUri, v: FederateUri)
    requires IsUri(u) && EndsInWhitespace(Print(u)) && Parse(Print(u)) == Ok(v)
    ensures |Print(v)| < |Print(u)|
  {
    TrimCuts(Print(u));
    hide *;
    ParsedPrintsNoLonger(Print(u));
  }

  /** Printing a parsed URI never takes more characters than the trimmed input had. */
  lemma ParsedPrintsNoLonger(input: string)
    requires Parse(input).Ok?
    ensures |Print(Parse(input).value)| <= |Trim(input)|
  {
    hide ByteLength;
    hide ParseDomain;
    hide Trim;
    hide SplitQuery;
    hide TailOf;
    var s := Trim(input);
    var rest := s[|SCHEME_PREFIX|..];
    var cut := AuthorityEnd(rest);
    var tail := rest[cut..];
    var u := Parse(input).value;
    ParsedNameNoLonger(rest[..cut]);
    TailNoLonger(tail[..IndexOf(tail, '#')], u);
  }

  lemma TailNoLonger(tail: string, u: FederateUri)
    requires var (path, query) := SplitQuery(tail); u.path == RootIfEmpty(path) && u.query == query
    ensures |TailOf(u)| <= |tail|
  {
  }

  lemma {:induction false} TrimNoLonger(s: string)
    ensures |Trim(s)| <= |s|
  {
    assert TrimEnd(TrimStart(s)) <= TrimStart(s);
  }

  lemma {:induction false} TrimDotsNoLonger(s: string)
    ensures |TrimDots(s)| <= |s|
  {
    if s != "" && s[0] == '.' {
      TrimDotsNoLonger(s[1..]);
    }
  }

  lemma ParsedNameNoLonger(host: string)
    requires ParseDomain(host).Ok?
    ensures |ParseDomain(host).value.Fqdn()| <= |host|
  {
    var bare := Lower(host[..IndexOf(host, ':')]);
    var dot := IndexOf(bare, '.');
    TrimNoLonger(bare[..dot]);
    TrimNoLonger(bare[dot + 1..]);
    TrimDotsNoLonger(Trim(bare[dot + 1..]));
  }

  /** A parsed URI prints to text that parses back to it exactly when the text does not end
      in white space. */
  lemma PrintedUriReadsBack(input: string)
    requires Parse(input).Ok?
    ensures var u := Parse(input).value;
            Parse(Print(u)) == Ok(u) <==> !EndsInWhitespace(Print(u))
  {
    var u := Parse(input).value;
    ParsedIsUri(input);
    hide Parse;
    hide IsUri;
    hide Print;
    if !EndsInWhitespace(Print(u)) {
      PrintedReads(u);
    } else if Parse(Print(u)).Ok? {
      TrimmedReadsShorter(u, Parse(Print(u)).value);
    }
  }

  /** The gateway's reading of a request is the reading of the native address: for a bare host
      and an absolute path within the cap, without fragment or trailing white space. */
  lemma HttpIsNative(host: string, pathAndQuery: string)
    requires forall i :: 0 <= i < |host| ==> !EndsAuthority(host[i]) && host[i] != '@' && host[i] != ':'
    requires pathAndQuery != "" && pathAndQuery[0] == '/' && '#' !in pathAndQuery
    requires !EndsInWhitespace(pathAndQuery)
    requires ByteLength(SplitQuery(pathAndQuery).0) <= MAX_PATH_LEN
    ensures FromHttp(host, pathAndQuery) == Parse(SCHEME_PREFIX + host + pathAndQuery)
  {
    var s := SCHEME_PREFIX + host + pathAndQuery;
    assert s[0] == 'f' && s[|s| - 1] == pathAndQuery[|pathAndQuery| - 1];
    TrimIdentity(s);
    var k := IndexOf(pathAndQuery, '?');
    assert k > 0;
    assert SplitQuery(pathAndQuery).0 == pathAndQuery[..k] && pathAndQuery[..k] != "";
    ParseJoined(s, host, pathAndQuery);
    hide Parse;
    hide ParseDomain;
    hide ByteLength;
  }
}
