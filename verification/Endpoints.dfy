/** The endpoint a finding's affected resource names (backend/src/services/vulnerabilityDispositionService.ts). */
module Endpoints {
  import opened Wrappers
  import opened Text

  /** `n` runs of digits separated by dots, then an optional ":port". */
  predicate DottedDigits(n: nat, s: string) {
    var k := Span(s, IsDigit);
    k > 0 && if n <= 1 then k == |s| || (s[k] == ':' && Numeric(s[k + 1..]))
      else k < |s| && s[k] == '.' && DottedDigits(n - 1, s[k + 1..])
  }

  predicate IsEndpoint(s: string) {
    DottedDigits(4, s)
  }

  lemma DottedAppend(n: nat, part: string, rest: string)
    requires n > 1 && Numeric(part) && DottedDigits(n - 1, rest)
    ensures DottedDigits(n, part + "." + rest)
  {
    SpanPrefix(part, "." + rest, IsDigit);
    assert part + "." + rest == part + ("." + rest);
    assert (part + "." + rest)[|part| + 1..] == rest;
  }

  lemma PrivateAddress(h: string)
    requires Numeric(h)
    ensures IsEndpoint("10.0.0." + h)
  {
    SpanAll(h, IsDigit);
    DottedAppend(2, "0", h);
    DottedAppend(3, "0", "0" + "." + h);
    DottedAppend(4, "10", "0" + "." + ("0" + "." + h));
    PrivateAddressParts(h);
  }

  lemma PrivateAddressParts(h: string)
    ensures "10" + "." + ("0" + "." + ("0" + "." + h)) == "10.0.0." + h
  {
  }

  /** The position of the last opening parenthesis, or the length if there is none. */
  function LastOpen(s: string): (k: nat)
    ensures k <= |s| && (k < |s| ==> s[k] == '(') && (forall i :: k < i < |s| ==> s[i] != '(')
    ensures k == |s| ==> '(' !in s
  {
    if s == "" then 0
    else
      var last := |s| - 1;
      if s[last] == '(' then last
      else
        var k := LastOpen(s[..last]);
        if k == last then |s| else k
  }

  /** "... (1.2.3.4)" or "... (1.2.3.4:80)" at the end, spaces aside. */
  function EndpointOf(resource: Option<string>): (e: Option<string>)
    ensures e.Some? ==> IsEndpoint(e.value)
  {
    var s := TrimEnd(resource.GetOr(""));
    var k := LastOpen(s);
    if k < |s| - 1 && s[|s| - 1] == ')' && IsEndpoint(s[k + 1..|s| - 1]) then Some(s[k + 1..|s| - 1]) else None
  }

  predicate EndpointChar(c: char) {
    IsDigit(c) || c == '.' || c == ':'
  }

  lemma {:induction false} EndpointChars(n: nat, s: string)
    requires DottedDigits(n, s)
    ensures s != "" && forall i :: 0 <= i < |s| ==> EndpointChar(s[i])
    decreases |s|
  {
    var k := Span(s, IsDigit);
    if n > 1 {
      EndpointChars(n - 1, s[k + 1..]);
    }
    forall i | 0 <= i < |s|
      ensures EndpointChar(s[i])
    {
      if i > k { assert s[i] == s[k + 1..][i - k - 1]; }
    }
  }

  /** A resource contains the endpoint it names. */
  lemma ContainsOwnEndpoint(resource: Option<string>)
    requires EndpointOf(resource).Some?
    ensures Includes(resource.GetOr(""), EndpointOf(resource).value)
  {
    var r, s := resource.GetOr(""), TrimEnd(resource.GetOr(""));
    var k := LastOpen(s);
    assert s == r[..|s|];
    assert r[k + 1..|s| - 1] == s[k + 1..|s| - 1];
    assert OccursAt(r, EndpointOf(resource).value, k + 1);
    IncludesOccurs(r, EndpointOf(resource).value);
  }

  /** The bare resource of an endpoint. */
  function Bare(e: string): string {
    "(" + e + ")"
  }

  /** A path followed by an endpoint in parentheses names that endpoint, whatever the path. */
  lemma NamedAtEnd(path: string, e: string)
    requires IsEndpoint(e)
    ensures EndpointOf(Some(path + Bare(e))) == Some(e)
  {
    var s := path + Bare(e);
    EndpointChars(4, e);
    assert s[|path|] == '(' && s[|s| - 1] == ')' && s[|path| + 1..|s| - 1] == e;
    forall i | |path| < i < |s|
      ensures s[i] != '('
    {
      assert s[i] == if i <= |path| + |e| then e[i - |path| - 1] else ')';
    }
  }

  lemma BareEndpoint(e: string)
    requires IsEndpoint(e)
    ensures EndpointOf(Some(Bare(e))) == Some(e)
  {
    NamedAtEnd("", e);
    assert "" + Bare(e) == Bare(e);
  }

  // ---------- Which resources name which endpoints ----------

  /** A resource that ends with an endpoint in parentheses, white space aside, names it ... */
  lemma NamedBeforeSpaces(path: string, e: string, tail: string)
    requires IsEndpoint(e) && AllSpace(tail)
    ensures EndpointOf(Some(path + Bare(e) + tail)) == Some(e)
  {
    var s := path + Bare(e);
    assert s[|s| - 1] == ')';
    EndSkips(s, tail);
    NamedAtEnd(path, e);
    assert TrimEnd(s) == s;
  }

  /** ... and every resource that names an endpoint ends so. */
  lemma NamedPieces(resource: string) returns (path: string, tail: string)
    requires EndpointOf(Some(resource)).Some?
    ensures resource == path + Bare(EndpointOf(Some(resource)).value) + tail
    ensures forall c :: c in tail ==> IsSpace(c)
  {
    var s := TrimEnd(resource);
    var k := LastOpen(s);
    tail := EndCut(resource);
    path := s[..k];
    assert s == path + Bare(s[k + 1..|s| - 1]);
  }

  /** The text with its last number, and a port if there is one. */
  function WithPort(d: string, port: Option<string>): string {
    d + if port.Some? then ":" + port.value else ""
  }

  predicate OptionallyNumeric(port: Option<string>) {
    port.Some? ==> Numeric(port.value)
  }

  lemma LastDigits(d: string, port: Option<string>)
    requires Numeric(d) && OptionallyNumeric(port)
    ensures DottedDigits(1, WithPort(d, port))
  {
    var rest := if port.Some? then ":" + port.value else "";
    SpanPrefix(d, rest, IsDigit);
    assert port.Some? ==> WithPort(d, port)[|d| + 1..] == port.value;
  }

  lemma FirstDigits(n: nat, s: string) returns (a: string, rest: string)
    requires DottedDigits(n, s) && n > 1
    ensures s == a + ("." + rest) && Numeric(a) && DottedDigits(n - 1, rest)
  {
    var k := Span(s, IsDigit);
    a, rest := s[..k], s[k + 1..];
    assert s == a + ("." + rest);
  }

  /** Four numbers with dots between them, and a port or none, are an endpoint ... */
  lemma PiecesAreEndpoint(a: string, b: string, c: string, d: string, port: Option<string>)
    requires Numeric(a) && Numeric(b) && Numeric(c) && Numeric(d) && OptionallyNumeric(port)
    ensures IsEndpoint(a + "." + (b + "." + (c + "." + WithPort(d, port))))
  {
    LastDigits(d, port);
    DottedAppend(2, c, WithPort(d, port));
    DottedAppend(3, b, c + "." + WithPort(d, port));
    DottedAppend(4, a, b + "." + (c + "." + WithPort(d, port)));
  }

  /** ... and every endpoint is such a text. */
  lemma EndpointPieces(s: string) returns (a: string, b: string, c: string, d: string, port: Option<string>)
    requires IsEndpoint(s)
    ensures Numeric(a) && Numeric(b) && Numeric(c) && Numeric(d) && OptionallyNumeric(port)
    ensures s == a + ("." + (b + ("." + (c + ("." + WithPort(d, port))))))
  {
    var rest;
    a, rest := FirstDigits(4, s);
    b, rest := FirstDigits(3, rest);
    c, rest := FirstDigits(2, rest);
    d, port := LastPieces(rest);
  }

  lemma LastPieces(s: string) returns (d: string, port: Option<string>)
    requires DottedDigits(1, s)
    ensures s == WithPort(d, port) && Numeric(d) && OptionallyNumeric(port)
  {
    var k := Span(s, IsDigit);
    d, port := s[..k], if k == |s| then None else Some(s[k + 1..]);
    assert s == WithPort(d, port);
  }
}
