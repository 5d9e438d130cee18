/**
 Machine identities of detector events (backend/src/detectors/identity.ts): MAC spellings,
 construction, re-parsing, and the keys findings are grouped by.
 */
module Identity {
  import opened Wrappers
  import opened Text

  // ---------- Optional text ----------

  /** A present, non-blank string, trimmed. */
  function Nonempty(value: Option<string>): Option<string> {
    if value.Some? && Trim(value.value) != "" then Some(Trim(value.value)) else None
  }

  // ---------- MAC addresses ----------

  predicate IsHex(c: char) {
    '0' <= c <= '9' || 'a' <= c <= 'f' || 'A' <= c <= 'F'
  }

  predicate AllHex(s: string) {
    forall i :: 0 <= i < |s| ==> IsHex(s[i])
  }

  datatype Spelling = Plain | Colons | Dashes | Dots

  /** Pairs of characters with a separator between them. */
  function Pairs(digits: string, sep: char): string
    decreases |digits|
  {
    if |digits| <= 2 then digits else [digits[0], digits[1], sep] + Pairs(digits[2..], sep)
  }

  /** Twelve hex digits written in one of the accepted ways. */
  function Spell(how: Spelling, digits: string): string
    requires |digits| == 12
  {
    match how
    case Plain => digits
    case Colons => Pairs(digits, ':')
    case Dashes => Pairs(digits, '-')
    case Dots => digits[..4] + "." + digits[4..8] + "." + digits[8..]
  }

  /** The global replace of [:.-] by nothing. */
  function Strip(s: string): string {
    if s == "" then ""
    else if s[0] == ':' || s[0] == '.' || s[0] == '-' then Strip(s[1..])
    else [s[0]] + Strip(s[1..])
  }

  /** The source's four-way pattern, case-insensitive. */
  predicate MatchesMac(s: string) {
    || (|s| == 12 && AllHex(s))
    || (|s| == 17 && (forall i :: 0 <= i < 17 ==> if i % 3 == 2 then s[i] == ':' else IsHex(s[i])))
    || (|s| == 17 && (forall i :: 0 <= i < 17 ==> if i % 3 == 2 then s[i] == '-' else IsHex(s[i])))
    || (|s| == 14 && (forall i :: 0 <= i < 14 ==> if i % 5 == 4 then s[i] == '.' else IsHex(s[i])))
  }

  predicate Placeholder(digits: string) {
    digits == "000000000000" || digits == "ffffffffffff"
  }

  function NormalizeMac(value: Option<string>): Option<string> {
    var mac := Nonempty(value);
    if mac.None? || !MatchesMac(mac.value) then None
    else
      var digits := Lower(Strip(mac.value));
      if Placeholder(digits) then None else Some(Pairs(digits, ':'))
  }

  lemma StripCons(c: char, s: string)
    ensures Strip([c] + s) == if c == ':' || c == '.' || c == '-' then Strip(s) else [c] + Strip(s)
  {
    assert ([c] + s)[1..] == s;
  }

  lemma {:induction false} StripConcat(s: string, t: string)
    ensures Strip(s + t) == Strip(s) + Strip(t)
  {
    if s == "" {
      assert s + t == t;
    } else {
      StripConcat(s[1..], t);
      StripCons(s[0], s[1..]);
      StripCons(s[0], s[1..] + t);
      assert s + t == [s[0]] + (s[1..] + t) && s == [s[0]] + s[1..];
    }
  }

  lemma {:induction false} StripHex(s: string)
    requires AllHex(s)
    ensures Strip(s) == s
  {
    if s != "" { StripHex(s[1..]); }
  }

  lemma StripTriple(a: char, b: char, sep: char, rest: string)
    requires IsHex(a) && IsHex(b) && sep in {':', '-'}
    ensures Strip([a, b, sep] + rest) == [a, b] + Strip(rest)
  {
    StripCons(sep, rest);
    StripCons(b, [sep] + rest);
    StripCons(a, [b] + ([sep] + rest));
    assert [a, b, sep] + rest == [a] + ([b] + ([sep] + rest));
  }

  lemma {:induction false} StripPairs(digits: string, sep: char)
    requires AllHex(digits) && sep in {':', '-'}
    ensures Strip(Pairs(digits, sep)) == digits
    decreases |digits|
  {
    if |digits| <= 2 {
      StripHex(digits);
    } else {
      var rest := Pairs(digits[2..], sep);
      StripPairs(digits[2..], sep);
      StripTriple(digits[0], digits[1], sep, rest);
      assert digits == [digits[0], digits[1]] + digits[2..];
    }
  }

  lemma StripSpelled(how: Spelling, digits: string)
    requires |digits| == 12 && AllHex(digits)
    ensures Strip(Spell(how, digits)) == digits
  {
    match how
    case Plain => StripHex(digits);
    case Colons => StripPairs(digits, ':');
    case Dashes => StripPairs(digits, '-');
    case Dots =>
      var a, b, c := digits[..4], digits[4..8], digits[8..];
      StripHex(a);
      StripHex(b);
      StripHex(c);
      StripConcat(a + "." + b + ".", c);
      StripConcat(a + "." + b, ".");
      StripConcat(a + ".", b);
      StripConcat(a, ".");
      assert Strip(".") == "";
      assert digits == a + b + c;
  }

  /** Where the characters of a paired spelling are. */
  lemma {:induction false} PairsAt(d: string, sep: char, n: nat)
    requires |d| == 2 * n && n > 0
    ensures |Pairs(d, sep)| == 3 * n - 1
    ensures forall i :: 0 <= i < n ==> Pairs(d, sep)[3 * i] == d[2 * i] && Pairs(d, sep)[3 * i + 1] == d[2 * i + 1]
    ensures forall i :: 0 <= i < n - 1 ==> Pairs(d, sep)[3 * i + 2] == sep
    decreases n
  {
    if n > 1 {
      PairsAt(d[2..], sep, n - 1);
      var p, q := Pairs(d, sep), Pairs(d[2..], sep);
      forall i | 0 <= i < n
        ensures p[3 * i] == d[2 * i] && p[3 * i + 1] == d[2 * i + 1]
      {
        if i > 0 {
          assert q[3 * (i - 1)] == d[2..][2 * (i - 1)] && q[3 * (i - 1) + 1] == d[2..][2 * (i - 1) + 1];
        }
      }
      forall i | 0 <= i < n - 1
        ensures p[3 * i + 2] == sep
      {
        if i > 0 { assert q[3 * (i - 1) + 2] == sep; }
      }
    }
  }

  lemma MatchedIsSpelled(s: string) returns (how: Spelling, d: string)
    requires MatchesMac(s)
    ensures |d| == 12 && AllHex(d) && s == Spell(how, d)
  {
    if |s| == 12 {
      how, d := Plain, s;
    } else if |s| == 17 {
      how := if s[2] == ':' then Colons else Dashes;
      d := [s[0], s[1], s[3], s[4], s[6], s[7], s[9], s[10], s[12], s[13], s[15], s[16]];
      assert IsHex(s[0]) && IsHex(s[1]) && IsHex(s[3]) && IsHex(s[4]) && IsHex(s[6]) && IsHex(s[7]);
      assert IsHex(s[9]) && IsHex(s[10]) && IsHex(s[12]) && IsHex(s[13]) && IsHex(s[15]) && IsHex(s[16]);
      PairsSame(s, d, s[2]);
    } else {
      how, d := Dots, s[..4] + s[5..9] + s[10..];
      assert AllHex(s[..4]) && AllHex(s[5..9]) && AllHex(s[10..]);
      assert d[..4] == s[..4] && d[4..8] == s[5..9] && d[8..] == s[10..];
      assert s == s[..4] + "." + s[5..9] + "." + s[10..];
    }
  }

  lemma SpelledMatches(how: Spelling, d: string)
    requires |d| == 12 && AllHex(d)
    ensures MatchesMac(Spell(how, d))
  {
    if how == Colons || how == Dashes {
      PairsShape(d, if how == Colons then ':' else '-');
    }
  }

  /** The pattern accepts exactly the four spellings of twelve hex digits. */
  lemma MatchesIffSpelled(s: string)
    ensures MatchesMac(s) <==> exists how, d :: |d| == 12 && AllHex(d) && s == Spell(how, d)
  {
    if MatchesMac(s) {
      var how, d := MatchedIsSpelled(s);
    }
    if how, d :| |d| == 12 && AllHex(d) && s == Spell(how, d) {
      SpelledMatches(how, d);
    }
  }

  lemma PairsShape(d: string, sep: char)
    requires |d| == 12 && AllHex(d)
    ensures
      var s := Pairs(d, sep);
      |s| == 17 && forall i :: 0 <= i < 17 ==> if i % 3 == 2 then s[i] == sep else IsHex(s[i])
  {
    PairsAt(d, sep, 6);
    var s := Pairs(d, sep);
    forall i | 0 <= i < 17
      ensures if i % 3 == 2 then s[i] == sep else IsHex(s[i])
    {
      var k := i / 3;
      assert s[3 * k] == d[2 * k] && s[3 * k + 1] == d[2 * k + 1] && (k < 5 ==> s[3 * k + 2] == sep);
    }
  }

  lemma PairsSame(s: string, d: string, sep: char)
    requires |s| == 17 && |d| == 12
    requires forall i :: 0 <= i < 6 ==> d[2 * i] == s[3 * i] && d[2 * i + 1] == s[3 * i + 1]
    requires forall i :: 0 <= i < 5 ==> s[3 * i + 2] == sep
    ensures s == Pairs(d, sep)
  {
    PairsAt(d, sep, 6);
    var p := Pairs(d, sep);
    forall i | 0 <= i < 17
      ensures s[i] == p[i]
    {
      var k := i / 3;
      assert s[3 * k] == p[3 * k] && s[3 * k + 1] == p[3 * k + 1] && (k < 5 ==> s[3 * k + 2] == p[3 * k + 2]);
    }
  }

  lemma HexIsNotSpace(how: Spelling, d: string)
    requires |d| == 12 && AllHex(d)
    ensures Trim(Spell(how, d)) == Spell(how, d) != ""
  {
    var s := Spell(how, d);
    if how == Colons || how == Dashes {
      PairsShape(d, if how == Colons then ':' else '-');
      assert IsHex(s[0]) && IsHex(s[16]);
    }
    assert s != "" && !IsSpace(s[0]) && !IsSpace(s[|s| - 1]);
  }

  /** Every accepted spelling normalises to the colon form of its lower-case digits, placeholders to nothing. */
  lemma SpelledNormalises(how: Spelling, d: string)
    requires |d| == 12 && AllHex(d)
    ensures NormalizeMac(Some(Spell(how, d))) == if Placeholder(Lower(d)) then None else Some(Spell(Colons, Lower(d)))
  {
    HexIsNotSpace(how, d);
    SpelledMatches(how, d);
    StripSpelled(how, d);
  }

  /** Two spellings get the same key exactly when they denote the same twelve digits. */
  lemma SameKeyIffSameDigits(how: Spelling, d: string, how': Spelling, d': string)
    requires |d| == 12 && AllHex(d) && |d'| == 12 && AllHex(d')
    requires !Placeholder(Lower(d)) && !Placeholder(Lower(d'))
    ensures NormalizeMac(Some(Spell(how, d))) == NormalizeMac(Some(Spell(how', d'))) <==> Lower(d) == Lower(d')
  {
    SpelledNormalises(how, d);
    SpelledNormalises(how', d');
    StripPairs(Lower(d), ':');
    StripPairs(Lower(d'), ':');
  }

  /** What comes out is one of the spellings, so normalising it again changes nothing. */
  lemma NormalizeMacIdempotent(value: Option<string>)
    requires NormalizeMac(value).Some?
    ensures NormalizeMac(NormalizeMac(value)) == NormalizeMac(value)
  {
    var mac := Nonempty(value).value;
    var how, d := MatchedIsSpelled(mac);
    StripSpelled(how, d);
    CanonicalIsFixed(d);
  }

  lemma CanonicalIsFixed(d: string)
    requires |d| == 12 && AllHex(d) && !Placeholder(Lower(d))
    ensures NormalizeMac(Some(Spell(Colons, Lower(d)))) == Some(Spell(Colons, Lower(d)))
  {
    SpelledNormalises(Colons, Lower(d));
    assert Lower(Lower(d)) == Lower(d);
  }

  // ---------- Identities ----------

  datatype SourceKind = Unifi | Adguard

  /** IP canonicalisation and date conversion, as the platform provides them. */
  datatype Platform = Platform(canonicalIp: string -> Option<string>, iso: int -> string,
      parseDate: string -> Option<int>) {

    function Canonical(ip: string): Option<string> {
      canonicalIp(ip)
    }

    function Iso(t: int): string {
      iso(t)
    }

    function Parse(s: string): Option<int> {
      parseDate(s)
    }
  }

  ghost predicate Lawful(p: Platform) {
    && (forall s: string :: p.Canonical(s).Some? ==>
          var t := p.Canonical(s).value;
          t != "" && Trim(t) == t && p.Canonical(t) == Some(t))
    && (forall t: int :: p.Iso(t) != "" && p.Parse(p.Iso(t)) == Some(t))
  }

  /** Instants whose text form has a year of four digits, in milliseconds since 1970. */
  predicate FourDigitYear(t: int) {
    -62167219200000 <= t <= 253402300799999
  }

  /** On those, text order is the order of time. */
  ghost predicate Chronological(p: Platform) {
    forall s, t :: FourDigitYear(s) && FourDigitYear(t) ==> (Less(p.Iso(s), p.Iso(t)) <==> s < t)
  }

  function NormalizeIp(p: Platform, value: Option<string>): Option<string> {
    var ip := Nonempty(value);
    if ip.None? then None else p.Canonical(ip.value)
  }

  datatype DetectorIdentity = DetectorIdentity(
    sourceKind: SourceKind, connectionId: Option<string>, scopeId: Option<string>,
    srcIp: Option<string>, srcMac: Option<string>, eventId: string, observedAt: Option<string>)

  /** A date given as an instant (absent when invalid) or as text. */
  datatype Moment = Absent | Instant(t: Option<int>) | DateText(s: string)

  datatype Input = Input(
    sourceKind: SourceKind, connectionId: Option<string>, scopeId: Option<string>,
    srcIp: Option<string>, srcMac: Option<string>, eventId: Option<string>, observedAt: Moment)

  function InstantOf(p: Platform, m: Moment): Option<int> {
    match m
    case Absent => None
    case Instant(t) => t
    case DateText(s) => p.Parse(s)
  }

  function Timestamp(p: Platform, m: Moment): Option<string> {
    var t := InstantOf(p, m);
    if t.Some? then Some(p.Iso(t.value)) else None
  }

  /** None stands for the thrown error: an identity needs an event id. */
  function CreateDetectorIdentity(p: Platform, x: Input): (id: Option<DetectorIdentity>)
    ensures id.Some? <==> Nonempty(x.eventId).Some?
  {
    var eventId := Nonempty(x.eventId);
    if eventId.None? then None
    else Some(DetectorIdentity(
      x.sourceKind, Nonempty(x.connectionId), Nonempty(x.scopeId), NormalizeIp(p, x.srcIp), NormalizeMac(x.srcMac),
      eventId.value, Timestamp(p, x.observedAt)))
  }

  /** A JSON field: missing, null, a string, or something else. */
  datatype Field = Missing | NullField | Text(s: string) | Other

  datatype Raw = Raw(
    version: int, sourceKind: string, eventId: Field,
    connectionId: Field, scopeId: Field, srcIp: Field, srcMac: Field, observedAt: Field)

  function AsText(f: Field): Option<string> {
    if f.Text? then Some(f.s) else None
  }

  predicate NullOrText(f: Field) {
    f.NullField? || f.Text?
  }

  function RawInput(raw: Raw): Input {
    Input(
      if raw.sourceKind == "unifi" then Unifi else Adguard,
      AsText(raw.connectionId), AsText(raw.scopeId), AsText(raw.srcIp), AsText(raw.srcMac),
      AsText(raw.eventId), if raw.observedAt.Text? then DateText(raw.observedAt.s) else Absent)
  }

  function ParseDetectorIdentity(p: Platform, raw: Raw): Option<DetectorIdentity> {
    if raw.version != 2 || (raw.sourceKind != "unifi" && raw.sourceKind != "adguard")
      || Nonempty(AsText(raw.eventId)).None? then None
    else if !NullOrText(raw.connectionId) || !NullOrText(raw.scopeId) || !NullOrText(raw.srcIp)
      || !NullOrText(raw.srcMac) || !NullOrText(raw.observedAt) then None
    else
      var parsed := CreateDetectorIdentity(p, RawInput(raw)).value;
      if (raw.srcIp.Text? && parsed.srcIp.None?) || (raw.srcMac.Text? && parsed.srcMac.None?)
        || (raw.observedAt.Text? && parsed.observedAt.None?)
      then None else Some(parsed)
  }

  function ToField(o: Option<string>): Field {
    if o.Some? then Text(o.value) else NullField
  }

  /** An identity as it is stored in a finding's metadata. */
  function Stored(id: DetectorIdentity): Raw {
    Raw(2, if id.sourceKind == Unifi then "unifi" else "adguard", Text(id.eventId),
        ToField(id.connectionId), ToField(id.scopeId), ToField(id.srcIp), ToField(id.srcMac), ToField(id.observedAt))
  }

  lemma NonemptyIdempotent(value: Option<string>)
    ensures Nonempty(Nonempty(value)) == Nonempty(value)
  {
    if value.Some? { TrimIdempotent(value.value); }
  }

  lemma NormalizeIpIdempotent(p: Platform, value: Option<string>)
    requires Lawful(p)
    ensures NormalizeIp(p, NormalizeIp(p, value)) == NormalizeIp(p, value)
  {
    if NormalizeIp(p, value).Some? {
      var ip := NormalizeIp(p, value).value;
      assert p.Canonical(ip) == Some(ip);
    }
  }

  lemma TimestampFixed(p: Platform, m: Moment)
    requires Lawful(p)
    ensures
      var t := Timestamp(p, m);
      Timestamp(p, if t.Some? then DateText(t.value) else Absent) == t
  {
    var t := InstantOf(p, m);
    if t.Some? { assert p.Parse(p.Iso(t.value)) == Some(t.value); }
  }

  /** The identity as an input again: what the parser hands to the constructor. */
  function AsInput(id: DetectorIdentity): Input {
    Input(id.sourceKind, id.connectionId, id.scopeId, id.srcIp, id.srcMac, Some(id.eventId),
          if id.observedAt.Some? then DateText(id.observedAt.value) else Absent)
  }

  lemma RecreationIsIdentity(p: Platform, x: Input)
    requires Lawful(p) && Nonempty(x.eventId).Some?
    ensures
      var id := CreateDetectorIdentity(p, x).value;
      CreateDetectorIdentity(p, AsInput(id)) == Some(id)
  {
    NonemptyIdempotent(x.eventId);
    NonemptyIdempotent(x.connectionId);
    NonemptyIdempotent(x.scopeId);
    NormalizeIpIdempotent(p, x.srcIp);
    if NormalizeMac(x.srcMac).Some? { NormalizeMacIdempotent(x.srcMac); }
    TimestampFixed(p, x.observedAt);
  }

  /** An identity that recreates itself parses back from its stored form. */
  lemma FixedIdentityParses(p: Platform, id: DetectorIdentity)
    requires CreateDetectorIdentity(p, AsInput(id)) == Some(id)
    ensures ParseDetectorIdentity(p, Stored(id)) == Some(id)
  {
    assert |"unifi"| != |"adguard"|;
    assert RawInput(Stored(id)) == AsInput(id);
  }

  /** A created identity survives being stored and parsed again. */
  lemma StoredIdentityParses(p: Platform, x: Input)
    requires Lawful(p) && Nonempty(x.eventId).Some?
    ensures CreateDetectorIdentity(p, x).Some?
    ensures ParseDetectorIdentity(p, Stored(CreateDetectorIdentity(p, x).value)) == CreateDetectorIdentity(p, x)
  {
    RecreationIsIdentity(p, x);
    FixedIdentityParses(p, CreateDetectorIdentity(p, x).value);
  }

  /** White space around a text, an address or a hardware address is not seen, and a blank text counts as absent. */
  lemma SpacesIgnored(p: Platform, left: string, s: string, right: string)
    requires AllSpace(left) && AllSpace(right)
    ensures
      var padded := left + (s + right);
      && Nonempty(Some(padded)) == Nonempty(Some(s)) && NormalizeIp(p, Some(padded)) == NormalizeIp(p, Some(s))
      && NormalizeMac(Some(padded)) == NormalizeMac(Some(s))
    ensures AllSpace(s) ==> Nonempty(Some(s)) == None == Nonempty(None)
    ensures s != "" && !IsSpace(s[0]) && !IsSpace(s[|s| - 1]) ==>
      Nonempty(Some(s)) == Some(s) && NormalizeIp(p, Some(s)) == p.Canonical(s)
  {
    TrimIgnores(left, s, right);
    if AllSpace(s) {
      TrimIgnores(s, "", "");
      assert s + ("" + "") == s;
    }
  }

  /** Which stored values are identities: version, kind and event id are given, and no other field is wrong. */
  lemma ParsedIff(p: Platform, raw: Raw)
    ensures ParseDetectorIdentity(p, raw).Some? <==>
      && raw.version == 2 && raw.sourceKind in {"unifi", "adguard"}
      && raw.eventId.Text? && Nonempty(Some(raw.eventId.s)).Some?
      && (raw.connectionId.NullField? || raw.connectionId.Text?) && (raw.scopeId.NullField? || raw.scopeId.Text?)
      && (raw.srcIp.NullField? || (raw.srcIp.Text? && NormalizeIp(p, Some(raw.srcIp.s)).Some?))
      && (raw.srcMac.NullField? || (raw.srcMac.Text? && NormalizeMac(Some(raw.srcMac.s)).Some?))
      && (raw.observedAt.NullField? || (raw.observedAt.Text? && p.Parse(raw.observedAt.s).Some?))
  {
    assert raw.sourceKind in {"unifi", "adguard"} <==> raw.sourceKind == "unifi" || raw.sourceKind == "adguard";
  }

  // ---------- Grouping keys ----------

  /** The tuples the source serialises and hashes; serialisation and hashing are injective. */
  datatype DeviceKey = ByMac(mac: string) | ByIp(ip: string) | ByEvent(eventId: string)

  datatype ScopeKey = ScopeKey(sourceKind: SourceKind, connectionId: Option<string>, scopeId: Option<string>,
      loneEvent: Option<string>)

  datatype Fingerprint = Fingerprint(detectorId: string, scope: ScopeKey, device: DeviceKey, indicator: Option<string>)

  function DeviceIdentityKey(id: DetectorIdentity): DeviceKey {
    if id.srcMac.Some? then ByMac(id.srcMac.value)
    else if id.srcIp.Some? then ByIp(id.srcIp.value)
    else ByEvent(id.eventId)
  }

  function IdentityScopeKey(id: DetectorIdentity): ScopeKey {
    var incomplete := id.connectionId.None? || (id.sourceKind == Unifi && id.scopeId.None?);
    ScopeKey(id.sourceKind, id.connectionId, id.scopeId, if incomplete then Some(id.eventId) else None)
  }

  function DetectorFingerprint(detectorId: string, id: DetectorIdentity, indicator: Option<string>): Fingerprint {
    Fingerprint(detectorId, IdentityScopeKey(id), DeviceIdentityKey(id), indicator)
  }
}
