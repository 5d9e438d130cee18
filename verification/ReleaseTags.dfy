/**
 Release tags and their order (backend/src/services/systemUpdateService.ts): the tag grammar, the
 comparison, and precedence as section 11 of SemVer 2.0.0 defines it.
 */
module ReleaseTags {
  import opened Wrappers
  import opened Text

  // ---------- Numbers ----------

  function NumberOf(s: string): nat {
    if s == "" then 0
    else 10 * NumberOf(s[..|s| - 1]) + if IsDigit(s[|s| - 1]) then (s[|s| - 1] as int - '0' as int) else 0
  }

  /** Section 9 of SemVer 2.0.0: numeric identifiers have no leading zero. */
  predicate CleanId(s: string) {
    Numeric(s) && |s| > 1 ==> s[0] != '0'
  }

  lemma {:induction false} NumberPositive(s: string)
    requires Numeric(s) && s[0] != '0'
    ensures NumberOf(s) > 0
  {
    if |s| > 1 {
      assert s[..|s| - 1][0] == s[0];
      NumberPositive(s[..|s| - 1]);
    }
  }

  /** Clean numeric identifiers denote different numbers. */
  lemma {:induction false} NumberInjective(s: string, t: string)
    requires Numeric(s) && Numeric(t) && CleanId(s) && CleanId(t) && NumberOf(s) == NumberOf(t)
    ensures s == t
  {
    var u, v := s[..|s| - 1], t[..|t| - 1];
    assert s == u + [s[|s| - 1]] && t == v + [t[|t| - 1]];
    assert NumberOf(u) == NumberOf(v) && s[|s| - 1] == t[|t| - 1];
    if u != "" { NumberPositive(u); }
    if v != "" { NumberPositive(v); }
    if u != "" && v != "" { NumberInjective(u, v); }
  }

  function StripZeros(s: string): string {
    if |s| > 1 && s[0] == '0' then StripZeros(s[1..]) else s
  }

  lemma {:induction false} LeadingZero(s: string)
    requires Numeric(s)
    ensures NumberOf("0" + s) == NumberOf(s)
  {
    if |s| == 1 {
      assert ("0" + s)[..1] == "0" && "0"[..0] == "";
      assert NumberOf("0") == 0;
    } else {
      LeadingZero(s[..|s| - 1]);
      assert ("0" + s)[..|s|] == "0" + s[..|s| - 1];
    }
  }

  lemma {:induction false} StripZerosSame(s: string)
    requires Numeric(s)
    ensures Numeric(StripZeros(s)) && CleanId(StripZeros(s)) && NumberOf(StripZeros(s)) == NumberOf(s)
  {
    if |s| > 1 && s[0] == '0' {
      StripZerosSame(s[1..]);
      LeadingZero(s[1..]);
      assert s == "0" + s[1..];
    }
  }

  // ---------- The tag grammar ----------

  datatype Version = Version(major: nat, minor: nat, patch: nat, pre: Option<string>)

  predicate IsIdChar(c: char) {
    IsDigit(c) || 'A' <= c <= 'Z' || 'a' <= c <= 'z' || c == '.' || c == '-'
  }

  predicate IdText(s: string) {
    s != "" && forall i :: 0 <= i < |s| ==> IsIdChar(s[i])
  }

  function ParseNumber(s: string): Option<(nat, string)> {
    var n := Span(s, IsDigit);
    if n == 0 then None else Some((NumberOf(s[..n]), s[n..]))
  }

  /** A number and the dot after it. */
  function ParseDotted(s: string): Option<(nat, string)> {
    var n := ParseNumber(s);
    if n.None? || n.value.1 == "" || n.value.1[0] != '.' then None else Some((n.value.0, n.value.1[1..]))
  }

  /** What may follow the numbers: an optional prerelease, optional build metadata, the end. */
  function ParseSuffix(s: string): Option<Option<string>> {
    if s != "" && s[0] == '-' then
      var n := Span(s[1..], IsIdChar);
      if n == 0 || !BuildOrEnd(s[n + 1..]) then None else Some(Some(s[1..n + 1]))
    else if BuildOrEnd(s) then Some(None) else None
  }

  predicate BuildOrEnd(s: string) {
    s == "" || (s[0] == '+' && IdText(s[1..]))
  }

  /** The tag without its leading "v". */
  function Cleaned(tag: string): string {
    if tag != "" && tag[0] == 'v' then tag[1..] else tag
  }

  function ParseSemver(tag: string): Option<Version> {
    var major := ParseDotted(Cleaned(tag));
    if major.None? then None
    else
      var minor := ParseDotted(major.value.1);
      if minor.None? then None
      else
        var patch := ParseNumber(minor.value.1);
        if patch.None? || ParseSuffix(patch.value.1).None? then None
        else Some(Version(major.value.0, minor.value.0, patch.value.0, ParseSuffix(patch.value.1).value))
  }

  function SplitDots(s: string): (ids: seq<string>)
    ensures ids != []
  {
    if s == "" then [""]
    else if s[0] == '.' then [""] + SplitDots(s[1..])
    else
      var rest := SplitDots(s[1..]);
      [[s[0]] + rest[0]] + rest[1..]
  }

  function JoinDots(ids: seq<string>): string {
    if ids == [] then "" else if |ids| == 1 then ids[0] else ids[0] + "." + JoinDots(ids[1..])
  }

  /** Splitting loses nothing. */
  lemma {:induction false} JoinSplit(s: string)
    ensures JoinDots(SplitDots(s)) == s
  {
    if s != "" {
      JoinSplit(s[1..]);
      var rest := SplitDots(s[1..]);
      if s[0] == '.' {
        assert ([""] + rest)[1..] == rest;
        assert s == "." + s[1..];
      } else {
        var ids := SplitDots(s);
        assert ids[0] == [s[0]] + rest[0] && ids[1..] == rest[1..];
        if |rest| > 1 { assert [s[0]] + (rest[0] + "." + JoinDots(rest[1..])) == ids[0] + "." + JoinDots(ids[1..]); }
        assert s == [s[0]] + s[1..];
      }
    }
  }

  // ---------- The comparison ----------

  /** localeCompare, kept abstract: a strict total order on strings. */
  type Locale = (string, string) -> int

  ghost predicate Lawful(lc: Locale) {
    && (forall s, t :: lc(s, t) == 0 <==> s == t)
    && (forall s, t :: lc(s, t) < 0 <==> lc(t, s) > 0)
    && (forall s, t, u :: lc(s, t) < 0 && lc(t, u) < 0 ==> lc(s, u) < 0)
  }

  function CompareIds(lc: Locale, left: string, right: string): int {
    if left == right then 0
    else if Numeric(left) && Numeric(right) then NumberOf(left) - NumberOf(right)
    else if Numeric(left) then -1
    else if Numeric(right) then 1
    else lc(left, right)
  }

  /** The first position where the texts differ decides, even when their numbers are equal. */
  function PrereleaseOrder(lc: Locale, ai: seq<string>, bi: seq<string>): int {
    if ai == [] && bi == [] then 0
    else if ai == [] then -1
    else if bi == [] then 1
    else if ai[0] == bi[0] then PrereleaseOrder(lc, ai[1..], bi[1..])
    else CompareIds(lc, ai[0], bi[0])
  }

  method ComparePrerelease(lc: Locale, a: string, b: string) returns (r: int)
    ensures r == PrereleaseOrder(lc, SplitDots(a), SplitDots(b))
  {
    var ai, bi := SplitDots(a), SplitDots(b);
    var len := if |ai| >= |bi| then |ai| else |bi|;
    for i := 0 to len
      invariant i <= |ai| && i <= |bi|
      invariant PrereleaseOrder(lc, ai[i..], bi[i..]) == PrereleaseOrder(lc, ai, bi)
    {
      if i >= |ai| { return -1; }
      if i >= |bi| { return 1; }
      if ai[i] != bi[i] { return CompareIds(lc, ai[i], bi[i]); }
      assert ai[i..][1..] == ai[i + 1..] && bi[i..][1..] == bi[i + 1..];
    }
    return 0;
  }

  function CoreDiff(a: Version, b: Version): int {
    if a.major != b.major then a.major - b.major else if a.minor != b.minor then a.minor - b.minor
      else a.patch - b.patch
  }

  function CompareVersions(lc: Locale, a: Version, b: Version): int {
    if CoreDiff(a, b) != 0 then CoreDiff(a, b)
    else if a.pre.None? && b.pre.None? then 0
    else if a.pre.None? then 1
    else if b.pre.None? then -1
    else PrereleaseOrder(lc, SplitDots(a.pre.value), SplitDots(b.pre.value))
  }

  function CompareTags(lc: Locale, a: string, b: string): int {
    var av, bv := ParseSemver(a), ParseSemver(b);
    if av.None? && bv.None? then 0
    else if av.None? then -1
    else if bv.None? then 1
    else CompareVersions(lc, av.value, bv.value)
  }

  // ---------- It is a total preorder on clean tags ----------

  predicate CleanIds(ids: seq<string>) {
    forall i :: 0 <= i < |ids| ==> CleanId(ids[i])
  }

  predicate CleanVersion(v: Version) {
    v.pre.Some? ==> CleanIds(SplitDots(v.pre.value))
  }

  predicate CleanTag(tag: string) {
    ParseSemver(tag).Some? ==> CleanVersion(ParseSemver(tag).value)
  }

  lemma CompareIdsAntisymmetric(lc: Locale, s: string, t: string)
    requires Lawful(lc)
    ensures CompareIds(lc, s, t) < 0 <==> CompareIds(lc, t, s) > 0
  {
  }

  lemma {:induction false} PrereleaseAntisymmetric(lc: Locale, ai: seq<string>, bi: seq<string>)
    requires Lawful(lc)
    ensures PrereleaseOrder(lc, ai, bi) < 0 <==> PrereleaseOrder(lc, bi, ai) > 0
  {
    if ai != [] && bi != [] {
      if ai[0] == bi[0] {
        PrereleaseAntisymmetric(lc, ai[1..], bi[1..]);
      } else {
        CompareIdsAntisymmetric(lc, ai[0], bi[0]);
      }
    }
  }

  lemma VersionsAntisymmetric(lc: Locale, a: Version, b: Version)
    requires Lawful(lc)
    ensures CompareVersions(lc, a, b) < 0 <==> CompareVersions(lc, b, a) > 0
  {
    if a.pre.Some? && b.pre.Some? { PrereleaseAntisymmetric(lc, SplitDots(a.pre.value), SplitDots(b.pre.value)); }
  }

  /** Swapping the operands flips the sign, for all tags. */
  lemma TagsAntisymmetric(lc: Locale, a: string, b: string)
    requires Lawful(lc)
    ensures CompareTags(lc, a, b) < 0 <==> CompareTags(lc, b, a) > 0
  {
    var av, bv := ParseSemver(a), ParseSemver(b);
    if av.Some? && bv.Some? { VersionsAntisymmetric(lc, av.value, bv.value); }
  }

  lemma CompareIdsTransitive(lc: Locale, s: string, t: string, u: string)
    requires Lawful(lc) && CleanId(s) && CleanId(t) && CleanId(u)
    requires CompareIds(lc, s, t) <= 0 && CompareIds(lc, t, u) <= 0
    ensures CompareIds(lc, s, u) <= 0
    ensures CompareIds(lc, s, u) == 0 ==> s == t == u
  {
    CompareIdsZero(lc, s, t);
    CompareIdsZero(lc, t, u);
    CompareIdsZero(lc, s, u);
  }

  lemma CompareIdsZero(lc: Locale, s: string, t: string)
    requires Lawful(lc) && CleanId(s) && CleanId(t)
    ensures CompareIds(lc, s, t) == 0 ==> s == t
  {
    if Numeric(s) && Numeric(t) && NumberOf(s) == NumberOf(t) { NumberInjective(s, t); }
  }

  lemma {:induction false} PrereleaseTransitive(lc: Locale, ai: seq<string>, bi: seq<string>, ci: seq<string>)
    requires Lawful(lc) && CleanIds(ai) && CleanIds(bi) && CleanIds(ci)
    requires PrereleaseOrder(lc, ai, bi) <= 0 && PrereleaseOrder(lc, bi, ci) <= 0
    ensures PrereleaseOrder(lc, ai, ci) <= 0
  {
    if ai != [] && bi != [] && ci != [] {
      if ai[0] == bi[0] == ci[0] {
        PrereleaseTransitive(lc, ai[1..], bi[1..], ci[1..]);
      } else {
        CompareIdsZero(lc, ai[0], bi[0]);
        CompareIdsZero(lc, bi[0], ci[0]);
        CompareIdsTransitive(lc, ai[0], bi[0], ci[0]);
      }
    }
  }

  lemma VersionsTransitive(lc: Locale, a: Version, b: Version, c: Version)
    requires Lawful(lc) && CleanVersion(a) && CleanVersion(b) && CleanVersion(c)
    requires CompareVersions(lc, a, b) <= 0 && CompareVersions(lc, b, c) <= 0
    ensures CompareVersions(lc, a, c) <= 0
  {
    if a.pre.Some? && b.pre.Some? && c.pre.Some? && CoreDiff(a, b) == 0 && CoreDiff(b, c) == 0 {
      PrereleaseTransitive(lc, SplitDots(a.pre.value), SplitDots(b.pre.value), SplitDots(c.pre.value));
    }
  }

  /** Transitivity, on tags whose numeric prerelease identifiers have no leading zero. */
  lemma TagsTransitive(lc: Locale, a: string, b: string, c: string)
    requires Lawful(lc) && CleanTag(a) && CleanTag(b) && CleanTag(c)
    requires CompareTags(lc, a, b) <= 0 && CompareTags(lc, b, c) <= 0
    ensures CompareTags(lc, a, c) <= 0
  {
    var av, bv, cv := ParseSemver(a), ParseSemver(b), ParseSemver(c);
    if av.Some? && bv.Some? && cv.Some? { VersionsTransitive(lc, av.value, bv.value, cv.value); }
  }

  /** An unparseable tag is below every parseable one. */
  lemma UnparseableIsLeast(lc: Locale, a: string, b: string)
    requires ParseSemver(a).None?
    ensures ParseSemver(b).Some? ==> CompareTags(lc, a, b) < 0 < CompareTags(lc, b, a)
    ensures CompareTags(lc, a, b) <= 0
  {
  }

  // ---------- Leading zeros are exactly what breaks transitivity ----------

  /** Compared with clean identifier lists on both sides, `bi` can be passed through. */
  ghost predicate PassesThrough(lc: Locale, bi: seq<string>) {
    forall ai, ci ::
      CleanIds(ai) && CleanIds(ci) && PrereleaseOrder(lc, ai, bi) <= 0 && PrereleaseOrder(lc, bi, ci) <= 0 ==>
        PrereleaseOrder(lc, ai, ci) <= 0
  }

  lemma {:induction false} FirstDifference(
    lc: Locale, front: seq<string>, s: string, t: string, tail: seq<string>, tail': seq<string>)
    ensures PrereleaseOrder(lc, front + [s] + tail, front + [t] + tail')
            == if s == t then PrereleaseOrder(lc, tail, tail') else CompareIds(lc, s, t)
  {
    if front == [] {
      assert [] + [s] + tail == [s] + tail && [] + [t] + tail' == [t] + tail';
      assert ([s] + tail)[1..] == tail && ([t] + tail')[1..] == tail';
    } else {
      FirstDifference(lc, front[1..], s, t, tail, tail');
      assert (front + [s] + tail)[1..] == front[1..] + [s] + tail;
      assert (front + [t] + tail')[1..] == front[1..] + [t] + tail';
    }
  }

  lemma {:induction false} FirstDirty(ids: seq<string>) returns (k: nat)
    requires !CleanIds(ids)
    ensures k < |ids| && !CleanId(ids[k]) && CleanIds(ids[..k])
  {
    if !CleanId(ids[0]) {
      k := 0;
    } else {
      var j := FirstDirty(ids[1..]);
      k := j + 1;
      assert ids[..k] == [ids[0]] + ids[1..][..j];
    }
  }

  lemma DirtyBlocks(lc: Locale, bi: seq<string>)
    requires Lawful(lc) && !CleanIds(bi)
    ensures !PassesThrough(lc, bi)
  {
    var k := FirstDirty(bi);
    var front, t, tail := bi[..k], bi[k], bi[k + 1..];
    assert bi == front + [t] + tail;
    var s := StripZeros(t);
    StripZerosSame(t);
    var low, high := if lc("a", "b") < 0 then "a" else "b", if lc("a", "b") < 0 then "b" else "a";
    assert lc("a", "b") != 0 && lc(high, low) > 0;
    var ai, ci := front + [s] + [high], front + [s] + [low];
    FirstDifference(lc, front, s, t, [high], tail);
    FirstDifference(lc, front, t, s, tail, [low]);
    FirstDifference(lc, front, s, s, [high], [low]);
    assert PrereleaseOrder(lc, [high], [low]) == CompareIds(lc, high, low);
    assert CleanIds(ai) && CleanIds(ci);
  }

  /** The comparison passes through an identifier list exactly when that list is clean. */
  lemma PassesThroughIffClean(lc: Locale, bi: seq<string>)
    requires Lawful(lc)
    ensures PassesThrough(lc, bi) <==> CleanIds(bi)
  {
    if CleanIds(bi) {
      forall ai, ci | CleanIds(ai) && CleanIds(ci) && PrereleaseOrder(lc, ai, bi) <= 0
        && PrereleaseOrder(lc, bi, ci) <= 0
        ensures PrereleaseOrder(lc, ai, ci) <= 0
      {
        PrereleaseTransitive(lc, ai, bi, ci);
      }
    } else {
      DirtyBlocks(lc, bi);
    }
  }

  // ---------- Precedence according to SemVer 2.0.0 ----------

  type Order = (string, string) -> bool

  /** Section 11.4.1-3: numbers by value, numbers below text, text by the given order. */
  predicate LowerId(order: Order, s: string, t: string) {
    if Numeric(s) && Numeric(t) then NumberOf(s) < NumberOf(t) else Numeric(s) || (!Numeric(t) && order(s, t))
  }

  /** Section 11.4: equal up to some point, where one list ends (11.4.4) or has the lower identifier. */
  predicate LowerAt(order: Order, ids: seq<string>, jds: seq<string>, k: nat) {
    k <= |ids| && k < |jds| && ids[..k] == jds[..k]
      && (k == |ids| || (ids[k] != jds[k] && LowerId(order, ids[k], jds[k])))
  }

  ghost predicate LowerPrerelease(order: Order, ids: seq<string>, jds: seq<string>) {
    exists k: nat :: LowerAt(order, ids, jds, k)
  }

  predicate LowerCore(v: Version, w: Version) {
    v.major < w.major || (v.major == w.major && (v.minor < w.minor || (v.minor == w.minor && v.patch < w.patch)))
  }

  predicate SameCore(v: Version, w: Version) {
    v.major == w.major && v.minor == w.minor && v.patch == w.patch
  }

  /** Sections 11.2 and 11.3. Build metadata is not part of a version and has no say. */
  ghost predicate Lower(order: Order, v: Version, w: Version) {
    || LowerCore(v, w)
    || (SameCore(v, w) && v.pre.Some?
        && (w.pre.None? || LowerPrerelease(order, SplitDots(v.pre.value), SplitDots(w.pre.value))))
  }

  function OrderOf(lc: Locale): Order {
    (s, t) => lc(s, t) < 0
  }

  lemma LowerAtTail(order: Order, ids: seq<string>, jds: seq<string>, k: nat)
    requires ids != [] && jds != [] && ids[0] == jds[0]
    ensures LowerAt(order, ids, jds, k + 1) <==> LowerAt(order, ids[1..], jds[1..], k)
  {
    if k + 1 <= |ids| && k + 1 < |jds| {
      assert ids[..k + 1] == [ids[0]] + ids[1..][..k];
      assert jds[..k + 1] == [jds[0]] + jds[1..][..k];
      assert ids[1..][..k] == ids[..k + 1][1..] && jds[1..][..k] == jds[..k + 1][1..];
    }
  }

  lemma LowerTail(order: Order, ids: seq<string>, jds: seq<string>)
    requires ids != [] && jds != [] && ids[0] == jds[0]
    ensures LowerPrerelease(order, ids, jds) <==> LowerPrerelease(order, ids[1..], jds[1..])
  {
    if k: nat :| LowerAt(order, ids, jds, k) {
      assert k > 0;
      LowerAtTail(order, ids, jds, k - 1);
    }
    if k: nat :| LowerAt(order, ids[1..], jds[1..], k) {
      LowerAtTail(order, ids, jds, k);
    }
  }

  lemma SharedHead(order: Order, ids: seq<string>, jds: seq<string>, k: nat)
    requires LowerAt(order, ids, jds, k)
    ensures k > 0 ==> ids != [] && jds != [] && ids[0] == jds[0]
  {
    if k > 0 { assert ids[0] == ids[..k][0] && jds[0] == jds[..k][0]; }
  }

  lemma LowerHead(order: Order, ids: seq<string>, jds: seq<string>)
    requires ids == [] || jds == [] || ids[0] != jds[0]
    ensures LowerPrerelease(order, ids, jds) <==> jds != [] && (ids == [] || LowerId(order, ids[0], jds[0]))
  {
    if k: nat :| LowerAt(order, ids, jds, k) { SharedHead(order, ids, jds, k); }
    if jds != [] && (ids == [] || LowerId(order, ids[0], jds[0])) { assert LowerAt(order, ids, jds, 0); }
  }

  lemma CompareIdsLower(lc: Locale, s: string, t: string)
    requires Lawful(lc) && s != t
    ensures CompareIds(lc, s, t) < 0 <==> LowerId(OrderOf(lc), s, t)
  {
  }

  lemma {:induction false} PrereleaseLower(lc: Locale, ai: seq<string>, bi: seq<string>)
    requires Lawful(lc)
    ensures PrereleaseOrder(lc, ai, bi) < 0 <==> LowerPrerelease(OrderOf(lc), ai, bi)
  {
    if ai != [] && bi != [] && ai[0] == bi[0] {
      PrereleaseLower(lc, ai[1..], bi[1..]);
      LowerTail(OrderOf(lc), ai, bi);
    } else {
      LowerHead(OrderOf(lc), ai, bi);
      if ai != [] && bi != [] { CompareIdsLower(lc, ai[0], bi[0]); }
    }
  }

  /** The comparison is SemVer precedence, with text identifiers ordered by the locale. */
  lemma VersionsLower(lc: Locale, v: Version, w: Version)
    requires Lawful(lc)
    ensures CompareVersions(lc, v, w) < 0 <==> Lower(OrderOf(lc), v, w)
  {
    if v.pre.Some? && w.pre.Some? { PrereleaseLower(lc, SplitDots(v.pre.value), SplitDots(w.pre.value)); }
  }

  /** SemVer asks for the order of code units (section 11.4.2). */
  const ASCII: Order := (s, t) => Less(s, t)

  /** Section 9: identifiers are not empty and have no leading zeros. */
  predicate SemverIds(ids: seq<string>) {
    CleanIds(ids) && forall i :: 0 <= i < |ids| ==> ids[i] != ""
  }

  predicate SemverTag(tag: string) {
    ParseSemver(tag).Some?
      && (ParseSemver(tag).value.pre.Some? ==> SemverIds(SplitDots(ParseSemver(tag).value.pre.value)))
  }

  ghost predicate FollowsSemver(lc: Locale) {
    forall a, b :: SemverTag(a) && SemverTag(b) ==>
      (CompareTags(lc, a, b) < 0 <==> Lower(ASCII, ParseSemver(a).value, ParseSemver(b).value))
  }

  /** An identifier made of letters, digits and hyphens that is not a number. */
  predicate TextId(s: string) {
    IdText(s) && '.' !in s && !Numeric(s)
  }

  ghost predicate LocaleIsAscii(lc: Locale) {
    forall s, t :: TextId(s) && TextId(t) ==> (lc(s, t) < 0 <==> Less(s, t))
  }

  lemma {:induction false} SplitIds(s: string)
    requires forall i :: 0 <= i < |s| ==> IsIdChar(s[i])
    ensures forall id :: id in SplitDots(s) ==> '.' !in id && (id == "" || IdText(id))
  {
    if s != "" {
      SplitIds(s[1..]);
      var rest := SplitDots(s[1..]);
      assert rest[0] in rest && forall id :: id in rest[1..] ==> id in rest;
    }
  }

  lemma ParsedPreIsIdText(tag: string)
    requires ParseSemver(tag).Some? && ParseSemver(tag).value.pre.Some?
    ensures IdText(ParseSemver(tag).value.pre.value)
  {
    var minor := ParseDotted(ParseDotted(Cleaned(tag)).value.1);
    var patch := ParseNumber(minor.value.1);
    SuffixIsIdText(patch.value.1);
  }

  lemma SuffixIsIdText(s: string)
    requires ParseSuffix(s).Some? && ParseSuffix(s).value.Some?
    ensures IdText(ParseSuffix(s).value.value)
  {
    assert forall i :: 0 <= i < Span(s[1..], IsIdChar) ==> IsIdChar(s[1..][i]);
  }

  lemma LowerAtSameOrder(o: Order, o': Order, ids: seq<string>, jds: seq<string>, k: nat)
    requires forall s, t :: s in ids && t in jds && !Numeric(s) && !Numeric(t) ==> o(s, t) == o'(s, t)
    ensures LowerAt(o, ids, jds, k) <==> LowerAt(o', ids, jds, k)
  {
  }

  /** A locale that orders text identifiers as ASCII makes the comparison SemVer's. */
  lemma AsciiFollowsSemver(lc: Locale, a: string, b: string)
    requires Lawful(lc) && LocaleIsAscii(lc) && SemverTag(a) && SemverTag(b)
    ensures CompareTags(lc, a, b) < 0 <==> Lower(ASCII, ParseSemver(a).value, ParseSemver(b).value)
  {
    var v, w := ParseSemver(a).value, ParseSemver(b).value;
    VersionsLower(lc, v, w);
    if v.pre.Some? && w.pre.Some? {
      var ids, jds := SplitDots(v.pre.value), SplitDots(w.pre.value);
      ParsedPreIsIdText(a);
      ParsedPreIsIdText(b);
      SplitIds(v.pre.value);
      SplitIds(w.pre.value);
      forall k: nat
        ensures LowerAt(OrderOf(lc), ids, jds, k) <==> LowerAt(ASCII, ids, jds, k)
      {
        LowerAtSameOrder(OrderOf(lc), ASCII, ids, jds, k);
      }
    }
  }

  lemma OneDigit(d: char, rest: string)
    requires IsDigit(d) && (rest == "" || !IsDigit(rest[0]))
    ensures ParseNumber([d] + rest) == Some((d as int - '0' as int, rest))
  {
    var s := [d] + rest;
    assert s[1..] == rest && s[..1] == [d] && [d][..0] == "";
    assert Span(rest, IsDigit) == 0;
    assert Span(s, IsDigit) == 1;
    assert NumberOf("") == 0;
    assert NumberOf([d]) == d as int - '0' as int;
  }

  lemma OneDigitDot(d: char, rest: string)
    requires IsDigit(d)
    ensures ParseDotted([d, '.'] + rest) == Some((d as int - '0' as int, rest))
  {
    OneDigit(d, "." + rest);
    assert [d] + ("." + rest) == [d, '.'] + rest;
    assert ("." + rest)[1..] == rest;
  }

  lemma PreSuffix(s: string)
    requires IdText(s)
    ensures ParseSuffix("-" + s) == Some(Some(s))
  {
    var t := "-" + s;
    assert t[1..] == s && t[|s| + 1..] == "" && t[1..|s| + 1] == s;
    SpanAll(s, IsIdChar);
  }

  /** The tag of version 1.0.0 with a prerelease. */
  lemma OneIdTag(s: string)
    requires IdText(s)
    ensures ParseSemver("1.0.0-" + s) == Some(Version(1, 0, 0, Some(s)))
  {
    var r0 := ['0'] + ("-" + s);
    var r1 := ['0', '.'] + r0;
    assert "1.0.0-" + s == ['1', '.'] + r1;
    OneDigitDot('1', r1);
    OneDigitDot('0', r0);
    OneDigit('0', "-" + s);
    PreSuffix(s);
  }

  /** Such tags compare as their prereleases do. */
  lemma TagOrder(lc: Locale, s: string, t: string)
    requires IdText(s) && IdText(t)
    ensures CompareTags(lc, "1.0.0-" + s, "1.0.0-" + t) == PrereleaseOrder(lc, SplitDots(s), SplitDots(t))
  {
    OneIdTag(s);
    OneIdTag(t);
  }

  lemma {:induction false} NoDotsNoSplit(s: string)
    requires '.' !in s
    ensures SplitDots(s) == [s]
  {
    if s != "" {
      NoDotsNoSplit(s[1..]);
      assert s == [s[0]] + s[1..];
    }
  }

  lemma TextIdTag(s: string)
    requires TextId(s)
    ensures SemverTag("1.0.0-" + s) && ParseSemver("1.0.0-" + s).value == Version(1, 0, 0, Some(s))
      && SplitDots(s) == [s]
  {
    OneIdTag(s);
    NoDotsNoSplit(s);
  }

  lemma OneIdLower(s: string, t: string)
    requires TextId(s) && TextId(t)
    ensures LowerPrerelease(ASCII, [s], [t]) <==> Less(s, t)
  {
    LessTotal(s, t);
    if s == t {
      LowerTail(ASCII, [s], [t]);
      LowerHead(ASCII, [], []);
    } else {
      LowerHead(ASCII, [s], [t]);
    }
  }

  lemma FollowsAt(lc: Locale, a: string, b: string, v: Version, w: Version)
    requires FollowsSemver(lc) && SemverTag(a) && SemverTag(b) && ParseSemver(a) == Some(v) && ParseSemver(b) == Some(w)
    ensures CompareTags(lc, a, b) < 0 <==> Lower(ASCII, v, w)
  {
  }

  lemma SemverForcesAscii(lc: Locale, s: string, t: string)
    requires Lawful(lc) && FollowsSemver(lc) && TextId(s) && TextId(t)
    ensures lc(s, t) < 0 <==> Less(s, t)
  {
    TextIdTag(s);
    TextIdTag(t);
    FollowsAt(lc, "1.0.0-" + s, "1.0.0-" + t, Version(1, 0, 0, Some(s)), Version(1, 0, 0, Some(t)));
    TagOrder(lc, s, t);
    OneIdOrder(lc, s, t);
    OneIdLower(s, t);
  }

  lemma OneIdOrder(lc: Locale, s: string, t: string)
    requires Lawful(lc) && TextId(s) && TextId(t)
    ensures PrereleaseOrder(lc, [s], [t]) == lc(s, t)
  {
    assert [s][1..] == [] && [t][1..] == [];
    assert s == t ==> lc(s, t) == 0;
  }

  /** The comparison follows SemVer exactly when the locale orders text identifiers as ASCII does. */
  lemma FollowsSemverIffAscii(lc: Locale)
    requires Lawful(lc)
    ensures FollowsSemver(lc) <==> LocaleIsAscii(lc)
  {
    if LocaleIsAscii(lc) {
      forall a, b | SemverTag(a) && SemverTag(b)
        ensures CompareTags(lc, a, b) < 0 <==> Lower(ASCII, ParseSemver(a).value, ParseSemver(b).value)
      {
        AsciiFollowsSemver(lc, a, b);
      }
    }
    if FollowsSemver(lc) {
      forall s, t | TextId(s) && TextId(t)
        ensures lc(s, t) < 0 <==> Less(s, t)
      {
        SemverForcesAscii(lc, s, t);
      }
    }
  }

  /**
   Where the locale and code units disagree on two text identifiers, so do
   the comparison and section 11 on their tags.
   */
  lemma DisagreementShows(lc: Locale, s: string, t: string)
    requires Lawful(lc) && TextId(s) && TextId(t) && lc(s, t) < 0 && Less(t, s)
    ensures SemverTag("1.0.0-" + s) && SemverTag("1.0.0-" + t) && CompareTags(lc, "1.0.0-" + s, "1.0.0-" + t) < 0
    ensures Lower(ASCII, ParseSemver("1.0.0-" + t).value, ParseSemver("1.0.0-" + s).value)
    ensures !FollowsSemver(lc)
  {
    TextIdTag(s);
    TextIdTag(t);
    TagOrder(lc, s, t);
    OneIdOrder(lc, s, t);
    LessTotal(t, s);
    OneIdLower(t, s);
    FollowsSemverIffAscii(lc);
  }

  /** A locale that sorts "alpha" before "Beta"; code units sort upper case first. */
  lemma LetterCaseCounterexample(lc: Locale)
    requires Lawful(lc) && lc("alpha", "Beta") < 0
    ensures CompareTags(lc, "1.0.0-" + "alpha", "1.0.0-" + "Beta") < 0
    ensures SemverTag("1.0.0-" + "alpha") && SemverTag("1.0.0-" + "Beta")
    ensures Lower(ASCII, ParseSemver("1.0.0-" + "Beta").value, ParseSemver("1.0.0-" + "alpha").value)
  {
    assert !IsDigit("alpha"[0]) && !IsDigit("Beta"[0]) && Less("Beta", "alpha");
    DisagreementShows(lc, "alpha", "Beta");
  }

  /** Three tags in a row that do not order their ends; the second, 1.0.0-01, has a leading zero. */
  lemma LeadingZeroCounterexample(lc: Locale) returns (a: string, b: string, c: string)
    requires Lawful(lc) && lc("a", "b") < 0
    ensures CompareTags(lc, a, b) <= 0 && CompareTags(lc, b, c) <= 0 && CompareTags(lc, a, c) > 0
    ensures a == "1.0.0-" + "1.b" && b == "1.0.0-" + "01" && c == "1.0.0-" + "1.a"
  {
    a, b, c := "1.0.0-" + "1.b", "1.0.0-" + "01", "1.0.0-" + "1.a";
    TagOrder(lc, "1.b", "01");
    TagOrder(lc, "01", "1.a");
    TagOrder(lc, "1.b", "1.a");
    LeadingZeroOrder(lc);
  }

  lemma LeadingZeroOrder(lc: Locale)
    requires Lawful(lc) && lc("a", "b") < 0
    ensures PrereleaseOrder(lc, SplitDots("1.b"), SplitDots("01")) == 0
      == PrereleaseOrder(lc, SplitDots("01"), SplitDots("1.a"))
    ensures PrereleaseOrder(lc, SplitDots("1.b"), SplitDots("1.a")) > 0
  {
    NoDotsNoSplit("01");
    TwoIds('1', 'b');
    TwoIds('1', 'a');
    LeadingZero("1");
    assert "0" + "1" == "01";
    assert CompareIds(lc, "1", "01") == 0 == CompareIds(lc, "01", "1");
    OneIdOrder(lc, "b", "a");
    assert ["1", "b"][1..] == ["b"] && ["1", "a"][1..] == ["a"];
  }

  lemma TwoIds(x: char, y: char)
    requires x != '.' && y != '.'
    ensures SplitDots([x, '.', y]) == [[x], [y]]
  {
    var u := [x, '.', y];
    assert u[1..] == ['.', y] && ['.', y][1..] == [y];
    NoDotsNoSplit([y]);
    assert SplitDots(['.', y]) == [""] + [[y]];
    assert [x] + "" == [x];
  }
}
