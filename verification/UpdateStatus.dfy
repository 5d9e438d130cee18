/** Choosing the release to offer (backend/src/services/systemUpdateService.ts, getUpdateStatus). */
module UpdateStatus {
  import opened Wrappers
  import opened ReleaseTags

  datatype Channel = Stable | Beta

  datatype Release = Release(tag: string, htmlUrl: string, body: Option<string>, publishedAt: Option<string>,
      prerelease: bool, draft: bool)

  datatype Status = Status(
    current: string, latest: Option<string>, channel: Channel, hasUpdate: bool, htmlUrl: Option<string>,
    notes: Option<string>, publishedAt: Option<string>, failed: bool)

  predicate IsEligible(channel: Channel, r: Release) {
    !r.draft && (channel == Beta || !r.prerelease)
  }

  function Eligible(channel: Channel, rs: seq<Release>): (es: seq<Release>)
    ensures forall r :: r in es <==> r in rs && IsEligible(channel, r)
  {
    if rs == [] then [] else (if IsEligible(channel, rs[0]) then [rs[0]] else []) + Eligible(channel, rs[1..])
  }

  lemma EligibleCons(channel: Channel, r: Release, rs: seq<Release>)
    ensures Eligible(channel, [r] + rs) ==
      (if !r.draft && (channel == Beta || !r.prerelease) then [r] else []) + Eligible(channel, rs)
  {
    assert ([r] + rs)[1..] == rs;
  }

  /** Drafts are never eligible, prereleases on the beta channel only; the others keep their order. */
  lemma {:induction false} EligibleStep(channel: Channel, rs: seq<Release>, r: Release)
    ensures Eligible(channel, rs + [r]) ==
      Eligible(channel, rs) + if !r.draft && (channel == Beta || !r.prerelease) then [r] else []
  {
    if rs == [] {
      EligibleCons(channel, r, []);
      assert [] + [r] == [r] + [];
    } else {
      EligibleStep(channel, rs[1..], r);
      EligibleCons(channel, rs[0], rs[1..]);
      EligibleCons(channel, rs[0], rs[1..] + [r]);
      assert rs == [rs[0]] + rs[1..] && rs + [r] == [rs[0]] + (rs[1..] + [r]);
    }
  }

  predicate CleanTags(rs: seq<Release>) {
    forall r :: r in rs ==> CleanTag(r.tag)
  }

  // ---------- Sorting by a comparator ----------

  /** "Not below": what the comparator's sign says of two releases. */
  type AtLeast = (Release, Release) -> bool

  ghost predicate PreorderOn(ge: AtLeast, rs: seq<Release>) {
    && (forall a, b :: a in rs && b in rs ==> ge(a, b) || ge(b, a))
    && (forall a, b, c :: a in rs && b in rs && c in rs && ge(a, b) && ge(b, c) ==> ge(a, c))
  }

  /** Behind everything it does not outrank. */
  function Insert(ge: AtLeast, sorted: seq<Release>, r: Release): seq<Release> {
    if sorted == [] then [r]
    else if ge(sorted[0], r) then [sorted[0]] + Insert(ge, sorted[1..], r)
    else [r] + sorted
  }

  /** The stable descending sort: on a preorder every stable sort gives this order. */
  function SortDescending(ge: AtLeast, rs: seq<Release>): seq<Release> {
    if rs == [] then [] else Insert(ge, SortDescending(ge, rs[..|rs| - 1]), rs[|rs| - 1])
  }

  ghost predicate Descending(ge: AtLeast, rs: seq<Release>) {
    forall i, j :: 0 <= i < j < |rs| ==> ge(rs[i], rs[j])
  }

  lemma {:induction false} InsertElements(ge: AtLeast, sorted: seq<Release>, r: Release)
    ensures multiset(Insert(ge, sorted, r)) == multiset(sorted) + multiset{r}
    ensures forall x :: x in Insert(ge, sorted, r) <==> x in sorted || x == r
    decreases |sorted|
  {
    if sorted != [] {
      assert sorted == [sorted[0]] + sorted[1..];
      if ge(sorted[0], r) { InsertElements(ge, sorted[1..], r); }
    }
  }

  lemma {:induction false} SortElements(ge: AtLeast, rs: seq<Release>)
    ensures forall x :: x in SortDescending(ge, rs) <==> x in rs
  {
    if rs != [] {
      var last := |rs| - 1;
      assert rs == rs[..last] + [rs[last]];
      SortElements(ge, rs[..last]);
      InsertElements(ge, SortDescending(ge, rs[..last]), rs[last]);
    }
  }

  lemma Prepend(ge: AtLeast, r: Release, sorted: seq<Release>)
    requires Descending(ge, sorted) && forall x :: x in sorted ==> ge(r, x)
    ensures Descending(ge, [r] + sorted)
  {
    var all := [r] + sorted;
    forall i, j | 0 <= i < j < |all|
      ensures ge(all[i], all[j])
    {
      assert all[j] == sorted[j - 1];
      if i > 0 { assert all[i] == sorted[i - 1]; }
    }
  }

  lemma {:induction false} InsertDescending(ge: AtLeast, all: seq<Release>, sorted: seq<Release>, r: Release)
    requires PreorderOn(ge, all) && r in all && (forall x :: x in sorted ==> x in all) && Descending(ge, sorted)
    ensures Descending(ge, Insert(ge, sorted, r))
    decreases |sorted|
  {
    if sorted != [] {
      if ge(sorted[0], r) {
        InsertDescending(ge, all, sorted[1..], r);
        InsertElements(ge, sorted[1..], r);
        Prepend(ge, sorted[0], Insert(ge, sorted[1..], r));
      } else {
        forall x | x in sorted
          ensures ge(r, x)
        {
          if x != sorted[0] { assert ge(r, sorted[0]) && ge(sorted[0], x); }
        }
        Prepend(ge, r, sorted);
      }
    }
  }

  /** Sorting permutes the releases into descending order. */
  lemma {:induction false} SortSorts(ge: AtLeast, rs: seq<Release>)
    requires PreorderOn(ge, rs)
    ensures Descending(ge, SortDescending(ge, rs)) && multiset(SortDescending(ge, rs)) == multiset(rs)
    ensures forall x :: x in SortDescending(ge, rs) <==> x in rs
  {
    if rs != [] {
      var last := |rs| - 1;
      assert rs == rs[..last] + [rs[last]];
      SortSorts(ge, rs[..last]);
      InsertDescending(ge, rs, SortDescending(ge, rs[..last]), rs[last]);
      InsertElements(ge, SortDescending(ge, rs[..last]), rs[last]);
    }
  }

  /** The first of the greatest releases, in list order. */
  predicate FirstGreatest(ge: AtLeast, rs: seq<Release>, i: nat) {
    && i < |rs|
    && (forall j :: 0 <= j < |rs| ==> ge(rs[i], rs[j]))
    && (forall j :: 0 <= j < i ==> !ge(rs[j], rs[i]))
  }

  lemma GreatestStep(ge: AtLeast, rs: seq<Release>, r: Release, i: nat)
    requires PreorderOn(ge, rs + [r]) && FirstGreatest(ge, rs, i)
    ensures FirstGreatest(ge, rs + [r], if ge(rs[i], r) then i else |rs|)
  {
    var all := rs + [r];
    assert r in all && rs[i] in all;
    forall j | 0 <= j < |rs|
      ensures !ge(rs[i], r) ==> ge(r, rs[j]) && !ge(rs[j], r)
    {
      assert rs[j] in all;
    }
  }

  /** The head of the sorted list is the first of the greatest. */
  lemma {:induction false} HeadIsGreatest(ge: AtLeast, rs: seq<Release>) returns (i: nat)
    requires PreorderOn(ge, rs) && rs != []
    ensures SortDescending(ge, rs) != [] && FirstGreatest(ge, rs, i) && SortDescending(ge, rs)[0] == rs[i]
  {
    var last := |rs| - 1;
    assert rs == rs[..last] + [rs[last]];
    if last == 0 {
      assert rs[..0] == [];
      i := 0;
    } else {
      var k := HeadIsGreatest(ge, rs[..last]);
      GreatestStep(ge, rs[..last], rs[last], k);
      i := if ge(rs[k], rs[last]) then k else last;
    }
  }

  // ---------- By tag ----------

  function ByTag(lc: Locale): AtLeast {
    (a: Release, b: Release) => CompareTags(lc, a.tag, b.tag) >= 0
  }

  lemma NotBelowTransitive(lc: Locale, a: string, b: string, c: string)
    requires Lawful(lc) && CleanTag(a) && CleanTag(b) && CleanTag(c) && CompareTags(lc, a, b) >= 0
      && CompareTags(lc, b, c) >= 0
    ensures CompareTags(lc, a, c) >= 0
  {
    TagsAntisymmetric(lc, a, b);
    TagsAntisymmetric(lc, b, c);
    TagsAntisymmetric(lc, b, a);
    TagsAntisymmetric(lc, c, b);
    TagsTransitive(lc, c, b, a);
    TagsAntisymmetric(lc, a, c);
  }

  lemma ByTagPreorder(lc: Locale, rs: seq<Release>)
    requires Lawful(lc) && CleanTags(rs)
    ensures PreorderOn(ByTag(lc), rs)
  {
    var ge := ByTag(lc);
    forall a, b | a in rs && b in rs
      ensures ge(a, b) || ge(b, a)
    {
      TagsAntisymmetric(lc, a.tag, b.tag);
    }
    forall a, b, c | a in rs && b in rs && c in rs && ge(a, b) && ge(b, c)
      ensures ge(a, c)
    {
      NotBelowTransitive(lc, a.tag, b.tag, c.tag);
    }
  }

  function StatusOf(lc: Locale, channel: Channel, current: Option<string>, sorted: seq<Release>, failed: bool): Status {
    var latest := if sorted == [] then None else Some(sorted[0]);
    Status(
      current.GetOr("unknown"), if latest.Some? then Some(latest.value.tag) else None, channel,
      current.Some? && current.value != "" && latest.Some? && CompareTags(lc, latest.value.tag, current.value) > 0,
      if latest.Some? then Some(latest.value.htmlUrl) else None, if latest.Some? then latest.value.body else None,
      if latest.Some? then latest.value.publishedAt else None, failed)
  }

  /** Neither the eligible releases nor the running version have a leading zero in a numeric identifier. */
  ghost predicate Comparable(eligible: seq<Release>, current: Option<string>) {
    CleanTags(eligible) && (current.Some? ==> CleanTag(current.value))
  }

  /**
   `fetched` is None when the releases could not be loaded. Some eligible release is offered, if there is one; without
   leading zeros it is the first greatest, and an update is announced exactly when some release outranks the version.
   */
  method GetUpdateStatus(lc: Locale, channel: Channel, current: Option<string>, fetched: Option<seq<Release>>)
    returns (status: Status)
    requires Lawful(lc)
    ensures status.failed <==> fetched.None?
    ensures status.channel == channel && status.current == if current.Some? then current.value else "unknown"
    ensures status.latest.Some? <==> Eligible(channel, fetched.GetOr([])) != []
    ensures status.latest.None? ==> status.htmlUrl == status.notes == status.publishedAt == None
    ensures status.latest.Some? ==> exists r ::
      r in Eligible(channel, fetched.GetOr([])) && status.latest == Some(r.tag) && status.htmlUrl == Some(r.htmlUrl)
      && status.notes == r.body && status.publishedAt == r.publishedAt
    ensures status.hasUpdate <==>
      current.Some? && current.value != "" && status.latest.Some?
        && CompareTags(lc, status.latest.value, current.value) > 0
    ensures
      var eligible := Eligible(channel, fetched.GetOr([]));
      Comparable(eligible, current) ==>
        && (status.latest.Some? ==>
              exists i: nat :: FirstGreatest(ByTag(lc), eligible, i) && Offers(status, eligible[i]))
        && (status.hasUpdate <==>
              current.Some? && current.value != "" && exists r :: r in eligible && Outranks(lc, r, current.value))
  {
    var releases := fetched.GetOr([]);
    var eligible := Eligible(channel, releases);
    var sorted := SortDescending(ByTag(lc), eligible);
    SortElements(ByTag(lc), eligible);
    status := StatusOf(lc, channel, current, sorted, fetched.None?);
    if eligible != [] {
      assert eligible[0] in sorted;
      assert sorted[0] in sorted && Offers(status, sorted[0]);
      if Comparable(eligible, current) { HeadIsOffered(lc, eligible, current, status); }
    }
  }

  lemma HeadIsOffered(lc: Locale, eligible: seq<Release>, current: Option<string>, status: Status)
    requires Lawful(lc) && Comparable(eligible, current) && eligible != []
    requires SortDescending(ByTag(lc), eligible) != [] && Offers(status, SortDescending(ByTag(lc), eligible)[0])
    ensures exists i: nat :: FirstGreatest(ByTag(lc), eligible, i) && Offers(status, eligible[i])
    ensures current.Some? ==>
      (CompareTags(lc, status.latest.value, current.value) > 0 <==>
        exists r :: r in eligible && Outranks(lc, r, current.value))
  {
    ByTagPreorder(lc, eligible);
    var i := HeadIsGreatest(ByTag(lc), eligible);
    assert FirstGreatest(ByTag(lc), eligible, i) && Offers(status, eligible[i]);
    if current.Some? { OutranksGreatest(lc, eligible, i, current.value); }
  }

  predicate Offers(status: Status, r: Release) {
    status.latest == Some(r.tag) && status.htmlUrl == Some(r.htmlUrl) && status.notes == r.body
      && status.publishedAt == r.publishedAt
  }

  predicate Outranks(lc: Locale, r: Release, current: string) {
    CompareTags(lc, r.tag, current) > 0
  }

  lemma OutranksGreatest(lc: Locale, rs: seq<Release>, i: nat, current: string)
    requires Lawful(lc) && CleanTags(rs) && CleanTag(current) && FirstGreatest(ByTag(lc), rs, i)
    ensures Outranks(lc, rs[i], current) <==> exists r :: r in rs && Outranks(lc, r, current)
  {
    if Outranks(lc, rs[i], current) { assert rs[i] in rs; }
    if r :| r in rs && Outranks(lc, r, current) {
      var j :| 0 <= j < |rs| && rs[j] == r;
      assert ByTag(lc)(rs[i], rs[j]);
      OutranksUp(lc, rs[i].tag, r.tag, current);
    }
  }

  lemma OutranksUp(lc: Locale, a: string, b: string, current: string)
    requires Lawful(lc) && CleanTag(a) && CleanTag(b) && CleanTag(current)
    requires CompareTags(lc, a, b) >= 0 && CompareTags(lc, b, current) > 0
    ensures CompareTags(lc, a, current) > 0
  {
    TagsAntisymmetric(lc, a, b);
    TagsAntisymmetric(lc, b, a);
    if CompareTags(lc, a, current) <= 0 { TagsTransitive(lc, b, a, current); }
  }

  /** Every stable release is eligible on the beta channel, so its latest is never below stable's. */
  lemma BetaNeverBelowStable(lc: Locale, rs: seq<Release>, i: nat, k: nat)
    requires FirstGreatest(ByTag(lc), Eligible(Stable, rs), i) && FirstGreatest(ByTag(lc), Eligible(Beta, rs), k)
    ensures CompareTags(lc, Eligible(Beta, rs)[k].tag, Eligible(Stable, rs)[i].tag) >= 0
  {
    var s := Eligible(Stable, rs)[i];
    assert s in Eligible(Stable, rs);
    assert s in Eligible(Beta, rs);
  }
}
