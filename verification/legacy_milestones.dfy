/**
 * The earlier, catalog-bound milestone module: the eight day-count coins as a
 * constant, the earned/latest/next/by-id queries over that constant, and the
 * merge of uploaded 3-D model URLs into the catalog.
 */
module LegacyMilestones {
  import opened Wrappers
  import opened Seqs
  import opened Records
  import opened CoinMilestones

  /** The fixed catalog, ascending by days; no model URL until one is uploaded. */
  const Catalog: seq<Milestone> := [
    Milestone("1-day", 1, "Day 1", "Your journey begins", "#cd7f32", ""),
    Milestone("1-week", 7, "Week 1", "A full week of strength", "#c0c0c0", ""),
    Milestone("2-weeks", 14, "Week 2", "Building momentum", "#b8860b", ""),
    Milestone("3-weeks", 21, "Week 3", "Three weeks strong", "#ffd700", ""),
    Milestone("1-month", 30, "Month 1", "A milestone worth celebrating", "#e5e4e2", ""),
    Milestone("1-year", 365, "Year 1", "A full year of freedom", "#50c878", ""),
    Milestone("5-years", 1825, "Year 5", "Five years of triumph", "#ff6b6b", ""),
    Milestone("10-years", 3650, "Year 10", "A decade of strength", "#9b59b6", "")
  ]

  /** Thresholds strictly increase along the catalog and ids are unique. */
  lemma CatalogWellFormed()
    ensures |Catalog| == 8
    ensures forall i, j :: 0 <= i < j < |Catalog| ==> Catalog[i].days < Catalog[j].days
    ensures forall i, j :: 0 <= i < j < |Catalog| ==> Catalog[i].id != Catalog[j].id
    ensures Catalog[0].days == 1 && Catalog[7].days == 3650
    ensures SortedByDays(Catalog)
  {
  }

  lemma CatalogSorted()
    ensures SortedByDays(Catalog)
  {
    CatalogWellFormed();
  }

  lemma CatalogEnds()
    ensures |Catalog| == 8 && Catalog[0].days == 1 && Catalog[7].days == 3650
    ensures Catalog[0] in Catalog && Catalog[7] in Catalog
  {
  }

  /** Every threshold lies between one day and ten years. */
  lemma CatalogRange()
    ensures forall m :: m in Catalog ==> 1 <= m.days <= 3650
  {
    CatalogWellFormed();
    forall m | m in Catalog ensures 1 <= m.days <= 3650 {
      var i :| 0 <= i < |Catalog| && Catalog[i] == m;
      assert Catalog[0].days <= Catalog[i].days <= Catalog[7].days;
    }
  }

  /** `getEarnedMilestones` on the catalog: a prefix of it, empty below one
      day and the whole catalog from ten years on. */
  function Earned(daysSober: int): (r: seq<Milestone>)
    ensures |r| <= |Catalog| && r == Catalog[..|r|]
    ensures forall m :: m in r <==> m in Catalog && m.days <= daysSober
    ensures daysSober < 1 <==> r == []
    ensures daysSober >= 3650 <==> r == Catalog
  {
    CatalogSorted();
    CatalogRange();
    CatalogEnds();
    EarnedOnCatalog(Catalog, daysSober);
    EarnedMilestones(Catalog, daysSober)
  }

  /** On a catalog whose thresholds run from one day to ten years, nothing is
      earned exactly below one day and everything exactly from ten years on. */
  lemma EarnedEnds(c: seq<Milestone>, d: int)
    requires c != [] && c[0].days == 1 && c[|c| - 1].days == 3650
    requires forall m :: m in c ==> 1 <= m.days <= 3650
    ensures d < 1 <==> EarnedMilestones(c, d) == []
    ensures d >= 3650 <==> EarnedMilestones(c, d) == c
  {
    var r := EarnedMilestones(c, d);
    var reached := (m: Milestone) => d >= m.days;
    assert r == Filter(c, reached);
    var first := c[0];
    var last := c[|c| - 1];
    assert first in c && last in c;
    if d >= 1 {
      assert first in r;
    } else {
      FilterNone(c, reached);
    }
    if d >= 3650 {
      assert forall m :: m in c ==> reached(m);
    }
    if r == c {
      assert last in r;
    }
  }

  /** `getEarnedMilestones` on a sorted catalog running from one day to ten years. */
  lemma EarnedOnCatalog(c: seq<Milestone>, d: int)
    requires SortedByDays(c) && c != [] && c[0].days == 1 && c[|c| - 1].days == 3650
    requires forall m :: m in c ==> 1 <= m.days <= 3650
    ensures var r := EarnedMilestones(c, d);
      && r == c[..|r|]
      && (forall m :: m in r <==> m in c && m.days <= d)
      && (d < 1 <==> r == [])
      && (d >= 3650 <==> r == c)
  {
    EarnedIsPrefix(c, d);
    EarnedEnds(c, d);
  }

  /** On such a catalog, sorted, the latest milestone exists exactly from one day on
      and has the largest reached threshold. */
  lemma LatestOnCatalog(c: seq<Milestone>, d: int)
    requires SortedByDays(c) && c != [] && c[0].days == 1
    requires forall m :: m in c ==> 1 <= m.days
    ensures LatestMilestone(c, d).None? <==> d < 1
    ensures LatestMilestone(c, d).Some? ==>
      forall m :: m in c && m.days <= d ==> m.days <= LatestMilestone(c, d).value.days
  {
    SortedLatestAndNext(c, d);
    assert c[0] in c;
  }

  /** `getLatestMilestone` on the catalog: null exactly below one day. */
  function Latest(daysSober: int): (r: Option<Milestone>)
    ensures r.None? <==> daysSober < 1
    ensures r.Some? ==> r.value in Catalog && r.value.days <= daysSober
    ensures r.Some? ==> forall m :: m in Catalog && m.days <= daysSober ==> m.days <= r.value.days
  {
    CatalogSorted();
    CatalogEnds();
    CatalogRange();
    LatestOnCatalog(Catalog, daysSober);
    LatestMilestone(Catalog, daysSober)
  }

  /** `getNextMilestone` on the catalog: null exactly from ten years on;
      otherwise the smallest threshold not yet reached. */
  function Next(daysSober: int): (r: Option<Milestone>)
    ensures r.None? <==> daysSober >= 3650
    ensures r.Some? ==> r.value in Catalog && daysSober < r.value.days
    ensures r.Some? ==> forall m :: m in Catalog && daysSober < m.days ==> r.value.days <= m.days
  {
    CatalogSorted();
    CatalogEnds();
    NextIsSmallestPending(Catalog, daysSober);
    NextMilestone(Catalog, daysSober)
  }

  /** On a catalog with increasing thresholds, the next milestone has the
      smallest threshold still ahead. */
  lemma NextIsSmallestPending(c: seq<Milestone>, d: int)
    requires SortedByDays(c)
    ensures NextMilestone(c, d).Some? ==>
      forall m :: m in c && d < m.days ==> NextMilestone(c, d).value.days <= m.days
  {
    var k := |EarnedMilestones(c, d)|;
    SortedNext(c, d);
    EarnedIsPrefix(c, d);
    if k < |c| {
      forall j | 0 <= j < k ensures c[j].days <= d {
        assert c[j] == EarnedMilestones(c, d)[j];
      }
      forall m | m in c && d < m.days ensures c[k].days <= m.days {
        var i :| 0 <= i < |c| && c[i] == m;
      }
    }
  }

  const CatalogIds: seq<string> :=
    ["1-day", "1-week", "2-weeks", "3-weeks", "1-month", "1-year", "5-years", "10-years"]

  /** `getMilestoneById` on the catalog: found exactly for the eight catalog ids. */
  function ById(id: string): (r: Option<Milestone>)
    ensures r.Some? <==> id in CatalogIds
    ensures r.Some? ==> r.value in Catalog && r.value.id == id
  {
    CatalogIdsListed();
    MilestoneById(Catalog, id)
  }

  lemma CatalogIdsListed()
    ensures forall m :: m in Catalog ==> m.id in CatalogIds
    ensures forall id :: id in CatalogIds ==> exists m :: m in Catalog && m.id == id
  {
    assert forall i :: 0 <= i < |Catalog| ==> Catalog[i].id == CatalogIds[i];
    forall id | id in CatalogIds ensures exists m :: m in Catalog && m.id == id {
      var i :| 0 <= i < |CatalogIds| && CatalogIds[i] == id;
      assert Catalog[i] in Catalog;
    }
  }

  /** The first uploaded asset whose `milestone_id` is this milestone's id. */
  function AssetFor(assets: seq<Record>, milestoneId: string): (r: Option<Record>)
    ensures r.None? <==> forall a :: a in assets ==> Get(a, "milestone_id") != Str(milestoneId)
    ensures r.Some? ==> r.value in assets && Get(r.value, "milestone_id") == Str(milestoneId)
    ensures r.Some? ==>
      exists k :: (0 <= k < |assets| && assets[k] == r.value &&
                   forall j :: 0 <= j < k ==> Get(assets[j], "milestone_id") != Str(milestoneId))
  {
    Find(assets, (a: Record) => StrictEquals(Get(a, "milestone_id"), Str(milestoneId)))
  }

  /** A usable model URL from an asset: a non-empty `glb_url` string. */
  function UploadedUrl(asset: Option<Record>): (r: Option<string>)
    ensures r.Some? ==> r.value != "" && asset.Some? && Get(asset.value, "glb_url") == Str(r.value)
    ensures asset.Some? && Get(asset.value, "glb_url").Str? && Get(asset.value, "glb_url").s != "" ==> r.Some?
  {
    if asset.Some? && Get(asset.value, "glb_url").Str? && Truthy(Get(asset.value, "glb_url"))
    then Some(Get(asset.value, "glb_url").s)
    else None
  }

  /** One catalog entry with the uploaded URL, if any, in place of its own. */
  function WithAsset(m: Milestone, assets: seq<Record>): Milestone {
    m.(glbUrl := UploadedUrl(AssetFor(assets, m.id)).GetOr(m.glbUrl))
  }

  /** The catalog with uploaded URLs merged in: same entries in the same
      order, only `glbUrl` replaced, and replaced exactly where an asset for
      that id carries a non-empty URL. */
  function MergeAssets(assets: seq<Record>): (r: seq<Milestone>)
    ensures |r| == |Catalog|
    ensures forall i :: 0 <= i < |r| ==> r[i].(glbUrl := Catalog[i].glbUrl) == Catalog[i]
    ensures forall i :: 0 <= i < |r| && UploadedUrl(AssetFor(assets, Catalog[i].id)).None? ==>
      r[i] == Catalog[i]
    ensures forall i :: 0 <= i < |r| && UploadedUrl(AssetFor(assets, Catalog[i].id)).Some? ==>
      r[i].glbUrl == UploadedUrl(AssetFor(assets, Catalog[i].id)).value
  {
    seq(|Catalog|, i requires 0 <= i < |Catalog| => WithAsset(Catalog[i], assets))
  }

  /** `getMilestonesWithAssets`: `listed` is the asset list, or None when listing
      threw, in which case the plain catalog is returned. */
  function WithAssets(listed: Option<seq<Record>>): (r: seq<Milestone>)
    ensures listed.None? ==> r == Catalog
    ensures listed.Some? ==> r == MergeAssets(listed.value)
  {
    match listed
    case None => Catalog
    case Some(assets) => MergeAssets(assets)
  }

  /** Without uploads the merged catalog is the catalog itself. */
  lemma NoAssetsNoChange()
    ensures MergeAssets([]) == Catalog
  {
    forall i | 0 <= i < |Catalog| ensures MergeAssets([])[i] == Catalog[i] {
      assert AssetFor([], Catalog[i].id).None?;
    }
  }

  /** Merging URLs never changes which milestones are earned: the earned list
      over the merged catalog has the same ids and thresholds as over the plain one. */
  lemma MergeKeepsEarned(ms: seq<Milestone>, merged: seq<Milestone>, d: int)
    requires |ms| == |merged|
    requires forall i :: 0 <= i < |ms| ==> merged[i].(glbUrl := ms[i].glbUrl) == ms[i]
    ensures |EarnedMilestones(merged, d)| == |EarnedMilestones(ms, d)|
    ensures forall i :: 0 <= i < |EarnedMilestones(ms, d)| ==>
      EarnedMilestones(merged, d)[i].(glbUrl := EarnedMilestones(ms, d)[i].glbUrl) == EarnedMilestones(ms, d)[i]
  {
    var reached := (m: Milestone) => d >= m.days;
    var urlOnly := (a: Milestone, b: Milestone) => b.(glbUrl := a.glbUrl) == a;
    forall i | 0 <= i < |ms| ensures reached(ms[i]) == reached(merged[i]) && urlOnly(ms[i], merged[i]) {
      assert merged[i].days == ms[i].days;
    }
    FilterPointwise(ms, merged, reached, urlOnly);
    assert EarnedMilestones(ms, d) == Filter(ms, reached);
    assert EarnedMilestones(merged, d) == Filter(merged, reached);
  }
}
