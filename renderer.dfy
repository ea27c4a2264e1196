/**
 * The wikitext the formatter writes for classified areas: the province
 * link and its page-not-found issue (`_getProvinceAsBullet`), the bullet
 * lines, the region headers (`_getRegionHeader`), the text of one signal
 * level (`_toWikitext`) and the `TyphoonWarningsTable` template
 * (`_generateTemplate`). Each piece is a `Rendered` value: its text and
 * the issues recorded while producing it, in order.
 */
module Renderer {
  import opened Wrappers
  import opened JsStrings
  import opened Bulletin
  import opened Classifier
  import opened Normalizer

  datatype Rendered = Rendered(text: string, issues: seq<Issue>)
  {
    /** This piece followed by `next`. */
    function Then(next: Rendered): Rendered
    {
      Rendered(text + next.text, issues + next.issues)
    }
  }

  const Nothing := Rendered("", [])

  // ---------------------------------------------------------------------
  // Province links.

  /** The province name is itself the page: a known page, Metro Manila, or an island group. */
  predicate LinksDirectly(provinces: seq<string>, p: string)
  {
    p in provinces || p == "Metro Manila" || IsIslandName(p)
  }

  /** Neither the name nor "<name> (province)" can be linked. */
  predicate PageMissing(provinces: seq<string>, p: string)
  {
    !LinksDirectly(provinces, p) && p + " (province)" !in provinces
  }

  /**
   * The link to province `p`: `[[p]]`, or `[[p (province)|p]]` when only
   * the disambiguated title is known, or the bare name with a
   * page-not-found issue. A province page that is the empty string is
   * falsy, so the empty name, when listed, is written bare without issue.
   */
  function ProvinceLink(provinces: seq<string>, p: string): (r: Rendered)
    ensures r.issues == [] || r.issues == [PageNotFound(p)]
    ensures r.issues != [] <==> PageMissing(provinces, p)
    ensures PageMissing(provinces, p) ==> r.text == p
    ensures LinksDirectly(provinces, p) && p != "" ==> r.text == "[[" + p + "]]"
    ensures LinksDirectly(provinces, p) && p == "" ==> r.text == ""
    ensures !LinksDirectly(provinces, p) && !PageMissing(provinces, p) ==> r.text == "[[" + p + " (province)|" + p + "]]"
  {
    if !LinksDirectly(provinces, p) then
      var page := p + " (province)";
      if page in provinces then Rendered("[[" + page + "|" + p + "]]", [])
      else Rendered(p, [PageNotFound(p)])
    else if p == "" then Rendered(p, [])
    else Rendered("[[" + p + "]]", [])
  }

  /** `${v.includes.part}`: an absent part word is written "undefined". */
  function PartText(part: Option<string>): string
  {
    match part
    case Some(w) => w
    case None => "undefined"
  }

  /**
   * One bullet line for an area: the link alone for a whole province;
   * "Mainland" or "rest of" before it when the term says so (compared in
   * lower case); otherwise the part word, the term, "of", the link and the
   * municipalities. Its issues are those of the province link.
   */
  function BulletLine(provinces: seq<string>, v: Area, bullet: string): (r: Rendered)
    ensures r.issues == ProvinceLink(provinces, v.province).issues
    ensures |r.text| > |bullet| + 1 && r.text[|r.text| - 1] == '\n'
    ensures !v.part ==> r.text == bullet + " " + ProvinceLink(provinces, v.province).text + "\n"
    ensures v.part && LowerCaseIs(v.includes.term, "mainland") ==>
      r.text == bullet + " Mainland " + ProvinceLink(provinces, v.province).text + "\n"
    ensures v.part && LowerCaseIs(v.includes.term, "rest") ==>
      r.text == bullet + " rest of " + ProvinceLink(provinces, v.province).text + "\n"
    ensures v.part && !LowerCaseIs(v.includes.term, "mainland") && !LowerCaseIs(v.includes.term, "rest") ==>
      r.text == bullet + " " + PartText(v.includes.part) + " " + v.includes.term + " of "
        + ProvinceLink(provinces, v.province).text + LinkMunicipalities(v.includes, v.province) + "\n"
  {
    var link := ProvinceLink(provinces, v.province);
    var line :=
      if !v.part then bullet + " " + link.text + "\n"
      else if LowerCaseIs(v.includes.term, "mainland") then bullet + " Mainland " + link.text + "\n"
      else if LowerCaseIs(v.includes.term, "rest") then bullet + " rest of " + link.text + "\n"
      else
        bullet + " " + PartText(v.includes.part) + " " + v.includes.term + " of " + link.text
          + LinkMunicipalities(v.includes, v.province) + "\n";
    Rendered(line, link.issues)
  }

  /** The term is compared in lower case: "MAINLAND" picks the mainland form. */
  lemma UpperCaseMainland(provinces: seq<string>, p: string, part: Option<string>, names: Option<seq<string>>)
    ensures BulletLine(provinces, Area(p, true, Includes("MAINLAND", part, names)), "**").text
      == "** Mainland " + ProvinceLink(provinces, p).text + "\n"
  {
    var v := Area(p, true, Includes("MAINLAND", part, names));
    assert LowerCaseIs(v.includes.term, "mainland");
  }

  /** "Rest", capitalised, picks the "rest of" form. */
  lemma CapitalisedRest(provinces: seq<string>, p: string, part: Option<string>, names: Option<seq<string>>)
    ensures BulletLine(provinces, Area(p, true, Includes("Rest", part, names)), "*").text
      == "* rest of " + ProvinceLink(provinces, p).text + "\n"
  {
    var v := Area(p, true, Includes("Rest", part, names));
    assert LowerCaseIs(v.includes.term, "rest");
  }

  /** The bullet lines of `areas`, in order. */
  function Bullets(provinces: seq<string>, areas: seq<Area>, bullet: string): Rendered
    decreases |areas|
  {
    if areas == [] then Nothing
    else Bullets(provinces, areas[..|areas| - 1], bullet).Then(BulletLine(provinces, areas[|areas| - 1], bullet))
  }

  /** One more area: the bullets of a prefix one area longer. */
  lemma BulletsStep(provinces: seq<string>, areas: seq<Area>, bullet: string, i: nat)
    requires i < |areas|
    ensures Bullets(provinces, areas[..i + 1], bullet)
      == Bullets(provinces, areas[..i], bullet).Then(BulletLine(provinces, areas[i], bullet))
  {
    assert areas[..i + 1][..i] == areas[..i];
  }

  // ---------------------------------------------------------------------
  // Region blocks.

  /**
   * `* '''[[<page>|<name>]]''' ` followed by the small-text designation and
   * a line break; the page part is left out when the page is missing or
   * empty. The unclassified block has a bare line break as its header.
   */
  function RegionHeader(region: Option<Region>): (h: string)
    ensures |h| > 0 && h[|h| - 1] == '\n'
    ensures region.None? <==> h == "\n"
    ensures region.Some? && region.value.page.Some? && region.value.page.value != "" ==>
      StartsWith(h, "* '''[[" + region.value.page.value + "|" + region.value.name + "]]''' ")
    ensures region.Some? && (region.value.page.None? || region.value.page.value == "") ==>
      StartsWith(h, "* '''[[" + region.value.name + "]]''' ")
    ensures region.Some? && region.value.designation.Some? ==>
      EndsWith(h, "{{small|(" + region.value.designation.value + ")}}\n")
    ensures region.Some? && region.value.designation.None? ==> EndsWith(h, "]]''' \n")
    ensures region.Some? ==>
      |h| == 13 + |region.value.name|
        + (if region.value.page.Some? && region.value.page.value != "" then |region.value.page.value| + 1 else 0)
        + (if region.value.designation.Some? then 13 + |region.value.designation.value| else 1)
  {
    match region
    case None => "\n"
    case Some(r) =>
      var head :=
        if r.page.Some? && r.page.value != "" then "* '''[[" + r.page.value + "|" + r.name + "]]''' "
        else "* '''[[" + r.name + "]]''' ";
      var tail := if r.designation.Some? then "{{small|(" + r.designation.value + ")}}\n" else "\n";
      Joined(head, tail);
      head + tail
  }

  /** A joined string starts with its first part and ends with its second. */
  lemma Joined(a: string, b: string)
    ensures StartsWith(a + b, a) && EndsWith(a + b, b)
  {
    assert (a + b)[..|a|] == a;
    assert (a + b)[|a + b| - |b|..] == b;
  }

  /** A region's bullets are sub-bullets; the unclassified ones are top-level. */
  function BulletFor(region: Option<Region>): string
  {
    if region.Some? then "**" else "*"
  }

  /** `_getRegionsWikitext`: the header, then one bullet line per area. */
  function RegionText(provinces: seq<string>, region: Option<Region>, areas: seq<Area>): Rendered
  {
    Rendered(RegionHeader(region), []).Then(Bullets(provinces, areas, BulletFor(region)))
  }

  /** The block of region bucket `k`, or nothing when the bucket is absent. */
  function RegionBlock(provinces: seq<string>, regions: seq<Region>, c: Classified, k: nat): Rendered
    requires k < |regions|
  {
    if k in c.buckets then RegionText(provinces, Some(regions[k]), c.buckets[k]) else Nothing
  }

  /** The blocks of the region buckets 0 .. n-1 that are present, in ascending order. */
  function RegionBlocks(provinces: seq<string>, regions: seq<Region>, c: Classified, n: nat): Rendered
    requires n <= |regions|
  {
    if n == 0 then Nothing
    else RegionBlocks(provinces, regions, c, n - 1).Then(RegionBlock(provinces, regions, c, n - 1))
  }

  /** The block of the "_" bucket, or nothing when it is absent. */
  function UnclassifiedBlock(provinces: seq<string>, c: Classified): Rendered
  {
    if c.unclassified.Some? then RegionText(provinces, None, c.unclassified.value) else Nothing
  }

  /**
   * The text of one signal level: nothing when the level is absent;
   * otherwise a line break, the unclassified block when there is one, and
   * the region blocks in ascending region order.
   */
  function LevelText(provinces: seq<string>, regions: seq<Region>, level: Option<Classified>): (r: Rendered)
    requires level.Some? ==> KeysBelow(level.value, |regions|)
    ensures level.None? <==> r.text == ""
    ensures level.Some? ==> r.text[0] == '\n'
  {
    match level
    case None => Nothing
    case Some(c) =>
      Rendered("\n", []).Then(UnclassifiedBlock(provinces, c)).Then(RegionBlocks(provinces, regions, c, |regions|))
  }

  // ---------------------------------------------------------------------
  // A classified level, read off the first-match filters of its input.

  /** The block of the entries whose first matching region is `k`, or nothing when there are none. */
  function FilterBlock(provinces: seq<string>, regions: seq<Region>, entries: seq<Area>, k: nat): Rendered
    requires k < |regions|
  {
    var mine := InRegion(regions, entries, k);
    if mine == [] then Nothing else RegionText(provinces, Some(regions[k]), mine)
  }

  /** The filter blocks of regions 0 .. n-1, in ascending order. */
  function FilterBlocks(provinces: seq<string>, regions: seq<Region>, entries: seq<Area>, n: nat): Rendered
    requires n <= |regions|
  {
    if n == 0 then Nothing
    else FilterBlocks(provinces, regions, entries, n - 1).Then(FilterBlock(provinces, regions, entries, n - 1))
  }

  /** The block of the entries no region lists, or nothing when there are none. */
  function UnmatchedBlock(provinces: seq<string>, regions: seq<Region>, entries: seq<Area>): Rendered
  {
    var rest := Unmatched(regions, entries);
    if rest == [] then Nothing else RegionText(provinces, None, rest)
  }

  lemma {:induction false} RegionBlocksAreFilterBlocks(provinces: seq<string>, regions: seq<Region>, entries: seq<Area>,
    c: Classified, n: nat)
    requires n <= |regions|
    requires forall k :: Bucket(c, k) == InRegion(regions, entries, k)
    requires forall k :: k in c.buckets <==> InRegion(regions, entries, k) != []
    ensures RegionBlocks(provinces, regions, c, n) == FilterBlocks(provinces, regions, entries, n)
  {
    if n > 0 {
      RegionBlocksAreFilterBlocks(provinces, regions, entries, c, n - 1);
      var k := n - 1;
      assert k in c.buckets ==> c.buckets[k] == Bucket(c, k);
      assert RegionBlock(provinces, regions, c, k) == FilterBlock(provinces, regions, entries, k);
    }
  }

  /**
   * The text of a classified level, read off its input: a line break, the
   * block of the entries no region lists (when there are any), then, for
   * each region in ascending order that is the first match of some
   * entries, its header and those entries' bullets in input order.
   */
  lemma LevelTextByFilters(provinces: seq<string>, regions: seq<Region>, entries: seq<Area>)
    ensures LevelText(provinces, regions, Some(Classify(regions, entries)))
      == Rendered("\n", []).Then(UnmatchedBlock(provinces, regions, entries)).Then(FilterBlocks(provinces, regions, entries, |regions|))
  {
    var c := Classify(regions, entries);
    ClassifyIsFilter(regions, entries);
    RegionBlocksAreFilterBlocks(provinces, regions, entries, c, |regions|);
    assert UnclassifiedBlock(provinces, Classify(regions, entries)) == UnmatchedBlock(provinces, regions, entries);
  }

  /** `(a + b) + c == a + (b + c)`, for strings. */
  lemma AppendAssoc(a: string, b: string, c: string)
    ensures a + b + c == a + (b + c)
  {
  }

  /** A block's text is its header then its bullets, and its issues are the bullets'. */
  lemma RegionTextParts(provinces: seq<string>, region: Option<Region>, areas: seq<Area>)
    ensures RegionText(provinces, region, areas).text == RegionHeader(region) + Bullets(provinces, areas, BulletFor(region)).text
    ensures RegionText(provinces, region, areas).issues == Bullets(provinces, areas, BulletFor(region)).issues
  {
    assert [] + Bullets(provinces, areas, BulletFor(region)).issues == Bullets(provinces, areas, BulletFor(region)).issues;
  }

  /** A present level's text is a line break, the "_" block and the region blocks; its issues are theirs. */
  lemma LevelTextParts(provinces: seq<string>, regions: seq<Region>, c: Classified)
    requires KeysBelow(c, |regions|)
    ensures LevelText(provinces, regions, Some(c)).text
      == "\n" + UnclassifiedBlock(provinces, c).text + RegionBlocks(provinces, regions, c, |regions|).text
    ensures LevelText(provinces, regions, Some(c)).issues
      == UnclassifiedBlock(provinces, c).issues + RegionBlocks(provinces, regions, c, |regions|).issues
  {
    assert [] + UnclassifiedBlock(provinces, c).issues == UnclassifiedBlock(provinces, c).issues;
  }

  // ---------------------------------------------------------------------
  // The template.

  /** The hours and minutes of the issue time, as `getHours` and `getMinutes` give them. */
  datatype Clock = Clock(utcHours: nat, utcMinutes: nat, localHours: nat, localMinutes: nat)

  function TimeField(clock: Clock): string
  {
    TwoDigits(clock.utcHours) + ":" + TwoDigits(clock.utcMinutes) + " UTC ("
      + TwoDigits(clock.localHours) + ":" + TwoDigits(clock.localMinutes) + " [[Philippine Standard Time|PHT]])"
  }

  const TemplateOpen := "{{TyphoonWarningsTable\n"
  const SourceLine := "| PHsource = [http://bagong.pagasa.dost.gov.ph/tropical-cyclone/severe-weather-bulletin/2 PAGASA]\n"

  /** `| <name> = <value>` and a line break. */
  function Field(name: string, value: string): string
  {
    "| " + name + " = " + value + "\n"
  }

  /** The time line and the five signal lines, highest level first; `signals[i]` is the text of level i + 1. */
  function TemplateFields(signals: seq<string>, clock: Clock): string
    requires |signals| == 5
  {
    Field("PHtime", TimeField(clock))
      + Field("PH5", Trim(signals[4]))
      + Field("PH4", Trim(signals[3]))
      + Field("PH3", Trim(signals[2]))
      + Field("PH2", Trim(signals[1]))
      + Field("PH1", Trim(signals[0]))
  }

  const TemplateClose := SourceLine + "}}"

  function Template(signals: seq<string>, clock: Clock): string
    requires |signals| == 5
  {
    TemplateOpen + TemplateFields(signals, clock) + TemplateClose
  }

  // ---------------------------------------------------------------------
  // The issues of a level, and what they report.

  /** The page-not-found issues of `areas`, in order. */
  function LinkIssues(provinces: seq<string>, areas: seq<Area>): seq<Issue>
    decreases |areas|
  {
    if areas == [] then []
    else LinkIssues(provinces, areas[..|areas| - 1]) + ProvinceLink(provinces, areas[|areas| - 1].province).issues
  }

  lemma {:induction false} LinkIssuesAppend(provinces: seq<string>, a: seq<Area>, b: seq<Area>)
    ensures LinkIssues(provinces, a + b) == LinkIssues(provinces, a) + LinkIssues(provinces, b)
    decreases |b|
  {
    if b == [] {
      assert a + b == a;
    } else {
      var b' := b[..|b| - 1];
      assert (a + b)[..|a + b| - 1] == a + b';
      assert (a + b)[|a + b| - 1] == b[|b| - 1];
      LinkIssuesAppend(provinces, a, b');
    }
  }

  /** The bullet lines record the page-not-found issues of their areas, in order. */
  lemma {:induction false} BulletsIssues(provinces: seq<string>, areas: seq<Area>, bullet: string)
    ensures Bullets(provinces, areas, bullet).issues == LinkIssues(provinces, areas)
    decreases |areas|
  {
    if areas != [] {
      BulletsIssues(provinces, areas[..|areas| - 1], bullet);
    }
  }

  /** A block records the page-not-found issues of its areas, in order. */
  lemma RegionTextIssues(provinces: seq<string>, region: Option<Region>, areas: seq<Area>)
    ensures RegionText(provinces, region, areas).issues == LinkIssues(provinces, areas)
  {
    BulletsIssues(provinces, areas, BulletFor(region));
  }

  lemma {:induction false} RegionBlocksIssues(provinces: seq<string>, regions: seq<Region>, c: Classified, n: nat)
    requires n <= |regions|
    ensures RegionBlocks(provinces, regions, c, n).issues == LinkIssues(provinces, RegionBuckets(c, n))
  {
    if n > 0 {
      var block := RegionBlock(provinces, regions, c, n - 1);
      assert RegionBlocks(provinces, regions, c, n).issues == RegionBlocks(provinces, regions, c, n - 1).issues + block.issues;
      if n - 1 in c.buckets {
        RegionTextIssues(provinces, Some(regions[n - 1]), c.buckets[n - 1]);
      }
      assert block.issues == LinkIssues(provinces, Bucket(c, n - 1));
      RegionBlocksIssues(provinces, regions, c, n - 1);
      LinkIssuesAppend(provinces, RegionBuckets(c, n - 1), Bucket(c, n - 1));
    }
  }

  /**
   * A level records the page-not-found issues of its areas in the order it
   * writes them: the unclassified areas first, then region by region.
   */
  lemma LevelIssuesFollowFlatten(provinces: seq<string>, regions: seq<Region>, c: Classified)
    requires KeysBelow(c, |regions|)
    ensures LevelText(provinces, regions, Some(c)).issues == LinkIssues(provinces, Flatten(c, |regions|))
  {
    var unclassified := UnclassifiedBlock(provinces, c);
    LevelTextParts(provinces, regions, c);
    if c.unclassified.Some? {
      RegionTextIssues(provinces, None, c.unclassified.value);
    }
    assert unclassified.issues == LinkIssues(provinces, Unclassified(c));
    RegionBlocksIssues(provinces, regions, c, |regions|);
    LinkIssuesAppend(provinces, Unclassified(c), RegionBuckets(c, |regions|));
  }

  /** Exactly the areas whose page is missing are reported, and nothing else is. */
  lemma {:induction false} LinkIssuesExact(provinces: seq<string>, areas: seq<Area>)
    ensures forall i :: i in LinkIssues(provinces, areas) ==> i.PageNotFound?
    ensures forall p :: PageNotFound(p) in LinkIssues(provinces, areas) <==>
      PageMissing(provinces, p) && exists e :: e in areas && e.province == p
    decreases |areas|
  {
    if areas != [] {
      var init := areas[..|areas| - 1];
      var e := areas[|areas| - 1];
      LinkIssuesExact(provinces, init);
      assert areas == init + [e];
      forall p
        ensures PageNotFound(p) in LinkIssues(provinces, areas) <==>
          PageMissing(provinces, p) && exists x :: x in areas && x.province == p
      {
        if PageNotFound(p) in LinkIssues(provinces, init) {
          var x :| x in init && x.province == p;
          assert x in areas;
        }
        if PageMissing(provinces, p) && e.province == p {
          assert PageNotFound(p) in ProvinceLink(provinces, e.province).issues;
        }
        if x :| x in areas && x.province == p && x != e {
          assert x in init;
        }
      }
    }
  }

  /** Areas with the same multiset of entries report the same pages. */
  lemma LinkIssuesSameMembers(provinces: seq<string>, a: seq<Area>, b: seq<Area>)
    requires multiset(a) == multiset(b)
    ensures forall i :: i in LinkIssues(provinces, a) <==> i in LinkIssues(provinces, b)
  {
    LinkIssuesExact(provinces, a);
    LinkIssuesExact(provinces, b);
    forall x | x in a ensures x in b {
      assert x in multiset(a);
    }
    forall x | x in b ensures x in a {
      assert x in multiset(b);
    }
  }

  /**
   * A present level reports, among its rendering issues, exactly the
   * provinces of its input areas whose page is missing, whichever bucket
   * each area was classified into.
   */
  lemma LevelReportsMissingPages(provinces: seq<string>, regions: seq<Region>, entries: seq<Area>)
    ensures forall i :: i in LevelText(provinces, regions, Some(Classify(regions, entries))).issues ==> i.PageNotFound?
    ensures forall p :: PageNotFound(p) in LevelText(provinces, regions, Some(Classify(regions, entries))).issues <==>
      PageMissing(provinces, p) && exists e :: e in entries && e.province == p
  {
    var c := Classify(regions, entries);
    LevelIssuesFollowFlatten(provinces, regions, c);
    ClassifyPartition(regions, entries);
    LinkIssuesSameMembers(provinces, Flatten(c, |regions|), entries);
    LinkIssuesExact(provinces, entries);
  }

  // ---------------------------------------------------------------------
  // How many page issues a level records.

  /** The number of areas naming province `p`. */
  function ProvinceCount(areas: seq<Area>, p: string): nat
    decreases |areas|
  {
    if areas == [] then 0
    else ProvinceCount(areas[..|areas| - 1], p) + (if areas[|areas| - 1].province == p then 1 else 0)
  }

  lemma {:induction false} ProvinceCountAppend(a: seq<Area>, b: seq<Area>, p: string)
    ensures ProvinceCount(a + b, p) == ProvinceCount(a, p) + ProvinceCount(b, p)
    decreases |b|
  {
    if b == [] {
      assert a + b == a;
    } else {
      var b' := b[..|b| - 1];
      assert (a + b)[..|a + b| - 1] == a + b';
      assert (a + b)[|a + b| - 1] == b[|b| - 1];
      ProvinceCountAppend(a, b', p);
    }
  }

  /** Taking out the area at index `j` takes one of it out of the areas' multiset. */
  lemma AreaRemoved(b: seq<Area>, j: int)
    requires 0 <= j < |b|
    ensures multiset(b[..j] + b[j + 1..]) == multiset(b) - multiset{b[j]}
  {
    assert b == b[..j] + [b[j]] + b[j + 1..];
  }

  /** Taking out the area at index `j` takes its one off the count. */
  lemma ProvinceCountRemove(b: seq<Area>, j: int, p: string)
    requires 0 <= j < |b|
    ensures ProvinceCount(b, p) == ProvinceCount(b[..j] + b[j + 1..], p) + (if b[j].province == p then 1 else 0)
  {
    var left, x, right := b[..j], b[j], b[j + 1..];
    assert b == (left + [x]) + right;
    ProvinceCountAppend(left + [x], right, p);
    ProvinceCountAppend(left, [x], p);
    ProvinceCountAppend(left, right, p);
    assert [x][..0] == [];
  }

  /** Rearranging the areas does not change how many name a province. */
  lemma {:induction false} ProvinceCountPerm(a: seq<Area>, b: seq<Area>, p: string)
    requires multiset(a) == multiset(b)
    ensures ProvinceCount(a, p) == ProvinceCount(b, p)
    decreases |a|
  {
    if a == [] {
      assert |b| == |multiset(b)| == 0;
    } else {
      var init, x := a[..|a| - 1], a[|a| - 1];
      assert a == init + [x];
      assert multiset(init) == multiset(a) - multiset{x};
      assert x in multiset(b);
      var j :| 0 <= j < |b| && b[j] == x;
      AreaRemoved(b, j);
      ProvinceCountRemove(b, j, p);
      ProvinceCountPerm(init, b[..j] + b[j + 1..], p);
    }
  }

  /** Each area whose page is missing adds one page issue for its province. */
  lemma {:induction false} LinkIssuesCount(provinces: seq<string>, areas: seq<Area>)
    ensures forall p ::
              multiset(LinkIssues(provinces, areas))[PageNotFound(p)]
              == if PageMissing(provinces, p) then ProvinceCount(areas, p) else 0
    decreases |areas|
  {
    if areas != [] {
      var init, e := areas[..|areas| - 1], areas[|areas| - 1];
      LinkIssuesCount(provinces, init);
      assert multiset(LinkIssues(provinces, areas))
        == multiset(LinkIssues(provinces, init)) + multiset(ProvinceLink(provinces, e.province).issues);
    }
  }

  /**
   * A present level records "Page not found for province: P" once for each
   * of its input areas naming P when P's page is missing, and never
   * otherwise.
   */
  lemma LevelPageIssuesCount(provinces: seq<string>, regions: seq<Region>, entries: seq<Area>)
    ensures forall p ::
              multiset(LevelText(provinces, regions, Some(Classify(regions, entries))).issues)[PageNotFound(p)]
              == if PageMissing(provinces, p) then ProvinceCount(entries, p) else 0
  {
    var c := Classify(regions, entries);
    LevelIssuesFollowFlatten(provinces, regions, c);
    ClassifyKeepsEntries(regions, entries);
    LinkIssuesCount(provinces, Flatten(c, |regions|));
    forall p {
      ProvinceCountPerm(Flatten(c, |regions|), entries, p);
    }
  }

  /** An absent level, and a level without areas, leave their template field empty. */
  lemma EmptyLevelEmptyField(provinces: seq<string>, regions: seq<Region>)
    ensures Trim(LevelText(provinces, regions, None).text) == ""
    ensures Trim(LevelText(provinces, regions, Some(NoAreas)).text) == ""
  {
    NoBlocks(provinces, regions, NoAreas, |regions|);
    assert LevelText(provinces, regions, Some(NoAreas)).text == "\n";
    assert IsWhiteSpace('\n');
  }

  lemma {:induction false} NoBlocks(provinces: seq<string>, regions: seq<Region>, c: Classified, n: nat)
    requires n <= |regions| && c.buckets == map[]
    ensures RegionBlocks(provinces, regions, c, n) == Nothing
  {
    if n > 0 {
      NoBlocks(provinces, regions, c, n - 1);
    }
  }

  lemma Framed(open: string, body: string, close: string)
    ensures (open + body + close)[..|open|] == open
    ensures (open + body + close)[|open|..|open| + |body|] == body
    ensures EndsWith(open + body + close, close)
  {
    var t := open + body + close;
    assert t[|t| - |close|..] == close;
  }

  /** The template opens the table, then holds the field lines, and closes with the source line. */
  lemma TemplateFramed(signals: seq<string>, clock: Clock)
    requires |signals| == 5
    ensures var t := Template(signals, clock);
      && t[..|TemplateOpen|] == TemplateOpen
      && t[|TemplateOpen|..|t| - |TemplateClose|] == TemplateFields(signals, clock)
      && EndsWith(t, TemplateClose)
  {
    Framed(TemplateOpen, TemplateFields(signals, clock), TemplateClose);
  }

  /** Each time component is written as exactly two digits. */
  lemma TimeFieldPadded(clock: Clock)
    requires clock.utcHours < 24 && clock.utcMinutes < 60
    ensures TimeField(clock)[..5] == [DigitChar(clock.utcHours / 10), DigitChar(clock.utcHours % 10), ':',
      DigitChar(clock.utcMinutes / 10), DigitChar(clock.utcMinutes % 10)]
  {
    var f := TimeField(clock);
    assert f[..5] == TwoDigits(clock.utcHours) + ":" + TwoDigits(clock.utcMinutes);
  }
}
