/**
 * `PagasaToWikipedia`: one run of `getWarningSignalsTemplate` over a
 * bulletin. The run is specified on values first (`ConvertAsWritten`,
 * with the corrected `Convert` beside it), then the class carries out the
 * run step by step, updating its `provinces` and `issues` fields as the
 * source does, and each of its methods is proved against the functions.
 */
module Formatter {
  import opened Wrappers
  import opened JsStrings
  import opened Bulletin
  import opened Classifier
  import opened Normalizer
  import opened Renderer

  // ---------------------------------------------------------------------
  // The issue list: `this.issues` is undefined (None) until the first issue
  // is pushed, and from then on an array that only grows.

  /** The issue list after pushing `added`, in order, onto `state`. */
  function Pushed(state: Option<seq<Issue>>, added: seq<Issue>): (r: Option<seq<Issue>>)
    ensures r.Some? <==> state.Some? || added != []
    ensures r.Some? ==> r.value == state.GetOr([]) + added
  {
    if added == [] then state else Some(state.GetOr([]) + added)
  }

  /** Pushing two lists one after the other is pushing their concatenation. */
  lemma PushedTwice(state: Option<seq<Issue>>, a: seq<Issue>, b: seq<Issue>)
    ensures Pushed(Pushed(state, a), b) == Pushed(state, a + b)
  {
    if a == [] {
      assert a + b == b;
    } else if b == [] {
      assert a + b == a;
    } else {
      assert state.GetOr([]) + a + b == state.GetOr([]) + (a + b);
    }
  }

  // ---------------------------------------------------------------------
  // `_reorganizeSignals`: levels 1 to 5, each classified when present.

  /** The classification of signal level `level`, or None (null) when the bulletin does not have it. */
  function LevelClassified(regions: seq<Region>, b: Bulletin, level: int): (r: Option<Classified>)
    ensures r.Some? ==> KeysBelow(r.value, |regions|)
  {
    if level in b.stormSignals then Some(Classify(regions, Mixed(b.stormSignals[level]))) else None
  }

  /** The reorganized signals; index i holds level i + 1. */
  function Reorganized(regions: seq<Region>, b: Bulletin): (parsed: seq<Option<Classified>>)
    ensures |parsed| == 5
  {
    seq(5, i => LevelClassified(regions, b, i + 1))
  }

  lemma ReorganizedLevels(regions: seq<Region>, b: Bulletin)
    ensures Reorganized(regions, b) == [LevelClassified(regions, b, 1), LevelClassified(regions, b, 2),
      LevelClassified(regions, b, 3), LevelClassified(regions, b, 4), LevelClassified(regions, b, 5)]
  {
  }

  /** The issues recorded while classifying level `level`. */
  function LevelIssuesOf(regions: seq<Region>, b: Bulletin, level: int): seq<Issue>
  {
    if level in b.stormSignals then LevelIssues(regions, b.stormSignals[level]) else []
  }

  /** The issues recorded while classifying levels 1 .. n, in level order. */
  function ClassificationIssues(regions: seq<Region>, b: Bulletin, n: nat): seq<Issue>
  {
    if n == 0 then [] else ClassificationIssues(regions, b, n - 1) + LevelIssuesOf(regions, b, n)
  }

  /** The areas of level `level`, luzon then visayas then mindanao. */
  function LevelAreas(b: Bulletin, level: int): seq<Area>
  {
    if level in b.stormSignals then Mixed(b.stormSignals[level]) else []
  }

  /** The areas of levels 1 .. n, in level order. */
  function AreasUpTo(b: Bulletin, n: nat): seq<Area>
  {
    if n == 0 then [] else AreasUpTo(b, n - 1) + LevelAreas(b, n)
  }

  // ---------------------------------------------------------------------
  // `_toWikitext`: the text and the issues of each level.

  /** Every present level's classification only uses region keys. */
  predicate WellParsed(regions: seq<Region>, parsed: seq<Option<Classified>>)
  {
    forall i :: 0 <= i < |parsed| && parsed[i].Some? ==> KeysBelow(parsed[i].value, |regions|)
  }

  function RenderedLevels(provinces: seq<string>, regions: seq<Region>, parsed: seq<Option<Classified>>): (rs: seq<Rendered>)
    requires WellParsed(regions, parsed)
    ensures |rs| == |parsed|
    ensures forall i :: 0 <= i < |parsed| ==> rs[i] == LevelText(provinces, regions, parsed[i])
  {
    seq(|parsed|, i requires 0 <= i < |parsed| => LevelText(provinces, regions, parsed[i]))
  }

  function Texts(rs: seq<Rendered>): (texts: seq<string>)
    ensures |texts| == |rs|
    ensures forall i :: 0 <= i < |rs| ==> texts[i] == rs[i].text
  {
    seq(|rs|, i requires 0 <= i < |rs| => rs[i].text)
  }

  /** The issues of the pieces, in order. */
  function AllIssues(rs: seq<Rendered>): seq<Issue>
    decreases |rs|
  {
    if rs == [] then [] else AllIssues(rs[..|rs| - 1]) + rs[|rs| - 1].issues
  }

  /** One more level: the texts and issues of a prefix one level longer. */
  lemma LevelsStep(rs: seq<Rendered>, k: nat)
    requires k < |rs|
    ensures AllIssues(rs[..k + 1]) == AllIssues(rs[..k]) + rs[k].issues
    ensures Texts(rs[..k + 1]) == Texts(rs[..k]) + [rs[k].text]
  {
    assert rs[..k + 1][..k] == rs[..k];
  }

  // ---------------------------------------------------------------------
  // One run.

  /** The `issues` field of the result: `false`, or the issue array. */
  datatype IssuesOrFalse = NoIssues | IssueList(list: seq<Issue>)
  {
    function Reported(): seq<Issue>
    {
      match this
      case NoIssues => []
      case IssueList(l) => l
    }
  }

  datatype RenderResult = RenderResult(issues: IssuesOrFalse, template: string)

  /** A run's result, and the formatter's issue list after it. */
  datatype Run = Run(result: RenderResult, issues: Option<seq<Issue>>)

  const NoTyphoonNotice := "There is no active typhoon bulletin."
  const NoTyphoonResult := RenderResult(IssueList([Notice(NoTyphoonNotice)]), "''No active typhoon warning signals.''")

  /**
   * `getWarningSignalsTemplate` as written, starting from the issue list
   * `prior` left by earlier runs. The result's `issues` is evaluated
   * before the template is rendered: when the list is still undefined
   * then, the result says `false` even if rendering pushes issues; when it
   * is an array, the issues pushed while rendering show through the
   * shared array.
   */
  function ConvertAsWritten(prior: Option<seq<Issue>>, regions: seq<Region>, titles: seq<string>, b: Bulletin, clock: Clock): Run
  {
    if b.typhoonIsNull then Run(NoTyphoonResult, prior)
    else
      var classified := Pushed(prior, ClassificationIssues(regions, b, 5));
      var levels := RenderedLevels(titles, regions, Reorganized(regions, b));
      var after := Pushed(classified, AllIssues(levels));
      var issues := if classified.Some? then IssueList(after.value) else NoIssues;
      Run(RenderResult(issues, Template(Texts(levels), clock)), after)
  }

  /** The issues of one run: the classification issues of levels 1 to 5, then the rendering issues of levels 1 to 5. */
  function RunIssues(regions: seq<Region>, titles: seq<string>, b: Bulletin): seq<Issue>
  {
    ClassificationIssues(regions, b, 5) + AllIssues(RenderedLevels(titles, regions, Reorganized(regions, b)))
  }

  /** The run as evidently intended: every issue of this run, or `false` when there is none. */
  function Convert(regions: seq<Region>, titles: seq<string>, b: Bulletin, clock: Clock): RenderResult
  {
    if b.typhoonIsNull then NoTyphoonResult
    else
      var levels := RenderedLevels(titles, regions, Reorganized(regions, b));
      var all := RunIssues(regions, titles, b);
      RenderResult(if all == [] then NoIssues else IssueList(all), Template(Texts(levels), clock))
  }

  // ---------------------------------------------------------------------
  // Properties of a run.

  /** Both versions write the same template. */
  lemma SameTemplate(prior: Option<seq<Issue>>, regions: seq<Region>, titles: seq<string>, b: Bulletin, clock: Clock)
    ensures ConvertAsWritten(prior, regions, titles, b, clock).result.template == Convert(regions, titles, b, clock).template
  {
  }

  /** The run pushes its classification issues, then its rendering issues, onto the list it started from. */
  lemma RunAccumulates(prior: Option<seq<Issue>>, regions: seq<Region>, titles: seq<string>, b: Bulletin, clock: Clock)
    requires !b.typhoonIsNull
    ensures ConvertAsWritten(prior, regions, titles, b, clock).issues == Pushed(prior, RunIssues(regions, titles, b))
  {
    PushedTwice(prior, ClassificationIssues(regions, b, 5), AllIssues(RenderedLevels(titles, regions, Reorganized(regions, b))));
  }

  /** On a fresh formatter, when classification records an issue, the as-written result is the intended one. */
  lemma AsWrittenAgreesWhenClassificationReports(regions: seq<Region>, titles: seq<string>, b: Bulletin, clock: Clock)
    requires ClassificationIssues(regions, b, 5) != []
    ensures ConvertAsWritten(None, regions, titles, b, clock).result == Convert(regions, titles, b, clock)
  {
    if !b.typhoonIsNull {
      RunAccumulates(None, regions, titles, b, clock);
      var all := RunIssues(regions, titles, b);
      assert all != [];
      assert Pushed(None, all).value == all;
      assert Pushed(None, ClassificationIssues(regions, b, 5)).Some?;
    }
  }

  /** On a fresh formatter, when classification records nothing, the as-written result says `false` whatever rendering records. */
  lemma AsWrittenSaysFalseWithoutClassificationIssues(regions: seq<Region>, titles: seq<string>, b: Bulletin, clock: Clock)
    requires !b.typhoonIsNull && ClassificationIssues(regions, b, 5) == []
    ensures ConvertAsWritten(None, regions, titles, b, clock).result.issues == NoIssues
  {
  }

  /** A bulletin without a typhoon gives the notice and no table, and leaves the issue list alone. */
  lemma NoTyphoonRun(prior: Option<seq<Issue>>, regions: seq<Region>, titles: seq<string>, b: Bulletin, clock: Clock)
    requires b.typhoonIsNull
    ensures ConvertAsWritten(prior, regions, titles, b, clock) == Run(NoTyphoonResult, prior)
    ensures Convert(regions, titles, b, clock).issues.Reported() == [Notice(NoTyphoonNotice)]
    ensures Convert(regions, titles, b, clock).issues.Reported()[0].Message() == "There is no active typhoon bulletin."
  {
  }

  /** Rendering level `level` records exactly the provinces of its areas whose page is missing. */
  lemma LevelRenderingReports(titles: seq<string>, regions: seq<Region>, b: Bulletin, level: int)
    ensures var issues := LevelText(titles, regions, LevelClassified(regions, b, level)).issues;
      && (forall i :: i in issues ==> i.PageNotFound?)
      && (forall p :: PageNotFound(p) in issues <==>
            PageMissing(titles, p) && exists e :: e in LevelAreas(b, level) && e.province == p)
  {
    if level in b.stormSignals {
      LevelReportsMissingPages(titles, regions, Mixed(b.stormSignals[level]));
    }
  }

  /** Page reports of two runs of levels in sequence add up: before's areas, then the next level's. */
  lemma PageReportsStep(titles: seq<string>, before: seq<Issue>, level: seq<Issue>, areas: seq<Area>, more: seq<Area>)
    requires forall i :: i in before ==> i.PageNotFound?
    requires forall i :: i in level ==> i.PageNotFound?
    requires forall p :: PageNotFound(p) in before <==> PageMissing(titles, p) && exists e :: e in areas && e.province == p
    requires forall p :: PageNotFound(p) in level <==> PageMissing(titles, p) && exists e :: e in more && e.province == p
    ensures forall i :: i in before + level ==> i.PageNotFound?
    ensures forall p :: PageNotFound(p) in before + level <==> PageMissing(titles, p) && exists e :: e in areas + more && e.province == p
  {
    forall p
      ensures PageNotFound(p) in before + level <==> PageMissing(titles, p) && exists e :: e in areas + more && e.province == p
    {
      if e :| e in areas && e.province == p {
        assert e in areas + more;
      }
      if e :| e in more && e.province == p {
        assert e in areas + more;
      }
    }
  }

  /** Rendering levels 1 .. n records exactly the provinces of their areas whose page is missing. */
  lemma {:induction false} RenderingReports(titles: seq<string>, regions: seq<Region>, b: Bulletin, n: nat)
    requires n <= 5
    ensures var rs := RenderedLevels(titles, regions, Reorganized(regions, b))[..n];
      && (forall i :: i in AllIssues(rs) ==> i.PageNotFound?)
      && (forall p :: PageNotFound(p) in AllIssues(rs) <==>
            PageMissing(titles, p) && exists e :: e in AreasUpTo(b, n) && e.province == p)
  {
    var all := RenderedLevels(titles, regions, Reorganized(regions, b));
    if n > 0 {
      RenderingReports(titles, regions, b, n - 1);
      var rs := all[..n];
      assert rs[..n - 1] == all[..n - 1];
      assert AllIssues(rs) == AllIssues(all[..n - 1]) + all[n - 1].issues;
      assert all[n - 1] == LevelText(titles, regions, LevelClassified(regions, b, n));
      LevelRenderingReports(titles, regions, b, n);
      PageReportsStep(titles, AllIssues(all[..n - 1]), all[n - 1].issues, AreasUpTo(b, n - 1), LevelAreas(b, n));
    }
  }

  /** Classifying levels 1 .. n records an unmatched area exactly when its province is not an island group, and no page issue. */
  lemma {:induction false} ClassificationReports(regions: seq<Region>, b: Bulletin, n: nat)
    ensures forall i :: i in ClassificationIssues(regions, b, n) ==> i.ExtrasDetected? || i.RegionNotFound?
    ensures forall x :: RegionNotFound(x) in ClassificationIssues(regions, b, n) <==>
      x in AreasUpTo(b, n) && FirstRegion(regions, x.province).None? && !IsIslandName(x.province)
    ensures forall e :: ExtrasDetected(e) in ClassificationIssues(regions, b, n) <==>
      exists k :: 1 <= k <= n && k in b.stormSignals && b.stormSignals[k].extras == Some(e) && ExtrasFlagged(e)
  {
    if n > 0 {
      ClassificationReports(regions, b, n - 1);
      if n in b.stormSignals {
        ClassifyIssuesExact(regions, Mixed(b.stormSignals[n]));
      }
      forall e | ExtrasDetected(e) in ClassificationIssues(regions, b, n)
        ensures exists k :: 1 <= k <= n && k in b.stormSignals && b.stormSignals[k].extras == Some(e) && ExtrasFlagged(e)
      {
        if ExtrasDetected(e) !in ClassificationIssues(regions, b, n - 1) {
          assert n in b.stormSignals && b.stormSignals[n].extras == Some(e) && ExtrasFlagged(e);
        }
      }
      forall e, k | 1 <= k <= n && k in b.stormSignals && b.stormSignals[k].extras == Some(e) && ExtrasFlagged(e)
        ensures ExtrasDetected(e) in ClassificationIssues(regions, b, n)
      {
        if k == n {
          assert ExtrasDetected(e) in LevelIssuesOf(regions, b, n);
        }
      }
    }
  }

  /** The number of levels among 1 .. n whose extras are `e` and pass the literal test. */
  function ExtrasLevels(b: Bulletin, n: nat, e: Extras): nat
  {
    if n == 0 then 0
    else
      ExtrasLevels(b, n - 1, e)
        + (if n in b.stormSignals && b.stormSignals[n].extras == Some(e) && ExtrasFlagged(e) then 1 else 0)
  }

  /** The issues the extras test of level `level` records: one, or none. */
  function LevelExtrasIssues(b: Bulletin, level: int): seq<Issue>
  {
    if level in b.stormSignals && b.stormSignals[level].extras.Some? && ExtrasFlagged(b.stormSignals[level].extras.value)
    then [ExtrasDetected(b.stormSignals[level].extras.value)]
    else []
  }

  /** A level's classification issues: its extras issue, then its loop's region issues. */
  lemma LevelIssuesSplit(regions: seq<Region>, b: Bulletin, level: int)
    ensures LevelIssuesOf(regions, b, level) == LevelExtrasIssues(b, level) + ClassifyIssues(regions, LevelAreas(b, level))
  {
  }

  /** The region-issue counts of one more level: those of the levels before it, plus those of its loop. */
  lemma RegionCountsStep(regions: seq<Region>, before: seq<Issue>, extras: seq<Issue>, loop: seq<Issue>, areas: seq<Area>, level: seq<Area>)
    requires forall x ::
               multiset(before)[RegionNotFound(x)]
               == if FirstRegion(regions, x.province).None? && !IsIslandName(x.province) then multiset(areas)[x] else 0
    requires forall i :: i in extras ==> i.ExtrasDetected?
    requires forall x ::
               multiset(loop)[RegionNotFound(x)]
               == if FirstRegion(regions, x.province).None? && !IsIslandName(x.province) then multiset(level)[x] else 0
    ensures forall x ::
              multiset(before + (extras + loop))[RegionNotFound(x)]
              == if FirstRegion(regions, x.province).None? && !IsIslandName(x.province) then multiset(areas + level)[x] else 0
  {
    forall x
      ensures multiset(before + (extras + loop))[RegionNotFound(x)]
        == if FirstRegion(regions, x.province).None? && !IsIslandName(x.province) then multiset(areas + level)[x] else 0
    {
      assert RegionNotFound(x) !in extras;
      assert multiset(before + (extras + loop)) == multiset(before) + (multiset(extras) + multiset(loop));
      assert multiset(areas + level) == multiset(areas) + multiset(level);
    }
  }

  /**
   * Classifying levels 1 .. n records "Region for P not found." once per
   * occurrence of an unmatched, non-island area.
   */
  lemma {:induction false} ClassificationRegionCounts(regions: seq<Region>, b: Bulletin, n: nat)
    ensures forall x ::
              multiset(ClassificationIssues(regions, b, n))[RegionNotFound(x)]
              == if FirstRegion(regions, x.province).None? && !IsIslandName(x.province) then multiset(AreasUpTo(b, n))[x] else 0
  {
    if n > 0 {
      ClassificationRegionCounts(regions, b, n - 1);
      LevelIssuesSplit(regions, b, n);
      ClassifyIssuesCount(regions, LevelAreas(b, n));
      var before, extras, loop := ClassificationIssues(regions, b, n - 1), LevelExtrasIssues(b, n), ClassifyIssues(regions, LevelAreas(b, n));
      RegionCountsStep(regions, before, extras, loop, AreasUpTo(b, n - 1), LevelAreas(b, n));
    }
  }

  /** The extras-issue counts of one more level: those of the levels before it, plus its own extras issue. */
  lemma ExtrasCountsStep(b: Bulletin, n: nat, before: seq<Issue>, loop: seq<Issue>)
    requires n > 0
    requires forall e :: multiset(before)[ExtrasDetected(e)] == ExtrasLevels(b, n - 1, e)
    requires forall i :: i in loop ==> i.RegionNotFound?
    ensures forall e :: multiset(before + (LevelExtrasIssues(b, n) + loop))[ExtrasDetected(e)] == ExtrasLevels(b, n, e)
  {
    var extras := LevelExtrasIssues(b, n);
    forall e ensures multiset(before + (extras + loop))[ExtrasDetected(e)] == ExtrasLevels(b, n, e) {
      assert ExtrasDetected(e) !in loop;
      assert multiset(before + (extras + loop)) == multiset(before) + (multiset(extras) + multiset(loop));
      var flagged := n in b.stormSignals && b.stormSignals[n].extras == Some(e) && ExtrasFlagged(e);
      assert multiset(extras)[ExtrasDetected(e)] == if flagged then 1 else 0;
    }
  }

  /** Classifying levels 1 .. n records "Extras detected." once per level whose extras pass the test. */
  lemma {:induction false} ClassificationExtrasCounts(regions: seq<Region>, b: Bulletin, n: nat)
    ensures forall e :: multiset(ClassificationIssues(regions, b, n))[ExtrasDetected(e)] == ExtrasLevels(b, n, e)
  {
    if n > 0 {
      ClassificationExtrasCounts(regions, b, n - 1);
      LevelIssuesSplit(regions, b, n);
      ClassifyIssuesExact(regions, LevelAreas(b, n));
      var before, loop := ClassificationIssues(regions, b, n - 1), ClassifyIssues(regions, LevelAreas(b, n));
      ExtrasCountsStep(b, n, before, loop);
    }
  }

  /** Rendering levels 1 .. n records "Page not found for province: P" once per area naming P when P's page is missing. */
  lemma {:induction false} RenderingCounts(titles: seq<string>, regions: seq<Region>, b: Bulletin, n: nat)
    requires n <= 5
    ensures forall p ::
              multiset(AllIssues(RenderedLevels(titles, regions, Reorganized(regions, b))[..n]))[PageNotFound(p)]
              == if PageMissing(titles, p) then ProvinceCount(AreasUpTo(b, n), p) else 0
  {
    var all := RenderedLevels(titles, regions, Reorganized(regions, b));
    if n > 0 {
      RenderingCounts(titles, regions, b, n - 1);
      var rs := all[..n];
      assert rs[..n - 1] == all[..n - 1];
      assert AllIssues(rs) == AllIssues(all[..n - 1]) + all[n - 1].issues;
      assert all[n - 1] == LevelText(titles, regions, LevelClassified(regions, b, n));
      if n in b.stormSignals {
        LevelPageIssuesCount(titles, regions, Mixed(b.stormSignals[n]));
      }
      forall p {
        ProvinceCountAppend(AreasUpTo(b, n - 1), LevelAreas(b, n), p);
      }
    }
  }

  /** The intended result reports the run's issues. */
  lemma ConvertReportsRunIssues(regions: seq<Region>, titles: seq<string>, b: Bulletin, clock: Clock)
    requires !b.typhoonIsNull
    ensures Convert(regions, titles, b, clock).issues.Reported() == RunIssues(regions, titles, b)
  {
  }

  /**
   * The run's issues name every province of the bulletin whose page is
   * missing and every area matched by no region (island groups excepted),
   * and no other page or region issue.
   */
  lemma RunIssuesExact(regions: seq<Region>, titles: seq<string>, b: Bulletin)
    ensures var all := RunIssues(regions, titles, b);
      && (forall i :: i in all ==> !i.Notice?)
      && (forall p :: PageNotFound(p) in all <==>
            PageMissing(titles, p) && exists e :: e in AreasUpTo(b, 5) && e.province == p)
      && (forall x :: RegionNotFound(x) in all <==>
            x in AreasUpTo(b, 5) && FirstRegion(regions, x.province).None? && !IsIslandName(x.province))
  {
    var rs := RenderedLevels(titles, regions, Reorganized(regions, b));
    RenderingReports(titles, regions, b, 5);
    assert rs[..5] == rs;
    ClassificationReports(regions, b, 5);
  }

  /** Appending page issues to classification issues leaves each kind's count where it was. */
  lemma RunCountsSplit(classified: seq<Issue>, rendered: seq<Issue>)
    requires forall i :: i in classified ==> i.ExtrasDetected? || i.RegionNotFound?
    requires forall i :: i in rendered ==> i.PageNotFound?
    ensures forall e :: multiset(classified + rendered)[ExtrasDetected(e)] == multiset(classified)[ExtrasDetected(e)]
    ensures forall x :: multiset(classified + rendered)[RegionNotFound(x)] == multiset(classified)[RegionNotFound(x)]
    ensures forall p :: multiset(classified + rendered)[PageNotFound(p)] == multiset(rendered)[PageNotFound(p)]
  {
    assert multiset(classified + rendered) == multiset(classified) + multiset(rendered);
    forall p ensures multiset(classified)[PageNotFound(p)] == 0 {
      assert PageNotFound(p) !in classified;
    }
    forall x ensures multiset(rendered)[RegionNotFound(x)] == 0 {
      assert RegionNotFound(x) !in rendered;
    }
    forall e ensures multiset(rendered)[ExtrasDetected(e)] == 0 {
      assert ExtrasDetected(e) !in rendered;
    }
  }

  /**
   * How often the run records each issue: once per level whose extras pass
   * the test, once per occurrence of an unmatched, non-island area, and
   * once per area naming a province whose page is missing.
   */
  lemma RunIssueCounts(regions: seq<Region>, titles: seq<string>, b: Bulletin)
    ensures forall e :: multiset(RunIssues(regions, titles, b))[ExtrasDetected(e)] == ExtrasLevels(b, 5, e)
    ensures forall x ::
              multiset(RunIssues(regions, titles, b))[RegionNotFound(x)]
              == if FirstRegion(regions, x.province).None? && !IsIslandName(x.province) then multiset(AreasUpTo(b, 5))[x] else 0
    ensures forall p ::
              multiset(RunIssues(regions, titles, b))[PageNotFound(p)]
              == if PageMissing(titles, p) then ProvinceCount(AreasUpTo(b, 5), p) else 0
  {
    var rs := RenderedLevels(titles, regions, Reorganized(regions, b));
    assert rs[..5] == rs;
    RenderingReports(titles, regions, b, 5);
    RenderingCounts(titles, regions, b, 5);
    ClassificationReports(regions, b, 5);
    ClassificationRegionCounts(regions, b, 5);
    ClassificationExtrasCounts(regions, b, 5);
    RunCountsSplit(ClassificationIssues(regions, b, 5), AllIssues(rs));
  }

  /**
   * The `message` texts of the run's issues: "Extras detected." for a level
   * whose extras pass the test, "Region for P not found." for an unmatched,
   * non-island area of province P, and "Page not found for province: P" for
   * an area whose province P has no page; each such case has its message.
   */
  lemma RunMessages(regions: seq<Region>, titles: seq<string>, b: Bulletin)
    ensures var all := RunIssues(regions, titles, b);
      && (forall i :: i in all ==>
            || i.Message() == "Extras detected."
            || (exists x :: x in AreasUpTo(b, 5) && FirstRegion(regions, x.province).None? && !IsIslandName(x.province)
                             && i.Message() == "Region for " + x.province + " not found.")
            || (exists e :: e in AreasUpTo(b, 5) && PageMissing(titles, e.province)
                             && i.Message() == "Page not found for province: " + e.province))
      && (forall k :: 1 <= k <= 5 && k in b.stormSignals && b.stormSignals[k].extras.Some? && ExtrasFlagged(b.stormSignals[k].extras.value) ==>
            exists i :: i in all && i.Message() == "Extras detected.")
      && (forall x :: x in AreasUpTo(b, 5) && FirstRegion(regions, x.province).None? && !IsIslandName(x.province) ==>
            exists i :: i in all && i.Message() == "Region for " + x.province + " not found.")
      && (forall e :: e in AreasUpTo(b, 5) && PageMissing(titles, e.province) ==>
            exists i :: i in all && i.Message() == "Page not found for province: " + e.province)
  {
    var all := RunIssues(regions, titles, b);
    RunIssuesExact(regions, titles, b);
    ClassificationReports(regions, b, 5);
    forall i | i in all && !i.ExtrasDetected?
      ensures || (exists x :: x in AreasUpTo(b, 5) && FirstRegion(regions, x.province).None? && !IsIslandName(x.province)
                               && i.Message() == "Region for " + x.province + " not found.")
              || (exists e :: e in AreasUpTo(b, 5) && PageMissing(titles, e.province)
                               && i.Message() == "Page not found for province: " + e.province)
    {
      if i.PageNotFound? {
        var e :| e in AreasUpTo(b, 5) && e.province == i.province;
        assert PageMissing(titles, e.province);
      }
    }
    forall k | 1 <= k <= 5 && k in b.stormSignals && b.stormSignals[k].extras.Some? && ExtrasFlagged(b.stormSignals[k].extras.value)
      ensures exists i :: i in all && i.Message() == "Extras detected."
    {
      assert ExtrasDetected(b.stormSignals[k].extras.value) in all;
    }
    forall x | x in AreasUpTo(b, 5) && FirstRegion(regions, x.province).None? && !IsIslandName(x.province)
      ensures exists i :: i in all && i.Message() == "Region for " + x.province + " not found."
    {
      assert RegionNotFound(x) in all;
    }
    forall e | e in AreasUpTo(b, 5) && PageMissing(titles, e.province)
      ensures exists i :: i in all && i.Message() == "Page not found for province: " + e.province
    {
      assert PageNotFound(e.province) in all;
    }
  }

  /** Hence the intended result reports all of them. */
  lemma ConvertReportsEverything(regions: seq<Region>, titles: seq<string>, b: Bulletin, clock: Clock)
    requires !b.typhoonIsNull
    ensures var reported := Convert(regions, titles, b, clock).issues.Reported();
      && (forall i :: i in reported ==> !i.Notice?)
      && (forall p :: PageNotFound(p) in reported <==>
            PageMissing(titles, p) && exists e :: e in AreasUpTo(b, 5) && e.province == p)
      && (forall x :: RegionNotFound(x) in reported <==>
            x in AreasUpTo(b, 5) && FirstRegion(regions, x.province).None? && !IsIslandName(x.province))
  {
    ConvertReportsRunIssues(regions, titles, b, clock);
    RunIssuesExact(regions, titles, b);
  }

  // ---------------------------------------------------------------------
  // The discrepancy between the two, on a concrete bulletin: one signal 1
  // area whose province is in the region table but has no page.

  const BukidnonRegions := [Region("Northern Mindanao", None, None, ["Bukidnon"])]
  const Bukidnon := Area("Bukidnon", false, Includes("", None, None))
  const BukidnonBulletin := Bulletin(false, map[1 := Landmasses(Some([Bukidnon]), None, None, None)])

  /** Classifying the bulletin records nothing: the province has a region. */
  lemma BukidnonClassifiesQuietly()
    ensures ClassificationIssues(BukidnonRegions, BukidnonBulletin, 5) == []
  {
    assert FirstRegion(BukidnonRegions, "Bukidnon") == Some(0);
    assert Mixed(BukidnonBulletin.stormSignals[1]) == [Bukidnon];
    assert ClassifyIssues(BukidnonRegions, [Bukidnon]) == [];
    assert ClassificationIssues(BukidnonRegions, BukidnonBulletin, 1) == [];
    assert ClassificationIssues(BukidnonRegions, BukidnonBulletin, 2) == [];
    assert ClassificationIssues(BukidnonRegions, BukidnonBulletin, 3) == [];
    assert ClassificationIssues(BukidnonRegions, BukidnonBulletin, 4) == [];
  }

  /** Bukidnon is no island group and has no page among no titles. */
  lemma BukidnonPageMissing()
    ensures PageMissing([], "Bukidnon")
  {
    var s := "Bukidnon";
    assert s[|s| - 6..] != "Island" by {
      assert s[|s| - 6] == 'k';
    }
    assert s[|s| - 7..] != "Islands" by {
      assert s[|s| - 7] == 'u';
    }
  }

  /** The bulletin's only area is Bukidnon. */
  lemma BukidnonListed()
    ensures Bukidnon in AreasUpTo(BukidnonBulletin, 5)
  {
    assert LevelAreas(BukidnonBulletin, 1) == [Bukidnon];
    assert Bukidnon in AreasUpTo(BukidnonBulletin, 1);
    assert Bukidnon in AreasUpTo(BukidnonBulletin, 2);
    assert Bukidnon in AreasUpTo(BukidnonBulletin, 3);
    assert Bukidnon in AreasUpTo(BukidnonBulletin, 4);
  }

  /**
   * The as-written run on a fresh formatter says `false`, while the page
   * of Bukidnon is missing and the intended result reports it.
   */
  lemma MissingPageDropped(clock: Clock)
    ensures ConvertAsWritten(None, BukidnonRegions, [], BukidnonBulletin, clock).result.issues == NoIssues
    ensures PageNotFound("Bukidnon") in Convert(BukidnonRegions, [], BukidnonBulletin, clock).issues.Reported()
  {
    BukidnonClassifiesQuietly();
    AsWrittenSaysFalseWithoutClassificationIssues(BukidnonRegions, [], BukidnonBulletin, clock);
    BukidnonPageMissing();
    BukidnonListed();
    ConvertReportsEverything(BukidnonRegions, [], BukidnonBulletin, clock);
  }

  // ---------------------------------------------------------------------
  // A whole table: one signal 3 area, in the third region of the table.

  const SampleRegions := [Region("A", None, None, []), Region("B", None, None, []), Region("C", Some("Cp"), None, ["Bukidnon"])]
  const SampleBulletin := Bulletin(false, map[3 := Landmasses(None, None, Some([Bukidnon]), None)])
  const SampleTitles := ["Bukidnon"]
  const SampleHeader := "* '''[[Cp|C]]''' \n"
  const SampleBullet := "** [[Bukidnon]]\n"
  const SampleLevelThree := "\n" + (SampleHeader + SampleBullet)
  /** The PH3 field: the header and the bullet, without the surrounding line breaks. */
  const SampleField := SampleHeader + "** [[Bukidnon]]"

  /** Bukidnon's first region is the third one, and it is signal 3's only area. */
  lemma SampleClassified()
    ensures LevelClassified(SampleRegions, SampleBulletin, 3) == Some(Classify(SampleRegions, [Bukidnon]))
    ensures Unmatched(SampleRegions, [Bukidnon]) == []
    ensures InRegion(SampleRegions, [Bukidnon], 0) == [] && InRegion(SampleRegions, [Bukidnon], 1) == []
    ensures InRegion(SampleRegions, [Bukidnon], 2) == [Bukidnon]
    ensures ClassifyIssues(SampleRegions, [Bukidnon]) == []
  {
    assert FirstRegion(SampleRegions, "Bukidnon") == Some(2);
    assert [Bukidnon][..0] == [];
    assert Mixed(SampleBulletin.stormSignals[3]) == [Bukidnon];
  }

  /** The third region's header: its page, its name, and no designation. */
  lemma SampleRegionHeader()
    ensures RegionHeader(Some(SampleRegions[2])) == SampleHeader
  {
    var r := SampleRegions[2];
    assert r.page == Some("Cp") && r.designation.None? && r.name == "C";
  }

  /** Bukidnon is a listed title, so it is linked directly without an issue. */
  lemma SampleBullets()
    ensures Bullets(SampleTitles, [Bukidnon], "**") == Rendered(SampleBullet, [])
  {
    assert "Bukidnon" in SampleTitles;
    assert BulletLine(SampleTitles, Bukidnon, "**") == Rendered(SampleBullet, []);
    assert [Bukidnon][..0] == [];
  }

  /** Only the third region holds an area, so its block is the only one. */
  lemma SampleBlocks()
    ensures FilterBlocks(SampleTitles, SampleRegions, [Bukidnon], 3) == Rendered(SampleHeader + SampleBullet, [])
  {
    SampleClassified();
    SampleRegionHeader();
    SampleBullets();
    RegionTextParts(SampleTitles, Some(SampleRegions[2]), [Bukidnon]);
    assert FilterBlock(SampleTitles, SampleRegions, [Bukidnon], 0) == Nothing;
    assert FilterBlock(SampleTitles, SampleRegions, [Bukidnon], 1) == Nothing;
    assert FilterBlocks(SampleTitles, SampleRegions, [Bukidnon], 1) == Nothing;
    assert FilterBlocks(SampleTitles, SampleRegions, [Bukidnon], 2) == Nothing;
  }

  /** Signal 3 is written as the third region's block after a line break, with no issue. */
  lemma SampleLevel()
    ensures LevelText(SampleTitles, SampleRegions, Some(Classify(SampleRegions, [Bukidnon]))) == Rendered(SampleLevelThree, [])
  {
    SampleClassified();
    SampleBlocks();
    LevelFromBlocks(SampleTitles, SampleRegions, [Bukidnon], SampleHeader + SampleBullet);
  }

  /** A classified level with no unmatched entry is a line break and its region blocks. */
  lemma LevelFromBlocks(provinces: seq<string>, regions: seq<Region>, entries: seq<Area>, t: string)
    requires Unmatched(regions, entries) == []
    requires FilterBlocks(provinces, regions, entries, |regions|) == Rendered(t, [])
    ensures LevelText(provinces, regions, Some(Classify(regions, entries))) == Rendered("\n" + t, [])
  {
    LevelTextByFilters(provinces, regions, entries);
    assert "\n" + "" + t == "\n" + t;
  }

  /** Levels that record no issue record none together. */
  lemma {:induction false} QuietLevels(rs: seq<Rendered>)
    requires forall i :: 0 <= i < |rs| ==> rs[i].issues == []
    ensures AllIssues(rs) == []
    decreases |rs|
  {
    if rs != [] {
      QuietLevels(rs[..|rs| - 1]);
    }
  }

  /** Only signal 3 is present in the sample bulletin. */
  lemma SampleParsed()
    ensures Reorganized(SampleRegions, SampleBulletin) == [None, None, Some(Classify(SampleRegions, [Bukidnon])), None, None]
  {
    ReorganizedLevels(SampleRegions, SampleBulletin);
    SampleClassified();
  }

  /** When only signal 3 is present and its text records no issue, the other levels are empty. */
  lemma OnlyLevelThree(titles: seq<string>, regions: seq<Region>, parsed: seq<Option<Classified>>, c: Classified, t: string)
    requires KeysBelow(c, |regions|)
    requires parsed == [None, None, Some(c), None, None]
    requires LevelText(titles, regions, Some(c)) == Rendered(t, [])
    ensures WellParsed(regions, parsed)
    ensures Texts(RenderedLevels(titles, regions, parsed)) == ["", "", t, "", ""]
    ensures AllIssues(RenderedLevels(titles, regions, parsed)) == []
  {
    var levels := RenderedLevels(titles, regions, parsed);
    OnlyLevelThreeRendered(titles, regions, parsed, c, t);
    assert Texts(levels) == ["", "", t, "", ""];
    QuietLevels(levels);
  }

  lemma OnlyLevelThreeRendered(titles: seq<string>, regions: seq<Region>, parsed: seq<Option<Classified>>, c: Classified, t: string)
    requires KeysBelow(c, |regions|)
    requires parsed == [None, None, Some(c), None, None]
    requires LevelText(titles, regions, Some(c)) == Rendered(t, [])
    ensures WellParsed(regions, parsed)
    ensures RenderedLevels(titles, regions, parsed) == [Nothing, Nothing, Rendered(t, []), Nothing, Nothing]
  {
  }

  /** The levels as written: only signal 3 has text, and nothing is reported. */
  lemma SampleLevels()
    ensures var levels := RenderedLevels(SampleTitles, SampleRegions, Reorganized(SampleRegions, SampleBulletin));
      && Texts(levels) == ["", "", SampleLevelThree, "", ""]
      && AllIssues(levels) == []
  {
    SampleParsed();
    SampleLevel();
    OnlyLevelThree(SampleTitles, SampleRegions, Reorganized(SampleRegions, SampleBulletin),
      Classify(SampleRegions, [Bukidnon]), SampleLevelThree);
  }

  /** Trimming signal 3's text drops its leading and trailing line breaks. */
  lemma SampleTrimmed()
    ensures Trim(SampleLevelThree) == SampleField
    ensures Trim("") == ""
  {
    var a := SampleField;
    assert SampleHeader + SampleBullet == a + "\n";
    assert SampleLevelThree == "\n" + a + "\n";
    assert a[0] == '*' && a[|a| - 1] == ']';
    TrimLineBreaks(a);
  }

  /** Classifying the sample bulletin records nothing. */
  lemma SampleClassifiesQuietly()
    ensures ClassificationIssues(SampleRegions, SampleBulletin, 5) == []
  {
    SampleClassified();
    assert LevelIssuesOf(SampleRegions, SampleBulletin, 3) == [];
    assert ClassificationIssues(SampleRegions, SampleBulletin, 1) == [];
    assert ClassificationIssues(SampleRegions, SampleBulletin, 2) == [];
    assert ClassificationIssues(SampleRegions, SampleBulletin, 3) == [];
    assert ClassificationIssues(SampleRegions, SampleBulletin, 4) == [];
  }

  /** A run that records nothing and writes text only for signal 3 fills PH3 alone. */
  lemma OnlyFieldThree(regions: seq<Region>, titles: seq<string>, b: Bulletin, clock: Clock, t: string)
    requires !b.typhoonIsNull
    requires ClassificationIssues(regions, b, 5) == []
    requires var levels := RenderedLevels(titles, regions, Reorganized(regions, b));
      Texts(levels) == ["", "", t, "", ""] && AllIssues(levels) == []
    ensures Convert(regions, titles, b, clock)
      == RenderResult(NoIssues, TemplateOpen
        + Field("PHtime", TimeField(clock))
        + Field("PH5", "") + Field("PH4", "") + Field("PH3", Trim(t)) + Field("PH2", "") + Field("PH1", "")
        + TemplateClose)
  {
    assert RunIssues(regions, titles, b) == [];
    TemplateOfLevelThree(clock, t);
  }

  /** The template of five texts of which only signal 3's is non-empty. */
  lemma TemplateOfLevelThree(clock: Clock, t: string)
    ensures Template(["", "", t, "", ""], clock)
      == TemplateOpen
        + Field("PHtime", TimeField(clock))
        + Field("PH5", "") + Field("PH4", "") + Field("PH3", Trim(t)) + Field("PH2", "") + Field("PH1", "")
        + TemplateClose
  {
    assert Trim("") == "";
    FieldsRegrouped(TemplateOpen, Field("PHtime", TimeField(clock)), Field("PH5", ""), Field("PH4", ""),
      Field("PH3", Trim(t)), Field("PH2", ""), Field("PH1", ""), TemplateClose);
  }

  /** The template's lines, between its opening and closing, read as one block or one by one. */
  lemma FieldsRegrouped(open: string, time: string, f5: string, f4: string, f3: string, f2: string, f1: string, close: string)
    ensures open + (time + f5 + f4 + f3 + f2 + f1) + close == open + time + f5 + f4 + f3 + f2 + f1 + close
  {
  }

  /**
   * One signal 3 area whose province the third region lists and whose page
   * exists: the table has the region header and the province bullet in
   * PH3, every other signal field empty, and no issue.
   */
  lemma OneAreaFillsItsField(clock: Clock)
    ensures Convert(SampleRegions, SampleTitles, SampleBulletin, clock)
      == RenderResult(NoIssues, TemplateOpen
        + Field("PHtime", TimeField(clock))
        + Field("PH5", "") + Field("PH4", "") + Field("PH3", SampleField) + Field("PH2", "") + Field("PH1", "")
        + TemplateClose)
  {
    SampleLevels();
    SampleTrimmed();
    SampleClassifiesQuietly();
    OnlyFieldThree(SampleRegions, SampleTitles, SampleBulletin, clock, SampleLevelThree);
  }

  // ---------------------------------------------------------------------
  // The formatter object.

  class PagasaToWikipedia {
    /** The region reference table, loaded once. */
    const regions: seq<Region>
    /** The titles of the province pages, refreshed on every run. */
    var provinces: seq<string>
    /** The issues recorded so far; None while still undefined. */
    var issues: Option<seq<Issue>>

    constructor(regions: seq<Region>)
      ensures this.regions == regions && provinces == [] && issues == None
    {
      this.regions := regions;
      provinces := [];
      issues := None;
    }

    /** `_issue`: create the list when undefined, then push. */
    method AddIssue(issue: Issue)
      modifies this
      ensures issues == Pushed(old(issues), [issue])
      ensures provinces == old(provinces)
    {
      if issues == None {
        issues := Some([]);
      }
      issues := Some(issues.value + [issue]);
    }

    /** `_downloadWikipediaProvinces`, given the titles of the category's members. */
    method DownloadProvinces(titles: seq<string>)
      modifies this
      ensures provinces == titles
      ensures issues == old(issues)
    {
      provinces := [];
      var k := 0;
      while k < |titles|
        invariant k <= |titles|
        invariant provinces == titles[..k]
        invariant issues == old(issues)
      {
        provinces := provinces + [titles[k]];
        k := k + 1;
      }
      assert titles[..k] == titles;
    }

    /**
     * The `this.regions.forEach` pass of `_landmassesToRegions` for one
     * entry: push it onto the bucket of the first region listing its
     * province, and say whether there was one.
     */
    method PlaceInFirstRegion(byRegion: Classified, entry: Area) returns (updated: Classified, regionFound: bool)
      ensures regionFound <==> FirstRegion(regions, entry.province).Some?
      ensures regionFound ==> updated == Place(regions, byRegion, entry)
      ensures !regionFound ==> updated == byRegion
    {
      updated := byRegion;
      regionFound := false;
      ghost var found := 0;
      var index := 0;
      while index < |regions|
        invariant index <= |regions|
        invariant !regionFound ==> updated == byRegion
        invariant !regionFound ==> forall j :: 0 <= j < index ==> entry.province !in regions[j].provinces
        invariant regionFound ==> found < index && entry.province in regions[found].provinces
        invariant regionFound ==> forall j :: 0 <= j < found ==> entry.province !in regions[j].provinces
        invariant regionFound ==> updated == byRegion.(buckets := byRegion.buckets[found := Bucket(byRegion, found) + [entry]])
      {
        if !regionFound && entry.province in regions[index].provinces {
          if index !in updated.buckets {
            updated := updated.(buckets := updated.buckets[index := []]);
          }
          updated := updated.(buckets := updated.buckets[index := updated.buckets[index] + [entry]]);
          regionFound := true;
          found := index;
        }
        index := index + 1;
      }
      if regionFound {
        assert FirstRegion(regions, entry.province) == Some(found);
      }
    }

    /**
     * One turn of the `for (var entry of mixed)` loop of
     * `_landmassesToRegions`: the region pass, then, when no region lists
     * the province, the region-not-found issue (island groups excepted) and
     * the push onto "_".
     */
    method ClassifyEntry(byRegion: Classified, entry: Area) returns (updated: Classified)
      modifies this
      ensures updated == Place(regions, byRegion, entry)
      ensures issues == Pushed(old(issues), EntryIssues(regions, entry))
      ensures provinces == old(provinces)
    {
      var regionFound;
      updated, regionFound := PlaceInFirstRegion(byRegion, entry);
      if !regionFound {
        if !IsIslandName(entry.province) {
          AddIssue(RegionNotFound(entry));
        }
        if updated.unclassified == None {
          updated := updated.(unclassified := Some([]));
        }
        updated := updated.(unclassified := Some(updated.unclassified.value + [entry]));
      }
    }

    /**
     * `_landmassesToRegions`: report flagged extras, then place each area
     * in the first region that lists its province, or in "_".
     */
    method LandmassesToRegions(landmasses: Landmasses) returns (byRegion: Classified)
      modifies this
      ensures byRegion == Classify(regions, Mixed(landmasses))
      ensures issues == Pushed(old(issues), LevelIssues(regions, landmasses))
      ensures provinces == old(provinces)
    {
      var mixed := Mixed(landmasses);
      ghost var extrasIssues: seq<Issue> := [];
      if landmasses.extras.Some? && ExtrasFlagged(landmasses.extras.value) {
        AddIssue(ExtrasDetected(landmasses.extras.value));
        extrasIssues := [ExtrasDetected(landmasses.extras.value)];
      }
      ghost var afterExtras := issues;
      byRegion := NoAreas;
      var n := 0;
      while n < |mixed|
        invariant n <= |mixed|
        invariant byRegion == Classify(regions, mixed[..n])
        invariant issues == Pushed(afterExtras, ClassifyIssues(regions, mixed[..n]))
        invariant provinces == old(provinces)
      {
        ClassifyStep(regions, mixed, n);
        PushedTwice(afterExtras, ClassifyIssues(regions, mixed[..n]), EntryIssues(regions, mixed[n]));
        byRegion := ClassifyEntry(byRegion, mixed[n]);
        n := n + 1;
      }
      assert mixed[..n] == mixed;
      PushedTwice(old(issues), extrasIssues, ClassifyIssues(regions, mixed));
    }

    /** One entry of `_reorganizeSignals`: a present level is classified, an absent one is null. */
    method SignalToRegions(b: Bulletin, level: int) returns (r: Option<Classified>)
      modifies this
      ensures r == LevelClassified(regions, b, level)
      ensures issues == Pushed(old(issues), LevelIssuesOf(regions, b, level))
      ensures provinces == old(provinces)
    {
      if level in b.stormSignals {
        var byRegion := LandmassesToRegions(b.stormSignals[level]);
        r := Some(byRegion);
      } else {
        r := None;
      }
    }

    /** `_reorganizeSignals`: levels 1 to 5, in order. */
    method ReorganizeSignals(b: Bulletin) returns (parsed: seq<Option<Classified>>)
      modifies this
      ensures parsed == Reorganized(regions, b)
      ensures issues == Pushed(old(issues), ClassificationIssues(regions, b, 5))
      ensures provinces == old(provinces)
    {
      ghost var start := issues;
      var s1 := SignalToRegions(b, 1);
      PushedTwice(start, ClassificationIssues(regions, b, 0), LevelIssuesOf(regions, b, 1));
      var s2 := SignalToRegions(b, 2);
      PushedTwice(start, ClassificationIssues(regions, b, 1), LevelIssuesOf(regions, b, 2));
      var s3 := SignalToRegions(b, 3);
      PushedTwice(start, ClassificationIssues(regions, b, 2), LevelIssuesOf(regions, b, 3));
      var s4 := SignalToRegions(b, 4);
      PushedTwice(start, ClassificationIssues(regions, b, 3), LevelIssuesOf(regions, b, 4));
      var s5 := SignalToRegions(b, 5);
      PushedTwice(start, ClassificationIssues(regions, b, 4), LevelIssuesOf(regions, b, 5));
      parsed := [s1, s2, s3, s4, s5];
      ReorganizedLevels(regions, b);
    }

    /** `_getProvinceAsBullet`: the province link, qualified for a partial area, on one bullet line. */
    method GetProvinceAsBullet(v: Area, bulletString: string) returns (line: string)
      modifies this
      ensures line == BulletLine(provinces, v, bulletString).text
      ensures issues == Pushed(old(issues), BulletLine(provinces, v, bulletString).issues)
      ensures provinces == old(provinces)
    {
      var provincePage: Option<string> := Some(v.province);
      if v.province !in provinces && v.province != "Metro Manila" && !IsIslandName(v.province) {
        provincePage := Some(v.province + " (province)");
        if provincePage.value !in provinces {
          AddIssue(PageNotFound(v.province));
          provincePage := None;
        }
      }
      var provinceLink: string;
      if provincePage == None || provincePage.value == "" {
        provinceLink := v.province;
      } else if provincePage.value == v.province {
        provinceLink := "[[" + v.province + "]]";
      } else {
        provinceLink := "[[" + provincePage.value + "|" + v.province + "]]";
      }
      assert provinceLink == ProvinceLink(provinces, v.province).text;
      if !v.part {
        line := bulletString + " " + provinceLink + "\n";
      } else if LowerCaseIs(v.includes.term, "mainland") {
        line := bulletString + " Mainland " + provinceLink + "\n";
      } else if LowerCaseIs(v.includes.term, "rest") {
        line := bulletString + " rest of " + provinceLink + "\n";
      } else {
        line := bulletString + " " + PartText(v.includes.part) + " " + v.includes.term + " of " + provinceLink;
        line := line + LinkMunicipalities(v.includes, v.province);
        line := line + "\n";
      }
    }

    /** `_getRegionsWikitext`: the region header, then a bullet line per area. */
    method GetRegionsWikitext(region: Option<Region>, areas: seq<Area>) returns (out: string)
      modifies this
      ensures out == RegionText(provinces, region, areas).text
      ensures issues == Pushed(old(issues), RegionText(provinces, region, areas).issues)
      ensures provinces == old(provinces)
    {
      var bullet := BulletFor(region);
      var header := RegionHeader(region);
      out := header;
      var i := 0;
      assert Bullets(provinces, areas[..0], bullet) == Nothing;
      while i < |areas|
        invariant i <= |areas|
        invariant out == header + Bullets(provinces, areas[..i], bullet).text
        invariant issues == Pushed(old(issues), Bullets(provinces, areas[..i], bullet).issues)
        invariant provinces == old(provinces)
      {
        ghost var done := Bullets(provinces, areas[..i], bullet);
        ghost var next := BulletLine(provinces, areas[i], bullet);
        BulletsStep(provinces, areas, bullet, i);
        PushedTwice(old(issues), done.issues, next.issues);
        AppendAssoc(header, done.text, next.text);
        var line := GetProvinceAsBullet(areas[i], bullet);
        out := out + line;
        i := i + 1;
      }
      assert areas[..i] == areas;
      RegionTextParts(provinces, region, areas);
    }

    /** One turn of the signal loop of `_toWikitext`: nothing for a null level, else its blocks after a line break. */
    method LevelToWikitext(level: Option<Classified>) returns (text: string)
      requires level.Some? ==> KeysBelow(level.value, |regions|)
      modifies this
      ensures text == LevelText(provinces, regions, level).text
      ensures issues == Pushed(old(issues), LevelText(provinces, regions, level).issues)
      ensures provinces == old(provinces)
    {
      text := "";
      if level == None {
        return;
      }
      var c := level.value;
      text := "\n";
      if c.unclassified.Some? {
        var block := GetRegionsWikitext(None, c.unclassified.value);
        text := text + block;
      }
      text := AppendRegionBlocks(c, text);
      PushedTwice(old(issues), UnclassifiedBlock(provinces, c).issues, RegionBlocks(provinces, regions, c, |regions|).issues);
      LevelTextParts(provinces, regions, c);
    }

    /** The `forEach` over a level's region buckets, in ascending key order: appends each bucket's block to `head`. */
    method AppendRegionBlocks(c: Classified, head: string) returns (text: string)
      modifies this
      ensures text == head + RegionBlocks(provinces, regions, c, |regions|).text
      ensures issues == Pushed(old(issues), RegionBlocks(provinces, regions, c, |regions|).issues)
      ensures provinces == old(provinces)
    {
      text := head;
      var regionId := 0;
      while regionId < |regions|
        invariant regionId <= |regions|
        invariant text == head + RegionBlocks(provinces, regions, c, regionId).text
        invariant issues == Pushed(old(issues), RegionBlocks(provinces, regions, c, regionId).issues)
        invariant provinces == old(provinces)
      {
        ghost var done := RegionBlocks(provinces, regions, c, regionId);
        ghost var next := RegionBlock(provinces, regions, c, regionId);
        PushedTwice(old(issues), done.issues, next.issues);
        AppendAssoc(head, done.text, next.text);
        if regionId in c.buckets {
          var block := GetRegionsWikitext(Some(regions[regionId]), c.buckets[regionId]);
          text := text + block;
        } else {
          assert text == head + (done.text + next.text);
        }
        regionId := regionId + 1;
      }
    }

    /** `_toWikitext`: the text of each level, level 1 first. */
    method ToWikitext(parsedTCWS: seq<Option<Classified>>) returns (signalsWikitext: seq<string>)
      requires |parsedTCWS| == 5 && WellParsed(regions, parsedTCWS)
      modifies this
      ensures signalsWikitext == Texts(RenderedLevels(provinces, regions, parsedTCWS))
      ensures issues == Pushed(old(issues), AllIssues(RenderedLevels(provinces, regions, parsedTCWS)))
      ensures provinces == old(provinces)
    {
      ghost var levels := RenderedLevels(provinces, regions, parsedTCWS);
      signalsWikitext := [];
      var signal := 1;
      while signal <= 5
        invariant 1 <= signal <= 6
        invariant signalsWikitext == Texts(levels[..signal - 1])
        invariant issues == Pushed(old(issues), AllIssues(levels[..signal - 1]))
        invariant provinces == old(provinces)
      {
        LevelsStep(levels, signal - 1);
        PushedTwice(old(issues), AllIssues(levels[..signal - 1]), levels[signal - 1].issues);
        var text := LevelToWikitext(parsedTCWS[signal - 1]);
        signalsWikitext := signalsWikitext + [text];
        signal := signal + 1;
      }
      assert levels[..5] == levels;
    }

    /**
     * `getWarningSignalsTemplate` on a bulletin, given the titles of the
     * province pages and the issue time. The result's `issues` is taken
     * before the levels are rendered.
     */
    method GetWarningSignalsTemplate(bulletin: Bulletin, titles: seq<string>, clock: Clock) returns (result: RenderResult)
      modifies this
      ensures Run(result, issues) == ConvertAsWritten(old(issues), regions, titles, bulletin, clock)
      ensures provinces == if bulletin.typhoonIsNull then old(provinces) else titles
    {
      if bulletin.typhoonIsNull {
        result := NoTyphoonResult;
        return;
      }
      DownloadProvinces(titles);
      var parsedTCWS := ReorganizeSignals(bulletin);
      var issuesField := issues;
      var signals := ToWikitext(parsedTCWS);
      var template := Template(signals, clock);
      result := RenderResult(if issuesField.Some? then IssueList(issues.value) else NoIssues, template);
    }
  }
}
