/**
 * The area classifier: the three landmass lists of one signal level are
 * concatenated and every entry is put in the bucket of the first region, in
 * reference-table order, that lists its province, or in the unclassified
 * bucket ("_" in the source). This module is the specification the
 * imperative `PagasaToWikipedia.LandmassesToRegions` is proved against.
 */
module Classifier {
  import opened Wrappers
  import opened JsStrings
  import opened Bulletin

  /**
   * The classified areas of one level: the "_" bucket, present only when
   * some entry matched no region, and the region buckets keyed by table
   * index, each present only once an entry was pushed into it.
   */
  datatype Classified = Classified(unclassified: Option<seq<Area>>, buckets: map<nat, seq<Area>>)

  /** Every bucket key is an index into a table of `count` regions. */
  predicate KeysBelow(c: Classified, count: nat)
  {
    forall k :: k in c.buckets ==> k < count
  }

  /** The search of the region table from index `from` on. */
  function FirstRegionFrom(regions: seq<Region>, province: string, from: nat): (r: Option<nat>)
    requires from <= |regions|
    ensures r.Some? ==> from <= r.value < |regions| && province in regions[r.value].provinces
    ensures r.Some? ==> forall j :: from <= j < r.value ==> province !in regions[j].provinces
    ensures r.None? ==> forall j :: from <= j < |regions| ==> province !in regions[j].provinces
    decreases |regions| - from
  {
    if from == |regions| then None
    else if province in regions[from].provinces then Some(from)
    else FirstRegionFrom(regions, province, from + 1)
  }

  /** The lowest index of a region whose province list contains `province`. */
  function FirstRegion(regions: seq<Region>, province: string): (r: Option<nat>)
    ensures r.Some? ==> r.value < |regions| && province in regions[r.value].provinces
    ensures r.Some? ==> forall j :: 0 <= j < r.value ==> province !in regions[j].provinces
    ensures r.None? <==> forall j :: 0 <= j < |regions| ==> province !in regions[j].provinces
  {
    FirstRegionFrom(regions, province, 0)
  }

  function OrEmpty(list: Option<seq<Area>>): seq<Area>
  {
    list.GetOr([])
  }

  /** luzon, then visayas, then mindanao; a null or missing list adds nothing. */
  function Mixed(l: Landmasses): (r: seq<Area>)
    ensures |r| == |OrEmpty(l.luzon)| + |OrEmpty(l.visayas)| + |OrEmpty(l.mindanao)|
  {
    OrEmpty(l.luzon) + OrEmpty(l.visayas) + OrEmpty(l.mindanao)
  }

  /** The contents of bucket `k`, empty when the key is absent. */
  function Bucket(c: Classified, k: nat): seq<Area>
  {
    if k in c.buckets then c.buckets[k] else []
  }

  function Unclassified(c: Classified): seq<Area>
  {
    c.unclassified.GetOr([])
  }

  const NoAreas := Classified(None, map[])

  /** One turn of the classifier loop: push `e` onto its bucket. */
  function Place(regions: seq<Region>, c: Classified, e: Area): (r: Classified)
  {
    match FirstRegion(regions, e.province)
    case Some(k) => c.(buckets := c.buckets[k := Bucket(c, k) + [e]])
    case None => c.(unclassified := Some(Unclassified(c) + [e]))
  }

  /** The buckets after classifying `entries` in order. */
  function Classify(regions: seq<Region>, entries: seq<Area>): (r: Classified)
    ensures KeysBelow(r, |regions|)
    decreases |entries|
  {
    if entries == [] then NoAreas
    else Place(regions, Classify(regions, entries[..|entries| - 1]), entries[|entries| - 1])
  }

  /** The issues the classifier loop appends for `entries`. */
  function ClassifyIssues(regions: seq<Region>, entries: seq<Area>): seq<Issue>
    decreases |entries|
  {
    if entries == [] then []
    else
      ClassifyIssues(regions, entries[..|entries| - 1]) + EntryIssues(regions, entries[|entries| - 1])
  }

  /** The issue the loop records for one entry: none unless no region lists it and it is not an island group. */
  function EntryIssues(regions: seq<Region>, e: Area): seq<Issue>
  {
    if FirstRegion(regions, e.province).None? && !IsIslandName(e.province) then [RegionNotFound(e)] else []
  }

  /** The issues one signal level's classification appends: the extras test first, then the loop's. */
  function LevelIssues(regions: seq<Region>, l: Landmasses): seq<Issue>
  {
    (if l.extras.Some? && ExtrasFlagged(l.extras.value) then [ExtrasDetected(l.extras.value)] else [])
      + ClassifyIssues(regions, Mixed(l))
  }

  // ---------------------------------------------------------------------
  // Reference definitions: the buckets as filters of the input.

  /** The entries, in input order, whose first matching region is `k`. */
  function InRegion(regions: seq<Region>, entries: seq<Area>, k: nat): seq<Area>
    decreases |entries|
  {
    if entries == [] then []
    else
      var e := entries[|entries| - 1];
      InRegion(regions, entries[..|entries| - 1], k)
        + (if FirstRegion(regions, e.province) == Some(k) then [e] else [])
  }

  /** The entries, in input order, that match no region. */
  function Unmatched(regions: seq<Region>, entries: seq<Area>): seq<Area>
    decreases |entries|
  {
    if entries == [] then []
    else
      var e := entries[|entries| - 1];
      Unmatched(regions, entries[..|entries| - 1])
        + (if FirstRegion(regions, e.province).None? then [e] else [])
  }

  /** The buckets in rendering order: "_" first, then regions 0 .. n-1. */
  function Flatten(c: Classified, n: nat): seq<Area>
  {
    Unclassified(c) + RegionBuckets(c, n)
  }

  function RegionBuckets(c: Classified, n: nat): seq<Area>
  {
    if n == 0 then [] else RegionBuckets(c, n - 1) + Bucket(c, n - 1)
  }

  // ---------------------------------------------------------------------
  // Properties.

  /** Each region bucket is the input filtered by first match, in input order. */
  lemma {:induction false} ClassifyBucketsAreFilters(regions: seq<Region>, entries: seq<Area>)
    ensures forall k :: Bucket(Classify(regions, entries), k) == InRegion(regions, entries, k)
    decreases |entries|
  {
    if entries != [] {
      var init := entries[..|entries| - 1];
      var e := entries[|entries| - 1];
      ClassifyBucketsAreFilters(regions, init);
      assert Classify(regions, entries) == Place(regions, Classify(regions, init), e);
      forall k
        ensures Bucket(Classify(regions, entries), k) == InRegion(regions, entries, k)
      {
        PlaceBucket(regions, Classify(regions, init), e, k);
      }
    }
  }

  /** A region bucket is present only when it holds an entry. */
  lemma {:induction false} ClassifyBucketsPresent(regions: seq<Region>, entries: seq<Area>)
    ensures forall k :: k in Classify(regions, entries).buckets <==> Bucket(Classify(regions, entries), k) != []
    decreases |entries|
  {
    if entries != [] {
      var init := entries[..|entries| - 1];
      var e := entries[|entries| - 1];
      ClassifyBucketsPresent(regions, init);
      assert Classify(regions, entries) == Place(regions, Classify(regions, init), e);
    }
  }

  /** The "_" bucket is the unmatched entries in input order, present only when there are some. */
  lemma {:induction false} ClassifyUnclassified(regions: seq<Region>, entries: seq<Area>)
    ensures Classify(regions, entries).unclassified
      == if Unmatched(regions, entries) == [] then None else Some(Unmatched(regions, entries))
    decreases |entries|
  {
    if entries != [] {
      var init := entries[..|entries| - 1];
      var e := entries[|entries| - 1];
      var before := Classify(regions, init);
      ClassifyUnclassified(regions, init);
      assert Classify(regions, entries) == Place(regions, before, e);
      assert Unclassified(before) == Unmatched(regions, init);
      if FirstRegion(regions, e.province).None? {
        assert Unmatched(regions, entries) == Unmatched(regions, init) + [e];
      } else {
        assert Unmatched(regions, entries) == Unmatched(regions, init);
      }
    }
  }

  /**
   * Each region bucket is exactly the input filtered by first match, in
   * input order, and is present only when non-empty; the "_" bucket is the
   * unmatched entries in input order, present only when there are some.
   */
  lemma ClassifyIsFilter(regions: seq<Region>, entries: seq<Area>)
    ensures forall k :: Bucket(Classify(regions, entries), k) == InRegion(regions, entries, k)
    ensures forall k :: k in Classify(regions, entries).buckets <==> InRegion(regions, entries, k) != []
    ensures Classify(regions, entries).unclassified
      == if Unmatched(regions, entries) == [] then None else Some(Unmatched(regions, entries))
  {
    ClassifyBucketsAreFilters(regions, entries);
    ClassifyBucketsPresent(regions, entries);
    ClassifyUnclassified(regions, entries);
  }

  /** Membership in a filter: an entry is in bucket `k` exactly when `k` is its first matching region. */
  lemma {:induction false} InRegionMembers(regions: seq<Region>, entries: seq<Area>, k: nat)
    ensures forall x :: x in InRegion(regions, entries, k) <==> x in entries && FirstRegion(regions, x.province) == Some(k)
    decreases |entries|
  {
    if entries != [] {
      var init := entries[..|entries| - 1];
      InRegionMembers(regions, init, k);
      assert entries == init + [entries[|entries| - 1]];
    }
  }

  /** Membership in the "_" bucket: exactly the entries no region lists. */
  lemma {:induction false} UnmatchedMembers(regions: seq<Region>, entries: seq<Area>)
    ensures forall x :: x in Unmatched(regions, entries) <==> x in entries && FirstRegion(regions, x.province).None?
    decreases |entries|
  {
    if entries != [] {
      var init := entries[..|entries| - 1];
      UnmatchedMembers(regions, init);
      assert entries == init + [entries[|entries| - 1]];
    }
  }

  /**
   * First match: an entry sits in the bucket of a region that lists its
   * province, no earlier region lists it, and it sits in no other bucket.
   */
  lemma FirstMatchWins(regions: seq<Region>, entries: seq<Area>, x: Area, k: nat)
    requires x in Bucket(Classify(regions, entries), k)
    ensures k < |regions| && x.province in regions[k].provinces
    ensures forall j :: 0 <= j < k ==> x.province !in regions[j].provinces
    ensures forall j :: j != k ==> x !in Bucket(Classify(regions, entries), j)
    ensures x !in Unclassified(Classify(regions, entries))
  {
    ClassifyIsFilter(regions, entries);
    InRegionMembers(regions, entries, k);
    UnmatchedMembers(regions, entries);
    forall j | j != k
      ensures x !in Bucket(Classify(regions, entries), j)
    {
      InRegionMembers(regions, entries, j);
    }
  }

  /** Placing `e` adds it to the end of its own bucket and leaves every other bucket as it was. */
  lemma PlaceBucket(regions: seq<Region>, c: Classified, e: Area, j: nat)
    ensures Bucket(Place(regions, c, e), j)
      == if FirstRegion(regions, e.province) == Some(j) then Bucket(c, j) + [e] else Bucket(c, j)
  {
  }

  /** Buckets `lo` .. `hi - 1` in index order. */
  function Segment(c: Classified, lo: nat, hi: nat): seq<Area>
    requires lo <= hi
    decreases hi - lo
  {
    if lo == hi then [] else Bucket(c, lo) + Segment(c, lo + 1, hi)
  }

  lemma {:induction false} RegionBucketsSplit(c: Classified, lo: nat, n: nat)
    requires lo <= n
    ensures RegionBuckets(c, n) == RegionBuckets(c, lo) + Segment(c, lo, n)
    decreases n - lo
  {
    if lo < n {
      RegionBucketsSplit(c, lo + 1, n);
      assert RegionBuckets(c, lo + 1) == RegionBuckets(c, lo) + Bucket(c, lo);
    }
  }

  lemma {:induction false} SegmentSame(c: Classified, c': Classified, lo: nat, hi: nat)
    requires lo <= hi
    requires forall j :: lo <= j < hi ==> Bucket(c', j) == Bucket(c, j)
    ensures Segment(c', lo, hi) == Segment(c, lo, hi)
    decreases hi - lo
  {
    if lo < hi {
      SegmentSame(c, c', lo + 1, hi);
    }
  }

  lemma MultisetInsert<T>(x: seq<T>, b: seq<T>, y: seq<T>, e: T)
    ensures multiset(x + (b + [e]) + y) == multiset(x + b + y) + multiset{e}
  {
    assert x + (b + [e]) + y == (x + b) + ([e] + y);
  }

  lemma {:induction false} RegionBucketsAgree(c: Classified, c': Classified, n: nat)
    requires forall j: nat :: j < n ==> Bucket(c', j) == Bucket(c, j)
    ensures RegionBuckets(c', n) == RegionBuckets(c, n)
    decreases n
  {
    if n > 0 {
      RegionBucketsAgree(c, c', n - 1);
    }
  }

  /** Growing bucket `k < n` by `e` grows the region buckets, in index order, by `e`. */
  lemma RegionBucketsGrow(c: Classified, c': Classified, e: Area, k: nat, n: nat)
    requires forall j :: j != k ==> Bucket(c', j) == Bucket(c, j)
    requires Bucket(c', k) == Bucket(c, k) + [e]
    requires k < n
    ensures multiset(RegionBuckets(c', n)) == multiset(RegionBuckets(c, n)) + multiset{e}
  {
    var x, b, y := RegionBuckets(c, k), Bucket(c, k), Segment(c, k + 1, n);
    RegionBucketsSplit(c, k, n);
    RegionBucketsSplit(c', k, n);
    RegionBucketsAgree(c, c', k);
    SegmentSame(c, c', k + 1, n);
    assert RegionBuckets(c, n) == x + (b + y);
    assert RegionBuckets(c', n) == x + ((b + [e]) + y);
  }

  lemma {:induction false} RegionBucketsSame(c: Classified, c': Classified, n: nat)
    requires c'.buckets == c.buckets
    ensures RegionBuckets(c', n) == RegionBuckets(c, n)
    decreases n
  {
    if n > 0 {
      RegionBucketsSame(c, c', n - 1);
    }
  }

  lemma {:induction false} NoBuckets(c: Classified, n: nat)
    requires c.buckets == map[]
    ensures RegionBuckets(c, n) == []
    decreases n
  {
    if n > 0 {
      NoBuckets(c, n - 1);
    }
  }

  lemma PlaceUnmatchedAddsOne(regions: seq<Region>, c: Classified, e: Area)
    requires FirstRegion(regions, e.province).None?
    ensures multiset(Flatten(Place(regions, c, e), |regions|)) == multiset(Flatten(c, |regions|)) + multiset{e}
  {
    var c', n := Place(regions, c, e), |regions|;
    var u, rest := Unclassified(c), RegionBuckets(c, n);
    RegionBucketsSame(c, c', n);
    MultisetInsert([], u, rest, e);
    assert Flatten(c', n) == [] + (u + [e]) + rest;
    assert Flatten(c, n) == [] + u + rest;
  }

  lemma PlaceMatchedAddsOne(regions: seq<Region>, c: Classified, e: Area, k: nat)
    requires FirstRegion(regions, e.province) == Some(k)
    ensures multiset(Flatten(Place(regions, c, e), |regions|)) == multiset(Flatten(c, |regions|)) + multiset{e}
  {
    var c' := Place(regions, c, e);
    forall j
      ensures Bucket(c', j) == if j == k then Bucket(c, j) + [e] else Bucket(c, j)
    {
      PlaceBucket(regions, c, e, j);
    }
    RegionBucketsGrow(c, c', e, k, |regions|);
    assert Unclassified(c') == Unclassified(c);
  }

  /** One turn of the loop adds `e` to the buckets, read in rendering order. */
  lemma PlaceAddsOne(regions: seq<Region>, c: Classified, e: Area)
    ensures multiset(Flatten(Place(regions, c, e), |regions|)) == multiset(Flatten(c, |regions|)) + multiset{e}
  {
    match FirstRegion(regions, e.province)
    case None => PlaceUnmatchedAddsOne(regions, c, e);
    case Some(k) => PlaceMatchedAddsOne(regions, c, e, k);
  }

  /** The buckets, read in rendering order, hold the input's entries as a multiset. */
  lemma {:induction false} ClassifyKeepsEntries(regions: seq<Region>, entries: seq<Area>)
    ensures multiset(Flatten(Classify(regions, entries), |regions|)) == multiset(entries)
    decreases |entries|
  {
    if entries == [] {
      NoBuckets(NoAreas, |regions|);
    } else {
      var init, e := entries[..|entries| - 1], entries[|entries| - 1];
      var before := Classify(regions, init);
      ClassifyKeepsEntries(regions, init);
      assert Classify(regions, entries) == Place(regions, before, e);
      PlaceAddsOne(regions, before, e);
      assert entries == init + [e];
    }
  }

  /**
   * The classifier partitions its input: the buckets, read in rendering
   * order, hold every entry exactly as often as the input does, so their
   * sizes add up to the input length.
   */
  lemma ClassifyPartition(regions: seq<Region>, entries: seq<Area>)
    ensures multiset(Flatten(Classify(regions, entries), |regions|)) == multiset(entries)
    ensures |Flatten(Classify(regions, entries), |regions|)| == |entries|
  {
    ClassifyKeepsEntries(regions, entries);
    assert |multiset(Flatten(Classify(regions, entries), |regions|))| == |multiset(entries)|;
  }

  /**
   * "Region for P not found." is recorded exactly for the entries that no
   * region lists and whose province does not end in "Island"/"Islands",
   * and the loop records nothing else.
   */
  lemma {:induction false} ClassifyIssuesExact(regions: seq<Region>, entries: seq<Area>)
    ensures forall i :: i in ClassifyIssues(regions, entries) ==> i.RegionNotFound?
    ensures forall x :: RegionNotFound(x) in ClassifyIssues(regions, entries) <==>
      x in entries && FirstRegion(regions, x.province).None? && !IsIslandName(x.province)
    ensures |ClassifyIssues(regions, entries)| <= |Unmatched(regions, entries)|
    decreases |entries|
  {
    if entries != [] {
      var init := entries[..|entries| - 1];
      ClassifyIssuesExact(regions, init);
      assert entries == init + [entries[|entries| - 1]];
    }
  }

  /**
   * How often "Region for P not found." is recorded for an entry: as often
   * as the entry occurs in the input when no region lists it and it is not
   * an island group, and never otherwise.
   */
  lemma {:induction false} ClassifyIssuesCount(regions: seq<Region>, entries: seq<Area>)
    ensures forall x ::
              multiset(ClassifyIssues(regions, entries))[RegionNotFound(x)]
              == if FirstRegion(regions, x.province).None? && !IsIslandName(x.province) then multiset(entries)[x] else 0
    decreases |entries|
  {
    if entries != [] {
      var init, e := entries[..|entries| - 1], entries[|entries| - 1];
      ClassifyIssuesCount(regions, init);
      assert entries == init + [e];
      assert multiset(ClassifyIssues(regions, entries)) == multiset(ClassifyIssues(regions, init)) + multiset(EntryIssues(regions, e));
    }
  }

  /** One more entry: the classification and the issues of a prefix one entry longer. */
  lemma ClassifyStep(regions: seq<Region>, entries: seq<Area>, n: nat)
    requires n < |entries|
    ensures Classify(regions, entries[..n + 1]) == Place(regions, Classify(regions, entries[..n]), entries[n])
    ensures ClassifyIssues(regions, entries[..n + 1]) == ClassifyIssues(regions, entries[..n]) + EntryIssues(regions, entries[n])
  {
    assert entries[..n + 1][..n] == entries[..n];
  }
}
