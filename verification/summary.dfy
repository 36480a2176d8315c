/** The headline metrics, the two histograms of the chart column, and the
    ranked county table with its per-county disaster counts. */
module Summary {
  import opened Records
  import opened Seqs
  import opened CountyFilter
  import opened DisasterJoin
  import opened MapLayers

  /** Shown as the disaster total when the disaster table did not load. */
  const FallbackDisasterTotal: nat := 211

  function CategoryOf(c: County): string {
    c.category
  }

  function TrendOf(c: County): string {
    c.trend
  }

  /** The number of `High` counties in the whole, unfiltered table: the length
      of the table restricted to its `High` rows. */
  function HighRiskCount(df: seq<County>): (n: nat)
    ensures n == |Filter(df, CategoryMask(High))|
    ensures n <= |df|
    ensures n > 0 <==> exists i :: 0 <= i < |df| && df[i].category == High
  {
    CountKeyIsFilterLength(df, CategoryOf, High, CategoryMask(High));
    CountKey(df, CategoryOf, High)
  }

  /** The headline count ignores the sidebar: whatever the selection, no more
      `High` counties are shown than it reports. */
  lemma HighRiskCountBoundsFiltered(df: seq<County>, sel: Selection)
    ensures HighRiskCount(FilterCounties(df, sel)) <= HighRiskCount(df)
  {
    var shown := FilterCounties(df, sel);
    var isHigh := CategoryMask(High);
    FilterKeepsOrder(df, sel);
    CountKeyIsFilterLength(shown, CategoryOf, High, isHigh);
    CountKeyIsFilterLength(df, CategoryOf, High, isHigh);
    FilterIsSubsequence(shown, isHigh);
    SubsequenceTransitive(Filter(shown, isHigh), shown, df);
    SubsequenceOfMatching(Filter(shown, isHigh), df, isHigh);
    SubsequenceLength(Filter(shown, isHigh), Filter(df, isHigh));
  }

  /** The disaster total: the number of rows of the disaster table, or the
      fixed fallback when it did not load. A loaded total bounds the count
      of every county popup. */
  function DisasterTotal(fema: Option<seq<Disaster>>): (n: nat)
    ensures fema.Some? ==> n == |fema.value|
    ensures fema.Some? ==> forall name :: CountKey(fema.value, NameOf, name) <= n
    ensures fema.None? ==> n == FallbackDisasterTotal
  {
    match fema
    case Some(ds) => |ds|
    case None => FallbackDisasterTotal
  }

  /** The category histogram of the pie chart: every category present among
      the shown counties with its count; absent categories get no entry. */
  function CategoryHistogram(cs: seq<County>): (h: map<string, nat>)
    ensures forall k :: k in h ==> h[k] > 0 && h[k] == CountKey(cs, CategoryOf, k)
    ensures forall c :: c in cs ==> c.category in h
  {
    Tally(cs, CategoryOf)
  }

  /** The trend histogram of the bar chart, built the same way. */
  function TrendHistogram(cs: seq<County>): (h: map<string, nat>)
    ensures forall k :: k in h ==> h[k] > 0 && h[k] == CountKey(cs, TrendOf, k)
    ensures forall c :: c in cs ==> c.trend in h
  {
    Tally(cs, TrendOf)
  }

  /** Each histogram accounts for every shown county exactly once. */
  lemma HistogramsCoverShownCounties(cs: seq<County>)
    ensures Total(CategoryHistogram(cs)) == |cs|
    ensures Total(TrendHistogram(cs)) == |cs|
  {
    TallyTotal(cs, CategoryOf);
    TallyTotal(cs, TrendOf);
  }

  /** One row of the ranking table. `federalDisasters` is absent when the
      disaster table did not load (the column is not added then). */
  datatype RankRow = RankRow(
    rank: nat,
    county: string,
    score: real,
    category: string,
    trend: string,
    atRisk: real,
    wuiPct: real,
    federalDisasters: Option<nat>)

  /** The value the left merge puts in a row: the county's group size, or 0 when
      the county has no disaster rows. */
  function MergedCount(counts: map<string, nat>, name: string): nat {
    if name in counts then counts[name] else 0
  }

  /** The left merge with `fillna(0)` agrees with the name join: a county with
      no disaster rows gets 0, any other its number of rows. */
  lemma MergedCountIsJoinLength(ds: seq<Disaster>, name: string)
    ensures MergedCount(Tally(ds, NameOf), name) == |CountyDisasters(ds, name)|
  {
    GroupCountIsJoinLength(ds, name);
  }

  /** The ranking table: one row per shown county, in filter order, ranked
      1..n, with the disaster count of the group-by merge. */
  function RankingTable(cs: seq<County>, fema: Option<seq<Disaster>>): (rows: seq<RankRow>)
    ensures |rows| == |cs|
    ensures forall i :: 0 <= i < |rows| ==> rows[i].rank == i + 1
    ensures forall i :: 0 <= i < |rows| ==>
      && rows[i].county == cs[i].name
      && rows[i].score == cs[i].score
      && rows[i].category == cs[i].category
      && rows[i].trend == cs[i].trend
      && rows[i].atRisk == cs[i].atRisk
      && rows[i].wuiPct == cs[i].wuiPct
    ensures fema.None? ==> forall i :: 0 <= i < |rows| ==> rows[i].federalDisasters.None?
    ensures fema.Some? ==> forall i :: 0 <= i < |rows| ==>
      rows[i].federalDisasters == Some(|CountyDisasters(fema.value, cs[i].name)|)
  {
    var counts: Option<map<string, nat>> := match fema
      case Some(ds) => Some(Tally(ds, NameOf))
      case None => None;
    var rows := seq(|cs|, i requires 0 <= i < |cs| =>
      var c := cs[i];
      RankRow(i + 1, c.name, c.score, c.category, c.trend, c.atRisk, c.wuiPct,
              match counts case Some(m) => Some(MergedCount(m, c.name)) case None => None));
    assert fema.Some? ==> forall i :: 0 <= i < |rows| ==>
      rows[i].federalDisasters == Some(|CountyDisasters(fema.value, cs[i].name)|) by {
      if fema.Some? {
        forall i | 0 <= i < |rows|
          ensures rows[i].federalDisasters == Some(|CountyDisasters(fema.value, cs[i].name)|)
        {
          MergedCountIsJoinLength(fema.value, cs[i].name);
        }
      }
    }
    rows
  }

  /** The table and the popups agree: a row's disaster count is the count in
      the popup of the same county. */
  lemma RankingAgreesWithPopups(cs: seq<County>, fema: Option<seq<Disaster>>, i: nat)
    requires fema.Some? && i < |cs|
    ensures RankingTable(cs, fema)[i].federalDisasters == Some(PopupFor(cs[i], fema).disasterCount)
  {
    GroupCountIsJoinLength(fema.value, cs[i].name);
  }
}
