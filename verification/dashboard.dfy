/** One render pass of the dashboard: the filter, the three map layers, the
    caption, the metrics, the histograms and the ranking table, computed
    from the loaded tables and the sidebar selection. */
module Dashboard {
  import opened Records
  import opened Seqs
  import opened Fips
  import opened Styles
  import opened CountyFilter
  import opened DisasterJoin
  import opened MapLayers
  import opened Summary

  /** Everything the sidebar supplies: the selection, the marker switch and the year window. */
  datatype Controls = Controls(sel: Selection, showMarkers: bool, fromYear: int, toYear: int)

  datatype View = View(
    shownCount: nat,
    caption: Caption,
    choropleth: ChoroplethLayer,
    cluster: Option<seq<ClusterPoint>>,
    markers: seq<InfoMarker>,
    highRiskCounties: nat,
    disasterTotal: nat,
    categoryCounts: map<string, nat>,
    trendCounts: map<string, nat>,
    ranking: seq<RankRow>)

  /** The render pass. `fema` is None when the disaster table failed to load. */
  function Render(df: seq<County>, fs: seq<Feature>, fema: Option<seq<Disaster>>, ui: Controls): (v: View)
    ensures v.shownCount == |v.ranking| <= |df|
    ensures |v.markers| <= v.shownCount
    ensures v.highRiskCounties == HighRiskCount(df)
    ensures v.cluster.Some? <==> ui.showMarkers && fema.Some?
  {
    var shown := FilterCounties(df, ui.sel);
    FilterKeepsOrder(df, ui.sel);
    SubsequenceLength(shown, df);
    MarkersFollowCounties(shown, fs, fema);
    View(
      |shown|,
      CaptionFor(ui.sel.trend, ui.sel.risk),
      ChoroplethLayerFor(shown, ui.sel),
      ClusterLayer(ui.showMarkers, fema, ui.fromYear, ui.toYear),
      InfoMarkers(shown, fs, fema),
      HighRiskCount(df),
      DisasterTotal(fema),
      CategoryHistogram(shown),
      TrendHistogram(shown),
      RankingTable(shown, fema))
  }

  /** The year window only scopes the point layer: every other part of the
      view, the popup counts included, is the same for any two windows. */
  lemma YearWindowOnlyScopesPoints(df: seq<County>, fs: seq<Feature>, fema: Option<seq<Disaster>>, ui: Controls, fromYear: int, toYear: int)
    ensures Render(df, fs, fema, ui).(cluster := None) == Render(df, fs, fema, ui.(fromYear := fromYear, toYear := toYear)).(cluster := None)
  {
  }

  /** Narrowing the year window never adds a point to the cluster layer. */
  lemma NarrowerWindowFewerPoints(df: seq<County>, fs: seq<Feature>, ds: seq<Disaster>, ui: Controls, fromYear: int, toYear: int)
    requires ui.showMarkers
    requires ui.fromYear <= fromYear && toYear <= ui.toYear
    ensures |Render(df, fs, Some(ds), ui.(fromYear := fromYear, toYear := toYear)).cluster.value|
         <= |Render(df, fs, Some(ds), ui).cluster.value|
  {
    NarrowingWindowNeverAddsPoints(ds, ui.fromYear, ui.toYear, fromYear, toYear);
  }

  const ScenarioCounty := County(53001, "Adams", 20000, 5000.0, 25.0, 72.0, High, WarmingDrying)
  const ScenarioDisaster := Disaster("Adams", "Fire", 2020, 737790, 5001, Some(46.98), Some(-118.56))
  const ScenarioFeature := Feature("53001", Some(46.98), Some(-118.56))

  lemma ScenarioMarkers()
    ensures |InfoMarkers([ScenarioCounty], [ScenarioFeature], Some([ScenarioDisaster]))| == 1
    ensures InfoMarkers([ScenarioCounty], [ScenarioFeature], Some([ScenarioDisaster]))[0]
         == MarkerFor(ScenarioCounty, [ScenarioFeature], Some([ScenarioDisaster])).value
  {
    assert DecimalString(53001) == "53001";
    assert Matches(ScenarioFeature, ScenarioCounty);
    assert [ScenarioFeature][0] == ScenarioFeature;
    assert HasGeometry([ScenarioFeature], ScenarioCounty);
    assert [ScenarioCounty][1..] == [];
  }

  lemma ScenarioPopup()
    ensures PopupFor(ScenarioCounty, Some([ScenarioDisaster])).disasterCount == 1
  {
    assert CountyDisasters([ScenarioDisaster], "Adams") == [ScenarioDisaster];
  }

  lemma ScenarioCluster()
    ensures ClusterLayer(true, Some([ScenarioDisaster]), 2019, 2021) == Some([ClusterPoint(46.98, -118.56, ScenarioDisaster)])
  {
    assert PointDisasters([ScenarioDisaster], 2019, 2021) == [ScenarioDisaster];
    var r := ClusterLayer(true, Some([ScenarioDisaster]), 2019, 2021);
    assert |r.value| == 1;
    assert r.value[0] == ClusterPoint(46.98, -118.56, ScenarioDisaster);
    assert r.value == [ClusterPoint(46.98, -118.56, ScenarioDisaster)];
  }

  /** A worked pass: one `High`, warming county of 20 000 people with one
      located disaster in 2020, viewed over 2019-2021 with the warming trend
      selected. */
  lemma SingleCountyScenario()
    ensures
      var v := Render([ScenarioCounty], [ScenarioFeature], Some([ScenarioDisaster]), Controls(Selection(All, WarmingDrying, 0), true, 2019, 2021));
      && v.shownCount == 1
      && v.cluster == Some([ClusterPoint(46.98, -118.56, ScenarioDisaster)])
      && |v.markers| == 1
      && v.markers[0].popup.disasterCount == 1
      && v.markers[0].color == DarkRed
      && v.choropleth.style == ChoroplethStyle(Reds, 0.8)
      && v.ranking[0].federalDisasters == Some(1)
  {
    var ui := Controls(Selection(All, WarmingDrying, 0), true, 2019, 2021);
    var fema := Some([ScenarioDisaster]);
    var shown := FilterCounties([ScenarioCounty], ui.sel);
    assert shown == [ScenarioCounty];
    var v := Render([ScenarioCounty], [ScenarioFeature], fema, ui);
    assert v.markers == InfoMarkers(shown, [ScenarioFeature], fema);
    ScenarioMarkers();
    ScenarioPopup();
    assert v.ranking == RankingTable(shown, fema);
    GroupCountIsJoinLength([ScenarioDisaster], "Adams");
    ScenarioCluster();
  }
}
