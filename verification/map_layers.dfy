/** The data fed to the three map layers of one render pass: the choropleth
    values, the clustered disaster points, and one info marker per filtered
    county that has a boundary feature, with its popup content. */
module MapLayers {
  import opened Records
  import opened Seqs
  import opened Fips
  import opened Styles
  import opened CountyFilter
  import opened DisasterJoin

  /** Map centre of the state, also the marker position when a feature has no interior point. */
  const DefaultLat: real := 47.5
  const DefaultLon: real := -120.5

  /** The choropleth input: the selected style and one (code, score) pair per
      filtered county. Boundary features without a pair are drawn as "no
      data" by the renderer. */
  datatype ChoroplethLayer = ChoroplethLayer(style: ChoroplethStyle, values: seq<(int, real)>)

  function ChoroplethLayerFor(cs: seq<County>, sel: Selection): (l: ChoroplethLayer)
    ensures l.style == ChoroplethStyleFor(sel.trend, sel.risk)
    ensures forall c :: c in cs ==> (c.fips, c.score) in l.values
    ensures forall v :: v in l.values ==> exists c :: c in cs && v == (c.fips, c.score)
  {
    var values := seq(|cs|, i requires 0 <= i < |cs| => (cs[i].fips, cs[i].score));
    assert forall c :: c in cs ==> (c.fips, c.score) in values by {
      forall c | c in cs
        ensures (c.fips, c.score) in values
      {
        var i :| 0 <= i < |cs| && cs[i] == c;
        assert values[i] == (c.fips, c.score);
      }
    }
    ChoroplethLayer(ChoroplethStyleFor(sel.trend, sel.risk), values)
  }

  /** A disaster marker of the clustered layer. */
  datatype ClusterPoint = ClusterPoint(lat: real, lon: real, disaster: Disaster)

  /** The clustered layer: present only when markers are switched on and the
      disaster table loaded; then one point per disaster of the year window
      that has coordinates, in table order, placed at its own coordinates. */
  function ClusterLayer(show: bool, fema: Option<seq<Disaster>>, lo: int, hi: int): (r: Option<seq<ClusterPoint>>)
    ensures r.Some? <==> show && fema.Some?
    ensures r.Some? ==> |r.value| == |PointDisasters(fema.value, lo, hi)|
    ensures r.Some? ==> forall i :: 0 <= i < |r.value| ==>
      && r.value[i].disaster == PointDisasters(fema.value, lo, hi)[i]
      && r.value[i].disaster.lat == Some(r.value[i].lat)
      && r.value[i].disaster.lon == Some(r.value[i].lon)
  {
    if show && fema.Some? then
      var pts := PointDisasters(fema.value, lo, hi);
      Some(seq(|pts|, i requires 0 <= i < |pts| => ClusterPoint(pts[i].lat.value, pts[i].lon.value, pts[i])))
    else None
  }

  /** The text a county's code must equal to select a boundary feature. */
  function GeoidOf(c: County): string {
    DecimalString(c.fips)
  }

  predicate Matches(f: Feature, c: County) {
    f.geoid == GeoidOf(c)
  }

  predicate HasGeometry(fs: seq<Feature>, c: County) {
    exists j :: 0 <= j < |fs| && Matches(fs[j], c)
  }

  function GeometryMask(fs: seq<Feature>): County -> bool {
    (c: County) => HasGeometry(fs, c)
  }

  /** The index of the first feature at or after `from` whose GEOID matches the county. */
  function FirstMatchFrom(fs: seq<Feature>, c: County, from: nat): (r: Option<nat>)
    requires from <= |fs|
    ensures r.Some? ==> from <= r.value < |fs| && Matches(fs[r.value], c)
    ensures r.Some? ==> forall j :: from <= j < r.value ==> !Matches(fs[j], c)
    ensures r.None? ==> forall j :: from <= j < |fs| ==> !Matches(fs[j], c)
    decreases |fs| - from
  {
    if from == |fs| then None
    else if Matches(fs[from], c) then Some(from)
    else FirstMatchFrom(fs, c, from + 1)
  }

  /** The feature scan stops at the first match; it finds one iff the county has a geometry. */
  function FirstMatch(fs: seq<Feature>, c: County): (r: Option<nat>)
    ensures r.Some? <==> HasGeometry(fs, c)
    ensures r.Some? ==> r.value < |fs| && Matches(fs[r.value], c)
    ensures r.Some? ==> forall j :: 0 <= j < r.value ==> !Matches(fs[j], c)
  {
    FirstMatchFrom(fs, c, 0)
  }

  /** Codes are rendered injectively, so a feature matches at most one code. */
  lemma FeatureMatchesOneCode(f: Feature, c: County, c': County)
    requires Matches(f, c) && Matches(f, c')
    ensures c.fips == c'.fips
  {
    DecimalStringInjective(c.fips, c'.fips);
  }

  /** A zero-padded GEOID never matches, whatever the county's code. */
  lemma PaddedGeoidNeverMatches(f: Feature, c: County)
    requires |f.geoid| >= 2 && f.geoid[0] == '0'
    ensures !Matches(f, c)
  {
    ZeroPaddedNeverRendered(c.fips, f.geoid);
  }

  /** The "Recent Major Fires" part of a county popup: the listed disasters,
      or the "Data not available" text when the disaster table did not load. */
  datatype FireHistory = Recent(fires: seq<Disaster>) | DataNotAvailable

  /** The content of a county popup: the county row itself, its all-time
      disaster count and its fire history. */
  datatype CountyPopup = CountyPopup(county: County, disasterCount: nat, history: FireHistory)

  /** Without a disaster table the count is 0 and no list is given. With one,
      the count is the number of rows whose `County` equals the county name,
      over the whole table (no year window, coordinates not required), and
      the list holds at most three of that county's disasters, newest first. */
  function PopupFor(c: County, fema: Option<seq<Disaster>>): (p: CountyPopup)
    ensures p.county == c
    ensures fema.None? ==> p.disasterCount == 0 && p.history == DataNotAvailable
    ensures fema.Some? ==> p.disasterCount == CountKey(fema.value, NameOf, c.name)
    ensures fema.Some? ==> p.history.Recent?
    ensures p.history.Recent? ==> |p.history.fires| == Min(RecentCount, p.disasterCount)
    ensures p.history.Recent? ==> NewestFirst(p.history.fires)
    ensures p.history.Recent? ==> forall f :: f in p.history.fires ==> f in fema.value && f.county == c.name
    ensures fema.Some? ==> multiset(p.history.fires) <= multiset(CountyDisasters(fema.value, c.name))
    ensures fema.Some? ==>
      forall d, e :: d in multiset(CountyDisasters(fema.value, c.name)) - multiset(p.history.fires) && e in p.history.fires
        ==> d.ordinal <= e.ordinal
  {
    match fema
    case None => CountyPopup(c, 0, DataNotAvailable)
    case Some(ds) =>
      var mine := CountyDisasters(ds, c.name);
      GroupCountIsJoinLength(ds, c.name);
      MostRecentAreNewest(mine, RecentCount);
      var fires := MostRecent(mine, RecentCount);
      assert forall f :: f in fires ==> f in mine by {
        forall f | f in fires
          ensures f in mine
        {
          assert f in multiset(fires);
        }
      }
      CountyPopup(c, |mine|, Recent(fires))
  }

  /** The info marker of one county. */
  datatype InfoMarker = InfoMarker(lat: real, lon: real, color: MarkerColor, popup: CountyPopup)

  /** A county gets a marker iff some feature matches it; the first matching
      feature places it, at the state centre for a missing coordinate. */
  function MarkerFor(c: County, fs: seq<Feature>, fema: Option<seq<Disaster>>): (m: Option<InfoMarker>)
    ensures m.Some? <==> HasGeometry(fs, c)
    ensures m.Some? ==>
      (exists i :: && 0 <= i < |fs| && Matches(fs[i], c)
                   && (forall j :: 0 <= j < i ==> !Matches(fs[j], c))
                   && m.value.lat == OrDefault(fs[i].lat, DefaultLat)
                   && m.value.lon == OrDefault(fs[i].lon, DefaultLon))
    ensures m.Some? ==> m.value.color == MarkerColorFor(c.category) && m.value.popup == PopupFor(c, fema)
  {
    match FirstMatch(fs, c)
    case None => None
    case Some(i) =>
      Some(InfoMarker(OrDefault(fs[i].lat, DefaultLat), OrDefault(fs[i].lon, DefaultLon), MarkerColorFor(c.category), PopupFor(c, fema)))
  }

  /** The county each marker belongs to. */
  function MarkedCounties(ms: seq<InfoMarker>): (r: seq<County>)
    ensures |r| == |ms|
  {
    if ms == [] then [] else [ms[0].popup.county] + MarkedCounties(ms[1..])
  }

  /** The info markers of the filtered counties, in county order. Counties
      without a matching feature are skipped without notice. */
  function InfoMarkers(cs: seq<County>, fs: seq<Feature>, fema: Option<seq<Disaster>>): (r: seq<InfoMarker>)
    ensures |r| <= |cs|
    ensures forall m :: m in r ==> m.popup.county in cs && MarkerFor(m.popup.county, fs, fema) == Some(m)
  {
    if cs == [] then []
    else
      var rest := InfoMarkers(cs[1..], fs, fema);
      match MarkerFor(cs[0], fs, fema)
      case None => rest
      case Some(m) => [m] + rest
  }

  /** The markers belong exactly to the filtered counties that have a geometry, in order. */
  lemma {:induction false} MarkersAreCountiesWithGeometry(cs: seq<County>, fs: seq<Feature>, fema: Option<seq<Disaster>>)
    ensures MarkedCounties(InfoMarkers(cs, fs, fema)) == Filter(cs, GeometryMask(fs))
  {
    if cs != [] {
      MarkersAreCountiesWithGeometry(cs[1..], fs, fema);
      var rest := InfoMarkers(cs[1..], fs, fema);
      var mk := MarkerFor(cs[0], fs, fema);
      assert GeometryMask(fs)(cs[0]) == mk.Some?;
      if mk.Some? {
        assert ([mk.value] + rest)[1..] == rest;
      }
    }
  }

  /** Each marker is the one its county's feature lookup produces. */
  lemma {:induction false} MarkersComeFromLookup(cs: seq<County>, fs: seq<Feature>, fema: Option<seq<Disaster>>)
    ensures forall m :: m in InfoMarkers(cs, fs, fema) ==> MarkerFor(m.popup.county, fs, fema) == Some(m)
  {
    if cs != [] {
      MarkersComeFromLookup(cs[1..], fs, fema);
    }
  }

  /** At most one marker per filtered county, each for a county of the filter, in order. */
  lemma MarkersFollowCounties(cs: seq<County>, fs: seq<Feature>, fema: Option<seq<Disaster>>)
    ensures |InfoMarkers(cs, fs, fema)| <= |cs|
    ensures IsSubsequence(MarkedCounties(InfoMarkers(cs, fs, fema)), cs)
  {
    MarkersAreCountiesWithGeometry(cs, fs, fema);
    FilterIsSubsequence(cs, GeometryMask(fs));
  }

  /** The filtered counties the marker layer skips. */
  function MissingGeometry(cs: seq<County>, fs: seq<Feature>): (r: seq<County>)
    ensures forall c :: c in r ==> c in cs && !HasGeometry(fs, c)
    ensures forall c :: c in cs && !HasGeometry(fs, c) ==> c in r
  {
    Filter(cs, Not(GeometryMask(fs)))
  }

  /** Every filtered county either gets exactly one marker or is skipped. */
  lemma MarkersAndMissingPartition(cs: seq<County>, fs: seq<Feature>, fema: Option<seq<Disaster>>)
    ensures |InfoMarkers(cs, fs, fema)| + |MissingGeometry(cs, fs)| == |cs|
  {
    var ms := InfoMarkers(cs, fs, fema);
    MarkersAreCountiesWithGeometry(cs, fs, fema);
    assert |ms| == |Filter(cs, GeometryMask(fs))|;
    FilterComplementLength(cs, GeometryMask(fs));
  }
}
