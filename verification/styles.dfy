/** The three independent decision tables of the map: the choropleth colour
    scheme and opacity, the advisory caption above the map, and the colour
    of a county's info marker. Each is first-match-wins over plain strings. */
module Styles {
  import opened Records

  /** Colour ramps handed to the choropleth layer. */
  datatype Scheme = Reds | Greens | YlOrRd

  datatype ChoroplethStyle = ChoroplethStyle(scheme: Scheme, opacity: real)

  /** The fill opacity that goes with each scheme. */
  function SchemeOpacity(s: Scheme): real {
    match s
    case Reds => 0.8
    case Greens => 0.6
    case YlOrRd => 0.7
  }

  /** The choropleth style for the selected trend and risk category. The
      warming rule outranks everything, so a `Low` selection under
      `Warming & Drying` still gets the red ramp. */
  function ChoroplethStyleFor(trend: string, risk: string): (st: ChoroplethStyle)
    ensures st.scheme == Reds <==> trend == WarmingDrying
    ensures st.scheme == Greens <==> trend != WarmingDrying && (trend == Stable || risk == Low)
    ensures st.scheme == YlOrRd <==> trend != WarmingDrying && trend != Stable && risk != Low
    ensures st.opacity == SchemeOpacity(st.scheme)
  {
    if trend == WarmingDrying then ChoroplethStyle(Reds, 0.8)
    else if trend == Stable then ChoroplethStyle(Greens, 0.6)
    else if risk == Low then ChoroplethStyle(Greens, 0.6)
    else ChoroplethStyle(YlOrRd, 0.7)
  }

  /** The four advisory captions shown above the map. */
  datatype Caption = StableAdvisory | WarmingAdvisory | HighRiskAdvisory | DefaultCaption

  /** The caption for the selected trend and risk category. The stable
      advisory needs the category selector on `All`; the high-risk advisory
      is shown for `High` unless the warming advisory takes precedence. */
  function CaptionFor(trend: string, risk: string): (c: Caption)
    ensures c == StableAdvisory <==> trend == Stable && risk == All
    ensures c == WarmingAdvisory <==> trend == WarmingDrying
    ensures c == HighRiskAdvisory <==> trend != WarmingDrying && risk == High
    ensures c == DefaultCaption <==> trend != WarmingDrying && risk != High && (trend != Stable || risk != All)
  {
    if trend == Stable && risk == All then StableAdvisory
    else if trend == WarmingDrying then WarmingAdvisory
    else if risk == High then HighRiskAdvisory
    else DefaultCaption
  }

  /** Icon colours of the per-county info markers. */
  datatype MarkerColor = DarkRed | Orange | Green

  /** The info-marker colour depends on the county's category alone; every
      category other than `High` and `Moderate`, `Critical` included, is green. */
  function MarkerColorFor(category: string): (m: MarkerColor)
    ensures m == DarkRed <==> category == High
    ensures m == Orange <==> category == Moderate
    ensures m == Green <==> category != High && category != Moderate
  {
    if category == High then DarkRed
    else if category == Moderate then Orange
    else Green
  }

  /** The two tables are independent: under a `Stable` trend with `High`
      selected the map is green while the caption is the high-risk one. */
  lemma CaptionAndChoroplethDiverge()
    ensures ChoroplethStyleFor(Stable, High).scheme == Greens
    ensures CaptionFor(Stable, High) == HighRiskAdvisory
    ensures CaptionFor(Stable, Low) == DefaultCaption
  {
  }

  /** The marker colour of a county and the fill of the map can disagree:
      a `High` county is drawn with a dark-red marker on a green map. */
  lemma MarkerAndChoroplethDiverge()
    ensures MarkerColorFor(High) == DarkRed
    ensures ChoroplethStyleFor(Stable, All).scheme == Greens
  {
  }
}
