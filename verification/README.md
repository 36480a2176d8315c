# Washington climate-fire risk dashboard: risk synthesis model

This project models the pure "risk synthesis" layer of the Washington
Climate-Fire Risk Intelligence Dashboard (`streamlit_dashboard.py`). The
dashboard reads three tables: county risk rows, FEMA disaster declarations and
county boundary features. For every sidebar selection it computes:

- the filtered county table (category, trend and minimum population);
- the choropleth style and values, and the advisory caption above the map;
- the clustered disaster points of the selected year window;
- one info marker per filtered county with a matching boundary feature,
  with its colour, its position and its popup content (all-time disaster
  count and the three most recent disasters);
- the headline metrics, the category and trend histograms, and the ranked
  county table with a federal-disaster count per county.

Everything is modelled as pure functions over Dafny sequences of immutable
records:

- `Seqs`: order-preserving filter, subsequence, count by key and tally.
- `Records`: the three row types and the string constants the rules compare against.
- `Fips`: Python's `str(int(x))`, used for the GEOID join.
- `CountyFilter`: the sidebar filter.
- `Styles`: the three decision tables.
- `DisasterJoin`: the year window, the name join and the newest-first selection.
- `MapLayers`: layer data and popups.
- `Summary`: metrics, histograms and the ranking table.
- `Dashboard`: one whole render pass.

The disaster table can fail to load. It is an `Option`: `None` is the
degraded path, with the fallback total 211, a popup count of 0 and "Data not
available" instead of the fire list. Category and trend values are plain
strings, so `All` and unknown trends behave as they do in the code.

Four behaviours of the code that a reader might not expect, and how the model handles them:

- Geometry join. The code compares a feature's `GEOID` with `str(int(county_fips))`, which has no leading zeros, so a zero-padded `GEOID` never matches. `MapLayers.PaddedGeoidNeverMatches` proves this.
- Missing geometry. A filtered county with no matching feature gets no marker, and nothing reports it. `MapLayers.MissingGeometry` names these counties.
- Ranking table without disaster data. The code leaves the `Federal Disasters` column out, so the model's count is `None`.
- Recent disasters. The code uses pandas' default `sort_values`, which is not stable, so the order of disasters with equal dates is left open.

## Model

| member | source | states |
|---|---|---|
| CountyFilter.FilterCounties | streamlit_dashboard.py:128-133 | a county is in the result iff it is in the table, its category equals the selected one or `All` is selected, its trend equals the selected one or `All` is selected, and its population is at least the threshold |
| CountyFilter.FilterIsConjunction | streamlit_dashboard.py:128-133 | the three masks, applied one after another, give exactly the one-pass conjunction filter: the same rows in the same order |
| CountyFilter.FilterKeepsOrder | streamlit_dashboard.py:128-133 | the filtered table is a subsequence of the county table, in the original order |
| CountyFilter.RaisingMinPopulationNarrows | streamlit_dashboard.py:133 | a higher population threshold gives a subsequence of the old result, and never more rows |
| CountyFilter.ChoosingSelectorNarrows | streamlit_dashboard.py:129-132 | replacing `All` with a specific category or trend never adds a county |
| CountyFilter.NoFilterShowsAll | streamlit_dashboard.py:128-133 | with both selectors on `All` and a threshold no county falls below, the whole table is shown unchanged |
| CountyFilter.ThresholdAboveMaximumIsEmpty | streamlit_dashboard.py:133 | a threshold above every population gives the empty table |
| Styles.ChoroplethStyleFor | streamlit_dashboard.py:205-216 | red ramp iff the trend is `Warming & Drying`, even with `Low` selected; green iff the trend is not warming and either the trend is `Stable` or `Low` is selected; yellow-orange-red otherwise; opacity 0.8 / 0.6 / 0.7 follows the ramp |
| Styles.CaptionFor | streamlit_dashboard.py:188-195 | stable advisory iff trend `Stable` with category `All`; warming advisory iff trend `Warming & Drying`; high-risk advisory iff `High` is selected and the trend is not warming; the default otherwise |
| Styles.MarkerColorFor | streamlit_dashboard.py:310-312 | dark red iff `High`, orange iff `Moderate`, green for every other category, `Critical` and `Low` included |
| Styles.CaptionAndChoroplethDiverge | streamlit_dashboard.py:188-216 | the caption and choropleth tables are independent: `Stable` with `High` gives a green map and the high-risk caption; `Stable` with `Low` gives the default caption |
| Styles.MarkerAndChoroplethDiverge | streamlit_dashboard.py:310-312 | a `High` county's marker is dark red while a `Stable` selection fills the map green |
| DisasterJoin.PointDisasters | streamlit_dashboard.py:234-240 | a disaster is a point iff its year lies in [lo, hi], both ends included, and both its latitude and longitude are present |
| DisasterJoin.PointsKeepOrder | streamlit_dashboard.py:234-240 | the point set is a subsequence of the disaster table |
| DisasterJoin.NarrowingWindowNeverAddsPoints | streamlit_dashboard.py:234-237 | narrowing [lo, hi] gives a subsequence of the old point set, and never more points |
| DisasterJoin.CountyDisasters | streamlit_dashboard.py:275 | the county's disasters are exactly the rows whose `County` string equals the county name |
| DisasterJoin.GroupCountIsJoinLength | streamlit_dashboard.py:368-371 | the group-by count for a name equals the length of that name's join |
| DisasterJoin.PopupCountCoversPoints | streamlit_dashboard.py:274-276 | the all-time count of a county is at least the number of its points in any year window |
| DisasterJoin.SortNewestFirst | streamlit_dashboard.py:277 | the sorted table is newest first and a permutation of the input |
| DisasterJoin.MostRecent | streamlit_dashboard.py:277 | `head(n)` after the descending sort: min(n, size) disasters, newest first, drawn from the input as a sub-multiset |
| DisasterJoin.MostRecentAreNewest | streamlit_dashboard.py:277 | no disaster left out of the selection is newer than one kept in it |
| MapLayers.ChoroplethLayerFor | streamlit_dashboard.py:218-230 | the choropleth gets the selected style and a (code, score) pair for exactly the filtered counties, so other features get no value |
| MapLayers.ClusterLayer | streamlit_dashboard.py:233-266 | the point layer exists iff markers are on and the disaster table loaded; it then has one point per disaster of the window with coordinates, in order, at that disaster's coordinates |
| MapLayers.FirstMatch | streamlit_dashboard.py:271-272 | the lookup finds an index iff some feature's GEOID equals the county's rendered code, and the index is the first such feature |
| MapLayers.FeatureMatchesOneCode | streamlit_dashboard.py:272 | a feature matches at most one county code |
| MapLayers.PaddedGeoidNeverMatches | streamlit_dashboard.py:272 | a GEOID with a leading zero and more than one character matches no code |
| MapLayers.PopupFor | streamlit_dashboard.py:273-284 | without a disaster table the count is 0 and the history is "Data not available"; otherwise the count is the number of rows named after the county in the whole table, and the list holds min(3, count) of them: newest first, a sub-multiset of the county's rows, and no row left out is newer than one listed |
| MapLayers.MarkerFor | streamlit_dashboard.py:271-316 | a county gets a marker iff some feature matches it; the first matching feature places it, at (47.5, -120.5) for a missing interior point; the colour comes from the category and the popup is the county's |
| MapLayers.InfoMarkers | streamlit_dashboard.py:269-316 | at most one marker per filtered county, and every marker is the one the feature lookup gives for its own county, which is a filtered county; `MarkersAreCountiesWithGeometry` and `MarkersComeFromLookup` state which counties and in what order |
| MapLayers.MarkersAreCountiesWithGeometry | streamlit_dashboard.py:269-272 | the markers belong exactly to the filtered counties that have a matching feature, in filter order |
| MapLayers.MarkersComeFromLookup | streamlit_dashboard.py:269-316 | every emitted marker is the one the lookup gives for its own county |
| MapLayers.MarkersFollowCounties | streamlit_dashboard.py:269-316 | at most one marker per filtered county, and the marked counties are a subsequence of the filtered table |
| MapLayers.MissingGeometry | streamlit_dashboard.py:269-272 | the skipped counties are exactly the filtered counties without a matching feature |
| MapLayers.MarkersAndMissingPartition | streamlit_dashboard.py:269-316 | markers plus skipped counties account for every filtered county exactly once |
| Fips.DecimalString | streamlit_dashboard.py:272 | `str(int(x))`: non-negative codes are all digits, negative ones start with `-`, and a leading `0` only occurs in "0" |
| Fips.DecimalRoundTrip | streamlit_dashboard.py:272 | reading the rendered code back as a decimal gives the code |
| Fips.DecimalStringInjective | streamlit_dashboard.py:272 | different codes render to different strings |
| Fips.ZeroPaddedNeverRendered | streamlit_dashboard.py:272 | no code renders to a zero-padded string |
| Summary.HighRiskCount | streamlit_dashboard.py:144 | equals the length of the unfiltered table restricted to its `High` rows; positive iff some row is `High` |
| Summary.HighRiskCountBoundsFiltered | streamlit_dashboard.py:144 | whatever the selection, the filtered table has no more `High` rows than the headline reports |
| Summary.DisasterTotal | streamlit_dashboard.py:149 | the number of disaster rows, which bounds every county's popup count, or 211 when the table did not load |
| Summary.CategoryHistogram | streamlit_dashboard.py:328 | each category present among the shown counties maps to its positive count; absent categories have no entry |
| Summary.TrendHistogram | streamlit_dashboard.py:346 | each trend present among the shown counties maps to its positive count; absent trends have no entry |
| Summary.HistogramsCoverShownCounties | streamlit_dashboard.py:328-346 | the counts of each histogram add up to the number of shown counties |
| Summary.MergedCountIsJoinLength | streamlit_dashboard.py:368-371 | the left merge of the group sizes with `fillna(0)` gives each county its number of disaster rows by name, 0 for a county with none |
| Summary.RankingTable | streamlit_dashboard.py:365-385 | one row per shown county in filter order, ranks 1..n, the county's columns copied; the disaster count is absent without a table, and otherwise equals the size of that county's name join |
| Summary.RankingAgreesWithPopups | streamlit_dashboard.py:368-371 | a row's disaster count equals the count in the same county's popup |
| Dashboard.Render | streamlit_dashboard.py:128-385 | one pass: at most as many rows as counties, at most one marker per row, the headline from the unfiltered table, and a point layer iff markers are on and disasters loaded |
| Dashboard.YearWindowOnlyScopesPoints | streamlit_dashboard.py:233-284 | changing the year window changes nothing but the point layer; the popup counts are all-time |
| Dashboard.NarrowerWindowFewerPoints | streamlit_dashboard.py:233-240 | a narrower window never gives more points |
| Dashboard.SingleCountyScenario | streamlit_dashboard.py:128-316 | one `High`, warming county with one located 2020 disaster, viewed over 2019-2021 with the warming trend selected: one point, one dark-red marker with count 1, red ramp at 0.8, ranking count 1 |

## Left out

- Page setup, CSS, sidebar widgets, title, info boxes and footer (lines 24-62, 97-125, 171-179, 398-427) are UI. The widgets' outputs are the `Controls` parameters, and the year slider's default and bounds are not modelled.
- Reading and caching the CSV and GeoJSON files (65-94) is I/O. So is the fatal stop when the county or geometry file is missing. A failed disaster load is modelled as `None`.
- CSV export (390-396) is I/O.
- Rendering with folium and plotly is foreign library code and is not modelled: the map, choropleth, marker cluster, layer control and the charts (198-230, 243-266, 319-355). The model carries only the data fed to them. Matching choropleth values to features by `key_on` and the light-gray "no data" fill happen inside folium.
- HTML popup and tooltip strings, number and date formatting (`:.1f`, `:,`, `strftime`) and the table's rounding (380-382) are presentation. Popups are structured values. The four caption texts are the constructors of `Caption`.
- The WUI population metrics (159, 164) are float division and percent formatting.
- Floating point: scores, WUI shares, populations at risk and coordinates are `real`s that are only carried or compared. NaN is modelled only as an absent coordinate (`None`).
- Dates: a disaster carries its declaration year and a day number separately. The model does not check that they agree.
- Summary.CategoryHistogram, Summary.TrendHistogram: modelled as maps, so the count-descending order of `value_counts` and the pie chart's colour map are not modelled.
- DisasterJoin.MostRecent: the order among disasters with the same date is left open, because the source's sort does not fix it.
- Malformed tables: the model assumes every boundary feature has a `GEOID` and every county row has a code. The code raises `KeyError` or fails in `int()` otherwise (lines 271-272), and the model has no crash path.
- MapLayers.MarkerFor: `None` for a feature's interior point means the key is absent, which the code replaces with 47.5 or -120.5. A present but null or non-numeric `INTPTLAT`/`INTPTLON` makes `float()` raise and stop the page (305-306). That crash is not modelled.
- DisasterJoin.MostRecent, MapLayers.PopupFor: the model assumes every disaster has a declaration date (`year` and `ordinal` are plain integers). An empty date cell becomes `NaT` at line 76 and is not modelled. The code then drops such a row from the points (235-236) but counts it in the popup (275-276). The descending sort puts it last (277). If it reaches `head(3)`, `strftime` raises at 279 and stops the page.
