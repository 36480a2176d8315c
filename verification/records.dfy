/** The three tables the dashboard fuses, one record per row, and the string
    constants the filter and style rules compare against. */
module Records {

  datatype Option<+T> = None | Some(value: T)

  /** A coordinate that falls back to `default` when absent. */
  function OrDefault(o: Option<real>, default: real): (r: real)
    ensures o.Some? ==> r == o.value
    ensures o.None? ==> r == default
  {
    match o
    case Some(v) => v
    case None => default
  }

  /** Selector value that switches the category or trend filter off. */
  const All: string := "All"

  const High: string := "High"
  const Moderate: string := "Moderate"
  const Low: string := "Low"

  const WarmingDrying: string := "Warming & Drying"
  const Stable: string := "Stable"

  /** One row of the county risk table. `fips` is the numeric county code,
      `name` the `County` column that disasters are joined on. The scores are
      carried and compared, never computed. Category and trend are free
      strings taken from the data. */
  datatype County = County(
    fips: int,
    name: string,
    population: int,
    atRisk: real,
    wuiPct: real,
    score: real,
    category: string,
    trend: string)

  /** One federal disaster declaration. `county` is the county NAME it was
      declared for; `year` is the declaration year and `ordinal` the
      declaration date as a proleptic Gregorian day number, day 1 being
      1 January of year 1 (later dates are larger). */
  datatype Disaster = Disaster(
    county: string,
    title: string,
    year: int,
    ordinal: int,
    number: int,
    lat: Option<real>,
    lon: Option<real>)

  /** One county boundary feature: its `GEOID` property and its optional
      interior point (`INTPTLAT`, `INTPTLON`). */
  datatype Feature = Feature(geoid: string, lat: Option<real>, lon: Option<real>)
}
