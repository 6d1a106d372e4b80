/** The unified dataset's row: one (state, year, month) with its epidemiological
    counts and monthly climate aggregates. */
module Records {

  /** The four south-eastern states the dashboard covers. */
  datatype StateCode = ES | MG | RJ | SP

  /** The states in the order the checkboxes list them (also alphabetical). */
  const AllStates: seq<StateCode> := [ES, MG, RJ, SP]

  /** The years the year checkboxes offer. */
  const AllYears: seq<int> := [2017, 2018]

  /** Position of a state in `AllStates`; the order pandas sorts state codes in. */
  function StateRank(s: StateCode): (k: nat)
    ensures k < |AllStates| && AllStates[k] == s
  {
    match s
    case ES => 0
    case MG => 1
    case RJ => 2
    case SP => 3
  }

  /** One row of the dataset. `cases` is Casos_Total, `deaths` Obitos_Total,
      `mortality` the precomputed Mortalidade column (kept opaque), and the four
      climate fields are the columns the climate selector offers. */
  datatype Record = Record(
    state: StateCode,
    year: int,
    month: int,
    cases: real,
    deaths: real,
    mortality: real,
    temperature: real,
    precipitation: real,
    radiation: real,
    pressure: real)

  /** The numeric columns the pipeline sums, averages or rescales. */
  datatype Column = Cases | Deaths | Temperature | Precipitation | Radiation | Pressure

  /** The options of the climate-factor selectbox. */
  datatype ClimateVar = Temperatura | Precipitacao | Radiacao | Pressao

  /** The dataset column a climate option refers to. */
  function ClimateColumn(v: ClimateVar): (c: Column)
    ensures c != Cases && c != Deaths
  {
    match v
    case Temperatura => Temperature
    case Precipitacao => Precipitation
    case Radiacao => Radiation
    case Pressao => Pressure
  }

  /** The value a row holds in a numeric column. */
  function Get(r: Record, c: Column): real {
    match c
    case Cases => r.cases
    case Deaths => r.deaths
    case Temperature => r.temperature
    case Precipitation => r.precipitation
    case Radiation => r.radiation
    case Pressure => r.pressure
  }

  /** Two rows agree on everything the pipeline never rescales. */
  predicate SameIdentity(r: Record, r': Record) {
    r.state == r'.state && r.year == r'.year && r.month == r'.month && r.mortality == r'.mortality
  }

  /** A row is determined by its identity fields and its numeric columns. */
  lemma RecordExtensionality(r: Record, r': Record)
    requires SameIdentity(r, r')
    requires forall c: Column :: Get(r, c) == Get(r', c)
    ensures r == r'
  {
    assert Get(r, Cases) == Get(r', Cases);
    assert Get(r, Deaths) == Get(r', Deaths);
    assert Get(r, Temperature) == Get(r', Temperature);
    assert Get(r, Precipitation) == Get(r', Precipitation);
    assert Get(r, Radiation) == Get(r', Radiation);
    assert Get(r, Pressure) == Get(r', Pressure);
  }

  /** Rows as the dataset delivers them: a calendar month. */
  predicate WellFormed(r: Record) {
    1 <= r.month <= 12
  }
}
