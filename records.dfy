/** The records of a daily report: one row of the daily snapshot CSV and the
    four toll columns that the dashboard sums, replaces and melts. */
module Records {
  import opened Wrappers

  /** The four toll columns, in the order the pie chart melts them. */
  datatype TollType = Confirmed | Deaths | Recovered | Active

  /** Position of a toll column in the melt order. */
  function Rank(t: TollType): (r: nat)
    ensures r < 4
  {
    match t
    case Confirmed => 0
    case Deaths => 1
    case Recovered => 2
    case Active => 3
  }

  /** The value of each toll column in one summed row. */
  datatype Tolls = Tolls(confirmed: nat, deaths: nat, recovered: nat, active: nat)
  {
    function Get(t: TollType): nat
    {
      match t
      case Confirmed => confirmed
      case Deaths => deaths
      case Recovered => recovered
      case Active => active
    }

    /** Column-wise sum of two rows. */
    function Plus(other: Tolls): (r: Tolls)
      ensures forall t :: r.Get(t) == Get(t) + other.Get(t)
    {
      Tolls(confirmed + other.confirmed, deaths + other.deaths,
            recovered + other.recovered, active + other.active)
    }
  }

  /** One row of a daily snapshot: one sub-national region on one day.
      A cell left empty in the CSV is None (NaN in the data frame). */
  datatype DailyRow = DailyRow(
    country: string,
    lastUpdate: Option<string>,
    confirmed: Option<nat>,
    deaths: Option<nat>,
    recovered: Option<nat>,
    active: Option<nat>)
  {
    function Cell(t: TollType): Option<nat>
    {
      match t
      case Confirmed => confirmed
      case Deaths => deaths
      case Recovered => recovered
      case Active => active
    }

    /** What the row adds to a column sum: summing skips NaN, so an empty
        cell adds nothing. */
    function Value(t: TollType): nat
    {
      match Cell(t)
      case Some(v) => v
      case None => 0
    }

    /** The row's tolls as they enter a group sum. */
    function RowTolls(): (r: Tolls)
      ensures forall t :: r.Get(t) == Value(t)
    {
      Tolls(Value(Confirmed), Value(Deaths), Value(Recovered), Value(Active))
    }
  }

  /** Sum of one toll column over a snapshot, skipping empty cells. */
  function ColumnSum(rows: seq<DailyRow>, t: TollType): nat
  {
    if rows == [] then 0 else rows[0].Value(t) + ColumnSum(rows[1..], t)
  }

  /** The distinct country names of a snapshot. */
  function Countries(rows: seq<DailyRow>): set<string>
  {
    if rows == [] then {} else {rows[0].country} + Countries(rows[1..])
  }

  /** The name the snapshot source uses for the United States is replaced by
      the name the code reference table uses; every other name is kept. */
  function RenameUS(name: string): string
  {
    if name == "US" then "United States" else name
  }
}
