/** update_pie_chart (app.py lines 159-169): the raw snapshot for a date,
    with "US" renamed, is restricted to one country, summed per Last_Update
    stamp and melted into (toll type, count) pairs. */
module PieChart {
  import opened Wrappers
  import opened Records
  import opened Grouping
  import opened DatePath
  import opened DailyReport

  /** One row of the melted frame: Last_Update, Toll-type and Count. */
  datatype Slice = Slice(lastUpdate: string, tollType: TollType, count: nat)

  // ---------------------------------------------------------------------
  // Renaming and selection (app.py lines 165-166)

  /** A Last_Update cell after df.replace('US', 'United States'): the
      replace rewrites every cell equal to "US", whatever its column. */
  function RenameStamp(stamp: Option<string>): Option<string>
  {
    match stamp
    case None => None
    case Some(s) => Some(RenameUS(s))
  }

  /** df.replace('US', 'United States') on the raw snapshot: a country name
      or a Last_Update cell equal to "US" becomes "United States"; the toll
      cells and every row without such a cell are unchanged. */
  function RenameRows(rows: seq<DailyRow>): (r: seq<DailyRow>)
    ensures |r| == |rows|
    ensures forall i :: 0 <= i < |r| ==> r[i].country != "US" && r[i].lastUpdate != Some("US")
    ensures forall i :: 0 <= i < |r| && rows[i].country == "US" ==> r[i].country == "United States"
    ensures forall i :: 0 <= i < |r| && rows[i].country != "US" ==> r[i].country == rows[i].country
    ensures forall i :: 0 <= i < |r| && rows[i].lastUpdate == Some("US") ==> r[i].lastUpdate == Some("United States")
    ensures forall i :: 0 <= i < |r| && rows[i].lastUpdate != Some("US") ==> r[i].lastUpdate == rows[i].lastUpdate
    ensures forall i, t :: 0 <= i < |r| ==> r[i].Cell(t) == rows[i].Cell(t)
    ensures forall i :: 0 <= i < |r| && rows[i].country != "US" && rows[i].lastUpdate != Some("US") ==> r[i] == rows[i]
  {
    seq(|rows|, i requires 0 <= i < |rows| =>
      rows[i].(country := RenameUS(rows[i].country), lastUpdate := RenameStamp(rows[i].lastUpdate)))
  }

  /** Renaming a second time changes nothing. */
  lemma RenameRowsIdempotent(rows: seq<DailyRow>)
    ensures RenameRows(RenameRows(rows)) == RenameRows(rows)
  {
  }

  /** df[df['Country_Region'] == country]: the rows of that country, each
      as often as in the snapshot, in snapshot order (SelectCountryAppend). */
  function SelectCountry(rows: seq<DailyRow>, country: string): (r: seq<DailyRow>)
    ensures |r| <= |rows|
    ensures forall x :: x in r <==> x in rows && x.country == country
    ensures forall x :: multiset(r)[x] == if x.country == country then multiset(rows)[x] else 0
  {
    if rows == [] then []
    else
      assert rows == [rows[0]] + rows[1..];
      (if rows[0].country == country then [rows[0]] else []) + SelectCountry(rows[1..], country)
  }

  /** The filter keeps the snapshot order: selecting from two parts one
      after the other is selecting from each part. */
  lemma {:induction false} SelectCountryAppend(a: seq<DailyRow>, b: seq<DailyRow>, country: string)
    ensures SelectCountry(a + b, country) == SelectCountry(a, country) + SelectCountry(b, country)
  {
    if a == [] {
      assert a + b == b;
    } else {
      assert (a + b)[1..] == a[1..] + b;
      SelectCountryAppend(a[1..], b, country);
    }
  }

  // ---------------------------------------------------------------------
  // Grouping by Last_Update (app.py line 167)

  /** The distinct Last_Update stamps present in the rows. */
  function Stamps(rows: seq<DailyRow>): set<string>
  {
    if rows == [] then {}
    else (if rows[0].lastUpdate.Some? then {rows[0].lastUpdate.value} else {}) + Stamps(rows[1..])
  }

  /** Sum of one toll column over the rows that carry a Last_Update. */
  function StampedSum(rows: seq<DailyRow>, t: TollType): nat
  {
    if rows == [] then 0
    else (if rows[0].lastUpdate.Some? then rows[0].Value(t) else 0) + StampedSum(rows[1..], t)
  }

  /** Sum of one toll column over the rows stamped with the given
      Last_Update. */
  function StampSum(rows: seq<DailyRow>, stamp: string, t: TollType): nat
  {
    if rows == [] then 0
    else (if rows[0].lastUpdate == Some(stamp) then rows[0].Value(t) else 0) + StampSum(rows[1..], stamp, t)
  }

  /** The rows keyed by Last_Update. groupby drops rows whose key is
      missing, so a row without a Last_Update takes no part: the keys are
      exactly the stamps present. */
  function ByLastUpdate(rows: seq<DailyRow>): (r: seq<Group>)
    ensures Keys(r) == Stamps(rows)
  {
    if rows == [] then []
    else
      var head := if rows[0].lastUpdate.Some? then [Group(rows[0].lastUpdate.value, rows[0].RowTolls())] else [];
      KeysAppend(head, ByLastUpdate(rows[1..]));
      head + ByLastUpdate(rows[1..])
  }

  lemma {:induction false} ByLastUpdateTotalFor(rows: seq<DailyRow>, stamp: string, t: TollType)
    ensures TotalFor(ByLastUpdate(rows), stamp, t) == StampSum(rows, stamp, t)
  {
    if rows != [] {
      ByLastUpdateTotalFor(rows[1..], stamp, t);
      var rest := ByLastUpdate(rows[1..]);
      if rows[0].lastUpdate.Some? {
        var g := Group(rows[0].lastUpdate.value, rows[0].RowTolls());
        assert ByLastUpdate(rows) == [g] + rest;
        assert ([g] + rest)[1..] == rest;
      } else {
        assert ByLastUpdate(rows) == rest;
      }
    }
  }

  lemma {:induction false} ByLastUpdateTotal(rows: seq<DailyRow>, t: TollType)
    ensures Total(ByLastUpdate(rows), t) == StampedSum(rows, t)
  {
    if rows != [] {
      ByLastUpdateTotal(rows[1..], t);
      var head := if rows[0].lastUpdate.Some? then [Group(rows[0].lastUpdate.value, rows[0].RowTolls())] else [];
      TotalAppend(head, ByLastUpdate(rows[1..]), t);
    }
  }

  lemma {:induction false} KeysAppend(a: seq<Group>, b: seq<Group>)
    ensures Keys(a + b) == Keys(a) + Keys(b)
  {
    if a != [] {
      assert (a + b)[1..] == a[1..] + b;
      KeysAppend(a[1..], b);
    } else {
      assert a + b == b;
    }
  }

  lemma {:induction false} TotalAppend(a: seq<Group>, b: seq<Group>, t: TollType)
    ensures Total(a + b, t) == Total(a, t) + Total(b, t)
  {
    if a != [] {
      assert (a + b)[1..] == a[1..] + b;
      TotalAppend(a[1..], b, t);
    } else {
      assert a + b == b;
    }
  }

  /** df.groupby(['Last_Update']).sum(): one row per distinct stamp of the
      rows, stamps ascending. */
  function AggregateByLastUpdate(rows: seq<DailyRow>): (r: seq<Group>)
    ensures Sorted(r)
    ensures Keys(r) == Stamps(rows)
    ensures |r| == |Stamps(rows)|
  {
    GroupSum(ByLastUpdate(rows))
  }

  /** Each stamp's row holds, per toll column, the sum over the rows that
      carry that stamp. */
  lemma AggregateByLastUpdateRows(rows: seq<DailyRow>)
    ensures forall i, t :: 0 <= i < |AggregateByLastUpdate(rows)| ==>
      AggregateByLastUpdate(rows)[i].tolls.Get(t) ==
      StampSum(rows, AggregateByLastUpdate(rows)[i].key, t)
  {
    var r := AggregateByLastUpdate(rows);
    GroupSumRows(ByLastUpdate(rows));
    forall i, t | 0 <= i < |r| ensures r[i].tolls.Get(t) == StampSum(rows, r[i].key, t) {
      ByLastUpdateTotalFor(rows, r[i].key, t);
    }
  }

  // ---------------------------------------------------------------------
  // Melting (app.py line 169)

  /** One toll column of the grouped frame as (stamp, type, count) rows. */
  function MeltColumn(gs: seq<Group>, t: TollType): (r: seq<Slice>)
    ensures |r| == |gs|
    ensures forall j :: 0 <= j < |gs| ==> r[j] == Slice(gs[j].key, t, gs[j].tolls.Get(t))
  {
    seq(|gs|, j requires 0 <= j < |gs| => Slice(gs[j].key, t, gs[j].tolls.Get(t)))
  }

  /** The four melted columns one after the other. */
  function MeltBlocks(gs: seq<Group>): seq<Slice>
  {
    MeltColumn(gs, Confirmed) + MeltColumn(gs, Deaths) + MeltColumn(gs, Recovered) + MeltColumn(gs, Active)
  }

  /** Which block of n rows index i falls in, counting from 0. */
  function BlockOf(i: nat, n: nat): nat
  {
    if i < n then 0 else if i < 2 * n then 1 else if i < 3 * n then 2 else 3
  }

  /** Row i of the melt is the toll of block BlockOf(i, n) for group
      i - BlockOf(i, n) * n. */
  lemma MeltBlocksAt(gs: seq<Group>, i: nat)
    requires i < 4 * |gs|
    ensures |MeltBlocks(gs)| == 4 * |gs|
    ensures 0 <= i - BlockOf(i, |gs|) * |gs| < |gs|
    ensures Rank(MeltBlocks(gs)[i].tollType) == BlockOf(i, |gs|)
    ensures MeltBlocks(gs)[i].lastUpdate == gs[i - BlockOf(i, |gs|) * |gs|].key
  {
    var n := |gs|;
    var a, b, c, d := MeltColumn(gs, Confirmed), MeltColumn(gs, Deaths), MeltColumn(gs, Recovered), MeltColumn(gs, Active);
    var ab := a + b;
    var abc := ab + c;
    assert MeltBlocks(gs) == abc + d;
    if i < n {
      assert (abc + d)[i] == abc[i] == ab[i] == a[i];
    } else if i < 2 * n {
      assert (abc + d)[i] == abc[i] == ab[i] == b[i - n];
    } else if i < 3 * n {
      assert (abc + d)[i] == abc[i] == c[i - 2 * n];
    } else {
      assert (abc + d)[i] == d[i - 3 * n];
    }
  }

  /** Where the melt puts toll t of group j when there are n groups: row j
      of block Rank(t). */
  function MeltIndex(t: TollType, j: nat, n: nat): (i: nat)
    requires j < n
    ensures i < 4 * n
    ensures BlockOf(i, n) == Rank(t) && i - BlockOf(i, n) * n == j
  {
    match t
    case Confirmed => j
    case Deaths => n + j
    case Recovered => 2 * n + j
    case Active => 3 * n + j
  }

  /** Every row of a melt of n groups is toll t of some group j. */
  lemma MeltIndexCovers(i: nat, n: nat) returns (t: TollType, j: nat)
    requires i < 4 * n
    ensures j < n && MeltIndex(t, j, n) == i
  {
    if i < n {
      t, j := Confirmed, i;
    } else if i < 2 * n {
      t, j := Deaths, i - n;
    } else if i < 3 * n {
      t, j := Recovered, i - 2 * n;
    } else {
      t, j := Active, i - 3 * n;
    }
  }

  lemma MeltBlocksLabel(gs: seq<Group>, t: TollType, j: nat)
    requires j < |gs|
    ensures |MeltBlocks(gs)| == 4 * |gs|
    ensures MeltBlocks(gs)[MeltIndex(t, j, |gs|)] == Slice(gs[j].key, t, gs[j].tolls.Get(t))
  {
    var n := |gs|;
    var a, b, c, d := MeltColumn(gs, Confirmed), MeltColumn(gs, Deaths), MeltColumn(gs, Recovered), MeltColumn(gs, Active);
    var ab := a + b;
    var abc := ab + c;
    assert MeltBlocks(gs) == abc + d;
    match t
    case Confirmed => assert (abc + d)[j] == abc[j] == ab[j] == a[j];
    case Deaths => assert (abc + d)[n + j] == abc[n + j] == ab[n + j] == b[j];
    case Recovered => assert (abc + d)[2 * n + j] == abc[2 * n + j] == c[j];
    case Active => assert (abc + d)[3 * n + j] == d[j];
  }

  /** pd.melt(df, id_vars=['Last_Update'], value_vars=['Confirmed', 'Deaths',
      'Recovered', 'Active']): four rows per group, all Confirmed rows first,
      then Deaths, Recovered and Active, each block in group order; the row
      of toll t for group j carries j's stamp, t and j's toll t. */
  function Melt(gs: seq<Group>): (r: seq<Slice>)
    ensures |r| == 4 * |gs|
    ensures forall t, j :: 0 <= j < |gs| ==>
      r[MeltIndex(t, j, |gs|)] == Slice(gs[j].key, t, gs[j].tolls.Get(t))
    ensures forall i :: 0 <= i < |r| ==> r[i].lastUpdate in Keys(gs)
    ensures forall i, j :: 0 <= i < j < |r| ==> Rank(r[i].tollType) <= Rank(r[j].tollType)
  {
    MeltBlocksOrdered(gs);
    MeltBlocksLabels(gs);
    MeltBlocks(gs)
  }

  lemma MeltBlocksOrdered(gs: seq<Group>)
    ensures forall i :: 0 <= i < |MeltBlocks(gs)| ==> MeltBlocks(gs)[i].lastUpdate in Keys(gs)
    ensures forall i, j :: 0 <= i < j < |MeltBlocks(gs)| ==>
      Rank(MeltBlocks(gs)[i].tollType) <= Rank(MeltBlocks(gs)[j].tollType)
  {
    var r := MeltBlocks(gs);
    forall i | 0 <= i < |r| ensures Rank(r[i].tollType) == BlockOf(i, |gs|) && r[i].lastUpdate in Keys(gs) {
      MeltBlocksAt(gs, i);
      KeysIndex(gs, i - BlockOf(i, |gs|) * |gs|);
    }
  }

  lemma MeltBlocksLabels(gs: seq<Group>)
    ensures |MeltBlocks(gs)| == 4 * |gs|
    ensures forall t, j :: 0 <= j < |gs| ==>
      MeltBlocks(gs)[MeltIndex(t, j, |gs|)] == Slice(gs[j].key, t, gs[j].tolls.Get(t))
  {
    forall t, j | 0 <= j < |gs|
      ensures MeltBlocks(gs)[MeltIndex(t, j, |gs|)] == Slice(gs[j].key, t, gs[j].tolls.Get(t))
    {
      MeltBlocksLabel(gs, t, j);
    }
  }

  /** The slices are laid out as a melt of n groups: the row at
      MeltIndex(t, j, n) is labelled t and carries the stamp of row j. */
  predicate Labelled(slices: seq<Slice>, n: nat)
    requires |slices| == 4 * n
  {
    forall t, j :: 0 <= j < n ==>
      slices[MeltIndex(t, j, n)].tollType == t &&
      slices[MeltIndex(t, j, n)].lastUpdate == slices[j].lastUpdate
  }

  /** The pivot back from the melt: row j of the grouped frame is read from
      the rows of the four blocks for group j. */
  function Unmelt(slices: seq<Slice>, n: nat): seq<Group>
    requires |slices| == 4 * n
  {
    seq(n, j requires 0 <= j < n =>
      Group(slices[j].lastUpdate,
            Tolls(slices[MeltIndex(Confirmed, j, n)].count, slices[MeltIndex(Deaths, j, n)].count,
                  slices[MeltIndex(Recovered, j, n)].count, slices[MeltIndex(Active, j, n)].count)))
  }

  /** The melt loses nothing: its rows are labelled as a melt, and pivoting
      them back gives the grouped frame. */
  lemma MeltRoundTrip(gs: seq<Group>)
    ensures Labelled(Melt(gs), |gs|)
    ensures Unmelt(Melt(gs), |gs|) == gs
  {
    var n, r := |gs|, Melt(gs);
    forall t, j | 0 <= j < n
      ensures r[MeltIndex(t, j, n)].tollType == t && r[MeltIndex(t, j, n)].lastUpdate == r[j].lastUpdate
    {
      MeltAt(gs, t, j);
      MeltAt(gs, Confirmed, j);
    }
    var u := Unmelt(r, n);
    forall j | 0 <= j < n ensures u[j] == gs[j] {
      MeltAt(gs, Confirmed, j);
      MeltAt(gs, Deaths, j);
      MeltAt(gs, Recovered, j);
      MeltAt(gs, Active, j);
    }
  }

  /** One instance of Melt's placement, with the Confirmed row at j. */
  lemma MeltAt(gs: seq<Group>, t: TollType, j: nat)
    requires j < |gs|
    ensures Melt(gs)[MeltIndex(t, j, |gs|)] == Slice(gs[j].key, t, gs[j].tolls.Get(t))
    ensures t == Confirmed ==> Melt(gs)[j] == Slice(gs[j].key, Confirmed, gs[j].tolls.confirmed)
  {
  }

  /** The other direction: a labelled frame is the melt of its pivot, so
      the melt of a grouped frame is the only labelling of its counts. */
  lemma UnmeltRoundTrip(slices: seq<Slice>, n: nat)
    requires |slices| == 4 * n && Labelled(slices, n)
    ensures Melt(Unmelt(slices, n)) == slices
  {
    var gs := Unmelt(slices, n);
    var m := Melt(gs);
    forall i | 0 <= i < |m| ensures m[i] == slices[i] {
      var t, j := MeltIndexCovers(i, n);
      assert m[MeltIndex(t, j, n)] == Slice(gs[j].key, t, gs[j].tolls.Get(t));
      assert gs[j].tolls.Get(t) == slices[MeltIndex(t, j, n)].count by {
        match t
        case Confirmed =>
        case Deaths =>
        case Recovered =>
        case Active =>
      }
    }
  }

  /** The Count column added up. */
  function SliceSum(slices: seq<Slice>): nat
  {
    if slices == [] then 0 else slices[0].count + SliceSum(slices[1..])
  }

  lemma {:induction false} SliceSumAppend(a: seq<Slice>, b: seq<Slice>)
    ensures SliceSum(a + b) == SliceSum(a) + SliceSum(b)
  {
    if a != [] {
      assert (a + b)[1..] == a[1..] + b;
      SliceSumAppend(a[1..], b);
    } else {
      assert a + b == b;
    }
  }

  lemma {:induction false} MeltColumnSum(gs: seq<Group>, t: TollType)
    ensures SliceSum(MeltColumn(gs, t)) == Total(gs, t)
  {
    if gs != [] {
      MeltColumnSum(gs[1..], t);
      assert MeltColumn(gs, t)[1..] == MeltColumn(gs[1..], t);
    }
  }

  /** The sum of all four tolls over all rows. */
  function AllTolls(gs: seq<Group>): nat
  {
    Total(gs, Confirmed) + Total(gs, Deaths) + Total(gs, Recovered) + Total(gs, Active)
  }

  /** The counts of the melted frame add up to all four tolls of every group. */
  lemma MeltTotal(gs: seq<Group>)
    ensures SliceSum(Melt(gs)) == AllTolls(gs)
  {
    var a, b, c, d := MeltColumn(gs, Confirmed), MeltColumn(gs, Deaths), MeltColumn(gs, Recovered), MeltColumn(gs, Active);
    SliceSumAppend(a + b + c, d);
    SliceSumAppend(a + b, c);
    SliceSumAppend(a, b);
    MeltColumnSum(gs, Confirmed);
    MeltColumnSum(gs, Deaths);
    MeltColumnSum(gs, Recovered);
    MeltColumnSum(gs, Active);
  }

  // ---------------------------------------------------------------------
  // The pie data

  /** The rows of the selected country after the "US" rename. */
  function Selected(rows: seq<DailyRow>, country: string): seq<DailyRow>
  {
    SelectCountry(RenameRows(rows), country)
  }

  /** app.py lines 165-169 once the snapshot is read: four pairs per
      distinct Last_Update stamp of the selected country's rows, in melt
      order, and no stamp that is not one of theirs. */
  function PieData(rows: seq<DailyRow>, country: string): (r: seq<Slice>)
    ensures |r| == 4 * |Stamps(Selected(rows, country))|
    ensures forall i :: 0 <= i < |r| ==> r[i].lastUpdate in Stamps(Selected(rows, country))
    ensures forall i, j :: 0 <= i < j < |r| ==> Rank(r[i].tollType) <= Rank(r[j].tollType)
  {
    Melt(AggregateByLastUpdate(Selected(rows, country)))
  }

  /** Pair by pair: with g the selected rows grouped by stamp (stamps
      ascending, exactly those present), the pair of toll t for the j-th
      stamp is that stamp, t, and the sum of column t over the selected
      rows carrying that stamp. */
  lemma PieDataRows(rows: seq<DailyRow>, country: string)
    ensures var sel := Selected(rows, country); var g := AggregateByLastUpdate(sel);
      && |PieData(rows, country)| == 4 * |g|
      && forall t, j :: 0 <= j < |g| ==>
           PieData(rows, country)[MeltIndex(t, j, |g|)] == Slice(g[j].key, t, StampSum(sel, g[j].key, t))
  {
    var sel := Selected(rows, country);
    AggregateByLastUpdateRows(sel);
  }

  /** The total count of the pie is the sum of the four tolls over the
      selected country's rows that carry a Last_Update. */
  lemma PieDataTotal(rows: seq<DailyRow>, country: string)
    ensures var sel := Selected(rows, country);
      SliceSum(PieData(rows, country)) ==
      StampedSum(sel, Confirmed) + StampedSum(sel, Deaths) + StampedSum(sel, Recovered) + StampedSum(sel, Active)
  {
    var keyed := ByLastUpdate(Selected(rows, country));
    MeltTotal(GroupSum(keyed));
    forall t ensures Total(GroupSum(keyed), t) == StampedSum(Selected(rows, country), t) {
      GroupSumConserves(keyed, t);
      ByLastUpdateTotal(Selected(rows, country), t);
    }
  }

  lemma {:induction false} SelectNone(rows: seq<DailyRow>, country: string)
    requires forall i :: 0 <= i < |rows| ==> rows[i].country != country
    ensures SelectCountry(rows, country) == []
  {
    if rows != [] {
      SelectNone(rows[1..], country);
    }
  }

  /** A country with no rows (after the "US" rename) gives an empty frame,
      not an error. */
  lemma PieDataAbsent(rows: seq<DailyRow>, country: string)
    requires forall i :: 0 <= i < |rows| ==> RenameUS(rows[i].country) != country
    ensures PieData(rows, country) == []
  {
    SelectNone(RenameRows(rows), country);
  }

  /** update_pie_chart(date, country): the melted frame handed to the pie
      figure, or the error met on the way. */
  function UpdatePieChart(
    dateValue: string,
    country: string,
    fetchSnapshot: string -> Option<seq<DailyRow>>): (r: Result<seq<Slice>, ReportError>)
    ensures ToPathSegment(dateValue).Err? ==> r == Err(InvalidDate(ToPathSegment(dateValue).error))
    ensures r.Ok? <==>
      ToPathSegment(dateValue).Ok? && fetchSnapshot(SnapshotUrl(ToPathSegment(dateValue).value)).Some?
    ensures r.Ok? ==>
      r.value == PieData(fetchSnapshot(SnapshotUrl(ToPathSegment(dateValue).value)).value, country)
  {
    match ToPathSegment(dateValue)
    case Err(e) => Err(InvalidDate(e))
    case Ok(segment) =>
      match fetchSnapshot(SnapshotUrl(segment))
      case None => Err(FetchFailed(SnapshotUrl(segment)))
      case Some(rows) => Ok(PieData(rows, country))
  }

  /** One row of the selected country with Confirmed 100, Deaths 2,
      Recovered 90 and Active 8 gives exactly these four pairs, in this
      order, adding up to 200. */
  lemma SingleRowExample(country: string, stamp: string)
    requires country != "US" && stamp != "US"
    ensures var r := PieData([DailyRow(country, Some(stamp), Some(100), Some(2), Some(90), Some(8))], country);
      && r == [Slice(stamp, Confirmed, 100), Slice(stamp, Deaths, 2), Slice(stamp, Recovered, 90), Slice(stamp, Active, 8)]
      && SliceSum(r) == 200
  {
    var rows := [DailyRow(country, Some(stamp), Some(100), Some(2), Some(90), Some(8))];
    assert RenameRows(rows) == rows;
    assert Selected(rows, country) == rows;
    var g := Group(stamp, Tolls(100, 2, 90, 8));
    assert ByLastUpdate(rows) == [g];
    assert GroupSum([g]) == [g];
    assert AggregateByLastUpdate(rows) == [g];
    var r := PieData(rows, country);
    assert r == MeltBlocks([g]);
    MeltTotal([g]);
    assert [g][1..] == [];
    assert Total([g], Confirmed) == 100 && Total([g], Deaths) == 2;
    assert Total([g], Recovered) == 90 && Total([g], Active) == 8;
  }
}
