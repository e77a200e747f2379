/** prepare_daily_report (app.py lines 86-103): the snapshot for a date is
    summed per country, "US" is renamed, zero tolls become one, ISO codes are
    joined in from the reference table and the two Congo codes are fixed. */
module DailyReport {
  import opened Wrappers
  import opened Records
  import opened Grouping
  import opened DatePath

  const SnapshotBase: string :=
    "https://raw.githubusercontent.com/CSSEGISandData/COVID-19/master/csse_covid_19_data/csse_covid_19_daily_reports/"
  const CodeTableUrl: string :=
    "https://raw.githubusercontent.com/plotly/datasets/master/2014_world_gdp_with_codes.csv"

  /** Address of the snapshot file for a `MM-DD-YYYY` segment. */
  function SnapshotUrl(segment: string): (r: string)
    ensures |r| == |SnapshotBase| + |segment| + 4
    ensures r[..|SnapshotBase|] == SnapshotBase && r[|r| - 4..] == ".csv"
    ensures r[|SnapshotBase|..|r| - 4] == segment
  {
    SnapshotBase + segment + ".csv"
  }

  /** One COUNTRY/CODE row of the reference table. */
  datatype CodeEntry = CodeEntry(country: string, code: string)

  /** One record of the prepared report: a country, its tolls and its ISO
      code, None where the join found no match (NaN in the data frame). */
  datatype ReportRow = ReportRow(country: string, tolls: Tolls, code: Option<string>)

  /** What makes the report fail: strptime rejects the date, or a CSV cannot
      be read from its address. */
  datatype ReportError = InvalidDate(reason: DateError) | FetchFailed(url: string)

  // ---------------------------------------------------------------------
  // Country aggregation (app.py line 93)

  /** Sum of one toll column over the rows of one country. */
  function CountrySum(rows: seq<DailyRow>, country: string, t: TollType): nat
  {
    if rows == [] then 0
    else (if rows[0].country == country then rows[0].Value(t) else 0) + CountrySum(rows[1..], country, t)
  }

  /** The snapshot keyed by Country_Region. */
  function ByCountry(rows: seq<DailyRow>): (r: seq<Group>)
    ensures |r| == |rows|
  {
    if rows == [] then [] else [Group(rows[0].country, rows[0].RowTolls())] + ByCountry(rows[1..])
  }

  lemma {:induction false} ByCountryKeys(rows: seq<DailyRow>)
    ensures Keys(ByCountry(rows)) == Countries(rows)
  {
    if rows != [] {
      ByCountryKeys(rows[1..]);
    }
  }

  lemma {:induction false} ByCountryTotal(rows: seq<DailyRow>, t: TollType)
    ensures Total(ByCountry(rows), t) == ColumnSum(rows, t)
  {
    if rows != [] {
      ByCountryTotal(rows[1..], t);
    }
  }

  lemma {:induction false} ByCountryTotalFor(rows: seq<DailyRow>, country: string, t: TollType)
    ensures TotalFor(ByCountry(rows), country, t) == CountrySum(rows, country, t)
  {
    if rows != [] {
      ByCountryTotalFor(rows[1..], country, t);
    }
  }

  /** df.groupby(['Country_Region']).sum(): exactly one row per distinct
      country of the snapshot, in ascending order of name. */
  function AggregateByCountry(rows: seq<DailyRow>): (r: seq<Group>)
    ensures Sorted(r)
    ensures Keys(r) == Countries(rows)
    ensures |r| == |Countries(rows)|
  {
    ByCountryKeys(rows);
    GroupSum(ByCountry(rows))
  }

  /** Each aggregated row holds, per toll column, the sum over that
      country's rows of the snapshot. */
  lemma AggregateRows(rows: seq<DailyRow>)
    ensures forall i, t :: 0 <= i < |AggregateByCountry(rows)| ==>
      AggregateByCountry(rows)[i].tolls.Get(t) ==
      CountrySum(rows, AggregateByCountry(rows)[i].key, t)
  {
    var r := AggregateByCountry(rows);
    GroupSumRows(ByCountry(rows));
    forall i, t | 0 <= i < |r| ensures r[i].tolls.Get(t) == CountrySum(rows, r[i].key, t) {
      ByCountryTotalFor(rows, r[i].key, t);
    }
  }

  /** The aggregation conserves the total of every toll column. */
  lemma AggregateConserves(rows: seq<DailyRow>, t: TollType)
    ensures Total(AggregateByCountry(rows), t) == ColumnSum(rows, t)
  {
    GroupSumConserves(ByCountry(rows), t);
    ByCountryTotal(rows, t);
  }

  // ---------------------------------------------------------------------
  // Renaming "US" (app.py line 94)

  /** df_country.replace('US', 'United States'). */
  function RenameCountries(gs: seq<Group>): (r: seq<Group>)
    ensures |r| == |gs|
    ensures forall i :: 0 <= i < |r| ==> r[i].tolls == gs[i].tolls
    ensures forall i :: 0 <= i < |r| ==> r[i].key != "US"
    ensures forall i :: 0 <= i < |r| && gs[i].key == "US" ==> r[i].key == "United States"
    ensures forall i :: 0 <= i < |r| && gs[i].key != "US" ==> r[i].key == gs[i].key
  {
    seq(|gs|, i requires 0 <= i < |gs| => Group(RenameUS(gs[i].key), gs[i].tolls))
  }

  /** Renaming a second time changes nothing. */
  lemma RenameCountriesIdempotent(gs: seq<Group>)
    ensures RenameCountries(RenameCountries(gs)) == RenameCountries(gs)
  {
  }

  // ---------------------------------------------------------------------
  // Zero-to-one substitution (app.py line 95)

  function OneIfZero(v: nat): nat
  {
    if v == 0 then 1 else v
  }

  /** df_country.replace(0, 1): no toll is left at zero, so the logarithm
      taken for the map colours (app.py line 121) is defined. */
  function ReplaceZeros(gs: seq<Group>): (r: seq<Group>)
    ensures |r| == |gs|
    ensures forall i :: 0 <= i < |r| ==> r[i].key == gs[i].key
    ensures forall i, t :: 0 <= i < |r| && gs[i].tolls.Get(t) == 0 ==> r[i].tolls.Get(t) == 1
    ensures forall i, t :: 0 <= i < |r| && gs[i].tolls.Get(t) != 0 ==> r[i].tolls.Get(t) == gs[i].tolls.Get(t)
    ensures forall i, t :: 0 <= i < |r| ==> r[i].tolls.Get(t) >= 1
  {
    seq(|gs|, i requires 0 <= i < |gs| =>
      var v := gs[i].tolls;
      Group(gs[i].key, Tolls(OneIfZero(v.confirmed), OneIfZero(v.deaths),
                             OneIfZero(v.recovered), OneIfZero(v.active))))
  }

  /** Substituting a second time changes nothing. */
  lemma ReplaceZerosIdempotent(gs: seq<Group>)
    ensures ReplaceZeros(ReplaceZeros(gs)) == ReplaceZeros(gs)
  {
  }

  // ---------------------------------------------------------------------
  // Left join with the code table (app.py line 98)

  /** The country has at least one row in the reference table. */
  predicate Listed(table: seq<CodeEntry>, name: string)
  {
    exists j :: 0 <= j < |table| && table[j].country == name
  }

  /** No country appears twice in the reference table. */
  predicate UniqueCountries(table: seq<CodeEntry>)
  {
    forall i, j :: 0 <= i < j < |table| ==> table[i].country != table[j].country
  }

  /** The codes of the reference rows for a name, in table order. */
  function CodesFor(table: seq<CodeEntry>, name: string): (r: seq<string>)
    ensures forall c :: c in r <==> CodeEntry(name, c) in table
    ensures r == [] <==> !Listed(table, name)
  {
    if table == [] then []
    else
      var rest := CodesFor(table[1..], name);
      assert Listed(table, name) <==> table[0].country == name || Listed(table[1..], name) by {
        if Listed(table[1..], name) {
          var j :| 0 <= j < |table[1..]| && table[1..][j].country == name;
          assert table[j + 1].country == name;
        }
        if Listed(table, name) && table[0].country != name {
          var j :| 0 <= j < |table| && table[j].country == name;
          assert table[1..][j - 1].country == name;
        }
      }
      (if table[0].country == name then [table[0].code] else []) + rest
  }

  /** Each code is matched as often as the table lists it for the name. */
  lemma {:induction false} CodesForCount(table: seq<CodeEntry>, name: string, c: string)
    ensures multiset(CodesFor(table, name))[c] == multiset(table)[CodeEntry(name, c)]
  {
    if table != [] {
      var rest := CodesFor(table[1..], name);
      CodesForCount(table[1..], name, c);
      MultisetCons(table);
      if table[0].country == name {
        assert CodesFor(table, name) == [table[0].code] + rest;
      } else {
        assert CodesFor(table, name) == rest;
      }
    }
  }

  lemma MultisetCons(table: seq<CodeEntry>)
    requires table != []
    ensures multiset(table) == multiset{table[0]} + multiset(table[1..])
  {
    assert table == [table[0]] + table[1..];
  }

  /** The reference table is read in order: the codes for a name in two
      parts of the table are those of the first part, then the second. */
  lemma {:induction false} CodesForAppend(a: seq<CodeEntry>, b: seq<CodeEntry>, name: string)
    ensures CodesFor(a + b, name) == CodesFor(a, name) + CodesFor(b, name)
  {
    if a == [] {
      assert a + b == b;
    } else {
      assert (a + b)[1..] == a[1..] + b;
      CodesForAppend(a[1..], b, name);
    }
  }

  /** The join output for one aggregated row: one row per matching
      reference row, in table order, or a single row with no code. */
  function JoinRow(g: Group, table: seq<CodeEntry>): (r: seq<ReportRow>)
    ensures |r| >= 1
    ensures !Listed(table, g.key) ==> r == [ReportRow(g.key, g.tolls, None)]
    ensures Listed(table, g.key) ==> |r| == |CodesFor(table, g.key)|
    ensures Listed(table, g.key) ==> forall i :: 0 <= i < |r| ==> r[i].code == Some(CodesFor(table, g.key)[i])
    ensures forall i :: 0 <= i < |r| ==> r[i].country == g.key && r[i].tolls == g.tolls
    ensures forall i :: 0 <= i < |r| ==> (r[i].code.None? <==> !Listed(table, g.key))
    ensures forall i :: 0 <= i < |r| && r[i].code.Some? ==> CodeEntry(g.key, r[i].code.value) in table
  {
    var codes := CodesFor(table, g.key);
    if codes == [] then [ReportRow(g.key, g.tolls, None)]
    else seq(|codes|, i requires 0 <= i < |codes| => ReportRow(g.key, g.tolls, Some(codes[i])))
  }

  /** df_country.merge(code_df, left_on='Country_Region', right_on='COUNTRY',
      how='left'): every aggregated row is kept, in order, with its tolls;
      a row's code comes from a reference row with exactly its name, and is
      absent exactly when there is no such row. */
  function LeftJoin(gs: seq<Group>, table: seq<CodeEntry>): (r: seq<ReportRow>)
    ensures |r| >= |gs|
    ensures forall i :: 0 <= i < |r| ==> Group(r[i].country, r[i].tolls) in gs
    ensures forall i :: 0 <= i < |r| ==> (r[i].code.None? <==> !Listed(table, r[i].country))
    ensures forall i :: 0 <= i < |r| && r[i].code.Some? ==> CodeEntry(r[i].country, r[i].code.value) in table
  {
    if gs == [] then []
    else
      var head, rest := JoinRow(gs[0], table), LeftJoin(gs[1..], table);
      assert forall i :: 0 <= i < |rest| ==> Group(rest[i].country, rest[i].tolls) in gs by {
        forall i | 0 <= i < |rest| ensures Group(rest[i].country, rest[i].tolls) in gs {
          var k :| 0 <= k < |gs[1..]| && gs[1..][k] == Group(rest[i].country, rest[i].tolls);
          assert gs[k + 1] == gs[1..][k];
        }
      }
      assert forall i :: 0 <= i < |head| ==> Group(head[i].country, head[i].tolls) == gs[0];
      head + rest
  }

  /** The joined row that aggregated row i becomes first. */
  lemma {:induction false} LeftJoinRowOf(gs: seq<Group>, table: seq<CodeEntry>, i: nat) returns (j: nat)
    requires i < |gs|
    ensures j < |LeftJoin(gs, table)|
    ensures LeftJoin(gs, table)[j].country == gs[i].key && LeftJoin(gs, table)[j].tolls == gs[i].tolls
  {
    var head, rest := JoinRow(gs[0], table), LeftJoin(gs[1..], table);
    assert LeftJoin(gs, table) == head + rest;
    if i == 0 {
      j := 0;
      assert (head + rest)[0] == head[0];
    } else {
      var k := LeftJoinRowOf(gs[1..], table, i - 1);
      j := |head| + k;
      assert (head + rest)[j] == rest[k];
    }
  }

  /** Some joined row carries the aggregated row's name and tolls. */
  predicate HasRowFor(r: seq<ReportRow>, g: Group)
  {
    exists j :: 0 <= j < |r| && r[j].country == g.key && r[j].tolls == g.tolls
  }

  /** No aggregated row is lost: each has a joined row with its name and
      tolls. */
  lemma LeftJoinComplete(gs: seq<Group>, table: seq<CodeEntry>)
    ensures forall i :: 0 <= i < |gs| ==> HasRowFor(LeftJoin(gs, table), gs[i])
  {
    forall i | 0 <= i < |gs| ensures HasRowFor(LeftJoin(gs, table), gs[i]) {
      var j := LeftJoinRowOf(gs, table, i);
    }
  }

  /** The join works row by row: joining two parts one after the other is
      joining each part. With LeftJoinSingle this fixes the whole layout:
      each aggregated row in turn becomes its block of JoinRow rows. */
  lemma {:induction false} LeftJoinAppend(a: seq<Group>, b: seq<Group>, table: seq<CodeEntry>)
    ensures LeftJoin(a + b, table) == LeftJoin(a, table) + LeftJoin(b, table)
  {
    if a == [] {
      assert a + b == b;
    } else {
      var head := JoinRow(a[0], table);
      LeftJoinAppend(a[1..], b, table);
      TailOfAppend(a, b);
      assert (a + b)[0] == a[0];
      AppendAssoc(head, LeftJoin(a[1..], table), LeftJoin(b, table));
    }
  }

  lemma TailOfAppend<T>(a: seq<T>, b: seq<T>)
    requires a != []
    ensures (a + b)[1..] == a[1..] + b
  {
    assert forall i :: 0 <= i < |a| - 1 + |b| ==> (a + b)[1..][i] == (a[1..] + b)[i];
  }

  lemma AppendAssoc<T>(x: seq<T>, y: seq<T>, z: seq<T>)
    ensures x + (y + z) == (x + y) + z
  {
    assert forall i :: 0 <= i < |x| + |y| + |z| ==> (x + (y + z))[i] == ((x + y) + z)[i];
  }

  /** One aggregated row is joined as JoinRow gives it. */
  lemma LeftJoinSingle(g: Group, table: seq<CodeEntry>)
    ensures LeftJoin([g], table) == JoinRow(g, table)
  {
    assert [g][1..] == [];
    assert JoinRow(g, table) + [] == JoinRow(g, table);
  }

  /** With at most one reference row per name, a name matches at most one code. */
  lemma {:induction false} CodesForUnique(table: seq<CodeEntry>, name: string)
    requires UniqueCountries(table)
    ensures |CodesFor(table, name)| <= 1
  {
    if table != [] {
      CodesForUnique(table[1..], name);
    }
  }

  /** Row i of a join against a table with unique keys. */
  lemma {:induction false} LeftJoinUniqueAt(gs: seq<Group>, table: seq<CodeEntry>, i: nat)
    requires UniqueCountries(table) && i < |gs|
    ensures |LeftJoin(gs, table)| == |gs|
    ensures LeftJoin(gs, table)[i].country == gs[i].key
    ensures LeftJoin(gs, table)[i].tolls == gs[i].tolls
    ensures LeftJoin(gs, table)[i].code.Some? <==> Listed(table, gs[i].key)
    ensures LeftJoin(gs, table)[i].code.Some? ==>
      CodeEntry(gs[i].key, LeftJoin(gs, table)[i].code.value) in table
  {
    CodesForUnique(table, gs[0].key);
    var head := JoinRow(gs[0], table);
    assert |head| == 1;
    if i == 0 {
      if |gs| > 1 {
        LeftJoinUniqueAt(gs[1..], table, 0);
      }
    } else {
      LeftJoinUniqueAt(gs[1..], table, i - 1);
      assert LeftJoin(gs, table) == head + LeftJoin(gs[1..], table);
    }
  }

  /** With a reference table whose COUNTRY keys are unique, the join has
      exactly the aggregated rows, in order: row i keeps the name and tolls
      of aggregated row i and gets the code the table lists for that name,
      or none if the name is not listed. */
  lemma LeftJoinUnique(gs: seq<Group>, table: seq<CodeEntry>)
    requires UniqueCountries(table)
    ensures |LeftJoin(gs, table)| == |gs|
    ensures forall i :: 0 <= i < |gs| ==>
      && LeftJoin(gs, table)[i].country == gs[i].key
      && LeftJoin(gs, table)[i].tolls == gs[i].tolls
      && (LeftJoin(gs, table)[i].code.Some? <==> Listed(table, gs[i].key))
      && (LeftJoin(gs, table)[i].code.Some? ==>
            CodeEntry(gs[i].key, LeftJoin(gs, table)[i].code.value) in table)
  {
    if gs == [] {
    } else {
      LeftJoinUniqueAt(gs, table, 0);
    }
    forall i | 0 <= i < |gs|
      ensures LeftJoin(gs, table)[i].country == gs[i].key
      ensures LeftJoin(gs, table)[i].tolls == gs[i].tolls
      ensures LeftJoin(gs, table)[i].code.Some? <==> Listed(table, gs[i].key)
      ensures LeftJoin(gs, table)[i].code.Some? ==>
        CodeEntry(gs[i].key, LeftJoin(gs, table)[i].code.value) in table
    {
      LeftJoinUniqueAt(gs, table, i);
    }
  }

  // ---------------------------------------------------------------------
  // Fixed codes for the two Congo names (app.py lines 100-101)

  /** df.loc[df.Country_Region == name, 'CODE'] = code. */
  function SetCode(rows: seq<ReportRow>, name: string, code: string): (r: seq<ReportRow>)
    ensures |r| == |rows|
    ensures forall i :: 0 <= i < |r| ==> r[i].country == rows[i].country && r[i].tolls == rows[i].tolls
    ensures forall i :: 0 <= i < |r| && rows[i].country == name ==> r[i].code == Some(code)
    ensures forall i :: 0 <= i < |r| && rows[i].country != name ==> r[i].code == rows[i].code
  {
    seq(|rows|, i requires 0 <= i < |rows| =>
      if rows[i].country == name then rows[i].(code := Some(code)) else rows[i])
  }

  predicate IsCongo(name: string)
  {
    name == "Congo (Kinshasa)" || name == "Congo (Brazzaville)"
  }

  /** Whatever the join gave them, "Congo (Kinshasa)" rows get COD and
      "Congo (Brazzaville)" rows get COG; no other row changes. */
  function FixCongoCodes(rows: seq<ReportRow>): (r: seq<ReportRow>)
    ensures |r| == |rows|
    ensures forall i :: 0 <= i < |r| ==> r[i].country == rows[i].country && r[i].tolls == rows[i].tolls
    ensures forall i :: 0 <= i < |r| && rows[i].country == "Congo (Kinshasa)" ==> r[i].code == Some("COD")
    ensures forall i :: 0 <= i < |r| && rows[i].country == "Congo (Brazzaville)" ==> r[i].code == Some("COG")
    ensures forall i :: 0 <= i < |r| && !IsCongo(rows[i].country) ==> r[i].code == rows[i].code
  {
    SetCode(SetCode(rows, "Congo (Kinshasa)", "COD"), "Congo (Brazzaville)", "COG")
  }

  // ---------------------------------------------------------------------
  // The whole preparation

  /** app.py lines 93-101, once the snapshot and the reference table are
      read: no row is named "US", every toll is at
      least one, and the two Congo rows carry their fixed codes. */
  function BuildReport(snapshot: seq<DailyRow>, table: seq<CodeEntry>): (r: seq<ReportRow>)
    ensures |r| >= |Countries(snapshot)|
    ensures forall i :: 0 <= i < |r| ==> r[i].country != "US"
    ensures forall i, t :: 0 <= i < |r| ==> r[i].tolls.Get(t) >= 1
    ensures forall i :: 0 <= i < |r| && r[i].country == "Congo (Kinshasa)" ==> r[i].code == Some("COD")
    ensures forall i :: 0 <= i < |r| && r[i].country == "Congo (Brazzaville)" ==> r[i].code == Some("COG")
  {
    var agg := AggregateByCountry(snapshot);
    var renamed := ReplaceZeros(RenameCountries(agg));
    var joined := LeftJoin(renamed, table);
    assert forall i :: 0 <= i < |joined| ==> joined[i].country != "US" by {
      forall i | 0 <= i < |joined| ensures joined[i].country != "US" {
        var k :| 0 <= k < |renamed| && renamed[k] == Group(joined[i].country, joined[i].tolls);
      }
    }
    assert forall i, t :: 0 <= i < |joined| ==> joined[i].tolls.Get(t) >= 1 by {
      forall i, t | 0 <= i < |joined| ensures joined[i].tolls.Get(t) >= 1 {
        var k :| 0 <= k < |renamed| && renamed[k] == Group(joined[i].country, joined[i].tolls);
      }
    }
    FixCongoCodes(joined)
  }

  /** The report row of a snapshot country. */
  lemma ReportRowOf(snapshot: seq<DailyRow>, table: seq<CodeEntry>, c: string) returns (i: nat)
    requires c in Countries(snapshot)
    ensures i < |BuildReport(snapshot, table)| && BuildReport(snapshot, table)[i].country == RenameUS(c)
  {
    var agg := AggregateByCountry(snapshot);
    var renamed := ReplaceZeros(RenameCountries(agg));
    var k := KeysMember(agg, c);
    assert renamed[k].key == RenameUS(c);
    i := LeftJoinRowOf(renamed, table, k);
  }

  /** The snapshot country behind a report row. */
  lemma CountryOfReportRow(snapshot: seq<DailyRow>, table: seq<CodeEntry>, i: nat) returns (c: string)
    requires i < |BuildReport(snapshot, table)|
    ensures c in Countries(snapshot) && BuildReport(snapshot, table)[i].country == RenameUS(c)
  {
    var agg := AggregateByCountry(snapshot);
    var renamed := ReplaceZeros(RenameCountries(agg));
    var joined := LeftJoin(renamed, table);
    assert Group(joined[i].country, joined[i].tolls) in renamed;
    var k :| 0 <= k < |renamed| && renamed[k] == Group(joined[i].country, joined[i].tolls);
    KeysIndex(agg, k);
    c := agg[k].key;
  }

  /** Whatever the reference table, every snapshot country has a report
      row under its renamed name. */
  lemma BuildReportCovers(snapshot: seq<DailyRow>, table: seq<CodeEntry>)
    ensures forall c :: c in Countries(snapshot) ==>
      exists i :: 0 <= i < |BuildReport(snapshot, table)| && BuildReport(snapshot, table)[i].country == RenameUS(c)
  {
    forall c | c in Countries(snapshot)
      ensures exists i :: 0 <= i < |BuildReport(snapshot, table)| && BuildReport(snapshot, table)[i].country == RenameUS(c)
    {
      var i := ReportRowOf(snapshot, table, c);
    }
  }

  /** The name is that of a snapshot country after the "US" rename. */
  predicate RenamedCountry(snapshot: seq<DailyRow>, name: string)
  {
    exists c :: c in Countries(snapshot) && name == RenameUS(c)
  }

  /** Every report row is a snapshot country under its renamed name. */
  lemma BuildReportFromSnapshot(snapshot: seq<DailyRow>, table: seq<CodeEntry>)
    ensures forall i :: 0 <= i < |BuildReport(snapshot, table)| ==>
      RenamedCountry(snapshot, BuildReport(snapshot, table)[i].country)
  {
    forall i | 0 <= i < |BuildReport(snapshot, table)|
      ensures RenamedCountry(snapshot, BuildReport(snapshot, table)[i].country)
    {
      var c := CountryOfReportRow(snapshot, table, i);
    }
  }

  /** With a reference table whose COUNTRY keys are unique, the report has
      one row per distinct snapshot country, in the order of the
      aggregation: its name renamed, each toll the country's column sum
      with zero read as one, and the code fixed for the Congo names and
      otherwise taken from the table when listed. */
  lemma BuildReportRows(snapshot: seq<DailyRow>, table: seq<CodeEntry>)
    requires UniqueCountries(table)
    ensures |BuildReport(snapshot, table)| == |AggregateByCountry(snapshot)| == |Countries(snapshot)|
    ensures forall i, t :: 0 <= i < |BuildReport(snapshot, table)| ==>
      var row, key := BuildReport(snapshot, table)[i], AggregateByCountry(snapshot)[i].key;
      && row.country == RenameUS(key)
      && row.tolls.Get(t) == OneIfZero(CountrySum(snapshot, key, t))
      && (row.country == "Congo (Kinshasa)" ==> row.code == Some("COD"))
      && (row.country == "Congo (Brazzaville)" ==> row.code == Some("COG"))
      && (!IsCongo(row.country) ==>
            (row.code.Some? <==> Listed(table, row.country)) &&
            (row.code.Some? ==> CodeEntry(row.country, row.code.value) in table))
  {
    var agg := AggregateByCountry(snapshot);
    var renamed := ReplaceZeros(RenameCountries(agg));
    AggregateRows(snapshot);
    LeftJoinUnique(renamed, table);
    var r := BuildReport(snapshot, table);
    forall i, t | 0 <= i < |r|
      ensures r[i].tolls.Get(t) == OneIfZero(CountrySum(snapshot, agg[i].key, t))
    {
      assert renamed[i].tolls.Get(t) == OneIfZero(agg[i].tolls.Get(t));
    }
  }

  /** prepare_daily_report(date_value): the date is turned into the file
      name, the snapshot and the reference table are read (both reads are
      parameters here), and the report is built. Errors propagate in the
      order the source meets them. */
  function PrepareDailyReport(
    dateValue: string,
    fetchSnapshot: string -> Option<seq<DailyRow>>,
    codeTable: Option<seq<CodeEntry>>): (r: Result<seq<ReportRow>, ReportError>)
    ensures ToPathSegment(dateValue).Err? ==> r == Err(InvalidDate(ToPathSegment(dateValue).error))
    ensures r.Ok? <==>
      && ToPathSegment(dateValue).Ok?
      && fetchSnapshot(SnapshotUrl(ToPathSegment(dateValue).value)).Some?
      && codeTable.Some?
    ensures r.Ok? ==>
      r.value == BuildReport(fetchSnapshot(SnapshotUrl(ToPathSegment(dateValue).value)).value, codeTable.value)
    ensures r.Ok? ==> forall i, t :: 0 <= i < |r.value| ==>
      r.value[i].country != "US" && r.value[i].tolls.Get(t) >= 1
  {
    match ToPathSegment(dateValue)
    case Err(e) => Err(InvalidDate(e))
    case Ok(segment) =>
      match fetchSnapshot(SnapshotUrl(segment))
      case None => Err(FetchFailed(SnapshotUrl(segment)))
      case Some(snapshot) =>
        match codeTable
        case None => Err(FetchFailed(CodeTableUrl))
        case Some(table) => Ok(BuildReport(snapshot, table))
  }

  /** With unique keys, a name has one code in the table. */
  lemma UniqueCode(table: seq<CodeEntry>, name: string, a: string, b: string)
    requires UniqueCountries(table)
    requires CodeEntry(name, a) in table && CodeEntry(name, b) in table
    ensures a == b
  {
    var i :| 0 <= i < |table| && table[i] == CodeEntry(name, a);
    var j :| 0 <= j < |table| && table[j] == CodeEntry(name, b);
    assert i == j;
  }

  /** Two snapshot rows for "US" with 10 and 5 confirmed cases become one
      "United States" row with 15 confirmed cases and the code the
      reference table gives "United States". */
  lemma UnitedStatesExample(table: seq<CodeEntry>, code: string)
    requires UniqueCountries(table) && CodeEntry("United States", code) in table
    ensures var r := BuildReport(
        [DailyRow("US", None, Some(10), None, None, None), DailyRow("US", None, Some(5), None, None, None)], table);
      |r| == 1 && r[0].country == "United States" && r[0].tolls.confirmed == 15 && r[0].code == Some(code)
  {
    var snapshot := [DailyRow("US", None, Some(10), None, None, None), DailyRow("US", None, Some(5), None, None, None)];
    assert Countries(snapshot) == {"US"};
    BuildReportRows(snapshot, table);
    var agg := AggregateByCountry(snapshot);
    KeysIndex(agg, 0);
    var r := BuildReport(snapshot, table);
    assert r[0].tolls.Get(Confirmed) == OneIfZero(CountrySum(snapshot, "US", Confirmed));
    var k :| 0 <= k < |table| && table[k] == CodeEntry("United States", code);
    assert Listed(table, "United States");
    UniqueCode(table, "United States", code, r[0].code.value);
  }
}
