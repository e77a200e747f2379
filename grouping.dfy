/** `groupby([key]).sum()`: rows keyed by a string are merged into one row
    per distinct key, each toll column summed, the keys in ascending order
    (pandas sorts the group keys by default). Used for the country
    aggregation (app.py line 93) and the Last_Update grouping of the pie
    chart (app.py line 167). */
module Grouping {
  import opened Records

  /** A key (a country name or a Last_Update stamp) with its tolls. */
  datatype Group = Group(key: string, tolls: Tolls)

  // ---------------------------------------------------------------------
  // Python's ordering of str values

  /** Code point by code point; a proper prefix comes first. */
  predicate Less(a: string, b: string)
  {
    if a == [] then b != []
    else b != [] && (a[0] < b[0] || (a[0] == b[0] && Less(a[1..], b[1..])))
  }

  lemma {:induction false} LessIrreflexive(a: string)
    ensures !Less(a, a)
  {
    if a != [] {
      LessIrreflexive(a[1..]);
    }
  }

  lemma {:induction false} LessTransitive(a: string, b: string, c: string)
    requires Less(a, b) && Less(b, c)
    ensures Less(a, c)
  {
    if a != [] && a[0] == b[0] && b[0] == c[0] {
      LessTransitive(a[1..], b[1..], c[1..]);
    }
  }

  lemma {:induction false} LessTotal(a: string, b: string)
    requires a != b
    ensures Less(a, b) || Less(b, a)
  {
    if a != [] && b != [] && a[0] == b[0] {
      assert a == [a[0]] + a[1..] && b == [b[0]] + b[1..];
      LessTotal(a[1..], b[1..]);
    }
  }

  // ---------------------------------------------------------------------
  // Keys, order and sums of a keyed sequence

  function Keys(gs: seq<Group>): set<string>
  {
    if gs == [] then {} else {gs[0].key} + Keys(gs[1..])
  }

  /** Keys strictly ascending: every key is below all keys after it. */
  predicate Sorted(gs: seq<Group>)
  {
    gs == [] || ((forall k :: k in Keys(gs[1..]) ==> Less(gs[0].key, k)) && Sorted(gs[1..]))
  }

  /** Sum of one toll column over all rows. */
  function Total(gs: seq<Group>, t: TollType): nat
  {
    if gs == [] then 0 else gs[0].tolls.Get(t) + Total(gs[1..], t)
  }

  /** Sum of one toll column over the rows with the given key. */
  function TotalFor(gs: seq<Group>, k: string, t: TollType): nat
  {
    if gs == [] then 0
    else (if gs[0].key == k then gs[0].tolls.Get(t) else 0) + TotalFor(gs[1..], k, t)
  }

  lemma {:induction false} KeysIndex(gs: seq<Group>, i: nat)
    requires i < |gs|
    ensures gs[i].key in Keys(gs)
  {
    if i > 0 {
      KeysIndex(gs[1..], i - 1);
    }
  }

  /** A key of the sequence is the key of one of its rows. */
  lemma {:induction false} KeysMember(gs: seq<Group>, k: string) returns (i: nat)
    requires k in Keys(gs)
    ensures i < |gs| && gs[i].key == k
  {
    if gs[0].key == k {
      i := 0;
    } else {
      var j := KeysMember(gs[1..], k);
      i := j + 1;
    }
  }

  lemma {:induction false} TotalForAbsent(gs: seq<Group>, k: string, t: TollType)
    requires k !in Keys(gs)
    ensures TotalFor(gs, k, t) == 0
  {
    if gs != [] {
      TotalForAbsent(gs[1..], k, t);
    }
  }

  /** In a sorted sequence each key occurs once, so a row holds the whole
      sum for its key. */
  lemma {:induction false} SortedTotalFor(gs: seq<Group>, i: nat, t: TollType)
    requires Sorted(gs) && i < |gs|
    ensures TotalFor(gs, gs[i].key, t) == gs[i].tolls.Get(t)
  {
    if i == 0 {
      LessIrreflexive(gs[0].key);
      TotalForAbsent(gs[1..], gs[0].key, t);
    } else {
      KeysIndex(gs[1..], i - 1);
      LessIrreflexive(gs[0].key);
      SortedTotalFor(gs[1..], i - 1, t);
    }
  }

  /** A sorted sequence has as many rows as distinct keys. */
  lemma {:induction false} SortedCount(gs: seq<Group>)
    requires Sorted(gs)
    ensures |Keys(gs)| == |gs|
  {
    if gs != [] {
      LessIrreflexive(gs[0].key);
      SortedCount(gs[1..]);
    }
  }

  // ---------------------------------------------------------------------
  // Grouping

  /** Adds one row to a sorted grouping: into the row with its key if there
      is one, otherwise as a new row at its place in key order. */
  function Insert(acc: seq<Group>, g: Group): seq<Group>
  {
    if acc == [] then [g]
    else if acc[0].key == g.key then [Group(g.key, acc[0].tolls.Plus(g.tolls))] + acc[1..]
    else if Less(g.key, acc[0].key) then [g] + acc
    else [acc[0]] + Insert(acc[1..], g)
  }

  lemma {:induction false} InsertKeys(acc: seq<Group>, g: Group)
    ensures Keys(Insert(acc, g)) == Keys(acc) + {g.key}
  {
    if acc != [] && acc[0].key != g.key && !Less(g.key, acc[0].key) {
      InsertKeys(acc[1..], g);
    }
  }

  lemma {:induction false} InsertSorted(acc: seq<Group>, g: Group)
    requires Sorted(acc)
    ensures Sorted(Insert(acc, g))
  {
    if acc == [] {
    } else if acc[0].key == g.key {
    } else if Less(g.key, acc[0].key) {
      forall k | k in Keys(acc) ensures Less(g.key, k) {
        if k != acc[0].key {
          LessTransitive(g.key, acc[0].key, k);
        }
      }
    } else {
      LessTotal(g.key, acc[0].key);
      InsertSorted(acc[1..], g);
      InsertKeys(acc[1..], g);
    }
  }

  lemma {:induction false} InsertTotalFor(acc: seq<Group>, g: Group, k: string, t: TollType)
    ensures TotalFor(Insert(acc, g), k, t) ==
            TotalFor(acc, k, t) + (if k == g.key then g.tolls.Get(t) else 0)
  {
    if acc != [] && acc[0].key != g.key && !Less(g.key, acc[0].key) {
      InsertTotalFor(acc[1..], g, k, t);
    }
  }

  lemma {:induction false} InsertTotal(acc: seq<Group>, g: Group, t: TollType)
    ensures Total(Insert(acc, g), t) == Total(acc, t) + g.tolls.Get(t)
  {
    if acc != [] && acc[0].key != g.key && !Less(g.key, acc[0].key) {
      InsertTotal(acc[1..], g, t);
    }
  }

  /** groupby([key]).sum(): one row per distinct key, keys ascending. */
  function GroupSum(xs: seq<Group>): (r: seq<Group>)
    ensures Sorted(r)
    ensures Keys(r) == Keys(xs)
    ensures |r| == |Keys(xs)|
  {
    if xs == [] then []
    else
      var r := Insert(GroupSum(xs[1..]), xs[0]);
      InsertSorted(GroupSum(xs[1..]), xs[0]);
      InsertKeys(GroupSum(xs[1..]), xs[0]);
      SortedCount(r);
      r
  }

  /** Each key's sum is the same before and after grouping. */
  lemma {:induction false} GroupSumTotalFor(xs: seq<Group>, k: string, t: TollType)
    ensures TotalFor(GroupSum(xs), k, t) == TotalFor(xs, k, t)
  {
    if xs != [] {
      GroupSumTotalFor(xs[1..], k, t);
      InsertTotalFor(GroupSum(xs[1..]), xs[0], k, t);
    }
  }

  /** Every output row carries, in each toll column, the sum of that column
      over exactly the input rows with its key. */
  lemma GroupSumRows(xs: seq<Group>)
    ensures forall i, t :: 0 <= i < |GroupSum(xs)| ==>
      GroupSum(xs)[i].tolls.Get(t) == TotalFor(xs, GroupSum(xs)[i].key, t)
  {
    var r := GroupSum(xs);
    forall i, t | 0 <= i < |r| ensures r[i].tolls.Get(t) == TotalFor(xs, r[i].key, t) {
      SortedTotalFor(r, i, t);
      GroupSumTotalFor(xs, r[i].key, t);
    }
  }

  /** Grouping conserves the total of every toll column. */
  lemma {:induction false} GroupSumConserves(xs: seq<Group>, t: TollType)
    ensures Total(GroupSum(xs), t) == Total(xs, t)
  {
    if xs != [] {
      GroupSumConserves(xs[1..], t);
      InsertTotal(GroupSum(xs[1..]), xs[0], t);
    }
  }

  /** Grouping a sequence that already has one row per key, in key order,
      gives it back unchanged. */
  lemma {:induction false} GroupSumOfSorted(gs: seq<Group>)
    requires Sorted(gs)
    ensures GroupSum(gs) == gs
  {
    if gs != [] {
      var tail := gs[1..];
      GroupSumOfSorted(tail);
      assert GroupSum(gs) == Insert(tail, gs[0]);
      if tail != [] {
        assert tail[0].key in Keys(tail);
        LessIrreflexive(gs[0].key);
        assert Insert(tail, gs[0]) == [gs[0]] + tail;
      }
      assert [gs[0]] + tail == gs;
    }
  }

  /** Grouping is idempotent. */
  lemma GroupSumIdempotent(xs: seq<Group>)
    ensures GroupSum(GroupSum(xs)) == GroupSum(xs)
  {
    GroupSumOfSorted(GroupSum(xs));
  }
}
