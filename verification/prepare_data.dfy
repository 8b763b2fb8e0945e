/**
  scripts/prepare_data.py: the raw King County sales are deduplicated by id, given an
  artificial listing date up to 59 days before the sale, sorted in place by listing date,
  and split by sale date into the training set and the production set.
*/
module PrepareData {
  import opened Wrappers
  import opened Calendar
  import opened Housing
  import SimulationClock
  import Utils

  /** One row of kc_house_data.csv as the script uses it: id, price and the parsed sale date. */
  datatype Sale = Sale(id: int, price: real, dateSold: Date)

  /** `random_day_offset`'s default `max_days`. */
  const ListingWindow: int := 60

  /** The last training day, "2014-10-31" as a midnight timestamp. */
  const TrainCutoff: Date := CivilDate(2014, 10, 31)

  // ---------------------------------------------------------------- drop_duplicates

  function SaleIds(s: seq<Sale>): set<int> {
    set i | 0 <= i < |s| :: s[i].id
  }

  lemma SaleIdsSnoc(s: seq<Sale>, x: Sale)
    ensures SaleIds(s + [x]) == SaleIds(s) + {x.id}
  {
    var t := s + [x];
    assert forall i :: 0 <= i < |s| ==> t[i] == s[i];
    assert t[|s|] == x;
  }

  /** The first row of s with this id, if any. */
  function FirstWithId(s: seq<Sale>, id: int): (r: Option<Sale>)
    ensures r.Some? ==> r.value in s && r.value.id == id
  {
    if s == [] then None
    else if s[0].id == id then Some(s[0])
    else FirstWithId(s[1..], id)
  }

  lemma {:induction false} FirstWithIdSnoc(s: seq<Sale>, x: Sale, id: int)
    ensures FirstWithId(s + [x], id) ==
      if FirstWithId(s, id).Some? then FirstWithId(s, id) else if x.id == id then Some(x) else None
  {
    if s == [] {
      assert [x][1..] == [];
    } else {
      assert (s + [x])[1..] == s[1..] + [x];
      FirstWithIdSnoc(s[1..], x, id);
    }
  }

  lemma {:induction false} FirstWithIdFound(s: seq<Sale>, id: int)
    ensures FirstWithId(s, id).Some? <==> id in SaleIds(s)
  {
    if s != [] {
      FirstWithIdFound(s[1..], id);
      assert SaleIds(s) == {s[0].id} + SaleIds(s[1..]) by {
        forall v | v in SaleIds(s) ensures v in {s[0].id} + SaleIds(s[1..]) {
          var i :| 0 <= i < |s| && s[i].id == v;
          if i > 0 { assert s[1..][i - 1] == s[i]; }
        }
        forall v | v in SaleIds(s[1..]) ensures v in SaleIds(s) {
          var i :| 0 <= i < |s[1..]| && s[1..][i].id == v;
          assert s[i + 1].id == v;
        }
      }
    }
  }

  /** `df.drop_duplicates(subset=["id"], keep="first")`. */
  function DedupFirst(rows: seq<Sale>): (r: seq<Sale>)
    ensures |r| <= |rows|
  {
    if rows == [] then []
    else
      var n := |rows| - 1;
      var p := DedupFirst(rows[..n]);
      if rows[n].id in SaleIds(rows[..n]) then p else p + [rows[n]]
  }

  /**
    After deduplication every id occurs once, no id is lost, and the row kept for an id is
    the first row of the input with that id.
  */
  lemma {:induction false} DedupFirstSpec(rows: seq<Sale>)
    ensures var r := DedupFirst(rows);
      (forall a, b :: 0 <= a < b < |r| ==> r[a].id != r[b].id)
      && SaleIds(r) == SaleIds(rows)
      && forall a :: 0 <= a < |r| ==> FirstWithId(rows, r[a].id) == Some(r[a])
  {
    if rows != [] {
      var n := |rows| - 1;
      var front := rows[..n];
      var x := rows[n];
      var p := DedupFirst(front);
      DedupFirstSpec(front);
      assert rows == front + [x];
      SaleIdsSnoc(front, x);
      forall id ensures FirstWithId(rows, id) ==
        if FirstWithId(front, id).Some? then FirstWithId(front, id) else if x.id == id then Some(x) else None
      {
        FirstWithIdSnoc(front, x, id);
      }
      if x.id !in SaleIds(front) {
        SaleIdsSnoc(p, x);
        FirstWithIdFound(front, x.id);
        var r := p + [x];
        forall a | 0 <= a < |p| ensures r[a].id != x.id {
          assert r[a] == p[a];
          assert p[a].id in SaleIds(p);
        }
        forall a | 0 <= a < |p| ensures FirstWithId(rows, r[a].id) == Some(r[a]) {
          assert r[a] == p[a];
        }
      }
    }
  }

  // ---------------------------------------------------------------- date_listed

  /**
    `df["date_listed"] = df.date_sold.apply(random_day_offset)` on the deduplicated rows;
    `draws[i]` is the generator's draw for row i.
  */
  function WithListingDates(rows: seq<Sale>, draws: seq<nat>): (r: seq<Record>)
    requires |draws| >= |rows| && forall i :: 0 <= i < |draws| ==> draws[i] < ListingWindow
    ensures |r| == |rows|
  {
    seq(|rows|, i requires 0 <= i < |rows| =>
      Record(rows[i].id, rows[i].price, Utils.RandomDayOffset(rows[i].dateSold, ListingWindow, draws[i]).value, rows[i].dateSold))
  }

  /** Each record keeps its sale row and is listed a whole number of days in [0, 60) before it sold. */
  lemma ListingDates(rows: seq<Sale>, draws: seq<nat>, i: int)
    requires |draws| >= |rows| && forall i :: 0 <= i < |draws| ==> draws[i] < ListingWindow
    requires 0 <= i < |rows|
    ensures var x := WithListingDates(rows, draws)[i];
      x.id == rows[i].id && x.price == rows[i].price && x.dateSold == rows[i].dateSold
      && DayNumber(x.dateListed) == DayNumber(x.dateSold) - draws[i]
      && 0 <= DayNumber(x.dateSold) - DayNumber(x.dateListed) < ListingWindow
  {
    Utils.OffsetWithin(rows[i].dateSold, ListingWindow, draws[i]);
  }

  // ---------------------------------------------------------------- sort_values

  ghost predicate SortedBy(s: seq<Record>, key: Record -> int) {
    forall i, j :: 0 <= i < j < |s| ==> key(s[i]) <= key(s[j])
  }

  function ListedKey(x: Record): int {
    DayNumber(x.dateListed)
  }

  function SoldKey(x: Record): int {
    DayNumber(x.dateSold)
  }

  /**
    Insertion of s[j] into the sorted prefix s[..i+1] in progress: every pair of positions up
    to i is in order except those involving j, and s[j] is below everything after it.
  */
  ghost predicate Inserting(s: seq<Record>, key: Record -> int, i: int, j: int) {
    0 <= j <= i < |s|
    && (forall k, l :: 0 <= k < l <= i && l != j && k != j ==> key(s[k]) <= key(s[l]))
    && (forall k :: 0 <= k < j ==> forall l :: j < l <= i ==> key(s[k]) <= key(s[l]))
    && (forall l :: j < l <= i ==> key(s[j]) < key(s[l]))
  }

  lemma InsertStart(s: seq<Record>, key: Record -> int, i: int)
    requires 0 <= i < |s| && SortedBy(s[..i], key)
    ensures Inserting(s, key, i, i)
  {
    assert forall k :: 0 <= k < i ==> s[..i][k] == s[k];
  }

  /** One swap moves s[j] a place down. */
  lemma InsertSwap(s: seq<Record>, key: Record -> int, i: int, j: int)
    requires Inserting(s, key, i, j) && j > 0 && key(s[j - 1]) > key(s[j])
    ensures Inserting(s[j - 1 := s[j]][j := s[j - 1]], key, i, j - 1)
  {
    var t := s[j - 1 := s[j]][j := s[j - 1]];
    assert t[j - 1] == s[j] && t[j] == s[j - 1];
    assert forall k :: 0 <= k < |s| && k != j - 1 && k != j ==> t[k] == s[k];
    forall k, l | 0 <= k < l <= i && l != j - 1 && k != j - 1 ensures key(t[k]) <= key(t[l]) {
      if k == j {
        assert key(s[j - 1]) <= key(s[l]);
      } else if l == j {
        assert key(s[k]) <= key(s[j - 1]);
      }
    }
    forall k, l | 0 <= k < j - 1 && j - 1 < l <= i ensures key(t[k]) <= key(t[l]) {
      if l == j {
        assert key(s[k]) <= key(s[j - 1]);
      }
    }
  }

  /** Swapping two positions keeps the multiset of rows. */
  lemma SwapPerm(s: seq<Record>, p: int, q: int)
    requires 0 <= p < q < |s|
    ensures multiset(s[p := s[q]][q := s[p]]) == multiset(s)
  {
    var t := s[p := s[q]][q := s[p]];
    assert t == s[..p] + [s[q]] + s[p + 1..q] + [s[p]] + s[q + 1..];
    assert s == s[..p] + [s[p]] + s[p + 1..q] + [s[q]] + s[q + 1..];
  }

  lemma InsertDone(s: seq<Record>, key: Record -> int, i: int, j: int)
    requires Inserting(s, key, i, j) && (j == 0 || key(s[j - 1]) <= key(s[j]))
    ensures SortedBy(s[..i + 1], key)
  {
    forall k, l | 0 <= k < l <= i ensures key(s[k]) <= key(s[l]) {
      if k == j {
      } else if l == j {
        assert key(s[k]) <= key(s[j - 1]);
      }
    }
  }

  /**
    `sort_values(by=..., inplace=True)`: pandas' default quicksort is not stable, so only the
    order of keys and the multiset of rows are promised, and that is all this sort promises.
  */
  /** Sink a[i] into the sorted prefix a[..i]. */
  method InsertAt(a: array<Record>, key: Record -> int, i: int)
    requires 0 <= i < a.Length && SortedBy(a[..i], key)
    modifies a
    ensures SortedBy(a[..i + 1], key)
    ensures multiset(a[..]) == multiset(old(a[..]))
  {
    InsertStart(a[..], key, i);
    var j := i;
    while j > 0 && key(a[j - 1]) > key(a[j])
      invariant Inserting(a[..], key, i, j)
      invariant multiset(a[..]) == multiset(old(a[..]))
    {
      ghost var s := a[..];
      InsertSwap(s, key, i, j);
      SwapPerm(s, j - 1, j);
      a[j - 1], a[j] := a[j], a[j - 1];
      assert a[..] == s[j - 1 := s[j]][j := s[j - 1]];
      j := j - 1;
    }
    InsertDone(a[..], key, i, j);
  }

  method SortBy(a: array<Record>, key: Record -> int)
    modifies a
    ensures SortedBy(a[..], key)
    ensures multiset(a[..]) == multiset(old(a[..]))
  {
    var i := 0;
    while i < a.Length
      invariant 0 <= i <= a.Length
      invariant SortedBy(a[..i], key)
      invariant multiset(a[..]) == multiset(old(a[..]))
    {
      InsertAt(a, key, i);
      i := i + 1;
    }
    assert a[..a.Length] == a[..];
  }

  /** A sorted copy of s: the `sort_values` of a filtered frame. */
  method SortedCopy(s: seq<Record>, key: Record -> int) returns (r: seq<Record>)
    ensures SortedBy(r, key) && multiset(r) == multiset(s)
  {
    var a := new Record[|s|](i requires 0 <= i < |s| => s[i]);
    assert a[..] == s;
    SortBy(a, key);
    r := a[..];
  }

  /**
    Lines 50-59 of the script: deduplicate, add listing dates, sort by listing date in place
    and reset the index. The CSV read and the date parsing are outside the model.
  */
  method PrepareListings(raw: seq<Sale>, draws: seq<nat>) returns (df: seq<Record>)
    requires |draws| >= |raw| && forall i :: 0 <= i < |draws| ==> draws[i] < ListingWindow
    ensures multiset(df) == multiset(WithListingDates(DedupFirst(raw), draws))
    ensures SortedBy(df, ListedKey)
  {
    var rows := DedupFirst(raw);
    df := SortedCopy(WithListingDates(rows, draws), ListedKey);
  }

  /**
    The prepared frame has one row per id, the first row of the raw data with that id, listed
    0 to 59 days before it sold, in non-decreasing listing-date order.
  */
  lemma {:induction false} PreparedListings(raw: seq<Sale>, draws: seq<nat>, df: seq<Record>)
    requires |draws| >= |raw| && forall i :: 0 <= i < |draws| ==> draws[i] < ListingWindow
    requires multiset(df) == multiset(WithListingDates(DedupFirst(raw), draws))
    ensures UniqueIds(df)
    ensures forall x :: x in df ==>
      FirstWithId(raw, x.id) == Some(Sale(x.id, x.price, x.dateSold))
      && 0 <= DayNumber(x.dateSold) - DayNumber(x.dateListed) < ListingWindow
  {
    var rows := DedupFirst(raw);
    var recs := WithListingDates(rows, draws);
    DedupFirstSpec(raw);
    forall i, j | 0 <= i < j < |recs| ensures recs[i].id != recs[j].id {
      ListingDates(rows, draws, i);
      ListingDates(rows, draws, j);
    }
    PermUniqueIds(df, recs);
    forall x | x in df ensures FirstWithId(raw, x.id) == Some(Sale(x.id, x.price, x.dateSold))
      && 0 <= DayNumber(x.dateSold) - DayNumber(x.dateListed) < ListingWindow
    {
      assert x in multiset(recs);
      var i :| 0 <= i < |recs| && recs[i] == x;
      ListingDates(rows, draws, i);
    }
  }

  /** A reordering of a frame without repeated ids has no repeated ids. */
  lemma PermUniqueIds(s: seq<Record>, t: seq<Record>)
    requires multiset(s) == multiset(t) && UniqueIds(t)
    ensures UniqueIds(s)
  {
    forall i, j | 0 <= i < j < |s| ensures s[i].id != s[j].id {
      assert s[i] in multiset(t) && s[j] in multiset(t);
      var a :| 0 <= a < |t| && t[a] == s[i];
      var b :| 0 <= b < |t| && t[b] == s[j];
      if a == b {
        MultisetTwice(s, i, j);
        SeqOnceCount(t, a);
        assert false;
      } else if a < b {
        assert t[a].id != t[b].id;
      } else {
        assert t[b].id != t[a].id;
      }
    }
  }

  /** An element found at two positions occurs at least twice. */
  lemma MultisetTwice(s: seq<Record>, i: int, j: int)
    requires 0 <= i < j < |s| && s[i] == s[j]
    ensures multiset(s)[s[i]] >= 2
  {
    assert s == s[..i] + [s[i]] + s[i + 1..j] + [s[j]] + s[j + 1..];
  }

  /** In a sequence without repeated ids every element occurs once. */
  lemma SeqOnceCount(s: seq<Record>, a: int)
    requires 0 <= a < |s| && UniqueIds(s)
    ensures multiset(s)[s[a]] == 1
  {
    assert s == s[..a] + [s[a]] + s[a + 1..];
    assert s[a] !in s[..a] by {
      forall y | y in s[..a] ensures y != s[a] {
        var k :| 0 <= k < a && s[..a][k] == y;
        assert s[k].id != s[a].id;
      }
    }
    var tail := s[a + 1..];
    assert s[a] !in tail by {
      forall k | 0 <= k < |tail| ensures tail[k] != s[a] {
        assert tail[k] == s[a + 1 + k];
      }
    }
  }

  // ---------------------------------------------------------------- train / prod split

  /** `df[df.date_sold.between(lo, "2014-10-31", inclusive="both")]`. */
  function TrainRows(df: seq<Record>, lo: Date): (r: seq<Record>)
    ensures forall x :: x in r <==> x in df && DayNumber(lo) <= DayNumber(x.dateSold) <= DayNumber(TrainCutoff)
  {
    if df == [] then []
    else
      var rest := TrainRows(df[1..], lo);
      assert forall x :: x in df <==> x == df[0] || x in df[1..];
      if DayNumber(lo) <= DayNumber(df[0].dateSold) <= DayNumber(TrainCutoff) then [df[0]] + rest else rest
  }

  /** `df[df.date_sold.between("2014-10-31", hi, inclusive=False)]`: both bounds excluded. */
  function ProdRows(df: seq<Record>, hi: Date): (r: seq<Record>)
    ensures forall x :: x in r <==> x in df && DayNumber(TrainCutoff) < DayNumber(x.dateSold) < DayNumber(hi)
  {
    if df == [] then []
    else
      var rest := ProdRows(df[1..], hi);
      assert forall x :: x in df <==> x == df[0] || x in df[1..];
      if DayNumber(TrainCutoff) < DayNumber(df[0].dateSold) < DayNumber(hi) then [df[0]] + rest else rest
  }

  /** `df.date_sold.min()`. */
  function MinSold(df: seq<Record>): Date
    requires |df| > 0
  {
    SimulationClock.Earliest(SoldDates(df))
  }

  /** `df.date_sold.max().to_period("M").to_timestamp()`: the first day of the latest sale's month. */
  function MaxSold(df: seq<Record>): (d: Date)
    requires |df| > 0
    ensures d.day == 1 && MonthIndex(d) == MonthIndex(SimulationClock.Latest(SoldDates(df)))
  {
    MonthStart(SimulationClock.Latest(SoldDates(df)))
  }

  /** Every sale falls in the month of max_sold or before it. */
  lemma MaxSoldBound(df: seq<Record>, x: Record)
    requires x in df
    ensures MonthIndex(x.dateSold) <= MonthIndex(MaxSold(df))
  {
    var latest := SimulationClock.Latest(SoldDates(df));
    var i :| 0 <= i < |df| && df[i] == x;
    assert SoldDates(df)[i] == x.dateSold;
    if MonthIndex(latest) < MonthIndex(x.dateSold) {
      MonthIndexOrder(latest, x.dateSold);
      assert false;
    }
  }

  /**
    Lines 65-76 of the script, on the frame that outlier removal leaves: the training rows
    and the production rows, each sorted by sale date. On an empty frame min() and max() are
    NaT and both selections are empty.
  */
  method SplitTrainProd(df: seq<Record>) returns (train: seq<Record>, prod: seq<Record>)
    ensures |df| == 0 ==> train == [] && prod == []
    ensures |df| > 0 ==> multiset(train) == multiset(TrainRows(df, MinSold(df)))
    ensures |df| > 0 ==> multiset(prod) == multiset(ProdRows(df, MaxSold(df)))
    ensures SortedBy(train, SoldKey) && SortedBy(prod, SoldKey)
  {
    if |df| == 0 {
      return [], [];
    }
    train := SortedCopy(TrainRows(df, MinSold(df)), SoldKey);
    prod := SortedCopy(ProdRows(df, MaxSold(df)), SoldKey);
  }

  /**
    What the split selects: training holds exactly the rows sold on or before 2014-10-31
    (the lower bound min_sold excludes nothing), production exactly the rows sold after
    2014-10-31 and before the first day of the final month; no row is in both.
  */
  lemma {:induction false} SplitSelects(df: seq<Record>, train: seq<Record>, prod: seq<Record>)
    requires |df| > 0
    requires multiset(train) == multiset(TrainRows(df, MinSold(df)))
    requires multiset(prod) == multiset(ProdRows(df, MaxSold(df)))
    ensures forall x :: x in train <==> x in df && DayNumber(x.dateSold) <= DayNumber(TrainCutoff)
    ensures forall x :: x in prod <==> x in df && DayNumber(TrainCutoff) < DayNumber(x.dateSold) < DayNumber(MaxSold(df))
    ensures forall x :: !(x in train && x in prod)
  {
    forall x | x in df ensures DayNumber(MinSold(df)) <= DayNumber(x.dateSold) {
      var i :| 0 <= i < |df| && df[i] == x;
      assert SoldDates(df)[i] == x.dateSold;
    }
    forall x ensures x in train <==> x in TrainRows(df, MinSold(df)) {
      assert x in train <==> x in multiset(train);
    }
    forall x ensures x in prod <==> x in ProdRows(df, MaxSold(df)) {
      assert x in prod <==> x in multiset(prod);
    }
  }

  /**
    A row sold on or after the first day of the final month is never in production; it is
    not in training either once that month starts after the training cutoff.
  */
  lemma {:induction false} FinalMonthDropped(df: seq<Record>, train: seq<Record>, prod: seq<Record>, x: Record)
    requires |df| > 0
    requires multiset(train) == multiset(TrainRows(df, MinSold(df)))
    requires multiset(prod) == multiset(ProdRows(df, MaxSold(df)))
    requires DayNumber(x.dateSold) >= DayNumber(MaxSold(df))
    ensures x !in prod
    ensures DayNumber(MaxSold(df)) > DayNumber(TrainCutoff) ==> x !in train
  {
    SplitSelects(df, train, prod);
  }
}
