/**
  The value-level steps of `Simulation` in src/simulation.py: the window filters on
  prod_df, `format_metadata_for_delayed_metrics`, the length guard and the zip of
  `add_delayed_metrics`, the report directory name, the deploy/restart choice and
  `format_model_metrics_query`.
*/
module SimulationSteps {
  import opened Wrappers
  import opened Calendar
  import opened Housing
  import opened SimulationClock
  import DateText
  import Text

  // ---------------------------------------------------------------- window filters

  /** `df.loc[df.date_listed.between(start, end, inclusive="left")]`. */
  function ListedIn(df: seq<Record>, w: Window): (r: seq<Record>)
    ensures |r| <= |df|
  {
    if df == [] then []
    else (if InWindow(df[0].dateListed, w) then [df[0]] else []) + ListedIn(df[1..], w)
  }

  /** `df.loc[df.date_sold.between(start, end, inclusive="left")]`. */
  function SoldIn(df: seq<Record>, w: Window): (r: seq<Record>)
    ensures |r| <= |df|
  {
    if df == [] then []
    else (if InWindow(df[0].dateSold, w) then [df[0]] else []) + SoldIn(df[1..], w)
  }

  /** `df[df.id.isin(ids)]`. */
  function WithIdIn(df: seq<Record>, ids: set<int>): (r: seq<Record>)
    ensures |r| <= |df|
  {
    if df == [] then []
    else (if df[0].id in ids then [df[0]] else []) + WithIdIn(df[1..], ids)
  }

  // ---------------------------------------------------------------- make_inference

  /**
    The `id_uuid_mapping` of `threaded_call` on a batch: `dict(results)` over the per-record
    endpoint answers in batch order (`executor.map` keeps input order), so for a repeated id
    the later record's uuid is kept.
  */
  function BatchMapping(batch: seq<Record>, endpoint: Record -> Uuid): (r: map<int, Uuid>)
    ensures r.Keys == Ids(batch)
  {
    if batch == [] then map[]
    else BatchMapping(batch[..|batch| - 1], endpoint)[batch[|batch| - 1].id := endpoint(batch[|batch| - 1])]
  }

  /** The uuid kept for an id is the endpoint's answer for the last record carrying that id. */
  lemma {:induction false} BatchMappingLastWins(batch: seq<Record>, endpoint: Record -> Uuid, j: int)
    requires 0 <= j < |batch|
    requires forall k :: j < k < |batch| ==> batch[k].id != batch[j].id
    ensures BatchMapping(batch, endpoint)[batch[j].id] == endpoint(batch[j])
  {
    var n := |batch|;
    if j < n - 1 {
      var p := batch[..n - 1];
      assert p[j] == batch[j];
      assert forall k :: j < k < |p| ==> p[k].id != p[j].id by {
        forall k | j < k < |p| ensures p[k].id != p[j].id { assert p[k] == batch[k]; }
      }
      BatchMappingLastWins(p, endpoint, j);
    }
  }

  /**
    `master_id_uuid_mapping.update(id_uuid_mapping)`: the key set grows by the batch's ids,
    every batch id maps to the batch's uuid, and every other id keeps its old uuid.
  */
  lemma LedgerUpdate(ledger: map<int, Uuid>, batch: seq<Record>, endpoint: Record -> Uuid)
    ensures var l := ledger + BatchMapping(batch, endpoint);
      l.Keys == ledger.Keys + Ids(batch)
      && (forall id :: id in Ids(batch) ==> l[id] == BatchMapping(batch, endpoint)[id])
      && (forall id :: id in ledger && id !in Ids(batch) ==> l[id] == ledger[id])
  {
  }

  /** A record is listed in w, as selected, iff it is in df and its listing date is in w. */
  lemma {:induction false} ListedInMembers(df: seq<Record>, w: Window)
    ensures forall x :: x in ListedIn(df, w) <==> x in df && InWindow(x.dateListed, w)
  {
    if df != [] {
      ListedInMembers(df[1..], w);
      assert df == [df[0]] + df[1..];
    }
  }

  /** A record is sold in w, as selected, iff it is in df and its sale date is in w. */
  lemma {:induction false} SoldInMembers(df: seq<Record>, w: Window)
    ensures forall x :: x in SoldIn(df, w) <==> x in df && InWindow(x.dateSold, w)
  {
    if df != [] {
      SoldInMembers(df[1..], w);
      assert df == [df[0]] + df[1..];
    }
  }

  /** `isin` keeps exactly the records of df whose id is in ids. */
  lemma {:induction false} WithIdInMembers(df: seq<Record>, ids: set<int>)
    ensures forall x :: x in WithIdIn(df, ids) <==> x in df && x.id in ids
  {
    if df != [] {
      WithIdInMembers(df[1..], ids);
      assert df == [df[0]] + df[1..];
    }
  }

  // ---------------------------------------------------------------- format_metadata_for_delayed_metrics

  /** The error `format_metadata_for_delayed_metrics` raises, if any. */
  datatype FormatError =
    | MissingDateRange   // `assert date_range is not None` in production mode
    | UnknownId(id: int) // `master_id_uuid_mapping[x]` raises KeyError

  /** The three parallel lists handed to `add_delayed_metrics`. */
  datatype Metadata = Metadata(uuids: seq<Uuid>, groundTruths: seq<real>, soldDates: seq<string>)

  /** The newly sold records: all of df in train mode, those sold in the window otherwise. */
  function NewlySold(df: seq<Record>, range: Option<Window>, isTrain: bool): seq<Record>
    requires isTrain || range.Some?
  {
    if isTrain then df else SoldIn(df, range.value)
  }

  /** The first id, in record order, that the ledger does not know (where `apply` raises). */
  function FirstUnknown(s: seq<Record>, ledger: map<int, Uuid>): (r: Option<int>)
    ensures r.None? <==> forall i :: 0 <= i < |s| ==> s[i].id in ledger
    ensures r.Some? ==> r.value !in ledger && r.value in Ids(s)
  {
    if s == [] then None
    else if s[0].id !in ledger then Some(s[0].id)
    else
      var r := FirstUnknown(s[1..], ledger);
      if r.Some? then
        IdsMember(s[1..], r.value);
        var i :| 0 <= i < |s[1..]| && s[1..][i].id == r.value;
        assert s[i + 1] == s[1..][i];
        r
      else r
  }

  /** `s.id.apply(lambda x: ledger[x]).tolist()` when every id is known. */
  function Lookup(s: seq<Record>, ledger: map<int, Uuid>): (r: seq<Uuid>)
    requires forall i :: 0 <= i < |s| ==> s[i].id in ledger
    ensures |r| == |s| && forall i :: 0 <= i < |s| ==> r[i] == ledger[s[i].id]
  {
    if s == [] then [] else [ledger[s[0].id]] + Lookup(s[1..], ledger)
  }

  function Prices(s: seq<Record>): (r: seq<real>)
    ensures |r| == |s| && forall i :: 0 <= i < |s| ==> r[i] == s[i].price
  {
    if s == [] then [] else [s[0].price] + Prices(s[1..])
  }

  /** `s.date_sold.astype(str).tolist()`. */
  function SoldDateStrings(s: seq<Record>): (r: seq<string>)
    ensures |r| == |s| && forall i :: 0 <= i < |s| ==> r[i] == DateText.FormatIso(s[i].dateSold)
  {
    if s == [] then [] else [DateText.FormatIso(s[0].dateSold)] + SoldDateStrings(s[1..])
  }

  /** `format_metadata_for_delayed_metrics(df, date_range, is_train)` over the ledger. */
  function FormatMetadata(ledger: map<int, Uuid>, df: seq<Record>, range: Option<Window>, isTrain: bool)
    : Result<Metadata, FormatError>
  {
    if !isTrain && range.None? then Failure(MissingDateRange)
    else
      var sold := NewlySold(df, range, isTrain);
      match FirstUnknown(sold, ledger)
      case Some(id) => Failure(UnknownId(id))
      case None =>
        var matched := WithIdIn(df, Ids(sold));
        Success(Metadata(Lookup(sold, ledger), Prices(matched), SoldDateStrings(matched)))
  }

  lemma {:induction false} WithIdInAll(df: seq<Record>, ids: set<int>)
    requires forall i :: 0 <= i < |df| ==> df[i].id in ids
    ensures WithIdIn(df, ids) == df
  {
    if df != [] {
      WithIdInAll(df[1..], ids);
    }
  }

  lemma {:induction false} WithIdInIgnores(df: seq<Record>, ids: set<int>, x: int)
    requires forall i :: 0 <= i < |df| ==> df[i].id != x
    ensures WithIdIn(df, ids + {x}) == WithIdIn(df, ids)
  {
    if df != [] {
      WithIdInIgnores(df[1..], ids, x);
    }
  }

  /** With unique ids, re-selecting df by the ids of its sold records gives back those records. */
  lemma {:induction false} WithIdInSold(df: seq<Record>, w: Window)
    requires UniqueIds(df)
    ensures WithIdIn(df, Ids(SoldIn(df, w))) == SoldIn(df, w)
  {
    if df != [] {
      var t := df[1..];
      UniqueTail(df);
      WithIdInSold(t, w);
      NotInTail(df);
      HeadNotInSoldTail(df, w);
      if InWindow(df[0].dateSold, w) {
        HeadSold(df, w);
      } else {
        HeadUnsold(df, w);
      }
    }
  }

  lemma UniqueTail(df: seq<Record>)
    requires df != [] && UniqueIds(df)
    ensures UniqueIds(df[1..])
  {
    var t := df[1..];
    forall i, j | 0 <= i < j < |t| ensures t[i].id != t[j].id {
      assert t[i] == df[i + 1] && t[j] == df[j + 1];
    }
  }

  /** The head's id is not among the ids of the tail's sold records. */
  lemma HeadNotInSoldTail(df: seq<Record>, w: Window)
    requires df != [] && forall i :: 0 <= i < |df[1..]| ==> df[1..][i].id != df[0].id
    ensures df[0].id !in Ids(SoldIn(df[1..], w))
  {
    var t := df[1..];
    SoldInMembers(t, w);
    IdsOfSubset(SoldIn(t, w), t);
    if df[0].id in Ids(t) {
      IdsMember(t, df[0].id);
    }
  }

  lemma HeadSold(df: seq<Record>, w: Window)
    requires df != [] && InWindow(df[0].dateSold, w)
    requires forall i :: 0 <= i < |df[1..]| ==> df[1..][i].id != df[0].id
    requires WithIdIn(df[1..], Ids(SoldIn(df[1..], w))) == SoldIn(df[1..], w)
    ensures WithIdIn(df, Ids(SoldIn(df, w))) == SoldIn(df, w)
  {
    var x, t := df[0], df[1..];
    var soldT := SoldIn(t, w);
    assert SoldIn(df, w) == [x] + soldT;
    IdsOfCons(x, soldT);
    var ids := Ids(soldT) + {x.id};
    assert WithIdIn(df, ids) == [x] + WithIdIn(t, ids);
    WithIdInIgnores(t, Ids(soldT), x.id);
  }

  lemma HeadUnsold(df: seq<Record>, w: Window)
    requires df != [] && !InWindow(df[0].dateSold, w)
    requires df[0].id !in Ids(SoldIn(df[1..], w))
    requires WithIdIn(df[1..], Ids(SoldIn(df[1..], w))) == SoldIn(df[1..], w)
    ensures WithIdIn(df, Ids(SoldIn(df, w))) == SoldIn(df, w)
  {
    assert SoldIn(df, w) == SoldIn(df[1..], w);
  }

  lemma IdsOfSubset(s: seq<Record>, t: seq<Record>)
    requires forall x :: x in s ==> x in t
    ensures Ids(s) <= Ids(t)
  {
    forall v | v in Ids(s) ensures v in Ids(t) {
      IdsMember(s, v);
      var i :| 0 <= i < |s| && s[i].id == v;
      assert s[i] in t;
      var j :| 0 <= j < |t| && t[j] == s[i];
    }
  }

  /** With unique ids, the head's id is not among the ids of the tail's sold records. */
  lemma NotInTail(df: seq<Record>)
    requires df != [] && UniqueIds(df)
    ensures forall i :: 0 <= i < |df[1..]| ==> df[1..][i].id != df[0].id
  {
    forall i | 0 <= i < |df[1..]| ensures df[1..][i].id != df[0].id {
      assert df[i + 1] == df[1..][i];
    }
  }

  lemma {:induction false} IdsOfCons(x: Record, s: seq<Record>)
    ensures Ids([x] + s) == Ids(s) + {x.id}
  {
    var l := [x] + s;
    forall v | v in Ids(l) ensures v in Ids(s) + {x.id} {
      IdsMember(l, v);
      var i :| 0 <= i < |l| && l[i].id == v;
      if i > 0 { assert l[i] == s[i - 1]; }
    }
    forall v | v in Ids(s) + {x.id} ensures v in Ids(l) {
      if v != x.id {
        IdsMember(s, v);
        var i :| 0 <= i < |s| && s[i].id == v;
        assert l[i + 1] == s[i];
      } else {
        assert l[0] == x;
      }
    }
  }

  /** When `format_metadata_for_delayed_metrics` raises, and which error. */
  lemma FormatMetadataErrors(ledger: map<int, Uuid>, df: seq<Record>, range: Option<Window>, isTrain: bool)
    ensures FormatMetadata(ledger, df, range, isTrain) == Failure(MissingDateRange) <==> !isTrain && range.None?
    ensures FormatMetadata(ledger, df, range, isTrain).Success? <==>
      (isTrain || range.Some?)
      && forall i :: 0 <= i < |NewlySold(df, range, isTrain)| ==> NewlySold(df, range, isTrain)[i].id in ledger
    ensures FormatMetadata(ledger, df, range, isTrain).Failure? && FormatMetadata(ledger, df, range, isTrain).error.UnknownId? ==>
      var id := FormatMetadata(ledger, df, range, isTrain).error.id;
      id !in ledger && id in Ids(NewlySold(df, range, isTrain))
  {
  }

  /** The uuid list has one entry per newly sold record, looked up in the ledger, in record order. */
  lemma FormatMetadataUuids(ledger: map<int, Uuid>, df: seq<Record>, range: Option<Window>, isTrain: bool)
    requires FormatMetadata(ledger, df, range, isTrain).Success?
    ensures var md, sold := FormatMetadata(ledger, df, range, isTrain).value, NewlySold(df, range, isTrain);
      |md.uuids| == |sold| && forall i :: 0 <= i < |sold| ==> md.uuids[i] == ledger[sold[i].id]
  {
  }

  /** In train mode every record of df is newly sold. */
  lemma TrainSelectsAll(df: seq<Record>, range: Option<Window>)
    ensures NewlySold(df, range, true) == df
  {
  }

  /**
    The three lists are parallel: equal length, position i of each describing the same
    newly sold record. This holds in train mode always, and in production mode when the ids
    of df are unique.
  */
  lemma FormatMetadataAligned(ledger: map<int, Uuid>, df: seq<Record>, range: Option<Window>, isTrain: bool)
    requires FormatMetadata(ledger, df, range, isTrain).Success?
    requires isTrain || UniqueIds(df)
    ensures var md, sold := FormatMetadata(ledger, df, range, isTrain).value, NewlySold(df, range, isTrain);
      |md.uuids| == |md.groundTruths| == |md.soldDates| == |sold|
      && forall i :: 0 <= i < |sold| ==>
           md.uuids[i] == ledger[sold[i].id] && md.groundTruths[i] == sold[i].price
           && md.soldDates[i] == DateText.FormatIso(sold[i].dateSold)
  {
    if isTrain {
      WithIdInAll(df, Ids(df));
    } else {
      WithIdInSold(df, range.value);
    }
  }

  // ---------------------------------------------------------------- add_delayed_metrics

  /** One `metrics.track_delayed_metrics(metrics={...}, prediction_uuid=uuid)` call. */
  datatype DelayedWrite = DelayedWrite(predictionUuid: Uuid, groundTruth: real, dateSold: string)

  /** `zip(uuids, ground_truths, sold_dates)`: stops at the shortest list. */
  function Zip3(u: seq<Uuid>, g: seq<real>, d: seq<string>): (r: seq<DelayedWrite>)
    ensures |r| == Min(|u|, Min(|g|, |d|))
    ensures forall i :: 0 <= i < |r| ==> r[i] == DelayedWrite(u[i], g[i], d[i])
  {
    if u == [] || g == [] || d == [] then []
    else [DelayedWrite(u[0], g[0], d[0])] + Zip3(u[1..], g[1..], d[1..])
  }

  /** The guard as written: `len(u) != len(g) != len(d)` is Python's chained `a != b and b != c`. */
  predicate ChainedGuardRaises(a: int, b: int, c: int) {
    a != b && b != c
  }

  /** The guard as its error message intends: raise unless all three lengths agree. */
  predicate LengthsDiffer(a: int, b: int, c: int) {
    !(a == b && b == c)
  }

  /**
    The writes of `add_delayed_metrics` as written, or None where it raises. It lets through
    lists of different lengths (1, 2, 2 for one) and then writes only the shortest prefix.
  */
  function DelayedWritesAsWritten(u: seq<Uuid>, g: seq<real>, d: seq<string>): Option<seq<DelayedWrite>> {
    if ChainedGuardRaises(|u|, |g|, |d|) then None else Some(Zip3(u, g, d))
  }

  /** The writes of `add_delayed_metrics` with the intended guard, or None where it raises. */
  function DelayedWrites(u: seq<Uuid>, g: seq<real>, d: seq<string>): Option<seq<DelayedWrite>> {
    if LengthsDiffer(|u|, |g|, |d|) then None else Some(Zip3(u, g, d))
  }

  /** The intended guard raises exactly on a length mismatch, and otherwise every element is written once, in order. */
  lemma DelayedWritesExact(u: seq<Uuid>, g: seq<real>, d: seq<string>)
    ensures DelayedWrites(u, g, d).Some? <==> |u| == |g| == |d|
    ensures DelayedWrites(u, g, d).Some? ==>
      var ws := DelayedWrites(u, g, d).value;
      |ws| == |u| && forall i :: 0 <= i < |u| ==> ws[i] == DelayedWrite(u[i], g[i], d[i])
  {
  }

  /** The chained guard raises only when the first two and the last two lengths both differ. */
  lemma ChainedGuardMeaning(u: seq<Uuid>, g: seq<real>, d: seq<string>)
    ensures DelayedWritesAsWritten(u, g, d).None? <==> |u| != |g| && |g| != |d|
    ensures DelayedWritesAsWritten(u, g, d).Some? ==> |DelayedWritesAsWritten(u, g, d).value| == Min(|u|, Min(|g|, |d|))
  {
  }

  /** On lists of equal length the two guards agree. */
  lemma GuardsAgreeOnEqualLengths(u: seq<Uuid>, g: seq<real>, d: seq<string>)
    requires |u| == |g| == |d|
    ensures DelayedWritesAsWritten(u, g, d) == DelayedWrites(u, g, d)
  {
  }

  /**
    A production frame with a repeated id reaches the chained guard with lengths 1, 2, 2: the
    record sold in the window has one uuid but its id matches two rows. The guard as written
    lets this through and writes one ground truth; the intended guard raises.
  */
  lemma ChainedGuardMissesDuplicateId(w: Window, uuid: Uuid, a: Record, b: Record)
    requires a.id == b.id && InWindow(a.dateSold, w) && !InWindow(b.dateSold, w)
    ensures var md := FormatMetadata(map[a.id := uuid], [a, b], Some(w), false);
      md.Success?
      && |md.value.uuids| == 1 && |md.value.groundTruths| == 2 && |md.value.soldDates| == 2
      && DelayedWritesAsWritten(md.value.uuids, md.value.groundTruths, md.value.soldDates) == Some([DelayedWrite(uuid, a.price, DateText.FormatIso(a.dateSold))])
      && DelayedWrites(md.value.uuids, md.value.groundTruths, md.value.soldDates).None?
  {
    var df, ledger := [a, b], map[a.id := uuid];
    assert SoldIn(df, w) == [a] by {
      assert df[1..] == [b] && [b][1..] == [];
    }
    assert FirstUnknown([a], ledger) == None;
    assert Ids([a]) == {a.id};
    assert WithIdIn(df, {a.id}) == df by {
      assert df[1..] == [b] && [b][1..] == [];
    }
    var md := Metadata(Lookup([a], ledger), Prices(df), SoldDateStrings(df));
    assert FormatMetadata(ledger, df, Some(w), false) == Success(md);
    assert |md.uuids| == 1 && |md.groundTruths| == 2 && |md.soldDates| == 2;
    var z := Zip3(md.uuids, md.groundTruths, md.soldDates);
    assert |z| == 1 && z[0] == DelayedWrite(uuid, a.price, DateText.FormatIso(a.dateSold));
    assert z == [DelayedWrite(uuid, a.price, DateText.FormatIso(a.dateSold))];
    assert DelayedWritesAsWritten(md.uuids, md.groundTruths, md.soldDates) == Some(z);
  }

  /** Every record of s has an id the ledger knows. */
  predicate IdsKnown(s: seq<Record>, ledger: map<int, Uuid>) {
    forall k :: 0 <= k < |s| ==> s[k].id in ledger
  }

  /** The delayed writes that attribute each record's ground truth to its own prediction. */
  function GroundTruthWrites(ledger: map<int, Uuid>, s: seq<Record>): (r: seq<DelayedWrite>)
    requires IdsKnown(s, ledger)
    ensures |r| == |s|
    ensures forall k :: 0 <= k < |s| ==> r[k] == DelayedWrite(ledger[s[k].id], s[k].price, DateText.FormatIso(s[k].dateSold))
  {
    if s == [] then []
    else [DelayedWrite(ledger[s[0].id], s[0].price, DateText.FormatIso(s[0].dateSold))] + GroundTruthWrites(ledger, s[1..])
  }

  /**
    Where the metadata of a batch is formatted and its lists are parallel, `add_delayed_metrics`
    writes each newly sold record's price and sale date against that record's own uuid.
  */
  lemma TrackedWrites(ledger: map<int, Uuid>, df: seq<Record>, range: Option<Window>, isTrain: bool)
    requires FormatMetadata(ledger, df, range, isTrain).Success?
    requires isTrain || UniqueIds(df)
    ensures IdsKnown(NewlySold(df, range, isTrain), ledger)
    ensures var md := FormatMetadata(ledger, df, range, isTrain).value;
      DelayedWrites(md.uuids, md.groundTruths, md.soldDates) == Some(GroundTruthWrites(ledger, NewlySold(df, range, isTrain)))
  {
    FormatMetadataErrors(ledger, df, range, isTrain);
    FormatMetadataAligned(ledger, df, range, isTrain);
    var md := FormatMetadata(ledger, df, range, isTrain).value;
    ZipAligned(ledger, NewlySold(df, range, isTrain), md);
  }

  /** Parallel lists describing the records of s zip into the writes of their own ground truths. */
  lemma ZipAligned(ledger: map<int, Uuid>, s: seq<Record>, md: Metadata)
    requires |md.uuids| == |md.groundTruths| == |md.soldDates| == |s|
    requires forall i :: 0 <= i < |s| ==>
      s[i].id in ledger && md.uuids[i] == ledger[s[i].id] && md.groundTruths[i] == s[i].price
      && md.soldDates[i] == DateText.FormatIso(s[i].dateSold)
    ensures IdsKnown(s, ledger)
    ensures DelayedWrites(md.uuids, md.groundTruths, md.soldDates) == Some(GroundTruthWrites(ledger, s))
  {
    var z := Zip3(md.uuids, md.groundTruths, md.soldDates);
    assert z == GroundTruthWrites(ledger, s);
  }

  /**
    The outcome of one ground-truth step (`format_metadata_for_delayed_metrics`, then the length
    guard of `add_delayed_metrics`), in the terms the simulation states it: where it raises, and
    what it writes when it does not.
  */
  lemma {:induction false} TrackOutcome(ledger: map<int, Uuid>, df: seq<Record>, range: Option<Window>, isTrain: bool)
    ensures var m := FormatMetadata(ledger, df, range, isTrain);
      (m == Failure(MissingDateRange) <==> !isTrain && range.None?)
      && (m.Success? ==> isTrain || range.Some?)
      && (m.Failure? && m.error.UnknownId? ==>
            (isTrain || range.Some?) && m.error.id !in ledger && m.error.id in Ids(NewlySold(df, range, isTrain)))
      && (m.Success? ==>
            var sold := NewlySold(df, range, isTrain);
            |m.value.uuids| == |sold| && forall k :: 0 <= k < |sold| ==> sold[k].id in ledger && m.value.uuids[k] == ledger[sold[k].id])
      && ((isTrain || range.Some?) && (isTrain || UniqueIds(df)) ==>
            (m.Success? <==> IdsKnown(NewlySold(df, range, isTrain), ledger))
            && (m.Success? ==> DelayedWrites(m.value.uuids, m.value.groundTruths, m.value.soldDates)
                                 == Some(GroundTruthWrites(ledger, NewlySold(df, range, isTrain)))))
  {
    FormatMetadataErrors(ledger, df, range, isTrain);
    if FormatMetadata(ledger, df, range, isTrain).Success? {
      FormatMetadataUuids(ledger, df, range, isTrain);
      if isTrain || UniqueIds(df) {
        TrackedWrites(ledger, df, range, isTrain);
      }
    }
  }

  /**
    The writes one ground-truth step makes, as the source makes them: the zipped lists of a
    formatted batch, and nothing where formatting raises.
  */
  function TrackWrites(ledger: map<int, Uuid>, df: seq<Record>, range: Option<Window>, isTrain: bool): seq<DelayedWrite> {
    match FormatMetadata(ledger, df, range, isTrain)
    case Failure(_) => []
    case Success(md) => Zip3(md.uuids, md.groundTruths, md.soldDates)
  }

  /**
    The prices and the sale dates are read from one selection, so they always have the same
    length: on a formatted batch the chained guard never raises, and the writes are TrackWrites.
  */
  lemma ChainedGuardNeverRaises(ledger: map<int, Uuid>, df: seq<Record>, range: Option<Window>, isTrain: bool)
    requires FormatMetadata(ledger, df, range, isTrain).Success?
    ensures var md := FormatMetadata(ledger, df, range, isTrain).value;
      |md.groundTruths| == |md.soldDates|
      && DelayedWritesAsWritten(md.uuids, md.groundTruths, md.soldDates) == Some(TrackWrites(ledger, df, range, isTrain))
  {
    var md := FormatMetadata(ledger, df, range, isTrain).value;
    assert |md.groundTruths| == |md.soldDates|;
  }

  /** In train mode, or with unique ids, a formatted batch writes each newly sold record's own ground truth. */
  lemma TrackWritesMeaning(ledger: map<int, Uuid>, df: seq<Record>, range: Option<Window>, isTrain: bool)
    requires FormatMetadata(ledger, df, range, isTrain).Success?
    requires isTrain || UniqueIds(df)
    ensures IdsKnown(NewlySold(df, range, isTrain), ledger)
    ensures TrackWrites(ledger, df, range, isTrain) == GroundTruthWrites(ledger, NewlySold(df, range, isTrain))
  {
    TrackedWrites(ledger, df, range, isTrain);
  }

  /**
    With a repeated id, the writes of the step as the source runs it pair the sold record's
    uuid with the price of whichever row of that id comes first: here the unsold copy's.
  */
  lemma DuplicateIdWritesWrongPrice(w: Window, uuid: Uuid, a: Record, b: Record)
    requires a.id == b.id && !InWindow(a.dateSold, w) && InWindow(b.dateSold, w)
    ensures FormatMetadata(map[a.id := uuid], [a, b], Some(w), false).Success?
    ensures TrackWrites(map[a.id := uuid], [a, b], Some(w), false) == [DelayedWrite(uuid, a.price, DateText.FormatIso(a.dateSold))]
  {
    var df, ledger := [a, b], map[a.id := uuid];
    assert SoldIn(df, w) == [b] by {
      assert df[1..] == [b] && [b][1..] == [];
    }
    assert FirstUnknown([b], ledger) == None;
    assert Ids([b]) == {a.id};
    assert WithIdIn(df, {a.id}) == df by {
      assert df[1..] == [b] && [b][1..] == [];
    }
    var md := Metadata(Lookup([b], ledger), Prices(df), SoldDateStrings(df));
    assert FormatMetadata(ledger, df, Some(w), false) == Success(md);
    assert |md.uuids| == 1 && |md.groundTruths| == 2 && |md.soldDates| == 2;
  }

  // ---------------------------------------------------------------- reports and dashboard

  /** The report directory of a batch: `f'{start:%m-%d-%Y}_{end:%m-%d-%Y}'`. */
  function ReportDirName(w: Window): string {
    DateText.FormatMdy(w.start) + "_" + DateText.FormatMdy(w.end)
  }

  /** The text before the first `_` of a report directory name is the window's start. */
  lemma ReportDirNameStart(w: Window)
    requires 1 <= w.start.year <= 9999
    ensures DateText.ParseMdy(Text.SplitFirst(ReportDirName(w), '_')) == Some(w.start)
  {
    var a := DateText.FormatMdy(w.start);
    assert '_' !in a by {
      var y := DateText.Pad4(w.start.year);
      assert a == DateText.Pad2(w.start.month) + "-" + DateText.Pad2(w.start.day) + "-" + y;
    }
    assert ReportDirName(w) == a + ['_'] + DateText.FormatMdy(w.end);
    Text.SplitFirstOfConcat(a, '_', DateText.FormatMdy(w.end));
    DateText.ParseMdyOfFormat(w.start);
  }

  /** The platform call of batch i: deploy the dashboard application, or restart it. */
  datatype AppAction = Deploy | Restart

  function DashboardAction(i: nat): AppAction {
    if i == 0 then Deploy else Restart
  }

  /** The platform calls of the first n batches. */
  function DashboardActions(n: nat): (r: seq<AppAction>)
    ensures |r| == n && forall i :: 0 <= i < n ==> r[i] == DashboardAction(i)
  {
    if n == 0 then [] else DashboardActions(n - 1) + [DashboardAction(n - 1)]
  }

  function CountDeploys(s: seq<AppAction>): nat {
    if s == [] then 0 else (if s[|s| - 1] == Deploy then 1 else 0) + CountDeploys(s[..|s| - 1])
  }

  /** Over n >= 1 batches the dashboard is deployed exactly once, first, and restarted n - 1 times. */
  lemma {:induction false} OneDeploy(n: nat)
    ensures CountDeploys(DashboardActions(n)) == (if n == 0 then 0 else 1)
    ensures n > 0 ==> DashboardActions(n)[0] == Deploy
  {
    if n > 0 {
      OneDeploy(n - 1);
      assert DashboardActions(n)[..n - 1] == DashboardActions(n - 1);
    }
  }

  // ---------------------------------------------------------------- format_model_metrics_query

  /** `col.split(".")[0] == "metrics"`. */
  predicate IsMetricsColumn(col: string) {
    Text.SplitFirst(col, '.') == "metrics"
  }

  /** The metric columns, renamed to the text after their last `.`, in column order. */
  function RenamedMetricColumns(cols: seq<string>): (r: seq<string>)
    ensures |r| <= |cols|
  {
    if cols == [] then []
    else (if IsMetricsColumn(cols[0]) then [Text.SplitLast(cols[0], '.')] else []) + RenamedMetricColumns(cols[1..])
  }

  function CountMetricColumns(cols: seq<string>): nat {
    if cols == [] then 0 else (if IsMetricsColumn(cols[0]) then 1 else 0) + CountMetricColumns(cols[1..])
  }

  /**
    The column names of `format_model_metrics_query`'s result for flattened column names
    `cols`; None where selecting "predictionUuid" raises KeyError.
  */
  function FormatModelMetricsQuery(cols: seq<string>): Option<seq<string>> {
    if "predictionUuid" !in cols then None
    else Some(RenamedMetricColumns(cols) + ["predictionUuid"])
  }

  lemma {:induction false} RenamedMetricColumnsShape(cols: seq<string>)
    ensures |RenamedMetricColumns(cols)| == CountMetricColumns(cols)
    ensures forall i :: 0 <= i < |RenamedMetricColumns(cols)| ==> '.' !in RenamedMetricColumns(cols)[i]
  {
    if cols != [] {
      RenamedMetricColumnsShape(cols[1..]);
    }
  }

  /**
    The metric column at index j, the k-th metric column with k the number of metric columns
    before it, comes out at index k, renamed to the text after its last dot.
  */
  lemma {:induction false} RenamedMetricColumnAt(cols: seq<string>, j: int)
    requires 0 <= j < |cols| && IsMetricsColumn(cols[j])
    ensures CountMetricColumns(cols[..j]) < |RenamedMetricColumns(cols)|
    ensures RenamedMetricColumns(cols)[CountMetricColumns(cols[..j])] == Text.SplitLast(cols[j], '.')
  {
    var head := if IsMetricsColumn(cols[0]) then [Text.SplitLast(cols[0], '.')] else [];
    assert RenamedMetricColumns(cols) == head + RenamedMetricColumns(cols[1..]);
    if j == 0 {
      assert cols[..0] == [];
    } else {
      RenamedMetricColumnAt(cols[1..], j - 1);
      assert cols[..j][1..] == cols[1..][..j - 1];
      assert CountMetricColumns(cols[..j]) == |head| + CountMetricColumns(cols[1..][..j - 1]);
    }
  }

  /** "metrics.<name>" is renamed to "<name>" when name has no dot. */
  lemma RenameMetricColumn(name: string)
    requires '.' !in name
    ensures IsMetricsColumn("metrics." + name)
    ensures Text.SplitLast("metrics." + name, '.') == name
  {
    var c := "metrics." + name;
    assert c == "metrics" + ['.'] + name;
    Text.SplitFirstOfConcat("metrics", '.', name);
    var r := Text.SplitLast(c, '.');
    assert c[7] == '.';
    assert c[|c| - |name|..] == name;
  }

  /**
    The query result keeps exactly the metric columns, in order, each renamed to the text after
    its last dot (a name without a dot), followed by "predictionUuid"; it raises exactly when
    "predictionUuid" is missing.
  */
  lemma FormatModelMetricsQueryShape(cols: seq<string>)
    ensures FormatModelMetricsQuery(cols).Some? <==> "predictionUuid" in cols
    ensures FormatModelMetricsQuery(cols).Some? ==>
      var r := FormatModelMetricsQuery(cols).value;
      |r| == CountMetricColumns(cols) + 1 && r[|r| - 1] == "predictionUuid"
      && (forall i :: 0 <= i < |r| - 1 ==> '.' !in r[i])
      && (forall j :: 0 <= j < |cols| && IsMetricsColumn(cols[j]) ==>
            CountMetricColumns(cols[..j]) < |r| - 1 && r[CountMetricColumns(cols[..j])] == Text.SplitLast(cols[j], '.'))
  {
    RenamedMetricColumnsShape(cols);
    if "predictionUuid" in cols {
      var renamed := RenamedMetricColumns(cols);
      var r := renamed + ["predictionUuid"];
      forall j | 0 <= j < |cols| && IsMetricsColumn(cols[j])
        ensures CountMetricColumns(cols[..j]) < |r| - 1 && r[CountMetricColumns(cols[..j])] == Text.SplitLast(cols[j], '.')
      {
        RenamedMetricColumnAt(cols, j);
        assert r[CountMetricColumns(cols[..j])] == renamed[CountMetricColumns(cols[..j])];
      }
    }
  }
}
