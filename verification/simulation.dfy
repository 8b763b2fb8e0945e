/**
  The stateful side of src/simulation.py: the `Simulation` object, whose fields are the
  simulation clock, the id-to-uuid ledger and the external effects of a run (delayed metric
  writes, report directories, dashboard deploy/restart calls), and the in-place column cast
  of `cast_date_as_str_for_json` on a data frame.
*/
module Simulation {
  import opened Wrappers
  import opened Calendar
  import opened Housing
  import opened SimulationClock
  import opened SimulationSteps
  import DateText

  // ---------------------------------------------------------------- cast_date_as_str_for_json

  /** Column dtypes as `cast_date_as_str_for_json` distinguishes them. */
  datatype DType = Int64 | Float64 | Datetime | Object

  datatype Cell = IntCell(i: int) | FloatCell(f: real) | DateCell(d: Date) | TextCell(s: string)

  datatype Column = Column(name: string, dtype: DType, cells: seq<Cell>)

  /** Every cell of a column carries a value of the column's dtype (string cells for Object). */
  predicate WellTyped(c: Column) {
    forall i :: 0 <= i < |c.cells| ==> HasType(c.cells[i], c.dtype)
  }

  predicate HasType(x: Cell, t: DType) {
    match t
    case Int64 => x.IntCell?
    case Float64 => x.FloatCell?
    case Datetime => x.DateCell?
    case Object => x.TextCell?
  }

  predicate IsNumeric(t: DType) {
    t == Int64 || t == Float64
  }

  /** `str(value)` of a non-numeric cell: a midnight timestamp prints as "YYYY-MM-DD". */
  function CellText(c: Cell): string {
    match c
    case DateCell(d) => DateText.FormatIso(d)
    case TextCell(s) => s
    case _ => ""
  }

  function CastCells(cells: seq<Cell>): (r: seq<Cell>)
    ensures |r| == |cells| && forall i :: 0 <= i < |cells| ==> r[i] == TextCell(CellText(cells[i]))
  {
    if cells == [] then [] else [TextCell(CellText(cells[0]))] + CastCells(cells[1..])
  }

  /** One step of the loop: a column whose dtype is not int64/float64 becomes `astype(str)`. */
  function CastColumn(c: Column): Column {
    if IsNumeric(c.dtype) then c else Column(c.name, Object, CastCells(c.cells))
  }

  /**
    The cast keeps the column's name and length, leaves numeric columns untouched, turns
    every other column into text, and turns each date into its "YYYY-MM-DD" text.
  */
  lemma CastColumnMeaning(c: Column)
    requires WellTyped(c)
    ensures var r := CastColumn(c);
      WellTyped(r) && r.name == c.name && |r.cells| == |c.cells|
      && (IsNumeric(c.dtype) <==> r == c && r.dtype != Object)
      && (!IsNumeric(c.dtype) ==> r.dtype == Object)
      && (c.dtype == Datetime ==> forall i :: 0 <= i < |c.cells| ==> r.cells[i] == TextCell(DateText.FormatIso(c.cells[i].d)))
      && (c.dtype == Object ==> r == c)
  {
    if c.dtype == Object {
      assert CastCells(c.cells) == c.cells;
    }
  }

  /** Casting twice is casting once. */
  lemma CastColumnIdempotent(c: Column)
    requires WellTyped(c)
    ensures CastColumn(CastColumn(c)) == CastColumn(c)
  {
    var r := CastColumn(c);
    if !IsNumeric(c.dtype) {
      assert CastCells(r.cells) == r.cells;
    }
  }

  /** The date text written for the JSON payload parses back, as "%Y-%m-%d", to the same date. */
  lemma CastDateRoundTrip(c: Column, i: int)
    requires WellTyped(c) && c.dtype == Datetime && 0 <= i < |c.cells|
    requires 1 <= c.cells[i].d.year <= 9999
    ensures DateText.ParseYmd(CastColumn(c).cells[i].s) == Some(c.cells[i].d)
  {
    DateText.ParseYmdOfFormat(c.cells[i].d);
  }

  /** A pandas data frame, reduced to its columns; `cast_date_as_str_for_json` rewrites them in place. */
  class Frame {
    var columns: seq<Column>

    ghost predicate Valid()
      reads this
    {
      forall i :: 0 <= i < |columns| ==> WellTyped(columns[i])
    }

    constructor(columns: seq<Column>)
      ensures this.columns == columns
    {
      this.columns := columns;
    }

    /** `for column, dt in zip(df.columns, df.dtypes): if not numeric: df.loc[:, column] = ....astype(str)`. */
    method CastDateAsStrForJson()
      requires Valid()
      modifies this
      ensures Valid()
      ensures |columns| == |old(columns)|
      ensures forall i :: 0 <= i < |columns| ==> columns[i] == CastColumn(old(columns)[i])
    {
      var i := 0;
      while i < |columns|
        invariant 0 <= i <= |columns| == |old(columns)|
        invariant forall k :: 0 <= k < i ==> columns[k] == CastColumn(old(columns)[k])
        invariant forall k :: i <= k < |columns| ==> columns[k] == old(columns)[k]
        invariant Valid()
      {
        CastColumnMeaning(columns[i]);
        columns := columns[i := CastColumn(columns[i])];
        i := i + 1;
      }
    }
  }

  // ---------------------------------------------------------------- the simulation object

  /** One report directory written by `build_evidently_reports`, and the uuids its current data is filtered to. */
  datatype Report = Report(dir: string, uuids: seq<Uuid>)

  /** Why `run_simulation` stops with an exception. */
  datatype RunError =
    | ClockFailed(clock: ClockError)
    | MetadataFailed(format: FormatError)
    | LengthMismatch

  /**
    What one ground-truth step promises, for outcome r and the delayed-write log going from
    log0 to log1: it fails without a date range in production mode; otherwise it succeeds
    exactly when every newly sold id is in the ledger, and a failure is always a metadata
    error (the length guard as written never raises on formatted lists); an unknown-id
    failure names a newly sold id the ledger lacks; the uuids it returns are the ledger's,
    one per newly sold record, in order (Lookup); a success writes the zipped lists, which with unique ids
    (always in train mode) are each newly sold record's own ground truth; a failure writes
    nothing.
  */
  ghost predicate Tracked(ledger: map<int, Uuid>, df: seq<Record>, range: Option<Window>, isTrain: bool,
                          r: Result<seq<Uuid>, RunError>, log0: seq<DelayedWrite>, log1: seq<DelayedWrite>) {
    (r == Failure(MetadataFailed(MissingDateRange)) <==> !isTrain && range.None?)
    && (r.Success? <==> (isTrain || range.Some?) && IdsKnown(NewlySold(df, range, isTrain), ledger))
    && (r.Failure? ==> r.error.MetadataFailed?)
    && (r.Failure? && r.error.MetadataFailed? && r.error.format.UnknownId? ==>
          (isTrain || range.Some?) && r.error.format.id !in ledger && r.error.format.id in Ids(NewlySold(df, range, isTrain)))
    && (r.Success? ==> r.value == Lookup(NewlySold(df, range, isTrain), ledger))
    && (r.Success? ==> log1 == log0 + TrackWrites(ledger, df, range, isTrain))
    && (r.Success? && (isTrain || UniqueIds(df)) ==>
          log1 == log0 + GroundTruthWrites(ledger, NewlySold(df, range, isTrain)))
    && (r.Failure? ==> log1 == log0)
  }

  /**
    The step as the source runs it — the metadata error, or else the chained length guard of
    `add_delayed_metrics` and the writes of the zipped lists — keeps every promise of Tracked.
  */
  lemma TrackedHolds(ledger: map<int, Uuid>, df: seq<Record>, range: Option<Window>, isTrain: bool,
                     r: Result<seq<Uuid>, RunError>, log0: seq<DelayedWrite>, log1: seq<DelayedWrite>)
    requires var md := FormatMetadata(ledger, df, range, isTrain);
      (md.Failure? ==> r == Failure(MetadataFailed(md.error)) && log1 == log0)
      && (md.Success? && DelayedWritesAsWritten(md.value.uuids, md.value.groundTruths, md.value.soldDates).None? ==>
            r == Failure(LengthMismatch) && log1 == log0)
      && (md.Success? && DelayedWritesAsWritten(md.value.uuids, md.value.groundTruths, md.value.soldDates).Some? ==>
            r == Success(md.value.uuids) && log1 == log0 + DelayedWritesAsWritten(md.value.uuids, md.value.groundTruths, md.value.soldDates).value)
    ensures Tracked(ledger, df, range, isTrain, r, log0, log1)
  {
    TrackOutcome(ledger, df, range, isTrain);
    if FormatMetadata(ledger, df, range, isTrain).Success? {
      ChainedGuardNeverRaises(ledger, df, range, isTrain);
      if isTrain || UniqueIds(df) {
        TrackWritesMeaning(ledger, df, range, isTrain);
      }
    }
  }

  // ---------------------------------------------------------------- the production loop, window by window

  /**
    The ledger after windows 0..n-1 of the production loop, starting from ledger0: each window
    merges in the endpoint's uuids for the records newly listed in it.
  */
  function LedgerAfter(ledger0: map<int, Uuid>, endpoint: Record -> Uuid, prodSample: seq<Record>, ranges: seq<Window>, n: nat): (r: map<int, Uuid>)
    requires n <= |ranges|
    ensures ledger0.Keys <= r.Keys
  {
    if n == 0 then ledger0
    else LedgerAfter(ledger0, endpoint, prodSample, ranges, n - 1) + BatchMapping(ListedIn(prodSample, ranges[n - 1]), endpoint)
  }

  /**
    What the m-th window (window m - 1) writes: its ground-truth step against the ledger its
    own listings leave.
  */
  function WindowWrites(ledger0: map<int, Uuid>, endpoint: Record -> Uuid, prodSample: seq<Record>, ranges: seq<Window>, m: int): seq<DelayedWrite>
    requires 0 < m <= |ranges|
  {
    TrackWrites(LedgerAfter(ledger0, endpoint, prodSample, ranges, m), prodSample, Some(ranges[m - 1]), false)
  }

  /** The delayed writes of windows 0..n-1, in window order. */
  function WritesAfter(ledger0: map<int, Uuid>, endpoint: Record -> Uuid, prodSample: seq<Record>, ranges: seq<Window>, n: nat): seq<DelayedWrite>
    requires n <= |ranges|
  {
    if n == 0 then []
    else WritesAfter(ledger0, endpoint, prodSample, ranges, n - 1) + WindowWrites(ledger0, endpoint, prodSample, ranges, n)
  }

  /** The m-th window (window m - 1) finds every id newly sold in it in the ledger its own listings leave. */
  ghost predicate SoldScored(ledger0: map<int, Uuid>, endpoint: Record -> Uuid, prodSample: seq<Record>, ranges: seq<Window>, m: int) {
    0 < m <= |ranges| && IdsKnown(SoldIn(prodSample, ranges[m - 1]), LedgerAfter(ledger0, endpoint, prodSample, ranges, m))
  }

  /** Each of windows 0..n-1 finds every id newly sold in it. */
  ghost predicate AllSoldScored(ledger0: map<int, Uuid>, endpoint: Record -> Uuid, prodSample: seq<Record>, ranges: seq<Window>, n: nat) {
    n <= |ranges| && forall m :: 0 < m <= n ==> SoldScored(ledger0, endpoint, prodSample, ranges, m)
  }

  /**
    The report of the m-th window (window m - 1): its directory name, and the uuid of each
    record newly sold in it, looked up in the ledger its own listings leave.
  */
  function WindowReport(ledger0: map<int, Uuid>, endpoint: Record -> Uuid, prodSample: seq<Record>, ranges: seq<Window>, m: int): Report
    requires SoldScored(ledger0, endpoint, prodSample, ranges, m)
  {
    Report(ReportDirName(ranges[m - 1]), Lookup(SoldIn(prodSample, ranges[m - 1]), LedgerAfter(ledger0, endpoint, prodSample, ranges, m)))
  }

  /** The reports of windows 0..n-1, in window order. */
  function ReportsAfter(ledger0: map<int, Uuid>, endpoint: Record -> Uuid, prodSample: seq<Record>, ranges: seq<Window>, n: nat): (r: seq<Report>)
    requires AllSoldScored(ledger0, endpoint, prodSample, ranges, n)
    ensures |r| == n
  {
    if n == 0 then []
    else
      assert SoldScored(ledger0, endpoint, prodSample, ranges, n);
      ReportsAfter(ledger0, endpoint, prodSample, ranges, n - 1) + [WindowReport(ledger0, endpoint, prodSample, ranges, n)]
  }

  /** The m-th window writes, against the ledger its listings leave, the own ground truths of the records newly sold in it. */
  ghost predicate OwnWindow(ledger0: map<int, Uuid>, endpoint: Record -> Uuid, prodSample: seq<Record>, ranges: seq<Window>, m: int) {
    SoldScored(ledger0, endpoint, prodSample, ranges, m)
    && WindowWrites(ledger0, endpoint, prodSample, ranges, m)
       == GroundTruthWrites(LedgerAfter(ledger0, endpoint, prodSample, ranges, m), SoldIn(prodSample, ranges[m - 1]))
  }

  /** With unique ids, every window whose newly sold ids are all known writes their own ground truths. */
  lemma AllOwnWindows(ledger0: map<int, Uuid>, endpoint: Record -> Uuid, prodSample: seq<Record>, ranges: seq<Window>, n: nat)
    requires UniqueIds(prodSample) && AllSoldScored(ledger0, endpoint, prodSample, ranges, n)
    ensures forall m :: 0 < m <= n ==> OwnWindow(ledger0, endpoint, prodSample, ranges, m)
  {
    forall m | 0 < m <= n
      ensures OwnWindow(ledger0, endpoint, prodSample, ranges, m)
    {
      assert SoldScored(ledger0, endpoint, prodSample, ranges, m);
      OwnWindowWrites(LedgerAfter(ledger0, endpoint, prodSample, ranges, m), prodSample, ranges[m - 1]);
    }
  }

  /** With unique ids, a production window whose sold ids are all known writes their own ground truths. */
  lemma OwnWindowWrites(ledger: map<int, Uuid>, prodSample: seq<Record>, w: Window)
    requires UniqueIds(prodSample) && IdsKnown(SoldIn(prodSample, w), ledger)
    ensures TrackWrites(ledger, prodSample, Some(w), false) == GroundTruthWrites(ledger, SoldIn(prodSample, w))
  {
    FormatMetadataErrors(ledger, prodSample, Some(w), false);
    TrackWritesMeaning(ledger, prodSample, Some(w), false);
  }

  class Simulation {
    /** `self.date_ranges`, the simulation clock. */
    var dateRanges: seq<Window>
    /** `self.master_id_uuid_mapping`. */
    var ledger: map<int, Uuid>
    /** The `track_delayed_metrics` calls made on the metrics store, in order. */
    var delayedLog: seq<DelayedWrite>
    /** The report directories built, in order. */
    var reports: seq<Report>
    /** The deploy/restart calls made on the dashboard application, in order. */
    var appLog: seq<AppAction>
    /** The deployed model endpoint: the prediction uuid it returns for a record. */
    const endpoint: Record -> Uuid

    constructor(endpoint: Record -> Uuid)
      ensures this.endpoint == endpoint
      ensures dateRanges == [] && ledger == map[] && delayedLog == [] && reports == [] && appLog == []
    {
      this.endpoint := endpoint;
      dateRanges := [];
      ledger := map[];
      delayedLog := [];
      reports := [];
      appLog := [];
    }

    /**
      `set_simulation_clock(prod_df, months_in_batch)`: on success the clock is the windows of
      `Clock`; where the source raises, the clock is left as it was.
    */
    method SetSimulationClock(prodSold: seq<Date>, monthsInBatch: int) returns (r: Outcome<ClockError>)
      modifies this`dateRanges
      ensures Clock(prodSold, monthsInBatch).Success? <==> r.Pass?
      ensures r.Pass? ==> dateRanges == Clock(prodSold, monthsInBatch).value
      ensures r.Fail? ==> r.error == Clock(prodSold, monthsInBatch).error && dateRanges == old(dateRanges)
    {
      if |prodSold| == 0 {
        return Fail(EmptyProduction);
      }
      var lo := Earliest(prodSold);
      var total := TotalMonths(SpanDays(prodSold));
      if monthsInBatch == 0 {
        return Fail(ZeroBatchWidth);
      }
      var ranges := BatchWindows(lo, total, monthsInBatch);
      if |ranges| == 0 {
        return Fail(NoWindows);
      }
      ranges := ranges[0 := Window(AddYears(ranges[0].start, -1), ranges[0].end)];
      dateRanges := ranges;
      return Pass;
    }

    /** `make_inference(df)`: score the batch and merge its id-to-uuid map into the ledger. */
    method MakeInference(batch: seq<Record>)
      modifies this`ledger
      ensures ledger == old(ledger) + BatchMapping(batch, endpoint)
      ensures ledger.Keys == old(ledger).Keys + Ids(batch)
    {
      ledger := ledger + BatchMapping(batch, endpoint);
    }

    /** `add_delayed_metrics` with the intended guard: raise unless the three lengths agree. */
    method AddDelayedMetrics(u: seq<Uuid>, g: seq<real>, d: seq<string>) returns (ok: bool)
      modifies this`delayedLog
      ensures ok <==> DelayedWrites(u, g, d).Some?
      ensures ok ==> delayedLog == old(delayedLog) + DelayedWrites(u, g, d).value
      ensures !ok ==> delayedLog == old(delayedLog)
    {
      if LengthsDiffer(|u|, |g|, |d|) {
        return false;
      }
      ghost var ws := Zip3(u, g, d);
      var i := 0;
      while i < |u|
        invariant 0 <= i <= |u|
        invariant delayedLog == old(delayedLog) + ws[..i]
      {
        delayedLog := delayedLog + [DelayedWrite(u[i], g[i], d[i])];
        assert ws[..i + 1] == ws[..i] + [ws[i]];
        i := i + 1;
      }
      assert ws[..|u|] == ws;
      return true;
    }

    /** `add_delayed_metrics` as written: the chained guard, then one write per zipped triple. */
    method AddDelayedMetricsAsWritten(u: seq<Uuid>, g: seq<real>, d: seq<string>) returns (ok: bool)
      modifies this`delayedLog
      ensures ok <==> !ChainedGuardRaises(|u|, |g|, |d|)
      ensures ok ==> delayedLog == old(delayedLog) + Zip3(u, g, d)
      ensures !ok ==> delayedLog == old(delayedLog)
    {
      if ChainedGuardRaises(|u|, |g|, |d|) {
        return false;
      }
      ghost var ws := Zip3(u, g, d);
      var n := Min(|u|, Min(|g|, |d|));
      var i := 0;
      while i < n
        invariant 0 <= i <= n
        invariant delayedLog == old(delayedLog) + ws[..i]
      {
        delayedLog := delayedLog + [DelayedWrite(u[i], g[i], d[i])];
        assert ws[..i + 1] == ws[..i] + [ws[i]];
        i := i + 1;
      }
      assert ws[..n] == ws;
      return true;
    }

    /**
      The newly sold ground truths of one batch: `format_metadata_for_delayed_metrics`, then
      `add_delayed_metrics` with its guard as written.
    */
    method TrackGroundTruths(df: seq<Record>, range: Option<Window>, isTrain: bool) returns (r: Result<seq<Uuid>, RunError>)
      modifies this`delayedLog
      ensures Tracked(ledger, df, range, isTrain, r, old(delayedLog), delayedLog)
    {
      var md := FormatMetadata(ledger, df, range, isTrain);
      if md.Failure? {
        r := Failure(MetadataFailed(md.error));
      } else {
        var ok := AddDelayedMetricsAsWritten(md.value.uuids, md.value.groundTruths, md.value.soldDates);
        r := if ok then Success(md.value.uuids) else Failure(LengthMismatch);
      }
      TrackedHolds(ledger, df, range, isTrain, r, old(delayedLog), delayedLog);
    }

    /** The train section of `run_simulation`: score all of trainSample, then add every ground truth; no modelled error can occur. */
    method TrainSection(trainSample: seq<Record>)
      modifies this`ledger, this`delayedLog
      ensures ledger == old(ledger) + BatchMapping(trainSample, endpoint)
      ensures IdsKnown(trainSample, ledger)
      ensures delayedLog == old(delayedLog) + GroundTruthWrites(ledger, trainSample)
    {
      MakeInference(trainSample);
      var t := TrackGroundTruths(trainSample, None, true);
    }

    /**
      One pass of the production loop for window i: score the records newly listed in it,
      add the ground truths of the records newly sold in it, write its report directory and
      deploy (i == 0) or restart the dashboard. Of the modelled errors, it fails exactly when a
      newly sold record was never scored, and then only the scoring has happened.
    */
    method ProcessWindow(i: nat, w: Window, prodSample: seq<Record>) returns (r: Result<seq<Uuid>, RunError>)
      modifies this`ledger, this`delayedLog, this`reports, this`appLog
      ensures ledger == old(ledger) + BatchMapping(ListedIn(prodSample, w), endpoint)
      ensures r.Success? <==> IdsKnown(SoldIn(prodSample, w), ledger)
      ensures r.Failure? ==>
        r.error.MetadataFailed? && r.error.format.UnknownId?
        && r.error.format.id in Ids(SoldIn(prodSample, w)) && r.error.format.id !in ledger
      ensures r.Success? ==> r.value == Lookup(SoldIn(prodSample, w), ledger)
      ensures r.Success? ==> delayedLog == old(delayedLog) + TrackWrites(ledger, prodSample, Some(w), false)
      ensures r.Success? && UniqueIds(prodSample) ==>
        delayedLog == old(delayedLog) + GroundTruthWrites(ledger, SoldIn(prodSample, w))
      ensures r.Success? ==>
        reports == old(reports) + [Report(ReportDirName(w), r.value)]
        && appLog == old(appLog) + [DashboardAction(i)]
      ensures r.Failure? ==> reports == old(reports) && appLog == old(appLog) && delayedLog == old(delayedLog)
    {
      MakeInference(ListedIn(prodSample, w));
      var t := TrackGroundTruths(prodSample, Some(w), false);
      if t.Failure? {
        return Failure(t.error);
      }
      reports := reports + [Report(ReportDirName(w), t.value)];
      appLog := appLog + [DashboardAction(i)];
      return Success(t.value);
    }

    /** The conditions under which a run cannot fail with a modelled error (the data prepare_data produces satisfies them). */
    static ghost predicate Admissible(prod: seq<Record>, prodSample: seq<Record>) {
      Clock(SoldDates(prod), 1).Success?
      && (forall x :: x in prodSample ==> x in prod)
      && (forall x :: x in prodSample ==> DayNumber(x.dateSold) - 365 <= DayNumber(x.dateListed) <= DayNumber(x.dateSold))
    }

    /** Record x was listed in one of the windows 0..i. */
    static ghost predicate ListedBy(x: Record, ranges: seq<Window>, i: int) {
      exists j :: 0 <= j <= i && j < |ranges| && InWindow(x.dateListed, ranges[j])
    }

    /** Every record of prodSample sold in window i was listed in window i or an earlier one. */
    static ghost predicate SalesCovered(ranges: seq<Window>, prodSample: seq<Record>) {
      forall i, x :: 0 <= i < |ranges| && x in prodSample && InWindow(x.dateSold, ranges[i]) ==> ListedBy(x, ranges, i)
    }

    /**
      The writes, reports and dashboard calls after windows 0..n-1 of `ranges` are processed
      in order, starting from ledger0, log0, reports0 and app0; each of those windows found
      every id newly sold in it.
    */
    static ghost predicate Processed(endpoint: Record -> Uuid, prodSample: seq<Record>, ranges: seq<Window>,
                                     ledger0: map<int, Uuid>, log0: seq<DelayedWrite>, reports0: seq<Report>, app0: seq<AppAction>,
                                     n: int, log: seq<DelayedWrite>, reports: seq<Report>, app: seq<AppAction>) {
      0 <= n <= |ranges|
      && log == log0 + WritesAfter(ledger0, endpoint, prodSample, ranges, n)
      && AllSoldScored(ledger0, endpoint, prodSample, ranges, n)
      && reports == reports0 + ReportsAfter(ledger0, endpoint, prodSample, ranges, n)
      && app == app0 + DashboardActions(n)
    }

    /**
      The state left by a production loop that stops in window i on the unknown id `id`: the
      windows before i are processed in full, window i has merged its listings, and nothing of
      window i is written, reported or deployed.
    */
    static ghost predicate StoppedAt(endpoint: Record -> Uuid, prodSample: seq<Record>, ranges: seq<Window>,
                                     ledger0: map<int, Uuid>, log0: seq<DelayedWrite>, reports0: seq<Report>, app0: seq<AppAction>,
                                     i: int, id: int, ledger: map<int, Uuid>, log: seq<DelayedWrite>, reports: seq<Report>, app: seq<AppAction>) {
      0 <= i < |ranges|
      && Processed(endpoint, prodSample, ranges, ledger0, log0, reports0, app0, i, log, reports, app)
      && ledger == LedgerAfter(ledger0, endpoint, prodSample, ranges, i + 1)
      && id in Ids(SoldIn(prodSample, ranges[i])) && id !in ledger
    }

    /**
      What the production loop over `ranges` promises, from ledger0, log0, reports0 and app0:
      on success every window is processed in order and the ledger holds every window's
      listings, and with unique ids the writes are each sold record's own ground truth; on
      failure it stopped in some window on an unknown id.
    */
    static ghost predicate ProductionRan(endpoint: Record -> Uuid, prodSample: seq<Record>, ranges: seq<Window>,
                                         ledger0: map<int, Uuid>, log0: seq<DelayedWrite>, reports0: seq<Report>, app0: seq<AppAction>,
                                         r: Outcome<RunError>, ledger: map<int, Uuid>, log: seq<DelayedWrite>, reports: seq<Report>, app: seq<AppAction>) {
      (r.Pass? ==>
         ledger == LedgerAfter(ledger0, endpoint, prodSample, ranges, |ranges|)
         && Processed(endpoint, prodSample, ranges, ledger0, log0, reports0, app0, |ranges|, log, reports, app))
      && (r.Pass? && UniqueIds(prodSample) ==> forall m :: 0 < m <= |ranges| ==> OwnWindow(ledger0, endpoint, prodSample, ranges, m))
      && (r.Fail? ==>
            r.error.MetadataFailed? && r.error.format.UnknownId?
            && exists i :: StoppedAt(endpoint, prodSample, ranges, ledger0, log0, reports0, app0, i, r.error.format.id, ledger, log, reports, app))
    }

    /**
      A pass of window i that finds every id newly sold in it extends the state of windows
      0..i-1 to that of windows 0..i.
    */
    static lemma ProcessedStep(endpoint: Record -> Uuid, prodSample: seq<Record>, ranges: seq<Window>,
                               ledger0: map<int, Uuid>, log0: seq<DelayedWrite>, reports0: seq<Report>, app0: seq<AppAction>,
                               i: int, log: seq<DelayedWrite>, reports: seq<Report>, app: seq<AppAction>)
      requires 0 <= i < |ranges| && Processed(endpoint, prodSample, ranges, ledger0, log0, reports0, app0, i, log, reports, app)
      requires SoldScored(ledger0, endpoint, prodSample, ranges, i + 1)
      ensures Processed(endpoint, prodSample, ranges, ledger0, log0, reports0, app0, i + 1,
                        log + WindowWrites(ledger0, endpoint, prodSample, ranges, i + 1),
                        reports + [WindowReport(ledger0, endpoint, prodSample, ranges, i + 1)],
                        app + [DashboardAction(i)])
    {
      ScoredStep(ledger0, endpoint, prodSample, ranges, i);
      WritesStep(ledger0, endpoint, prodSample, ranges, i, log0, log);
      ReportsStep(ledger0, endpoint, prodSample, ranges, i, reports0, reports);
      ActionsStep(i, app0, app);
    }

    /** One more window whose newly sold ids are all known keeps AllSoldScored. */
    static lemma ScoredStep(ledger0: map<int, Uuid>, endpoint: Record -> Uuid, prodSample: seq<Record>, ranges: seq<Window>, i: nat)
      requires AllSoldScored(ledger0, endpoint, prodSample, ranges, i) && SoldScored(ledger0, endpoint, prodSample, ranges, i + 1)
      ensures AllSoldScored(ledger0, endpoint, prodSample, ranges, i + 1)
    {
    }

    /** One more window appends its writes to the writes of the windows before it. */
    static lemma WritesStep(ledger0: map<int, Uuid>, endpoint: Record -> Uuid, prodSample: seq<Record>, ranges: seq<Window>, i: nat,
                            log0: seq<DelayedWrite>, log: seq<DelayedWrite>)
      requires i < |ranges| && log == log0 + WritesAfter(ledger0, endpoint, prodSample, ranges, i)
      ensures log + WindowWrites(ledger0, endpoint, prodSample, ranges, i + 1) == log0 + WritesAfter(ledger0, endpoint, prodSample, ranges, i + 1)
    {
      var t := WindowWrites(ledger0, endpoint, prodSample, ranges, i + 1);
      var before := WritesAfter(ledger0, endpoint, prodSample, ranges, i);
      assert WritesAfter(ledger0, endpoint, prodSample, ranges, i + 1) == before + t;
      AppendAssociative(log0, before, t);
    }

    /** One more window appends its report to the reports of the windows before it. */
    static lemma ReportsStep(ledger0: map<int, Uuid>, endpoint: Record -> Uuid, prodSample: seq<Record>, ranges: seq<Window>, i: nat,
                             reports0: seq<Report>, reports: seq<Report>)
      requires AllSoldScored(ledger0, endpoint, prodSample, ranges, i) && SoldScored(ledger0, endpoint, prodSample, ranges, i + 1)
      requires reports == reports0 + ReportsAfter(ledger0, endpoint, prodSample, ranges, i)
      ensures AllSoldScored(ledger0, endpoint, prodSample, ranges, i + 1)
      ensures reports + [WindowReport(ledger0, endpoint, prodSample, ranges, i + 1)] == reports0 + ReportsAfter(ledger0, endpoint, prodSample, ranges, i + 1)
    {
      ScoredStep(ledger0, endpoint, prodSample, ranges, i);
      var rep := WindowReport(ledger0, endpoint, prodSample, ranges, i + 1);
      var before := ReportsAfter(ledger0, endpoint, prodSample, ranges, i);
      assert ReportsAfter(ledger0, endpoint, prodSample, ranges, i + 1) == before + [rep];
      AppendAssociative(reports0, before, [rep]);
    }

    /** One more window appends its dashboard call to those of the windows before it. */
    static lemma ActionsStep(i: nat, app0: seq<AppAction>, app: seq<AppAction>)
      requires app == app0 + DashboardActions(i)
      ensures app + [DashboardAction(i)] == app0 + DashboardActions(i + 1)
    {
      AppendAssociative(app0, DashboardActions(i), [DashboardAction(i)]);
    }

    static lemma AppendAssociative<T>(a: seq<T>, b: seq<T>, c: seq<T>)
      ensures (a + b) + c == a + (b + c)
    {
    }

    /**
      What one pass of window i does to the state of windows 0..i-1, as ProcessWindow states
      it: a pass that succeeds leaves the state of windows 0..i, one that fails stops there.
    */
    static lemma WindowOutcome(endpoint: Record -> Uuid, prodSample: seq<Record>, ranges: seq<Window>,
                               ledger0: map<int, Uuid>, log0: seq<DelayedWrite>, reports0: seq<Report>, app0: seq<AppAction>,
                               i: int, log: seq<DelayedWrite>, reports: seq<Report>, app: seq<AppAction>,
                               p: Result<seq<Uuid>, RunError>, ledger': map<int, Uuid>, log': seq<DelayedWrite>, reports': seq<Report>, app': seq<AppAction>)
      requires 0 <= i < |ranges| && Processed(endpoint, prodSample, ranges, ledger0, log0, reports0, app0, i, log, reports, app)
      requires ledger' == LedgerAfter(ledger0, endpoint, prodSample, ranges, i + 1)
      requires p.Success? <==> IdsKnown(SoldIn(prodSample, ranges[i]), ledger')
      requires p.Failure? ==>
        p.error.MetadataFailed? && p.error.format.UnknownId?
        && p.error.format.id in Ids(SoldIn(prodSample, ranges[i])) && p.error.format.id !in ledger'
        && log' == log && reports' == reports && app' == app
      requires p.Success? ==>
        p.value == Lookup(SoldIn(prodSample, ranges[i]), ledger')
        && log' == log + TrackWrites(ledger', prodSample, Some(ranges[i]), false)
        && reports' == reports + [Report(ReportDirName(ranges[i]), p.value)] && app' == app + [DashboardAction(i)]
      ensures p.Success? ==> Processed(endpoint, prodSample, ranges, ledger0, log0, reports0, app0, i + 1, log', reports', app')
      ensures p.Failure? ==> StoppedAt(endpoint, prodSample, ranges, ledger0, log0, reports0, app0, i, p.error.format.id, ledger', log', reports', app')
    {
      if p.Success? {
        assert SoldScored(ledger0, endpoint, prodSample, ranges, i + 1);
        assert WindowWrites(ledger0, endpoint, prodSample, ranges, i + 1) == TrackWrites(ledger', prodSample, Some(ranges[i]), false);
        assert WindowReport(ledger0, endpoint, prodSample, ranges, i + 1) == Report(ReportDirName(ranges[i]), p.value);
        ProcessedStep(endpoint, prodSample, ranges, ledger0, log0, reports0, app0, i, log, reports, app);
      }
    }

    /** A production loop that processed every window passes with the state ProductionRan promises. */
    static lemma PassRan(endpoint: Record -> Uuid, prodSample: seq<Record>, ranges: seq<Window>,
                         ledger0: map<int, Uuid>, log0: seq<DelayedWrite>, reports0: seq<Report>, app0: seq<AppAction>,
                         ledger: map<int, Uuid>, log: seq<DelayedWrite>, reports: seq<Report>, app: seq<AppAction>)
      requires ledger == LedgerAfter(ledger0, endpoint, prodSample, ranges, |ranges|)
      requires Processed(endpoint, prodSample, ranges, ledger0, log0, reports0, app0, |ranges|, log, reports, app)
      ensures ProductionRan(endpoint, prodSample, ranges, ledger0, log0, reports0, app0, Pass, ledger, log, reports, app)
    {
      if UniqueIds(prodSample) {
        AllOwnWindows(ledger0, endpoint, prodSample, ranges, |ranges|);
      }
    }

    /**
      `run_simulation(train_df, prod_df)` with `months_in_batch=1`. The clock is built from the
      full production frame; trainSample and prodSample are the sampled frames the rest of the
      run uses. Where the clock raises nothing else happens; otherwise every train id is scored
      and its ground truth added, then the production loop runs over the clock's windows. On
      admissible data it cannot fail with a modelled error.
    */
    method RunSimulation(prod: seq<Record>, trainSample: seq<Record>, prodSample: seq<Record>) returns (r: Outcome<RunError>)
      modifies this`dateRanges, this`ledger, this`delayedLog, this`reports, this`appLog
      ensures Clock(SoldDates(prod), 1).Failure? ==>
        r == Fail(ClockFailed(Clock(SoldDates(prod), 1).error))
        && dateRanges == old(dateRanges) && ledger == old(ledger) && delayedLog == old(delayedLog)
        && reports == old(reports) && appLog == old(appLog)
      ensures Clock(SoldDates(prod), 1).Success? ==>
        dateRanges == Clock(SoldDates(prod), 1).value
        && (var ledger1 := old(ledger) + BatchMapping(trainSample, endpoint);
            IdsKnown(trainSample, ledger1)
            && ProductionRan(endpoint, prodSample, dateRanges, ledger1, old(delayedLog) + GroundTruthWrites(ledger1, trainSample),
                             old(reports), old(appLog), r, ledger, delayedLog, reports, appLog))
      ensures Admissible(prod, prodSample) ==> r.Pass?
    {
      var c := SetSimulationClock(SoldDates(prod), 1);
      if c.Fail? {
        return Fail(ClockFailed(c.error));
      }
      if Admissible(prod, prodSample) {
        AdmissibleCovered(prod, prodSample);
      }
      r := RunBatches(trainSample, prodSample, old(ledger), old(delayedLog), old(reports), old(appLog));
    }

    /**
      The part of `run_simulation` after the clock is set: the train section, then the
      production loop, from the state ledger0, log0, reports0 and app0.
    */
    method RunBatches(trainSample: seq<Record>, prodSample: seq<Record>, ghost ledger0: map<int, Uuid>, ghost log0: seq<DelayedWrite>,
                      ghost reports0: seq<Report>, ghost app0: seq<AppAction>) returns (r: Outcome<RunError>)
      requires ledger == ledger0 && delayedLog == log0 && reports == reports0 && appLog == app0
      modifies this`ledger, this`delayedLog, this`reports, this`appLog
      ensures var ledger1 := ledger0 + BatchMapping(trainSample, endpoint);
        IdsKnown(trainSample, ledger1)
        && ProductionRan(endpoint, prodSample, dateRanges, ledger1, log0 + GroundTruthWrites(ledger1, trainSample),
                         reports0, app0, r, ledger, delayedLog, reports, appLog)
      ensures SalesCovered(dateRanges, prodSample) ==> r.Pass?
    {
      TrainSection(trainSample);
      r := RunProduction(prodSample);
    }

    /**
      The production loop of `run_simulation`: every window of the clock, in order, until one
      meets a newly sold id the ledger does not know. Where every sale falls no earlier than
      its listing's window, it cannot fail with a modelled error.
    */
    method RunProduction(prodSample: seq<Record>) returns (r: Outcome<RunError>)
      modifies this`ledger, this`delayedLog, this`reports, this`appLog
      ensures ProductionRan(endpoint, prodSample, dateRanges, old(ledger), old(delayedLog), old(reports), old(appLog),
                            r, ledger, delayedLog, reports, appLog)
      ensures SalesCovered(dateRanges, prodSample) ==> r.Pass?
    {
      ghost var ledger0, log0, reports0, app0 := ledger, delayedLog, reports, appLog;
      var i := 0;
      while i < |dateRanges|
        invariant 0 <= i <= |dateRanges|
        invariant ledger == LedgerAfter(ledger0, endpoint, prodSample, dateRanges, i)
        invariant Processed(endpoint, prodSample, dateRanges, ledger0, log0, reports0, app0, i, delayedLog, reports, appLog)
      {
        var p := ProductionPass(i, prodSample, ledger0, log0, reports0, app0);
        if p.Failure? {
          return Fail(p.error);
        }
        i := i + 1;
      }
      r := Pass;
      PassRan(endpoint, prodSample, dateRanges, ledger0, log0, reports0, app0, ledger, delayedLog, reports, appLog);
    }

    /**
      One iteration of the production loop, stated against the state of the windows before it:
      ProcessWindow for window i, after which the state is that of windows 0..i, or the loop
      stops in window i.
    */
    method ProductionPass(i: nat, prodSample: seq<Record>, ghost ledger0: map<int, Uuid>, ghost log0: seq<DelayedWrite>,
                          ghost reports0: seq<Report>, ghost app0: seq<AppAction>) returns (p: Result<seq<Uuid>, RunError>)
      requires i < |dateRanges| && ledger == LedgerAfter(ledger0, endpoint, prodSample, dateRanges, i)
      requires Processed(endpoint, prodSample, dateRanges, ledger0, log0, reports0, app0, i, delayedLog, reports, appLog)
      modifies this`ledger, this`delayedLog, this`reports, this`appLog
      ensures ledger == LedgerAfter(ledger0, endpoint, prodSample, dateRanges, i + 1)
      ensures p.Success? ==> Processed(endpoint, prodSample, dateRanges, ledger0, log0, reports0, app0, i + 1, delayedLog, reports, appLog)
      ensures p.Failure? ==>
        p.error.MetadataFailed? && p.error.format.UnknownId?
        && StoppedAt(endpoint, prodSample, dateRanges, ledger0, log0, reports0, app0, i, p.error.format.id, ledger, delayedLog, reports, appLog)
      ensures SalesCovered(dateRanges, prodSample) ==> p.Success?
    {
      ghost var logBefore, reportsBefore, appBefore := delayedLog, reports, appLog;
      p := ProcessWindow(i, dateRanges[i], prodSample);
      WindowOutcome(endpoint, prodSample, dateRanges, ledger0, log0, reports0, app0, i, logBefore, reportsBefore, appBefore,
                    p, ledger, delayedLog, reports, appLog);
      if SalesCovered(dateRanges, prodSample) {
        CoveredSoldScored(ledger0, endpoint, prodSample, dateRanges, i);
      }
    }

    /** The ledger after windows 0..n-1 knows the id of every record of prodSample listed in one of them. */
    static lemma {:induction false} LedgerAfterScoresListings(ledger0: map<int, Uuid>, endpoint: Record -> Uuid, prodSample: seq<Record>,
                                                              ranges: seq<Window>, n: nat)
      requires n <= |ranges|
      ensures ListedScored(prodSample, ranges, n, LedgerAfter(ledger0, endpoint, prodSample, ranges, n))
    {
      if n > 0 {
        var k := n - 1;
        LedgerAfterScoresListings(ledger0, endpoint, prodSample, ranges, k);
        ListedKnown(prodSample, ranges, k, endpoint, LedgerAfter(ledger0, endpoint, prodSample, ranges, k),
                    LedgerAfter(ledger0, endpoint, prodSample, ranges, k + 1));
      }
    }

    /**
      Where every sale falls no earlier than its listing's window, window i finds every id
      newly sold in it.
    */
    static lemma CoveredSoldScored(ledger0: map<int, Uuid>, endpoint: Record -> Uuid, prodSample: seq<Record>, ranges: seq<Window>, i: nat)
      requires SalesCovered(ranges, prodSample) && i < |ranges|
      ensures IdsKnown(SoldIn(prodSample, ranges[i]), LedgerAfter(ledger0, endpoint, prodSample, ranges, i + 1))
    {
      LedgerAfterScoresListings(ledger0, endpoint, prodSample, ranges, i + 1);
      SoldKnown(prodSample, ranges, i, LedgerAfter(ledger0, endpoint, prodSample, ranges, i + 1));
    }

    /** Every record of prodSample listed in one of windows 0..i-1 has an id the ledger knows. */
    static ghost predicate ListedScored(prodSample: seq<Record>, ranges: seq<Window>, i: int, ledger: map<int, Uuid>) {
      forall j, x :: 0 <= j < i && j < |ranges| && x in prodSample && InWindow(x.dateListed, ranges[j]) ==> x.id in ledger
    }

    /** Once window i's listings are scored, every record listed in windows 0..i has a known id. */
    static lemma ListedKnown(prodSample: seq<Record>, w: seq<Window>, i: int, endpoint: Record -> Uuid, before: map<int, Uuid>, after: map<int, Uuid>)
      requires 0 <= i < |w| && ListedScored(prodSample, w, i, before)
      requires after == before + BatchMapping(ListedIn(prodSample, w[i]), endpoint)
      ensures ListedScored(prodSample, w, i + 1, after)
    {
      var listed := ListedIn(prodSample, w[i]);
      ListedInMembers(prodSample, w[i]);
      forall j, x | 0 <= j < i + 1 && j < |w| && x in prodSample && InWindow(x.dateListed, w[j]) ensures x.id in after {
        if j == i {
          assert x in listed;
          IdOf(listed, x);
        }
      }
    }

    /**
      The step of the success argument: once windows 0..i are scored, every record sold in
      window i has a known id, because it was listed in one of those windows.
    */
    static lemma SoldKnown(prodSample: seq<Record>, w: seq<Window>, i: int, after: map<int, Uuid>)
      requires SalesCovered(w, prodSample) && 0 <= i < |w| && ListedScored(prodSample, w, i + 1, after)
      ensures IdsKnown(SoldIn(prodSample, w[i]), after)
    {
      var s := SoldIn(prodSample, w[i]);
      SoldInMembers(prodSample, w[i]);
      forall k | 0 <= k < |s| ensures s[k].id in after {
        var x := s[k];
        assert x in prodSample && InWindow(x.dateSold, w[i]);
        assert ListedBy(x, w, i);
      }
    }

    /** On admissible data a sale falls no earlier than the window of its listing. */
    static lemma AdmissibleCovered(prod: seq<Record>, prodSample: seq<Record>)
      requires Admissible(prod, prodSample)
      ensures SalesCovered(Clock(SoldDates(prod), 1).value, prodSample)
    {
      var sold := SoldDates(prod);
      var w := Clock(sold, 1).value;
      forall i, x | 0 <= i < |w| && x in prodSample && InWindow(x.dateSold, w[i]) ensures ListedBy(x, w, i) {
        ListedWithinClock(prod, x, i);
        ClockCovers(sold, 1, x.dateListed, i);
      }
    }

    static lemma IdOf(s: seq<Record>, x: Record)
      requires x in s
      ensures x.id in Ids(s)
    {
      var k :| 0 <= k < |s| && s[k] == x;
    }

    /** A production record sold in window i was listed between the clock's first start and window i's end. */
    static lemma ListedWithinClock(prod: seq<Record>, x: Record, i: int)
      requires Clock(SoldDates(prod), 1).Success? && 0 <= i < |Clock(SoldDates(prod), 1).value|
      requires x in prod && DayNumber(x.dateSold) - 365 <= DayNumber(x.dateListed) <= DayNumber(x.dateSold)
      requires InWindow(x.dateSold, Clock(SoldDates(prod), 1).value[i])
      ensures var w := Clock(SoldDates(prod), 1).value;
        DayNumber(w[0].start) <= DayNumber(x.dateListed) < DayNumber(w[i].end)
    {
      var sold := SoldDates(prod);
      var k :| 0 <= k < |prod| && prod[k] == x;
      assert sold[k] == x.dateSold;
      var lo := Earliest(sold);
      ClockWindow(sold, 1, 0);
      AddYearsBackDays(lo);
    }
  }
}
