/**
  The two helpers of `src/utils.py` that the core uses: the artificial listing-date offset
  and the lookup of the newest drift report in a directory listing.
*/
module Utils {
  import opened Wrappers
  import opened Calendar
  import Text
  import DateText

  // ---------------------------------------------------------------- random_day_offset

  /** `np.random.randint(0, max_days)` raises ValueError when the range is empty. */
  datatype OffsetError = EmptyDrawRange

  /**
    `random_day_offset(ts, max_days)`: ts moved back by a whole number of days drawn
    uniformly from [0, max_days). The generator is outside the model: `draw` is the value it
    returned, which randint keeps below `max_days`.
  */
  function RandomDayOffset(ts: Date, maxDays: int, draw: nat): (r: Result<Date, OffsetError>)
    requires maxDays > 0 ==> draw < maxDays
    ensures r.Failure? <==> maxDays <= 0
    ensures r.Success? ==> DayNumber(r.value) == DayNumber(ts) - draw
  {
    if maxDays <= 0 then Failure(EmptyDrawRange) else Success(SubDays(ts, draw))
  }

  /** The offset date is never later than ts and less than max_days days earlier. */
  lemma OffsetWithin(ts: Date, maxDays: int, draw: nat)
    requires maxDays > 0 && draw < maxDays
    ensures RandomDayOffset(ts, maxDays, draw).Success?
    ensures DayNumber(ts) - maxDays < DayNumber(RandomDayOffset(ts, maxDays, draw).value) <= DayNumber(ts)
  {
  }

  /** Every day of that range is the result of exactly one draw. */
  lemma {:induction false} OffsetReachesEveryDay(ts: Date, maxDays: int, d: Date)
    requires maxDays > 0
    requires DayNumber(ts) - maxDays < DayNumber(d) <= DayNumber(ts)
    ensures var k := DayNumber(ts) - DayNumber(d);
      0 <= k < maxDays && RandomDayOffset(ts, maxDays, k) == Success(d)
  {
    var k := DayNumber(ts) - DayNumber(d);
    DayNumberInjective(SubDays(ts, k), d);
  }

  // ---------------------------------------------------------------- find_latest_report

  /** `report.split(".")[-1] == "html"`. */
  predicate IsHtml(name: string) {
    Text.SplitLast(name, '.') == "html"
  }

  /** `report.split("_")[0]`: the date part of a report file name. */
  function DatePrefix(name: string): string {
    Text.SplitFirst(name, '_')
  }

  /** The date part of an html report, None for any other file: one step of the comprehension. */
  function Tag(name: string): Option<string> {
    if IsHtml(name) then Some(DatePrefix(name)) else None
  }

  /** The comprehension's filter and key, one entry per listed name. */
  function Tags(reports: seq<string>): seq<Option<string>> {
    if reports == [] then [] else [Tag(reports[0])] + Tags(reports[1..])
  }

  /** Entry i of the tags is the tag of name i. */
  lemma {:induction false} TagsAt(reports: seq<string>)
    ensures |Tags(reports)| == |reports| && forall i :: 0 <= i < |reports| ==> Tags(reports)[i] == Tag(reports[i])
  {
    if reports != [] {
      TagsAt(reports[1..]);
    }
  }

  /** The key function of the `max` call: `datetime.strptime(d, "%Y-%m-%d")` as a day number. */
  function ReportDate(k: string): Option<int> {
    match DateText.ParseYmd(k)
    case None => None
    case Some(d) => Some(DayNumber(d))
  }

  /*
    The dictionary and the `max` call do not depend on what the keys are, so they are
    written over any key type K and any key function `day` (None where it raises).
  */

  /** The dict `date_map`: its keys in insertion order and the index each key maps to. */
  datatype DateMap<K> = DateMap(keys: seq<K>, index: map<K, nat>)

  /**
    `{report.split("_")[0]: i for i, report in enumerate(reports) if report.split(".")[-1] == "html"}`
    over the tags of the listing: each date part becomes a key where it first appears, and
    a later assignment to a key overwrites its index.
  */
  function DateMapOf<K(==)>(tags: seq<Option<K>>): (m: DateMap<K>)
    ensures |m.keys| <= |tags|
  {
    if tags == [] then DateMap([], map[])
    else
      var n := |tags| - 1;
      var m := DateMapOf(tags[..n]);
      match tags[n]
      case None => m
      case Some(p) =>
        var keys := if p in m.index then m.keys else m.keys + [p];
        DateMap(keys, m.index[p := n])
  }

  /**
    What the comprehension builds: distinct keys, exactly the date parts that occur, each
    mapped to the LAST position that carries it.
  */
  ghost predicate DateMapOfTags<K(!new)>(tags: seq<Option<K>>, m: DateMap<K>) {
    (forall a, b :: 0 <= a < b < |m.keys| ==> m.keys[a] != m.keys[b])
    && (forall k :: k in m.index <==> k in m.keys)
    && (forall k :: k in m.index ==> m.index[k] < |tags| && tags[m.index[k]] == Some(k))
    && (forall j :: 0 <= j < |tags| && tags[j].Some? ==> tags[j].value in m.index && j <= m.index[tags[j].value])
  }

  lemma {:induction false} DateMapOfSpec<K(!new)>(tags: seq<Option<K>>)
    ensures DateMapOfTags(tags, DateMapOf(tags))
  {
    if tags != [] {
      DateMapOfSpec(tags[..|tags| - 1]);
    }
  }

  /** Position of the first key whose key function raises, if any. */
  function FirstUnparsable<K>(keys: seq<K>, day: K -> Option<int>): (r: Option<nat>)
    ensures r.Some? ==> r.value < |keys| && day(keys[r.value]).None?
    ensures r.Some? ==> forall j :: 0 <= j < r.value ==> day(keys[j]).Some?
    ensures r.None? ==> forall j :: 0 <= j < |keys| ==> day(keys[j]).Some?
  {
    if keys == [] then None
    else if day(keys[0]).None? then Some(0)
    else match FirstUnparsable(keys[1..], day)
      case None => None
      case Some(i) => Some(i + 1)
  }

  /** The day numbers of keys that all parse. */
  function KeyDays<K>(keys: seq<K>, day: K -> Option<int>): (ds: seq<int>)
    requires forall j :: 0 <= j < |keys| ==> day(keys[j]).Some?
    ensures |ds| == |keys|
    ensures forall j :: 0 <= j < |keys| ==> ds[j] == day(keys[j]).value
  {
    if keys == [] then [] else [day(keys[0]).value] + KeyDays(keys[1..], day)
  }

  /**
    The position `max(..., key=...)` returns: it walks left to right and replaces its
    candidate only by a strictly larger one, so it picks the first of the largest.
  */
  function LatestIn(ds: seq<int>): (b: nat)
    requires |ds| > 0
    ensures b < |ds|
    ensures forall j :: 0 <= j < |ds| ==> ds[j] <= ds[b]
    ensures forall j :: 0 <= j < b ==> ds[j] < ds[b]
  {
    if |ds| == 1 then 0
    else
      var b := LatestIn(ds[..|ds| - 1]);
      if ds[|ds| - 1] > ds[b] then |ds| - 1 else b
  }

  /** What `find_latest_report` raises: `max()` of no keys, or a date part strptime rejects. */
  datatype ReportError<K> = NoHtmlReports | BadReportDate(prefix: K)

  /** The listing index `date_map[max(date_map.keys(), key=...)]`, computed over the tags. */
  function LatestTagged<K(==,!new)>(t: seq<Option<K>>, day: K -> Option<int>): (r: Result<nat, ReportError<K>>)
    ensures r.Success? ==> r.value < |t|
  {
    var m := DateMapOf(t);
    DateMapOfSpec(t);
    if m.keys == [] then
      Failure(NoHtmlReports)
    else
      match FirstUnparsable(m.keys, day)
      case Some(u) => Failure(BadReportDate(m.keys[u]))
      case None =>
        var b := LatestIn(KeyDays(m.keys, day));
        assert m.keys[b] in m.index;
        Success(m.index[m.keys[b]])
  }

  /** When the lookup raises, and which exception. */
  lemma LatestTaggedErrors<K(!new)>(t: seq<Option<K>>, day: K -> Option<int>)
    ensures var r := LatestTagged(t, day);
      && (r == Failure(NoHtmlReports) <==> forall i :: 0 <= i < |t| ==> t[i].None?)
      && (r.Failure? && r.error.BadReportDate? ==>
           day(r.error.prefix).None? && exists i :: 0 <= i < |t| && t[i] == Some(r.error.prefix))
      && (r.Success? <==>
           (exists i :: 0 <= i < |t| && t[i].Some?)
           && forall i :: 0 <= i < |t| && t[i].Some? ==> day(t[i].value).Some?)
  {
    var m := DateMapOf(t);
    DateMapOfSpec(t);
    if m.keys != [] {
      assert m.keys[0] in m.index;
      match FirstUnparsable(m.keys, day)
      case Some(u) =>
        assert m.keys[u] in m.index;
      case None =>
    }
  }

  /**
    The index found carries the latest date of all tags, and no later tag has its date part:
    it is the last report with the latest date part.
  */
  lemma {:induction false} LatestTaggedIsLatest<K(!new)>(t: seq<Option<K>>, day: K -> Option<int>)
    requires LatestTagged(t, day).Success?
    ensures var i := LatestTagged(t, day).value;
      t[i].Some? && day(t[i].value).Some?
      && (forall j :: i < j < |t| ==> t[j] != t[i])
      && forall j :: 0 <= j < |t| && t[j].Some? ==>
           day(t[j].value).Some? && day(t[j].value).value <= day(t[i].value).value
  {
    var m := DateMapOf(t);
    DateMapOfSpec(t);
    var ds := KeyDays(m.keys, day);
    var b := LatestIn(ds);
    var i := m.index[m.keys[b]];
    assert LatestTagged(t, day) == Success(i);
    LatestTaggedErrors(t, day);
    forall j | 0 <= j < |t| && t[j].Some?
      ensures day(t[j].value).Some? && day(t[j].value).value <= day(t[i].value).value
    {
      var p := t[j].value;
      assert p in m.keys;
      var a :| 0 <= a < |m.keys| && m.keys[a] == p;
      assert ds[a] <= ds[b];
    }
  }

  /**
    `find_latest_report(report_dir)` on the listing `reports` (os.listdir is outside the
    model): the html report whose date part is the latest.
  */
  function FindLatestReport(reports: seq<string>): (r: Result<string, ReportError<string>>)
    ensures r.Success? ==> r.value in reports
  {
    TagsAt(reports);
    match LatestTagged(Tags(reports), ReportDate)
    case Failure(e) => Failure(e)
    case Success(i) => Success(reports[i])
  }

  /**
    When `find_latest_report` raises: ValueError from `max()` exactly when no html report is
    listed, ValueError from strptime on a date part of an html report otherwise; it returns
    exactly when some html report is listed and every html date part parses.
    `Tag(name) == Some(p)` says that name is an html report with date part p.
  */
  lemma FindLatestReportErrors(reports: seq<string>)
    ensures var r := FindLatestReport(reports);
      && (r == Failure(NoHtmlReports) <==> forall i :: 0 <= i < |reports| ==> Tag(reports[i]).None?)
      && (r.Failure? && r.error.BadReportDate? ==>
           ReportDate(r.error.prefix).None? && exists i :: 0 <= i < |reports| && Tag(reports[i]) == Some(r.error.prefix))
      && (r.Success? <==>
           (exists i :: 0 <= i < |reports| && Tag(reports[i]).Some?)
           && forall i :: 0 <= i < |reports| && Tag(reports[i]).Some? ==> ReportDate(Tag(reports[i]).value).Some?)
  {
    var t := Tags(reports);
    TagsAt(reports);
    LatestTaggedErrors(t, ReportDate);
    var r := LatestTagged(t, ReportDate);
    if r.Failure? && r.error.BadReportDate? {
      var i :| 0 <= i < |t| && t[i] == Some(r.error.prefix);
      assert Tag(reports[i]) == Some(r.error.prefix);
    }
  }

  /**
    On success the answer is an html report of the listing whose date part strptime accepts,
    no html report is dated later, and no html report after it has the same date part.
  */
  lemma {:induction false} FindLatestReportIsLatest(reports: seq<string>)
    requires FindLatestReport(reports).Success?
    ensures var name := FindLatestReport(reports).value;
      Tag(name).Some? && ReportDate(Tag(name).value).Some?
      && (exists i :: 0 <= i < |reports| && reports[i] == name
           && forall j :: i < j < |reports| ==> Tag(reports[j]) != Tag(name))
      && forall j :: 0 <= j < |reports| && Tag(reports[j]).Some? ==>
           ReportDate(Tag(reports[j]).value).Some?
           && ReportDate(Tag(reports[j]).value).value <= ReportDate(Tag(name).value).value
  {
    var t := Tags(reports);
    TagsAt(reports);
    var i := LatestTagged(t, ReportDate).value;
    LatestTaggedIsLatest(t, ReportDate);
    assert reports[i] == FindLatestReport(reports).value;
  }

  /**
    Of two html reports with the same date part, the later one in the listing is returned
    (TagExample and DateText.ParseYmdOfFormat show names such as "2021-01-01_a.html" and
    "2021-01-01_b.html" meet the requirement).
  */
  lemma LaterDuplicateWins(a: string, b: string)
    requires Tag(a).Some? && Tag(b) == Tag(a) && ReportDate(Tag(a).value).Some?
    ensures FindLatestReport([a, b]) == Success(b)
  {
    TagsAt([a, b]);
    SameKeyTwice(Tags([a, b]), ReportDate);
  }

  /** Two tags with the same key select the second. */
  lemma SameKeyTwice<K(!new)>(t: seq<Option<K>>, day: K -> Option<int>)
    requires |t| == 2 && t[0].Some? && t[1] == t[0] && day(t[0].value).Some?
    ensures LatestTagged(t, day) == Success(1)
  {
    var k := t[0].value;
    var t1 := t[..1];
    assert t1[..0] == [];
    var m0 := DateMapOf(t1[..0]);
    assert m0 == DateMap([], map[]);
    var m1 := DateMapOf(t1);
    assert m1 == DateMap(m0.keys + [k], m0.index[k := 0]);
    var m := DateMapOf(t);
    assert m == DateMap(m1.keys, m1.index[k := 1]);
    assert m.keys == [k] && m.index[k] == 1;
  }

  /** The date part and extension of "2021-01-01_x.html". */
  lemma TagExample(x: string)
    requires '_' !in x && '.' !in x
    ensures Tag("2021-01-01_" + x + ".html") == Some("2021-01-01")
  {
    var s := "2021-01-01_" + x + ".html";
    assert s == "2021-01-01" + ['_'] + (x + ".html");
    Text.SplitFirstOfConcat("2021-01-01", '_', x + ".html");
    assert s == ("2021-01-01_" + x) + ['.'] + "html";
    Text.SplitLastOfConcat("2021-01-01_" + x, '.', "html");
  }
}
