/**
  `get_report_dates` of the monitoring dashboard (apps/app.py): the report directories
  listed newest batch first, ordered by the start date written before the first `_` of each
  directory name.
*/
module App {
  import opened Wrappers
  import opened Calendar
  import Text
  import DateText
  import Utils
  import SimulationClock
  import SimulationSteps

  // ---------------------------------------------------------------- sorted(..., reverse=True)

  /*
    Python's `sorted(s, key=key, reverse=True)` is a stable sort: it orders by descending key
    and keeps the listing order of elements whose keys are equal. It is written here as an
    insertion sort over any element type, once every key has been computed.
  */

  /** Insert x after every element whose key is at least key(x). */
  function InsertDesc<T>(x: T, s: seq<T>, key: T -> int): (r: seq<T>)
    ensures |r| == |s| + 1
  {
    if s == [] || key(s[0]) < key(x) then [x] + s
    else [s[0]] + InsertDesc(x, s[1..], key)
  }

  function SortDesc<T>(s: seq<T>, key: T -> int): (r: seq<T>)
    ensures |r| == |s|
  {
    if s == [] then [] else InsertDesc(s[|s| - 1], SortDesc(s[..|s| - 1], key), key)
  }

  ghost predicate NonIncreasing<T>(s: seq<T>, key: T -> int) {
    forall i, j :: 0 <= i < j < |s| ==> key(s[i]) >= key(s[j])
  }

  /** `[x for x in s if key(x) == d]`: the elements with one key value, in order. */
  function WithKey<T>(s: seq<T>, key: T -> int, d: int): (r: seq<T>)
    ensures |r| <= |s|
  {
    if s == [] then [] else (if key(s[0]) == d then [s[0]] else []) + WithKey(s[1..], key, d)
  }

  lemma {:induction false} WithKeyConcat<T>(a: seq<T>, b: seq<T>, key: T -> int, d: int)
    ensures WithKey(a + b, key, d) == WithKey(a, key, d) + WithKey(b, key, d)
  {
    if a != [] {
      assert (a + b)[1..] == a[1..] + b;
      WithKeyConcat(a[1..], b, key, d);
    } else {
      assert a + b == b;
    }
  }

  lemma {:induction false} WithKeyNone<T>(s: seq<T>, key: T -> int, d: int)
    requires forall i :: 0 <= i < |s| ==> key(s[i]) != d
    ensures WithKey(s, key, d) == []
  {
    if s != [] {
      WithKeyNone(s[1..], key, d);
    }
  }

  /** Inserting adds x to the multiset of elements. */
  lemma {:induction false} InsertDescPerm<T>(x: T, s: seq<T>, key: T -> int)
    ensures multiset(InsertDesc(x, s, key)) == multiset(s) + multiset{x}
  {
    if !(s == [] || key(s[0]) < key(x)) {
      InsertDescPerm(x, s[1..], key);
      assert s == [s[0]] + s[1..];
    }
  }

  /** Every element of the result is x or an element of s. */
  lemma {:induction false} InsertDescMembers<T>(x: T, s: seq<T>, key: T -> int)
    ensures forall i :: 0 <= i < |s| + 1 ==> InsertDesc(x, s, key)[i] == x || InsertDesc(x, s, key)[i] in s
  {
    if !(s == [] || key(s[0]) < key(x)) {
      InsertDescMembers(x, s[1..], key);
      var r := InsertDesc(x, s, key);
      forall i | 1 <= i < |s| + 1 ensures r[i] == x || r[i] in s {
        assert r[i] == InsertDesc(x, s[1..], key)[i - 1];
      }
    }
  }

  /** Inserting into a non-increasing sequence keeps it non-increasing. */
  lemma {:induction false} InsertDescOrdered<T>(x: T, s: seq<T>, key: T -> int)
    requires NonIncreasing(s, key)
    ensures NonIncreasing(InsertDesc(x, s, key), key)
  {
    var r := InsertDesc(x, s, key);
    if s == [] || key(s[0]) < key(x) {
      assert forall i :: 1 <= i < |r| ==> r[i] == s[i - 1];
    } else {
      var t := InsertDesc(x, s[1..], key);
      InsertDescOrdered(x, s[1..], key);
      InsertDescMembers(x, s[1..], key);
      assert forall i :: 1 <= i < |r| ==> r[i] == t[i - 1];
      forall i | 0 <= i < |t| ensures key(t[i]) <= key(s[0]) {
        if t[i] != x {
          var k :| 0 <= k < |s[1..]| && s[1..][k] == t[i];
          assert s[k + 1] == t[i];
        }
      }
    }
  }

  /** Inserting into a non-increasing sequence puts x after the elements of its key that were there. */
  lemma {:induction false} InsertDescStable<T>(x: T, s: seq<T>, key: T -> int, d: int)
    requires NonIncreasing(s, key)
    ensures WithKey(InsertDesc(x, s, key), key, d) == WithKey(s, key, d) + (if key(x) == d then [x] else [])
  {
    if s == [] || key(s[0]) < key(x) {
      var r := [x] + s;
      assert r[1..] == s;
      if key(x) == d {
        WithKeyNone(s, key, d);
      }
    } else {
      var t := InsertDesc(x, s[1..], key);
      assert InsertDesc(x, s, key)[1..] == t;
      InsertDescStable(x, s[1..], key, d);
    }
  }

  /** `sorted(s, key=key, reverse=True)` is a permutation of s in descending key order. */
  lemma {:induction false} SortDescSorted<T>(s: seq<T>, key: T -> int)
    ensures multiset(SortDesc(s, key)) == multiset(s)
    ensures NonIncreasing(SortDesc(s, key), key)
  {
    if s != [] {
      var n := |s| - 1;
      var front := SortDesc(s[..n], key);
      SortDescSorted(s[..n], key);
      InsertDescPerm(s[n], front, key);
      InsertDescOrdered(s[n], front, key);
      assert s == s[..n] + [s[n]];
    }
  }

  /** `sorted` is stable: the elements of each key keep their order. */
  lemma {:induction false} SortDescStable<T>(s: seq<T>, key: T -> int, d: int)
    ensures WithKey(SortDesc(s, key), key, d) == WithKey(s, key, d)
  {
    if s != [] {
      var n := |s| - 1;
      var front := SortDesc(s[..n], key);
      SortDescSorted(s[..n], key);
      SortDescStable(s[..n], key, d);
      InsertDescStable(s[n], front, key, d);
      assert s == s[..n] + [s[n]];
      WithKeyConcat(s[..n], [s[n]], key, d);
      assert WithKey([s[n]], key, d) == if key(s[n]) == d then [s[n]] else [];
    }
  }

  ghost predicate StrictlyIncreasing<T>(s: seq<T>, key: T -> int) {
    forall i, j :: 0 <= i < j < |s| ==> key(s[i]) < key(s[j])
  }

  function Reverse<T>(s: seq<T>): (r: seq<T>)
    ensures |r| == |s| && forall i :: 0 <= i < |s| ==> r[i] == s[|s| - 1 - i]
  {
    if s == [] then [] else [s[|s| - 1]] + Reverse(s[..|s| - 1])
  }

  /** A listing whose keys strictly increase comes out reversed. */
  lemma {:induction false} SortDescOfIncreasing<T>(s: seq<T>, key: T -> int)
    requires StrictlyIncreasing(s, key)
    ensures SortDesc(s, key) == Reverse(s)
  {
    if s != [] {
      var n := |s| - 1;
      assert StrictlyIncreasing(s[..n], key);
      SortDescOfIncreasing(s[..n], key);
      var t := Reverse(s[..n]);
      assert t == [] || key(t[0]) < key(s[n]);
    }
  }

  // ---------------------------------------------------------------- get_report_dates

  /** `datetime.strptime(date.split("_")[0], "%m-%d-%Y")` as a day number; None where it raises. */
  function DirDay(name: string): Option<int> {
    match DateText.ParseMdy(Text.SplitFirst(name, '_'))
    case None => None
    case Some(d) => Some(DayNumber(d))
  }

  /** The sort key of a directory name whose date part parses. */
  function DirKey(name: string): int {
    match DirDay(name)
    case None => 0
    case Some(v) => v
  }

  /** `get_report_dates()` raises ValueError from strptime on the first name whose date part it rejects. */
  datatype ReportDatesError = BadReportDir(name: string)

  /**
    `get_report_dates()` on the listing `names` of the reports directory (os.listdir is
    outside the model). sorted() computes every key before it compares any, so one bad
    name anywhere in the listing raises.
  */
  function GetReportDates(names: seq<string>): (r: Result<seq<string>, ReportDatesError>)
    ensures r.Success? ==> |r.value| == |names|
  {
    match Utils.FirstUnparsable(names, DirDay)
    case Some(i) => Failure(BadReportDir(names[i]))
    case None => Success(SortDesc(names, DirKey))
  }

  /** It raises exactly when some name's date part does not parse, naming the first such name. */
  lemma GetReportDatesErrors(names: seq<string>)
    ensures GetReportDates(names).Failure? <==> exists i :: 0 <= i < |names| && DirDay(names[i]).None?
    ensures GetReportDates(names).Failure? ==>
      exists i :: 0 <= i < |names| && GetReportDates(names).error.name == names[i] && DirDay(names[i]).None?
        && forall j :: 0 <= j < i ==> DirDay(names[j]).Some?
  {
  }

  /**
    On success the result is the listing reordered, newest start date first, and names with
    the same start date keep their listing order.
  */
  lemma GetReportDatesSorted(names: seq<string>)
    requires GetReportDates(names).Success?
    ensures var r := GetReportDates(names).value;
      multiset(r) == multiset(names)
      && (forall i :: 0 <= i < |r| ==> DirDay(r[i]).Some?)
      && (forall i, j :: 0 <= i < j < |r| ==> DirDay(r[i]).value >= DirDay(r[j]).value)
      && forall d :: WithKey(r, DirKey, d) == WithKey(names, DirKey, d)
  {
    var r := GetReportDates(names).value;
    SortDescSorted(names, DirKey);
    forall d ensures WithKey(r, DirKey, d) == WithKey(names, DirKey, d) {
      SortDescStable(names, DirKey, d);
    }
    forall i | 0 <= i < |r| ensures DirDay(r[i]).Some? {
      assert r[i] in multiset(names);
    }
  }

  /**
    The directories the simulation writes, one per clock window in batch order, are listed
    back newest first: the dashboard's order is the reverse of the batch order.
  */
  lemma {:induction false} ClockReportsNewestFirst(sold: seq<Date>, m: int)
    requires SimulationClock.Clock(sold, m).Success?
    requires forall i :: 0 <= i < |SimulationClock.Clock(sold, m).value| ==>
      1 <= SimulationClock.Clock(sold, m).value[i].start.year <= 9999
    ensures var w := SimulationClock.Clock(sold, m).value;
      var dirs := seq(|w|, i requires 0 <= i < |w| => SimulationSteps.ReportDirName(w[i]));
      GetReportDates(dirs) == Success(Reverse(dirs))
  {
    var w := SimulationClock.Clock(sold, m).value;
    var dirs := seq(|w|, i requires 0 <= i < |w| => SimulationSteps.ReportDirName(w[i]));
    forall i | 0 <= i < |w| ensures DirDay(dirs[i]) == Some(DayNumber(w[i].start)) {
      SimulationSteps.ReportDirNameStart(w[i]);
    }
    forall i, j | 0 <= i < j < |w| ensures DirKey(dirs[i]) < DirKey(dirs[j]) {
      SimulationClock.ClockWindowNonEmpty(sold, m, i);
      SimulationClock.ClockOrdered(sold, m, i, j);
    }
    SortDescOfIncreasing(dirs, DirKey);
  }

  /** Two elements whose keys increase are sorted into reverse order. */
  lemma SortDescPair<T>(x: T, y: T, key: T -> int)
    requires key(x) < key(y)
    ensures SortDesc([x, y], key) == [y, x]
  {
    assert [x, y][..1] == [x];
    assert SortDesc([x], key) == [x];
  }

  /** Of two directories whose date parts parse, the one with the later date is listed first. */
  lemma LaterDirFirst(a: string, b: string)
    requires DirDay(a).Some? && DirDay(b).Some? && DirDay(a).value < DirDay(b).value
    ensures GetReportDates([a, b]) == Success([b, a])
  {
    PairParses(a, b, DirDay);
    SortDescPair(a, b, DirKey);
  }

  lemma PairParses<K>(a: K, b: K, day: K -> Option<int>)
    requires day(a).Some? && day(b).Some?
    ensures Utils.FirstUnparsable([a, b], day) == None
  {
    assert [a, b][0] == a && [a, b][1] == b;
  }

  /** Of two report directories, the one whose window starts later is listed first. */
  lemma LaterStartFirst(v: SimulationClock.Window, w: SimulationClock.Window)
    requires 1 <= v.start.year <= 9999 && 1 <= w.start.year <= 9999
    requires DayNumber(v.start) < DayNumber(w.start)
    ensures var a, b := SimulationSteps.ReportDirName(v), SimulationSteps.ReportDirName(w);
      GetReportDates([a, b]) == Success([b, a])
  {
    SimulationSteps.ReportDirNameStart(v);
    SimulationSteps.ReportDirNameStart(w);
    LaterDirFirst(SimulationSteps.ReportDirName(v), SimulationSteps.ReportDirName(w));
  }

  /** A report directory name starts with the two-digit month of its window's start. */
  lemma ReportDirNameMonthFirst(w: SimulationClock.Window)
    ensures SimulationSteps.ReportDirName(w)[..2] == DateText.Pad2(w.start.month)
  {
  }

  /**
    The order is by calendar date and not by text: the December 2014 batch, whose name starts
    with "12", is listed after the January 2015 batch, whose name starts with "01".
  */
  lemma CalendarNotTextOrder(v: SimulationClock.Window, w: SimulationClock.Window)
    requires v.start == CivilDate(2014, 12, 1) && w.start == CivilDate(2015, 1, 1)
    ensures var a, b := SimulationSteps.ReportDirName(v), SimulationSteps.ReportDirName(w);
      a[..2] == "12" && b[..2] == "01" && GetReportDates([a, b]) == Success([b, a])
  {
    ReportDirNameMonthFirst(v);
    ReportDirNameMonthFirst(w);
    assert DateText.Pad2(12) == "12" && DateText.Pad2(1) == "01";
    LaterStartFirst(v, w);
  }
}
