/** The house-sale records that flow from data preparation into the simulation. */
module Housing {
  import opened Calendar

  /** The prediction handle (`predictionUuid`) the model endpoint returns for one scored record. */
  type Uuid = string

  /**
    One row of train_df / prod_df: the record id, the ground-truth price, the artificial
    listing date and the sale date. The model features are carried through untouched by the
    core and are not part of the model.
  */
  datatype Record = Record(id: int, price: real, dateListed: Date, dateSold: Date)

  /** The set of ids occurring in s (`s.id`). */
  function Ids(s: seq<Record>): (r: set<int>)
    ensures forall i :: 0 <= i < |s| ==> s[i].id in r
  {
    if s == [] then {} else Ids(s[..|s| - 1]) + {s[|s| - 1].id}
  }

  /** Every id in Ids(s) is the id of some record of s. */
  lemma {:induction false} IdsMember(s: seq<Record>, v: int)
    requires v in Ids(s)
    ensures exists i :: 0 <= i < |s| && s[i].id == v
  {
    if s[|s| - 1].id != v {
      var p := s[..|s| - 1];
      IdsMember(p, v);
      var i :| 0 <= i < |p| && p[i].id == v;
      assert s[i] == p[i];
    }
  }

  /** No id occurs twice. */
  predicate UniqueIds(s: seq<Record>) {
    forall i, j :: 0 <= i < j < |s| ==> s[i].id != s[j].id
  }

  function SoldDates(s: seq<Record>): (r: seq<Date>)
    ensures |r| == |s| && forall i :: 0 <= i < |s| ==> r[i] == s[i].dateSold
  {
    if s == [] then [] else [s[0].dateSold] + SoldDates(s[1..])
  }
}
