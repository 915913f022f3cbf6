/** The result assembly of `submit_statistics` (backend/app.py lines 133-156):
    one label and one value per step-1 row, in row order. */
module Assembly {
  import opened Outcomes
  import opened Values
  import opened Errors
  import opened Labels

  /** The `data` object of a success response: index-aligned series. */
  datatype Series<S> = Series(labels: seq<string>, values: seq<S>)

  /** "Overall statistics": the label of every row when not grouping. */
  const OverallLabel: string := "总统计"

  /** Which branch of the loop assigns `label`. */
  datatype Labeller =
    | Overall
    | Lookup(dim: Dim, found: map<Scalar, string>)
    /** Grouped by a column with no branch: `label` stays unassigned. */
    | Unassigned(column: string)

  /** The label of one row, or the `UnboundLocalError` of reading `label`
      when no branch assigned it. */
  function RowLabel(lab: Labeller, k: Scalar): (r: Result<string, Reason>)
    ensures r.Err? <==> lab.Unassigned?
  {
    match lab
    case Overall => Ok(OverallLabel)
    case Lookup(d, found) => Ok(Label(d, found, k))
    case Unassigned(c) => Err(LabelUnassigned(c))
  }

  /** The loop over `step1_result` and the two list comprehensions over
      `final_result`. It raises on the first row whose label is unassigned. */
  function Assemble<S>(rows: seq<Row<S>>, lab: Labeller): (r: Result<Series<S>, Reason>)
    ensures r.Ok? <==> |rows| == 0 || !lab.Unassigned?
    ensures r.Err? ==> lab.Unassigned? && r.error == LabelUnassigned(lab.column)
    ensures r.Ok? ==> |r.value.labels| == |rows| && |r.value.values| == |rows|
    ensures r.Ok? ==> forall i :: 0 <= i < |rows| ==>
              r.value.values[i] == rows[i].stat && RowLabel(lab, rows[i].key) == Ok(r.value.labels[i])
  {
    if |rows| == 0 then Ok(Series([], []))
    else
      match RowLabel(lab, rows[0].key)
      case Err(e) => Err(e)
      case Ok(first) =>
        var rest := Assemble(rows[1..], lab).value;
        Ok(Series([first] + rest.labels, [rows[0].stat] + rest.values))
  }
}
