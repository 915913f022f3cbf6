/** The values the database hands back to the handler: step-1 rows and the
    scalar group keys inside them, with the text Python's `str` gives a key. */
module Values {
  import opened Outcomes
  import opened Text

  /** A group-key value as pymysql returns it: an integer, a string, or SQL
      NULL (Python `None`). */
  datatype Scalar = Int(i: int) | Str(s: string) | SqlNull

  /** One row of the step-1 result: `row[0]` is the statistic, `row[1]` the
      group key. The statistic is opaque to the handler, hence the type
      parameter. An ungrouped statement yields one-column rows; the handler
      never reads `key` for those. */
  datatype Row<S> = Row(stat: S, key: Scalar)

  /** `str(k)` (and `f"{k}"`) for a group key. */
  function Show(k: Scalar): string
  {
    match k
    case Int(i) => IntToDecimal(i)
    case Str(s) => s
    case SqlNull => "None"
  }

  /** `map(str, keys)`, materialised. */
  function ShowAll(keys: seq<Scalar>): (texts: seq<string>)
    ensures |texts| == |keys|
    ensures forall i :: 0 <= i < |keys| ==> texts[i] == Show(keys[i])
  {
    if |keys| == 0 then [] else [Show(keys[0])] + ShowAll(keys[1..])
  }

  /** The rendering of an integer key is a numeral: it has no comma, and it
      begins with a digit or a minus sign. */
  lemma ShowInt(i: int)
    ensures ',' !in Show(Int(i))
    ensures |Show(Int(i))| >= 1
    ensures Show(Int(i))[0] == '-' || IsDigit(Show(Int(i))[0])
    ensures ParseDecimal(Show(Int(i))) == Some(i)
  {
    IntDecimalShape(i);
    IntDecimalRoundTrip(i);
  }
}
