/** The JSON body of a `/submit_statistics` request and the four fields the
    handler reads from it (backend/app.py lines 74-78). */
module Requests {
  import opened Outcomes
  import opened Errors

  /** A JSON field value: `null` or a string. */
  datatype Field = Null | Text(s: string)

  /** A JSON object body. */
  type Body = map<string, Field>

  /** The four request fields, exactly as the caller sent them. */
  datatype Request = Request(table: Field, column: Field, aggregate: Field, group: Field)

  const TableKey: string := "table_name"
  const ColumnKey: string := "statistic_column_name"
  const FunctionKey: string := "statistic_function"
  const GroupKey: string := "group_column_name"

  /** The keys in the order the handler reads them. */
  const FieldKeys: seq<string> := [TableKey, ColumnKey, FunctionKey, GroupKey]

  /** Python truthiness of a field: `None` and `""` are false. */
  predicate Truthy(f: Field)
  {
    f.Text? && f.s != ""
  }

  /** What an f-string splices into SQL text for a field: the string itself,
      or `None` for JSON null. No quoting or escaping is applied. */
  function Splice(f: Field): string
  {
    match f
    case Null => "None"
    case Text(s) => s
  }

  /** Reads the four fields in source order; the first missing key raises
      `KeyError`. Nothing is validated: any present value is accepted. */
  function ParseRequest(body: Body): (r: Result<Request, Reason>)
    ensures r.Ok? <==> TableKey in body && ColumnKey in body && FunctionKey in body && GroupKey in body
    ensures r.Ok? ==> r.value == Request(body[TableKey], body[ColumnKey], body[FunctionKey], body[GroupKey])
    ensures r.Err? ==> exists j :: 0 <= j < |FieldKeys| && r.error == MissingField(FieldKeys[j])
                          && FieldKeys[j] !in body && forall k :: 0 <= k < j ==> FieldKeys[k] in body
  {
    if TableKey !in body then
      assert FieldKeys[0] == TableKey;
      Err(MissingField(TableKey))
    else if ColumnKey !in body then
      assert FieldKeys[1] == ColumnKey && FieldKeys[0] in body;
      Err(MissingField(ColumnKey))
    else if FunctionKey !in body then
      assert FieldKeys[2] == FunctionKey && FieldKeys[1] in body && FieldKeys[0] in body;
      Err(MissingField(FunctionKey))
    else if GroupKey !in body then
      assert FieldKeys[3] == GroupKey && FieldKeys[2] in body && FieldKeys[1] in body && FieldKeys[0] in body;
      Err(MissingField(GroupKey))
    else Ok(Request(body[TableKey], body[ColumnKey], body[FunctionKey], body[GroupKey]))
  }
}
