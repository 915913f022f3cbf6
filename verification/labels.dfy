/** The label lookup of `submit_statistics` (backend/app.py lines 107-131 and
    the `.get` calls of lines 139-142): which group columns get labels from a
    reference table, the `IN (...)` list of group keys sent to that table, the
    labels read back, and the fallback label for a key the table lacks. */
module Labels {
  import opened Outcomes
  import opened Text
  import opened Values
  import opened Errors
  import opened Requests

  /** The two group columns backed by a reference table. */
  datatype Dim = Student | Class

  /** The group column, and the id column of the reference table. */
  function IdColumn(d: Dim): string
  {
    match d
    case Student => "student_id"
    case Class => "class_id"
  }

  function ReferenceTable(d: Dim): string
  {
    match d
    case Student => "student_info"
    case Class => "class_info"
  }

  function NameColumn(d: Dim): string
  {
    match d
    case Student => "student_name"
    case Class => "class_name"
  }

  function LabelAlias(d: Dim): string
  {
    match d
    case Student => "student_name_cn"
    case Class => "class_name_cn"
  }

  /** "Unknown student number" / "unknown course number". */
  function UnknownPrefix(d: Dim): string
  {
    match d
    case Student => "未知学号"
    case Class => "未知课程号"
  }

  /** How the handler labels rows, decided by the group field alone. */
  datatype Grouping =
    /** The group field is falsy: no grouping, one overall label. */
    | Ungrouped
    /** Grouped by `student_id` or `class_id`: labels come from a lookup. */
    | ByDimension(dim: Dim)
    /** Grouped by any other column: no label is ever produced. */
    | ByOther(column: string)

  /** The comparisons `if group_column`, `== 'student_id'`, `== 'class_id'`.
      Only an exact match selects a reference table; there is no other
      registry of groupable columns. */
  function Classify(group: Field): (g: Grouping)
    ensures g.Ungrouped? <==> !Truthy(group)
    ensures forall d :: g == ByDimension(d) <==> group == Text(IdColumn(d))
    ensures g.ByOther? <==> Truthy(group) && forall d :: group != Text(IdColumn(d))
    ensures g.ByOther? ==> g.column == Splice(group)
  {
    if !Truthy(group) then Ungrouped
    else if group == Text("student_id") then ByDimension(Student)
    else if group == Text("class_id") then ByDimension(Class)
    else ByOther(group.s)
  }

  /** `[row[1] for row in step1_result]`. */
  function GroupKeys<S>(rows: seq<Row<S>>): (keys: seq<Scalar>)
    ensures |keys| == |rows|
    ensures forall i :: 0 <= i < |rows| ==> keys[i] == rows[i].key
  {
    if |rows| == 0 then [] else [rows[0].key] + GroupKeys(rows[1..])
  }

  /** `','.join(map(str, group_values))`: spliced unquoted into `IN (...)`. */
  function InList(keys: seq<Scalar>): string
  {
    Join(ShowAll(keys), ",")
  }

  /** The lookup statement for one dimension: the reference table's id and its
      `CONCAT(id, '+', name)` label, restricted to the listed keys. */
  datatype LookupQuery = LookupQuery(dim: Dim, inList: string)

  /** `SELECT id, CONCAT(id, '+', name) as alias`. */
  function LookupSelect(d: Dim): string
  {
    "SELECT " + IdColumn(d) + ", CONCAT(" + IdColumn(d) + ", '+', " + NameColumn(d) + ") as " + LabelAlias(d)
  }

  /** ` FROM table WHERE id IN (`: where the listed keys are looked up. */
  function FromWhereIn(table: string, id: string): string
  {
    " FROM " + table + " WHERE " + id + " IN ("
  }

  function LookupFrom(d: Dim): string
  {
    FromWhereIn(ReferenceTable(d), IdColumn(d))
  }

  function LookupSql(q: LookupQuery): string
  {
    LookupSelect(q.dim) + LookupFrom(q.dim) + q.inList + ")"
  }

  /** The lookup text reads from the dimension's reference table, matching
      its id column against the list. */
  lemma LookupNamesTable(d: Dim, list: string)
    ensures Occurs(LookupFrom(d), LookupSql(LookupQuery(d, list)))
    ensures Occurs(ReferenceTable(d), LookupSql(LookupQuery(d, list)))
  {
    LookupTextParts(LookupSelect(d), LookupFrom(d), list, LookupSql(LookupQuery(d, list)));
    FromWhereInNames(ReferenceTable(d), IdColumn(d));
    OccursWithin(ReferenceTable(d), LookupSelect(d), LookupFrom(d), list + ")");
  }

  lemma FromWhereInNames(table: string, id: string)
    ensures Occurs(table, FromWhereIn(table, id))
  {
    OccursBetween(" FROM ", table, " WHERE " + id + " IN (");
    assert " FROM " + table + (" WHERE " + id + " IN (") == FromWhereIn(table, id);
  }

  /** Every listed key's rendering appears in the lookup text verbatim and
      unquoted: a NULL key shows up as `None`. */
  lemma LookupNamesKeys(d: Dim, keys: seq<Scalar>, k: Scalar)
    requires k in keys
    ensures Occurs(Show(k), LookupSql(LookupQuery(d, InList(keys))))
  {
    var list := InList(keys);
    var i :| 0 <= i < |keys| && keys[i] == k;
    JoinMentions(ShowAll(keys), ",", i);
    OccursWithin(Show(k), LookupSelect(d) + LookupFrom(d), list, ")");
  }

  lemma LookupTextParts(select: string, from: string, list: string, sql: string)
    requires sql == select + from + list + ")"
    ensures Occurs(from, sql)
    ensures sql == select + from + (list + ")")
  {
    assert sql == select + from + (list + ")");
    OccursBetween(select, from, list + ")");
  }

  /** Reads a list of decimal numerals, all or nothing. */
  function ReadNumerals(pieces: seq<string>): Option<seq<int>>
  {
    if |pieces| == 0 then Some([])
    else
      var x :- ParseDecimal(pieces[0]);
      var rest :- ReadNumerals(pieces[1..]);
      Some([x] + rest)
  }

  /** Reads an `IN (...)` list of integer literals back into the integers. */
  function ReadInList(text: string): Option<seq<int>>
  {
    ReadNumerals(Split(text, ','))
  }

  /** The list is the rendered keys and commas only: splitting at the commas
      gives back every rendered key, in order, provided no rendering itself
      holds a comma (a string key may; an integer key never does). */
  lemma InListPieces(keys: seq<Scalar>)
    requires |keys| >= 1
    requires forall i :: 0 <= i < |keys| ==> ',' !in Show(keys[i])
    ensures Split(InList(keys), ',') == ShowAll(keys)
  {
    var texts := ShowAll(keys);
    assert forall i :: 0 <= i < |texts| ==> ',' !in texts[i];
    SplitJoin(texts, ',');
    assert [','] == ",";
  }

  lemma {:induction false} ReadShownIntegers(keys: seq<Scalar>)
    requires forall i :: 0 <= i < |keys| ==> keys[i].Int?
    ensures ReadNumerals(ShowAll(keys)).Some?
    ensures var xs := ReadNumerals(ShowAll(keys)).value;
      |xs| == |keys| && forall i :: 0 <= i < |keys| ==> keys[i] == Int(xs[i])
    decreases |keys|
  {
    if |keys| > 0 {
      ShowInt(keys[0].i);
      ReadShownIntegers(keys[1..]);
      assert ShowAll(keys)[1..] == ShowAll(keys[1..]);
      var rest := ReadNumerals(ShowAll(keys[1..])).value;
      assert ReadNumerals(ShowAll(keys)).value == [keys[0].i] + rest;
    }
  }

  /** For integer keys, the `IN (...)` list determines the keys exactly: it
      reads back as the same integers in the same order. */
  lemma InListRoundTrip(keys: seq<Scalar>)
    requires |keys| >= 1
    requires forall i :: 0 <= i < |keys| ==> keys[i].Int?
    ensures ReadInList(InList(keys)).Some?
    ensures var xs := ReadInList(InList(keys)).value;
      |xs| == |keys| && forall i :: 0 <= i < |keys| ==> keys[i] == Int(xs[i])
  {
    forall i | 0 <= i < |keys| ensures ',' !in Show(keys[i]) {
      ShowInt(keys[i].i);
    }
    InListPieces(keys);
    ReadShownIntegers(keys);
  }

  /** With no keys the list is empty, `IN ()`: it names no key at all. */
  lemma EmptyInListNamesNothing()
    ensures InList([]) == ""
    ensures ReadInList(InList([])) == None
  {
    assert Split("", ',') == [""];
  }

  /** `CONCAT(id, '+', name)` for a key found in the reference table. */
  function FoundLabel(k: Scalar, name: string): string
  {
    Show(k) + "+" + name
  }

  /** `f"未知学号({k})"` / `f"未知课程号({k})"` for a key the table lacks. */
  function FallbackLabel(d: Dim, k: Scalar): string
  {
    UnknownPrefix(d) + "(" + Show(k) + ")"
  }

  /** Runs the lookup against the reference table `reference` (id to name):
      the `{row[0]: row[1] ...}` map of found labels for the listed keys.
      MySQL rejects the empty list `IN ()`, and it rejects a list holding
      `None` (a NULL key's text) as a reference to an unknown column. */
  function FetchLabels(d: Dim, reference: map<Scalar, string>, keys: seq<Scalar>): (r: Result<map<Scalar, string>, Reason>)
    ensures r.Err? <==> |keys| == 0 || SqlNull in keys
    ensures |keys| == 0 ==> r == Err(EmptyInList(ReferenceTable(d)))
    ensures |keys| > 0 && SqlNull in keys ==> r == Err(NoneInList(ReferenceTable(d)))
    ensures r.Ok? ==> forall k :: k in r.value <==> k in reference && k in keys
  {
    if |keys| == 0 then Err(EmptyInList(ReferenceTable(d)))
    else if SqlNull in keys then Err(NoneInList(ReferenceTable(d)))
    else Ok(map k | k in reference && k in keys :: FoundLabel(k, reference[k]))
  }

  /** `info_map.get(k, fallback)`. */
  function Label(d: Dim, found: map<Scalar, string>, k: Scalar): string
  {
    if k in found then found[k] else FallbackLabel(d, k)
  }

  /** Every group key gets the reference table's label when the table has the
      key and the fallback otherwise; a missing key never raises. */
  lemma LabelChoice(d: Dim, reference: map<Scalar, string>, keys: seq<Scalar>, k: Scalar)
    requires k in keys && SqlNull !in keys
    ensures FetchLabels(d, reference, keys).Ok?
    ensures Label(d, FetchLabels(d, reference, keys).value, k)
            == if k in reference then FoundLabel(k, reference[k]) else FallbackLabel(d, k)
  {
  }

  /** For an integer key the label alone tells whether the reference table
      lacked the key: only a fallback label starts with the unknown prefix. */
  lemma FallbackRecognisable(d: Dim, reference: map<Scalar, string>, keys: seq<Scalar>, k: Scalar)
    requires k in keys && k.Int? && SqlNull !in keys
    ensures FetchLabels(d, reference, keys).Ok?
    ensures UnknownPrefix(d) <= Label(d, FetchLabels(d, reference, keys).value, k) <==> k !in reference
  {
    LabelChoice(d, reference, keys, k);
    var text := Label(d, FetchLabels(d, reference, keys).value, k);
    if k in reference {
      ShowInt(k.i);
      assert text[0] == Show(k)[0];
      assert UnknownPrefix(d)[0] == '未';
    }
  }
}
