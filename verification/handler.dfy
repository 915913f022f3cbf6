/** The `/submit_statistics` handler (backend/app.py lines 72-163) with the
    database as an input: what it answers and which statements it sends.
    `Handle` follows the code as written; `HandleCorrected` repairs the two
    defects listed under Findings in README.md and is otherwise the same. */
module Handler {
  import opened Outcomes
  import opened Text
  import opened Values
  import opened Errors
  import opened Requests
  import opened Aggregation
  import opened Labels
  import opened Assembly

  /** What the database answers: the rows (or the error) for the step-1
      statement, and the student and class reference tables, id to name. */
  datatype Database<S> = Database(
    step1: Result<seq<Row<S>>, string>,
    students: map<Scalar, string>,
    classes: map<Scalar, string>)

  function Reference<S>(db: Database<S>, d: Dim): map<Scalar, string>
  {
    match d
    case Student => db.students
    case Class => db.classes
  }

  /** The HTTP answer. */
  datatype Response<S> =
    /** `{"code": 0, "data": {"labels": …, "values": …}}` */
    | Success(data: Series<S>)
    /** `{"code": -1, "msg": …}` */
    | Failure(reason: Reason)
    /** An exception escaped the handler: a server error, no JSON envelope. */
    | Crash(reason: Reason)

  /** A statement sent to the database. */
  datatype Issued = AggregateQuery(statement: Statement) | LabelQuery(query: LookupQuery)

  /** The answer together with the statements sent, in order. */
  datatype Exchange<S> = Exchange(response: Response<S>, issued: seq<Issued>)

  /** How the rows will be labelled, and the statements issued to find out. */
  datatype LabelStep = LabelStep(labeller: Result<Labeller, Reason>, issued: seq<Issued>)

  /** Lines 107-131 as written: a dimension always issues its lookup, which
      the database rejects for an empty list or a NULL key. */
  function Labelling<S>(g: Grouping, db: Database<S>, keys: seq<Scalar>): (step: LabelStep)
    ensures step.labeller.Err? <==> g.ByDimension? && (|keys| == 0 || SqlNull in keys)
    ensures |step.issued| == if g.ByDimension? then 1 else 0
  {
    match g
    case Ungrouped => LabelStep(Ok(Overall), [])
    case ByOther(c) => LabelStep(Ok(Unassigned(c)), [])
    case ByDimension(d) =>
      var lookup := [LabelQuery(LookupQuery(d, InList(keys)))];
      match FetchLabels(d, Reference(db, d), keys)
      case Err(e) => LabelStep(Err(e), lookup)
      case Ok(found) => LabelStep(Ok(Lookup(d, found)), lookup)
  }

  /** Lines 107-131 with the empty key list guarded: no keys, no lookup. A
      NULL key still makes the lookup fail, as in the code. */
  function LabellingCorrected<S>(g: Grouping, db: Database<S>, keys: seq<Scalar>): (step: LabelStep)
    ensures step.labeller.Err? <==> g.ByDimension? && SqlNull in keys
    ensures |step.issued| == if g.ByDimension? && |keys| > 0 then 1 else 0
  {
    if g.ByDimension? && |keys| == 0 then LabelStep(Ok(Lookup(g.dim, map[])), [])
    else Labelling(g, db, keys)
  }

  /** Assembles the rows under a label step and wraps the outcome. */
  function Complete<S>(rows: seq<Row<S>>, step: LabelStep, sent: seq<Issued>): Exchange<S>
  {
    var issued := sent + step.issued;
    match step.labeller
    case Err(e) => Exchange(Failure(e), issued)
    case Ok(lab) =>
      match Assemble(rows, lab)
      case Err(e) => Exchange(Failure(e), issued)
      case Ok(series) => Exchange(Success(series), issued)
  }

  /** Lines 85-157 once connected: the step-1 statement, then labelling and assembly. */
  function Run<S>(req: Request, db: Database<S>): Exchange<S>
  {
    var sent := [AggregateQuery(ComposeAggregate(req))];
    match db.step1
    case Err(m) => Exchange(Failure(StatementFailed(m)), sent)
    case Ok(rows) => Complete(rows, Labelling(Classify(req.group), db, GroupKeys(rows)), sent)
  }

  function RunCorrected<S>(req: Request, db: Database<S>): Exchange<S>
  {
    var sent := [AggregateQuery(ComposeAggregate(req))];
    match db.step1
    case Err(m) => Exchange(Failure(StatementFailed(m)), sent)
    case Ok(rows) => Complete(rows, LabellingCorrected(Classify(req.group), db, GroupKeys(rows)), sent)
  }

  /** The handler as written. `conn` is `None` when connecting fails. A
      missing request field raises before `conn` is assigned, so the
      `finally` clause's `if conn:` raises in turn and the error escapes. */
  function Handle<S>(body: Body, conn: Option<Database<S>>): (r: Exchange<S>)
    ensures r.response.Crash? <==> ParseRequest(body).Err?
    ensures r.response.Success? ==> |r.response.data.labels| == |r.response.data.values|
  {
    match ParseRequest(body)
    case Err(_) => Exchange(Crash(ConnUnassigned), [])
    case Ok(req) =>
      match conn
      case None => Exchange(Failure(ConnectFailed), [])
      case Some(db) => Run(req, db)
  }

  /** The handler with both defects repaired: a missing field is answered
      with `code: -1`, and an empty key list skips the lookup. */
  function HandleCorrected<S>(body: Body, conn: Option<Database<S>>): (r: Exchange<S>)
    ensures !r.response.Crash?
    ensures r.response.Success? ==> |r.response.data.labels| == |r.response.data.values|
  {
    match ParseRequest(body)
    case Err(e) => Exchange(Failure(e), [])
    case Ok(req) =>
      match conn
      case None => Exchange(Failure(ConnectFailed), [])
      case Some(db) => RunCorrected(req, db)
  }

  // ---------------------------------------------------------------------
  // Properties of the handler as written

  /** A success answer only comes from a parsed request whose step-1
      statement succeeded, and it has one label and one value per row,
      the values being the rows' statistics in row order. */
  lemma SuccessAligned<S>(body: Body, conn: Option<Database<S>>)
    requires Handle(body, conn).response.Success?
    ensures ParseRequest(body).Ok? && conn.Some? && conn.value.step1.Ok?
    ensures var rows := conn.value.step1.value;
      var data := Handle(body, conn).response.data;
      && |data.labels| == |rows| && |data.values| == |rows|
      && forall i :: 0 <= i < |rows| ==> data.values[i] == rows[i].stat
  {
  }

  /** Without a group column every row is labelled "总统计", and the request
      succeeds whatever the rows are. */
  lemma UngroupedLabels<S>(body: Body, db: Database<S>)
    requires ParseRequest(body).Ok? && !Truthy(ParseRequest(body).value.group)
    requires db.step1.Ok?
    ensures Handle(body, Some(db)).response.Success?
    ensures var data := Handle(body, Some(db)).response.data;
      |data.labels| == |db.step1.value| && forall i :: 0 <= i < |data.labels| ==> data.labels[i] == OverallLabel
  {
    var rows := db.step1.value;
    var data := Handle(body, Some(db)).response.data;
    forall i | 0 <= i < |data.labels| ensures data.labels[i] == OverallLabel {
      assert RowLabel(Overall, rows[i].key) == Ok(data.labels[i]);
    }
  }

  /** Grouped by `student_id` or `class_id` with at least one row and no
      NULL key, the request succeeds and each row is labelled from its own key: the
      reference table's `<key>+<name>` when the table has the key, the
      fallback `未知学号(<key>)` / `未知课程号(<key>)` otherwise. */
  lemma DimensionLabels<S>(body: Body, db: Database<S>, d: Dim)
    requires ParseRequest(body).Ok? && ParseRequest(body).value.group == Text(IdColumn(d))
    requires db.step1.Ok? && |db.step1.value| > 0
    requires forall i :: 0 <= i < |db.step1.value| ==> db.step1.value[i].key != SqlNull
    ensures Handle(body, Some(db)).response.Success?
    ensures var rows := db.step1.value;
      var data := Handle(body, Some(db)).response.data;
      var table := Reference(db, d);
      |data.labels| == |rows| &&
      forall i :: 0 <= i < |rows| ==>
        data.labels[i] == if rows[i].key in table then FoundLabel(rows[i].key, table[rows[i].key])
                          else FallbackLabel(d, rows[i].key)
  {
    var rows := db.step1.value;
    var keys := GroupKeys(rows);
    var table := Reference(db, d);
    assert Classify(Text(IdColumn(d))) == ByDimension(d);
    assert SqlNull !in keys;
    var found := FetchLabels(d, table, keys).value;
    var data := Handle(body, Some(db)).response.data;
    forall i | 0 <= i < |rows|
      ensures data.labels[i] == if rows[i].key in table then FoundLabel(rows[i].key, table[rows[i].key])
                                else FallbackLabel(d, rows[i].key)
    {
      assert RowLabel(Lookup(d, found), rows[i].key) == Ok(data.labels[i]);
      assert keys[i] == rows[i].key;
      LabelChoice(d, table, keys, rows[i].key);
    }
  }

  /** Grouped by `student_id` or `class_id`, a single NULL group key is
      rendered `None` inside the lookup's `IN (...)` list; the database
      rejects the lookup and the answer is `code: -1`. The corrected handler
      answers the same. */
  lemma NullKeyFails<S>(body: Body, db: Database<S>, d: Dim, i: nat)
    requires ParseRequest(body).Ok? && ParseRequest(body).value.group == Text(IdColumn(d))
    requires db.step1.Ok? && i < |db.step1.value| && db.step1.value[i].key == SqlNull
    ensures Handle(body, Some(db)).response == Failure(NoneInList(ReferenceTable(d)))
    ensures |Handle(body, Some(db)).issued| == 2
    ensures Handle(body, Some(db)).issued[1].LabelQuery?
    ensures Occurs("None", LookupSql(Handle(body, Some(db)).issued[1].query))
    ensures HandleCorrected(body, Some(db)) == Handle(body, Some(db))
  {
    var keys := GroupKeys(db.step1.value);
    assert Classify(Text(IdColumn(d))) == ByDimension(d);
    assert keys[i] == SqlNull;
    LookupNamesKeys(d, keys, SqlNull);
  }

  /** Grouped by any other truthy column, a single row is enough to read the
      unassigned `label`: the answer is `code: -1`. With no rows the loop
      never runs and the answer is a success with empty series. */
  lemma OtherColumn<S>(body: Body, db: Database<S>)
    requires ParseRequest(body).Ok? && Classify(ParseRequest(body).value.group).ByOther?
    requires db.step1.Ok?
    ensures var g := ParseRequest(body).value.group;
      Handle(body, Some(db)).response ==
        if |db.step1.value| == 0 then Success(Series([], []))
        else Failure(LabelUnassigned(Splice(g)))
  {
  }

  /** A database error on the step-1 statement ends the request with
      `code: -1` after that one statement. */
  lemma StatementErrorAborts<S>(body: Body, db: Database<S>)
    requires ParseRequest(body).Ok? && db.step1.Err?
    ensures Handle(body, Some(db)) == Exchange(Failure(StatementFailed(db.step1.error)),
                                               [AggregateQuery(ComposeAggregate(ParseRequest(body).value))])
  {
  }

  /** The statements sent: none unless the request parses and the connection
      succeeds; then the composed step-1 statement first; then a lookup
      exactly when step 1 succeeded and the group column is `student_id`
      or `class_id`, listing the rows' group keys in row order. */
  lemma IssuedStatements<S>(body: Body, conn: Option<Database<S>>)
    ensures var issued := Handle(body, conn).issued;
      && (ParseRequest(body).Err? || conn.None? ==> issued == [])
      && (ParseRequest(body).Ok? && conn.Some? ==>
            var req := ParseRequest(body).value;
            var db := conn.value;
            && 1 <= |issued| <= 2
            && issued[0] == AggregateQuery(ComposeAggregate(req))
            && (|issued| == 2 <==> db.step1.Ok? && Classify(req.group).ByDimension?)
            && (|issued| == 2 ==>
                  issued[1] == LabelQuery(LookupQuery(Classify(req.group).dim, InList(GroupKeys(db.step1.value))))))
  {
  }

  // ---------------------------------------------------------------------
  // The two defects, as written and corrected

  /** As written: a body without one of the four fields makes the handler
      crash instead of answering `code: -1`, and no statement is sent. */
  lemma MissingFieldCrashes<S>(body: Body, conn: Option<Database<S>>)
    requires ParseRequest(body).Err?
    ensures Handle(body, conn) == Exchange(Crash(ConnUnassigned), [])
  {
  }

  /** Corrected: the handler never crashes; a missing field is answered with
      `code: -1` naming the field, before any statement is sent. */
  lemma CorrectedNeverCrashes<S>(body: Body, conn: Option<Database<S>>)
    ensures !HandleCorrected(body, conn).response.Crash?
    ensures ParseRequest(body).Err? ==>
      HandleCorrected(body, conn) == Exchange(Failure(ParseRequest(body).error), [])
      && ParseRequest(body).error.MissingField?
  {
  }

  /** As written: grouped by `student_id` or `class_id` over a table with no
      rows, the lookup is sent with `IN ()` and the request fails. */
  lemma EmptyGroupFails<S>(body: Body, db: Database<S>, d: Dim)
    requires ParseRequest(body).Ok? && ParseRequest(body).value.group == Text(IdColumn(d))
    requires db.step1 == Ok([])
    ensures Handle(body, Some(db)).response == Failure(EmptyInList(ReferenceTable(d)))
    ensures Handle(body, Some(db)).issued[1] == LabelQuery(LookupQuery(d, ""))
  {
    assert Classify(Text(IdColumn(d))) == ByDimension(d);
    EmptyInListNamesNothing();
  }

  /** Corrected: the same request succeeds with empty series and sends only
      the step-1 statement. */
  lemma CorrectedEmptyGroupSucceeds<S>(body: Body, db: Database<S>, d: Dim)
    requires ParseRequest(body).Ok? && ParseRequest(body).value.group == Text(IdColumn(d))
    requires db.step1 == Ok([])
    ensures HandleCorrected(body, Some(db)) ==
      Exchange(Success(Series([], [])), [AggregateQuery(ComposeAggregate(ParseRequest(body).value))])
  {
    assert Classify(Text(IdColumn(d))) == ByDimension(d);
  }

  /** Away from the two defects the corrected handler answers exactly as the
      code does and sends the same statements. */
  lemma CorrectedAgreesElsewhere<S>(body: Body, conn: Option<Database<S>>)
    requires ParseRequest(body).Ok?
    requires conn.Some? && conn.value.step1.Ok? && Classify(ParseRequest(body).value.group).ByDimension?
             ==> |conn.value.step1.value| > 0
    ensures HandleCorrected(body, conn) == Handle(body, conn)
  {
  }

  // ---------------------------------------------------------------------
  // Worked examples

  /** Average score per student; student 3 is missing from `student_info`. */
  lemma ScoresByStudent(body: Body, db: Database<real>)
    requires body == map[TableKey := Text("scores"), ColumnKey := Text("score"),
                         FunctionKey := Text("avg"), GroupKey := Text("student_id")]
    requires db == Database(Ok([Row(88.5, Int(1)), Row(91.0, Int(2)), Row(70.0, Int(3))]),
                            map[Int(1) := "Alice", Int(2) := "Bob"], map[])
    ensures Handle(body, Some(db)).response.Success?
    ensures Handle(body, Some(db)).response.data.labels == ["1+Alice", "2+Bob", "未知学号(3)"]
    ensures Handle(body, Some(db)).response.data.values == [88.5, 91.0, 70.0]
  {
    assert ParseRequest(body).Ok? && ParseRequest(body).value.group == Text("student_id");
    ScoresLabels(body, db);
    ScoresValues(body, db);
  }

  lemma ScoresLabels(body: Body, db: Database<real>)
    requires ParseRequest(body).Ok? && ParseRequest(body).value.group == Text("student_id")
    requires db.step1 == Ok([Row(88.5, Int(1)), Row(91.0, Int(2)), Row(70.0, Int(3))])
    requires db.students == map[Int(1) := "Alice", Int(2) := "Bob"]
    ensures Handle(body, Some(db)).response.Success?
    ensures Handle(body, Some(db)).response.data.labels == ["1+Alice", "2+Bob", "未知学号(3)"]
  {
    DimensionLabels(body, db, Student);
    ExampleLabelList(Handle(body, Some(db)).response.data.labels, db.step1.value, db.students);
  }

  lemma ExampleLabelList(labels: seq<string>, rows: seq<Row<real>>, table: map<Scalar, string>)
    requires rows == [Row(88.5, Int(1)), Row(91.0, Int(2)), Row(70.0, Int(3))]
    requires table == map[Int(1) := "Alice", Int(2) := "Bob"]
    requires |labels| == |rows|
    requires forall i :: 0 <= i < |rows| ==>
      labels[i] == if rows[i].key in table then FoundLabel(rows[i].key, table[rows[i].key])
                   else FallbackLabel(Student, rows[i].key)
    ensures labels == ["1+Alice", "2+Bob", "未知学号(3)"]
  {
    assert rows[0].key == Int(1) && rows[1].key == Int(2) && rows[2].key == Int(3);
    assert Int(1) in table && table[Int(1)] == "Alice";
    assert Int(2) in table && table[Int(2)] == "Bob";
    assert Int(3) !in table;
    ExampleLabelsShown();
  }

  lemma ScoresValues(body: Body, db: Database<real>)
    requires ParseRequest(body).Ok? && ParseRequest(body).value.group == Text("student_id")
    requires db.step1 == Ok([Row(88.5, Int(1)), Row(91.0, Int(2)), Row(70.0, Int(3))])
    requires Handle(body, Some(db)).response.Success?
    ensures Handle(body, Some(db)).response.data.values == [88.5, 91.0, 70.0]
  {
    SuccessAligned(body, Some(db));
  }

  /** A total without grouping: one row, labelled "总统计". */
  lemma TotalWithoutGrouping(body: Body, db: Database<int>)
    requires body == map[TableKey := Text("scores"), ColumnKey := Text("score"),
                         FunctionKey := Text("sum"), GroupKey := Null]
    requires db == Database(Ok([Row(452, SqlNull)]), map[], map[])
    ensures Handle(body, Some(db)).response.Success?
    ensures Handle(body, Some(db)).response.data.labels == ["总统计"]
    ensures Handle(body, Some(db)).response.data.values == [452]
  {
    assert ParseRequest(body) == Ok(Request(Text("scores"), Text("score"), Text("sum"), Null));
    UngroupedLabels(body, db);
    SuccessAligned(body, Some(db));
  }

  lemma ExampleLabelsShown()
    ensures FoundLabel(Int(1), "Alice") == "1+Alice"
    ensures FoundLabel(Int(2), "Bob") == "2+Bob"
    ensures FallbackLabel(Student, Int(3)) == "未知学号(3)"
  {
  }
}
