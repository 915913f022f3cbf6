/** The step-1 statement of `submit_statistics` (backend/app.py lines 87-101):
    an aggregate over one column of one table, optionally grouped. The text is
    modelled as a sequence of clauses with a normalised rendering; the
    source's whitespace and line breaks are not modelled. */
module Aggregation {
  import opened Outcomes
  import opened Text
  import opened Requests

  datatype Clause =
    /** `SELECT f(c) as stat_value` */
    | Select(aggregate: string, column: string)
    /** `, g`: the group column projected beside the statistic */
    | Project(column: string)
    /** `FROM t` */
    | From(table: string)
    /** `GROUP BY g` */
    | GroupBy(column: string)

  type Statement = seq<Clause>

  /** The shape of a well-formed step-1 statement: the identifiers it names,
      and its group column when it groups. */
  datatype Shape = Shape(aggregate: string, column: string, table: string, group: Option<string>)

  /** Recognises the two step-1 shapes: `SELECT … FROM t`, and
      `SELECT …, g FROM t GROUP BY g` whose projected and grouped columns agree. */
  function ReadShape(s: Statement): Option<Shape>
  {
    if |s| == 2 && s[0].Select? && s[1].From? then
      Some(Shape(s[0].aggregate, s[0].column, s[1].table, None))
    else if |s| == 4 && s[0].Select? && s[1].Project? && s[2].From? && s[3].GroupBy?
         && s[1].column == s[3].column then
      Some(Shape(s[0].aggregate, s[0].column, s[2].table, Some(s[1].column)))
    else None
  }

  /** The shape a request asks for: every identifier spliced verbatim, and a
      group column exactly when the request's group field is truthy. */
  function RequestedShape(req: Request): Shape
  {
    Shape(Splice(req.aggregate), Splice(req.column), Splice(req.table),
          if Truthy(req.group) then Some(Splice(req.group)) else None)
  }

  /** Builds the step-1 statement clause by clause, as the handler appends to
      `sql_step1`. The caller's identifiers are used unvalidated. */
  function ComposeAggregate(req: Request): (s: Statement)
    ensures ReadShape(s) == Some(RequestedShape(req))
    ensures (exists i :: 0 <= i < |s| && s[i].Project?) <==> Truthy(req.group)
    ensures (exists i :: 0 <= i < |s| && s[i].GroupBy?) <==> Truthy(req.group)
    ensures forall i :: 0 <= i < |s| && (s[i].Project? || s[i].GroupBy?) ==> s[i].column == Splice(req.group)
  {
    var head := [Select(Splice(req.aggregate), Splice(req.column))];
    var projected := if Truthy(req.group) then head + [Project(Splice(req.group))] else head;
    var from := projected + [From(Splice(req.table))];
    if Truthy(req.group) then from + [GroupBy(Splice(req.group))] else from
  }

  function ClauseSql(c: Clause): string
  {
    match c
    case Select(f, col) => "SELECT " + f + "(" + col + ") as stat_value"
    case Project(g) => ", " + g
    case From(t) => " FROM " + t
    case GroupBy(g) => " GROUP BY " + g
  }

  /** Normalised SQL text of a statement: its clauses in order. */
  function Sql(s: Statement): string
  {
    if |s| == 0 then "" else ClauseSql(s[0]) + Sql(s[1..])
  }

  lemma SqlOfPair(a: Clause, b: Clause)
    ensures Sql([a, b]) == ClauseSql(a) + ClauseSql(b)
  {
    assert [a, b][1..] == [b];
    assert [b][1..] == [];
    assert Sql([b]) == ClauseSql(b) + Sql([]);
  }

  lemma SqlOfFour(a: Clause, b: Clause, c: Clause, d: Clause)
    ensures Sql([a, b, c, d]) == ClauseSql(a) + ClauseSql(b) + (ClauseSql(c) + ClauseSql(d))
  {
    assert [a, b, c, d][1..] == [b, c, d];
    assert [b, c, d][1..] == [c, d];
    SqlOfPair(c, d);
  }

  /** The select clause names the aggregate function and the statistic column verbatim. */
  lemma SelectMentions(f: string, c: string)
    ensures Occurs(f, ClauseSql(Select(f, c))) && Occurs(c, ClauseSql(Select(f, c)))
  {
    var sel := ClauseSql(Select(f, c));
    assert sel == "SELECT " + f + ("(" + c + ") as stat_value");
    OccursBetween("SELECT ", f, "(" + c + ") as stat_value");
    assert sel == ("SELECT " + f + "(") + c + ") as stat_value";
    OccursBetween("SELECT " + f + "(", c, ") as stat_value");
  }

  /** The composed text is the select clause, the projected group column when
      grouping, the from clause and the group-by clause when grouping, in that
      order; every identifier of the request occurs in it exactly as sent. */
  lemma StatementText(req: Request)
    ensures var text := Sql(ComposeAggregate(req));
      && text == ClauseSql(Select(Splice(req.aggregate), Splice(req.column)))
                 + (if Truthy(req.group) then ClauseSql(Project(Splice(req.group))) else "")
                 + ClauseSql(From(Splice(req.table)))
                 + (if Truthy(req.group) then ClauseSql(GroupBy(Splice(req.group))) else "")
      && Occurs(Splice(req.aggregate), text)
      && Occurs(Splice(req.column), text)
      && Occurs(Splice(req.table), text)
      && (Truthy(req.group) ==> Occurs(Splice(req.group), text))
  {
    if Truthy(req.group) {
      GroupedText(req);
    } else {
      UngroupedText(req);
    }
  }

  lemma GroupedText(req: Request)
    requires Truthy(req.group)
    ensures var text := Sql(ComposeAggregate(req));
      && text == ClauseSql(Select(Splice(req.aggregate), Splice(req.column)))
                 + ClauseSql(Project(Splice(req.group)))
                 + ClauseSql(From(Splice(req.table)))
                 + ClauseSql(GroupBy(Splice(req.group)))
      && Occurs(Splice(req.aggregate), text)
      && Occurs(Splice(req.column), text)
      && Occurs(Splice(req.table), text)
      && Occurs(Splice(req.group), text)
  {
    var f, c, t, g := Splice(req.aggregate), Splice(req.column), Splice(req.table), Splice(req.group);
    GroupedClauses(req);
    SqlOfFour(Select(f, c), Project(g), From(t), GroupBy(g));
    GroupedMentions(f, c, g, t);
  }

  lemma GroupedClauses(req: Request)
    requires Truthy(req.group)
    ensures ComposeAggregate(req) == [Select(Splice(req.aggregate), Splice(req.column)),
      Project(Splice(req.group)), From(Splice(req.table)), GroupBy(Splice(req.group))]
  {
  }

  lemma UngroupedText(req: Request)
    requires !Truthy(req.group)
    ensures var text := Sql(ComposeAggregate(req));
      && text == ClauseSql(Select(Splice(req.aggregate), Splice(req.column)))
                 + ClauseSql(From(Splice(req.table)))
      && Occurs(Splice(req.aggregate), text)
      && Occurs(Splice(req.column), text)
      && Occurs(Splice(req.table), text)
  {
    var f, c, t := Splice(req.aggregate), Splice(req.column), Splice(req.table);
    UngroupedClauses(req);
    SqlOfPair(Select(f, c), From(t));
    UngroupedMentions(f, c, t);
  }

  lemma UngroupedClauses(req: Request)
    requires !Truthy(req.group)
    ensures ComposeAggregate(req) == [Select(Splice(req.aggregate), Splice(req.column)), From(Splice(req.table))]
  {
  }

  lemma UngroupedMentions(f: string, c: string, t: string)
    ensures var text := ClauseSql(Select(f, c)) + ClauseSql(From(t));
      Occurs(f, text) && Occurs(c, text) && Occurs(t, text)
  {
    SelectMentionsBefore(f, c, ClauseSql(From(t)));
    TableMention(ClauseSql(Select(f, c)), t);
  }

  lemma TableMention(sel: string, t: string)
    ensures Occurs(t, sel + ClauseSql(From(t)))
  {
    assert ClauseSql(From(t)) == " FROM " + t;
    OccursBetween(sel + " FROM ", t, "");
    assert sel + " FROM " + t + "" == sel + ClauseSql(From(t));
  }

  lemma GroupedMentions(f: string, c: string, g: string, t: string)
    ensures var text := ClauseSql(Select(f, c)) + ClauseSql(Project(g)) + (ClauseSql(From(t)) + ClauseSql(GroupBy(g)));
      Occurs(f, text) && Occurs(c, text) && Occurs(g, text) && Occurs(t, text)
  {
    var sel, rest := ClauseSql(Select(f, c)), ClauseSql(Project(g)) + (ClauseSql(From(t)) + ClauseSql(GroupBy(g)));
    SelectMentionsBefore(f, c, rest);
    assert sel + rest == sel + ClauseSql(Project(g)) + (ClauseSql(From(t)) + ClauseSql(GroupBy(g)));
    MentionsAfterSelect(sel, g, t);
  }

  lemma SelectMentionsBefore(f: string, c: string, rest: string)
    ensures Occurs(f, ClauseSql(Select(f, c)) + rest) && Occurs(c, ClauseSql(Select(f, c)) + rest)
  {
    SelectMentions(f, c);
    OccursPrefix(f, ClauseSql(Select(f, c)), rest);
    OccursPrefix(c, ClauseSql(Select(f, c)), rest);
  }

  lemma MentionsAfterSelect(sel: string, g: string, t: string)
    ensures Occurs(g, sel + ClauseSql(Project(g)) + (ClauseSql(From(t)) + ClauseSql(GroupBy(g))))
    ensures Occurs(t, sel + ClauseSql(Project(g)) + (ClauseSql(From(t)) + ClauseSql(GroupBy(g))))
  {
    var proj, from, grp := ClauseSql(Project(g)), ClauseSql(From(t)), ClauseSql(GroupBy(g));
    var text := sel + proj + (from + grp);
    assert proj == ", " + g;
    assert text == (sel + ", ") + g + (from + grp);
    OccursBetween(sel + ", ", g, from + grp);
    assert from == " FROM " + t;
    assert text == (sel + proj + " FROM ") + t + grp;
    OccursBetween(sel + proj + " FROM ", t, grp);
  }

  /** Nothing stands between the request and the statement text: a table
      field carrying a second statement is spliced into the text as is. */
  lemma InjectedTableReachesText()
    ensures var req := Request(Text("scores; DROP TABLE scores"), Text("score"), Text("avg"), Null);
      Occurs("scores; DROP TABLE scores", Sql(ComposeAggregate(req)))
  {
    StatementText(Request(Text("scores; DROP TABLE scores"), Text("score"), Text("avg"), Null));
  }
}
