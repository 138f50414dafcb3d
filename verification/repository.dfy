/** The data-access layer: the statements the service hands to PostgreSQL and the errors it
    passes back. Executing a statement is a parameter of the model (`exec`), an opaque sink. */
module Repository {
  import opened Wrappers
  import opened GoInt
  import opened Decimal
  import opened Domain

  /** The columns an UPDATE may set. */
  datatype Column = ServiceName | Description | ServiceTime

  function ColumnName(c: Column): string {
    match c
    case ServiceName => "service_name"
    case Description => "description"
    case ServiceTime => "service_time"
  }

  /** Where a column stands in the fixed order of the SET list. */
  function Rank(c: Column): nat {
    match c
    case ServiceName => 0
    case Description => 1
    case ServiceTime => 2
  }

  const ColumnOrder: seq<Column> := [ServiceName, Description, ServiceTime]

  /** An argument bound to a positional placeholder. */
  datatype Arg = TextArg(text: string) | TimeArg(time: Timestamp) | IdArg(id: Int64)

  /** A statement as handed to `Exec`: the SQL text and its arguments, `$k` bound to args[k - 1]. */
  datatype Statement = Statement(query: string, args: seq<Arg>)

  /** What `Exec` reports: the number of rows the statement touched, and its error. */
  datatype ExecResult = ExecResult(rowsAffected: nat, err: Option<Error>)

  /** The value an update supplies for a column, if it supplies one. */
  function FieldValue(input: UpdateService, c: Column): Option<Arg> {
    match c
    case ServiceName =>
      if input.serviceName.Some? then Some(TextArg(input.serviceName.value)) else None
    case Description =>
      if input.serviceDescription.Some? then Some(TextArg(input.serviceDescription.value)) else None
    case ServiceTime =>
      if input.serviceTime.Some? then Some(TimeArg(input.serviceTime.value)) else None
  }

  /** A column together with the value it is set to. */
  datatype Field = Field(column: Column, value: Arg)

  /** The field for column c, if the update gives c a value: zero or one field. */
  function Pick(input: UpdateService, c: Column): seq<Field> {
    match FieldValue(input, c)
    case None => []
    case Some(v) => [Field(c, v)]
  }

  /** The columns of cols the update supplies a value for, in the order of cols. */
  function Select(input: UpdateService, cols: seq<Column>): seq<Field> {
    if cols == [] then [] else Pick(input, cols[0]) + Select(input, cols[1..])
  }

  /** The fields an update sets, in the fixed column order. */
  function PresentFields(input: UpdateService): seq<Field> {
    Select(input, ColumnOrder)
  }

  /** The assignment `column=$k`. */
  function Assignment(c: Column, k: nat): string {
    ColumnName(c) + "=$" + Format(k)
  }

  /** The SET list: the k-th field (from 0) is assigned placeholder k + 1. */
  function Assignments(fields: seq<Field>): seq<string> {
    seq(|fields|, k requires 0 <= k < |fields| => Assignment(fields[k].column, k + 1))
  }

  function Values(fields: seq<Field>): seq<Arg> {
    seq(|fields|, k requires 0 <= k < |fields| => fields[k].value)
  }

  /** `strings.Join`. */
  function Join(elems: seq<string>, sep: string): string {
    if |elems| == 0 then ""
    else if |elems| == 1 then elems[0]
    else elems[0] + sep + Join(elems[1..], sep)
  }

  /** The UPDATE statement for the given fields: the WHERE placeholder follows the SET ones,
      and the id is the argument after the field values. */
  function UpdateStatement(fields: seq<Field>, id: Int64): Statement {
    Statement(
      "UPDATE service SET " + Join(Assignments(fields), ", ") + " WHERE id = $" + Format(|fields| + 1),
      Values(fields) + [IdArg(id)])
  }

  /** Selecting from the fixed order is picking column by column. */
  lemma PresentFieldsByColumn(input: UpdateService)
    ensures PresentFields(input)
         == Pick(input, ServiceName) + Pick(input, Description) + Pick(input, ServiceTime)
  {
    assert ColumnOrder[1..] == [Description, ServiceTime];
    assert [Description, ServiceTime][1..] == [ServiceTime];
    assert [ServiceTime][1..] == [];
    assert Select(input, [ServiceTime]) == Pick(input, ServiceTime) + [];
    assert Select(input, [Description, ServiceTime]) == Pick(input, Description) + Pick(input, ServiceTime);
  }

  /** The state of the builder after some fields: one assignment and one argument per field,
      and argId the next free placeholder number. */
  ghost predicate Built(fields: seq<Field>, setVals: seq<string>, args: seq<Arg>, argId: nat) {
    setVals == Assignments(fields) && args == Values(fields) && argId == |fields| + 1
  }

  lemma BuiltAppend(fields: seq<Field>, setVals: seq<string>, args: seq<Arg>, argId: nat, f: Field)
    requires Built(fields, setVals, args, argId)
    ensures Built(fields + [f], setVals + [Assignment(f.column, argId)], args + [f.value], argId + 1)
  {
    var fields' := fields + [f];
    assert forall k | 0 <= k < |fields'| :: Assignments(fields')[k] == (setVals + [Assignment(f.column, argId)])[k];
    assert forall k | 0 <= k < |fields'| :: Values(fields')[k] == (args + [f.value])[k];
  }

  /** The assignment texts as the source spells them. */
  lemma AssignmentSpelling(k: nat)
    ensures Assignment(ServiceName, k) == "service_name=$" + Format(k)
    ensures Assignment(Description, k) == "description=$" + Format(k)
    ensures Assignment(ServiceTime, k) == "service_time=$" + Format(k)
  {
  }

  /** After the builder has looked at column c: if the update supplies c, one more field. */
  lemma PickStep(input: UpdateService, c: Column, done: seq<Field>, v: Arg)
    requires FieldValue(input, c) == Some(v)
    ensures done + Pick(input, c) == done + [Field(c, v)]
  {
  }

  /** `Services.Update`: builds the SET list and the arguments field by field, numbering the
      placeholders as it goes, adds the WHERE clause on the id, and hands the statement to exec. */
  method Update(id: Int64, input: UpdateService, exec: Statement -> ExecResult)
    returns (stmt: Statement, err: Option<Error>)
    ensures stmt == UpdateStatement(PresentFields(input), id)
    ensures err == exec(stmt).err
  {
    var setVals: seq<string> := [];
    var args: seq<Arg> := [];
    var argId: nat := 1;
    // fields: the fields handled so far; Built ties setVals, args and argId to them.
    ghost var fields: seq<Field> := [];

    if input.serviceName.Some? {
      var f := Field(ServiceName, TextArg(input.serviceName.value));
      BuiltAppend(fields, setVals, args, argId, f);
      AssignmentSpelling(argId);
      setVals := setVals + ["service_name=$" + Format(argId)];
      args := args + [TextArg(input.serviceName.value)];
      argId := argId + 1;
      fields := fields + [f];
    }
    assert Built(fields, setVals, args, argId);
    assert fields == Pick(input, ServiceName);

    if input.serviceDescription.Some? {
      var f := Field(Description, TextArg(input.serviceDescription.value));
      BuiltAppend(fields, setVals, args, argId, f);
      AssignmentSpelling(argId);
      PickStep(input, Description, fields, f.value);
      setVals := setVals + ["description=$" + Format(argId)];
      args := args + [TextArg(input.serviceDescription.value)];
      argId := argId + 1;
      fields := fields + [f];
    }
    assert Built(fields, setVals, args, argId);
    assert fields == Pick(input, ServiceName) + Pick(input, Description);

    if input.serviceTime.Some? {
      var f := Field(ServiceTime, TimeArg(input.serviceTime.value));
      BuiltAppend(fields, setVals, args, argId, f);
      AssignmentSpelling(argId);
      PickStep(input, ServiceTime, fields, f.value);
      setVals := setVals + ["service_time=$" + Format(argId)];
      args := args + [TimeArg(input.serviceTime.value)];
      argId := argId + 1;
      fields := fields + [f];
    }
    assert Built(fields, setVals, args, argId);
    assert fields == PresentFields(input) by {
      PresentFieldsByColumn(input);
    }

    var setQuery := Join(setVals, ", ");
    var query := "UPDATE service SET " + setQuery + " WHERE id = $" + Format(argId);
    args := args + [IdArg(id)];
    stmt := Statement(query, args);
    err := exec(stmt).err;
  }

  lemma InTail(cols: seq<Column>, c: Column)
    requires cols != [] && c in cols[1..]
    ensures c in cols
  {
    var i :| 0 <= i < |cols[1..]| && cols[1..][i] == c;
    assert cols[i + 1] == c;
  }

  /** Select keeps the order of cols: when cols is ordered by rank, so is the selection. */
  lemma {:induction false} SelectOrdered(input: UpdateService, cols: seq<Column>)
    requires forall i, j :: 0 <= i < j < |cols| ==> Rank(cols[i]) < Rank(cols[j])
    ensures forall i, j :: 0 <= i < j < |Select(input, cols)| ==>
              Rank(Select(input, cols)[i].column) < Rank(Select(input, cols)[j].column)
  {
    if cols != [] {
      var tail := cols[1..];
      assert forall i, j :: 0 <= i < j < |tail| ==> Rank(tail[i]) < Rank(tail[j]) by {
        forall i, j | 0 <= i < j < |tail| ensures Rank(tail[i]) < Rank(tail[j]) {
          assert tail[i] == cols[i + 1] && tail[j] == cols[j + 1];
        }
      }
      SelectOrdered(input, tail);
      SelectSound(input, tail);
      var rest := Select(input, tail);
      forall k | 0 <= k < |rest| ensures Rank(cols[0]) < Rank(rest[k].column) {
        assert rest[k].column in tail;
        var i :| 0 <= i < |tail| && tail[i] == rest[k].column;
        assert tail[i] == cols[i + 1];
      }
      assert Select(input, cols) == Pick(input, cols[0]) + rest;
    }
  }

  /** Everything Select takes is a column of cols, with the value the update gives it. */
  lemma {:induction false} SelectSound(input: UpdateService, cols: seq<Column>)
    ensures forall k :: 0 <= k < |Select(input, cols)| ==>
              Select(input, cols)[k].column in cols
              && FieldValue(input, Select(input, cols)[k].column) == Some(Select(input, cols)[k].value)
  {
    if cols != [] {
      var rest := Select(input, cols[1..]);
      SelectSound(input, cols[1..]);
      forall k | 0 <= k < |rest| ensures rest[k].column in cols {
        assert rest[k].column in cols[1..];
        InTail(cols, rest[k].column);
      }
      assert Select(input, cols) == Pick(input, cols[0]) + rest;
    }
  }

  /** Select takes every column of cols the update gives a value for. */
  lemma {:induction false} SelectComplete(input: UpdateService, cols: seq<Column>, c: Column)
    requires c in cols && FieldValue(input, c).Some?
    ensures exists k :: 0 <= k < |Select(input, cols)| && Select(input, cols)[k].column == c
  {
    var sel := Select(input, cols);
    var head := Pick(input, cols[0]);
    var rest := Select(input, cols[1..]);
    assert sel == head + rest;
    if c == cols[0] {
      assert sel[0].column == c;
    } else {
      SelectComplete(input, cols[1..], c);
      var k :| 0 <= k < |rest| && rest[k].column == c;
      assert sel[|head| + k].column == c;
    }
  }

  /** What an UPDATE sets: each column the input supplies, exactly once, with the supplied value,
      in the fixed order service_name, description, service_time; a column the input leaves
      out is not set. */
  lemma PresentFieldsSpec(input: UpdateService)
    ensures var fields := PresentFields(input);
      && (forall i, j :: 0 <= i < j < |fields| ==> Rank(fields[i].column) < Rank(fields[j].column))
      && (forall k :: 0 <= k < |fields| ==> FieldValue(input, fields[k].column) == Some(fields[k].value))
      && (forall c :: FieldValue(input, c).Some? <==> exists k :: 0 <= k < |fields| && fields[k].column == c)
  {
    SelectOrdered(input, ColumnOrder);
    SelectSound(input, ColumnOrder);
    forall c | FieldValue(input, c).Some?
      ensures exists k :: 0 <= k < |PresentFields(input)| && PresentFields(input)[k].column == c
    {
      assert c == ColumnOrder[Rank(c)];
      SelectComplete(input, ColumnOrder, c);
      assert PresentFields(input) == Select(input, ColumnOrder);
    }
  }

  /** In the statement Update builds, the k-th assignment (from 0) uses placeholder k + 1 and
      that placeholder is bound to the value the input gives its column; the WHERE placeholder
      is the number of arguments, and the last argument is the id. */
  lemma UpdateBindsPlaceholders(input: UpdateService, id: Int64)
    ensures var fields := PresentFields(input);
      var stmt := UpdateStatement(fields, id);
      && |stmt.args| == |fields| + 1
      && (forall k :: 0 <= k < |fields| ==>
            Assignments(fields)[k] == Assignment(fields[k].column, k + 1)
            && FieldValue(input, fields[k].column) == Some(stmt.args[k]))
      && stmt.args[|fields|] == IdArg(id)
      && stmt.query == "UPDATE service SET " + Join(Assignments(fields), ", ") + " WHERE id = $" + Format(|stmt.args|)
  {
    PresentFieldsSpec(input);
  }

  /** An update that supplies no field still produces a statement: an empty SET list, so the
      text has two spaces between SET and WHERE, and the id is the only argument, at `$1`. */
  lemma EmptyUpdateStatement(id: Int64)
    ensures UpdateStatement(PresentFields(UpdateService(None, None, None)), id)
         == Statement("UPDATE service SET  WHERE id = $1", [IdArg(id)])
  {
    assert "UPDATE service SET " + "" + " WHERE id = $" + "1" == "UPDATE service SET  WHERE id = $1";
    var input := UpdateService(None, None, None);
    assert PresentFields(input) == [] by {
      PresentFieldsByColumn(input);
    }
    assert Format(1) == "1";
    QueryText([], id, "", "1");
  }

  /** An update of the name alone sets service_name only, at `$1`, and binds the id to `$2`. */
  lemma NameOnlyUpdateStatement(name: string, id: Int64)
    ensures UpdateStatement(PresentFields(UpdateService(Some(name), None, None)), id)
         == Statement("UPDATE service SET " + "service_name=$1" + " WHERE id = $2", [TextArg(name), IdArg(id)])
  {
    var input := UpdateService(Some(name), None, None);
    var fields := [Field(ServiceName, TextArg(name))];
    assert PresentFields(input) == fields by {
      PresentFieldsByColumn(input);
    }
    assert Assignments(fields) == ["service_name=$1"] by {
      AssignmentTexts();
    }
    assert Format(2) == "2";
    QueryText(fields, id, "service_name=$1", "2");
    assert " WHERE id = $" + "2" == " WHERE id = $2";
    assert Values(fields) == [TextArg(name)];
  }

  /** An update of all three fields sets them in the fixed order at `$1`..`$3` and binds the id to `$4`. */
  lemma FullUpdateStatement(name: string, description: string, time: Timestamp, id: Int64)
    ensures UpdateStatement(PresentFields(UpdateService(Some(name), Some(description), Some(time))), id)
         == Statement("UPDATE service SET " + ("service_name=$1" + ", " + "description=$2" + ", " + "service_time=$3") + " WHERE id = $4",
                      [TextArg(name), TextArg(description), TimeArg(time), IdArg(id)])
  {
    assert " WHERE id = $" + "4" == " WHERE id = $4";
    var input := UpdateService(Some(name), Some(description), Some(time));
    var fields := [Field(ServiceName, TextArg(name)), Field(Description, TextArg(description)), Field(ServiceTime, TimeArg(time))];
    assert PresentFields(input) == fields by {
      PresentFieldsByColumn(input);
    }
    assert Assignments(fields) == ["service_name=$1", "description=$2", "service_time=$3"] by {
      AssignmentTexts();
    }
    JoinThree("service_name=$1", "description=$2", "service_time=$3", ", ");
    assert Format(4) == "4";
    QueryText(fields, id, "service_name=$1" + ", " + "description=$2" + ", " + "service_time=$3", "4");
    assert Values(fields) == [TextArg(name), TextArg(description), TimeArg(time)];
  }

  lemma AssignmentTexts()
    ensures Assignment(ServiceName, 1) == "service_name=$1"
    ensures Assignment(Description, 2) == "description=$2"
    ensures Assignment(ServiceTime, 3) == "service_time=$3"
  {
    assert Format(1) == "1" && Format(2) == "2" && Format(3) == "3";
  }

  lemma JoinThree(a: string, b: string, c: string, sep: string)
    ensures Join([a, b, c], sep) == a + sep + b + sep + c
  {
    assert [a, b, c][1..] == [b, c];
    assert [b, c][1..] == [c];
    assert Join([c], sep) == c;
    assert Join([b, c], sep) == b + sep + c;
  }

  lemma QueryText(fields: seq<Field>, id: Int64, setText: string, idText: string)
    requires Join(Assignments(fields), ", ") == setText && Format(|fields| + 1) == idText
    ensures UpdateStatement(fields, id).query == "UPDATE service SET " + setText + " WHERE id = $" + idText
  {
  }

  /** `GetByID` and `Delete` report a store error that is (or wraps) `sql.ErrNoRows` as
      `ErrServiceNotFound`, and pass every other error, and nil, through unchanged. */
  function NotFoundFromNoRows(err: Option<Error>): (r: Option<Error>)
    ensures err.Some? && Is(err.value, ErrNoRows) ==> r == Some(ErrServiceNotFound)
    ensures !(err.Some? && Is(err.value, ErrNoRows)) ==> r == err
    ensures r.Some? ==> !Is(r.value, ErrNoRows)
    ensures r.None? <==> err.None?
  {
    if err.Some? && Is(err.value, ErrNoRows) then Some(ErrServiceNotFound) else err
  }

  /** What `GetByID` returns: the scanned row and the translated error. */
  datatype Lookup = Lookup(service: Service, err: Option<Error>)

  /** `Services.GetByID`, given the outcome of scanning the selected row. */
  function GetByID(scanned: Service, scanErr: Option<Error>): (r: Lookup)
    ensures r.service == scanned
    ensures r.err.Some? && Is(r.err.value, ErrServiceNotFound)
        <==> scanErr.Some? && (Is(scanErr.value, ErrNoRows) || Is(scanErr.value, ErrServiceNotFound))
    ensures r.err.None? <==> scanErr.None?
  {
    Lookup(scanned, NotFoundFromNoRows(scanErr))
  }

  /** `Services.Delete`, given what `Exec` reported for the DELETE statement. The number of rows
      affected is not looked at: deleting an id that has no row succeeds. */
  function Delete(result: ExecResult): (r: Option<Error>)
    ensures r.None? <==> result.err.None?
    ensures r.Some? ==> !Is(r.value, ErrNoRows)
  {
    NotFoundFromNoRows(result.err)
  }
}
