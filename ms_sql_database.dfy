/** The provider (MsSqlDatabase): the INSERT, UPDATE and DELETE statements it builds
    for an entity, the command it binds their parameters to, and the entities it maps
    the returned rows to. What the server does with a command is not modelled: the
    rows it returns are an input. */
module MsSqlDatabase {
  import opened Wrappers
  import opened Strings
  import opened Data
  import opened Expressions
  import opened SqlGeneration
  import SqlGenerationProperties

  /** A statement: its text and its parameters, in binding order. */
  datatype Statement = Statement(text: string, parameters: seq<Parameter>)

  /** A text query with its parameters. */
  datatype Query = Query(command: string, parameters: seq<Parameter>)

  /** A parameter as bound to a command by AddWithValue. */
  datatype SqlParameter = SqlParameter(parameterName: string, value: Value)

  /** A field of a result row: the column's name and type and the value read, which is
      DbNull when the column is NULL in that row. */
  datatype Field = Field(name: string, fieldType: ClrType, value: Value)

  type Row = seq<Field>

  // ---------------------------------------------------------------- statement builders

  /** `Where(p => ...)`: the names not in `excluded`, in their order. */
  function Keep(names: seq<string>, excluded: set<string>): (r: seq<string>)
    decreases |names|
    ensures |r| <= |names|
    ensures forall x :: x in r <==> x in names && x !in excluded
  {
    if names == [] then []
    else (if names[0] in excluded then [] else [names[0]]) + Keep(names[1..], excluded)
  }

  /** Filtering distributes over concatenation, so the kept names keep their order. */
  lemma {:induction false} KeepAppend(a: seq<string>, b: seq<string>, excluded: set<string>)
    ensures Keep(a + b, excluded) == Keep(a, excluded) + Keep(b, excluded)
    decreases |a|
  {
    if a == [] {
      assert a + b == b;
    } else {
      assert (a + b)[1..] == a[1..] + b;
      KeepAppend(a[1..], b, excluded);
    }
  }

  /** Update's names are Create's with UId removed as well. */
  lemma {:induction false} KeepTwice(names: seq<string>, first: set<string>, second: set<string>)
    ensures Keep(Keep(names, first), second) == Keep(names, first + second)
    decreases |names|
  {
    if names != [] {
      var head := if names[0] in first then [] else [names[0]];
      KeepAppend(head, Keep(names[1..], first), second);
      KeepTwice(names[1..], first, second);
    }
  }

  /** Filtering out one name drops exactly its occurrences. */
  lemma {:induction false} KeepCountOne(names: seq<string>, a: string)
    ensures |Keep(names, {a})| == |names| - multiset(names)[a]
    decreases |names|
  {
    if names != [] {
      assert names == [names[0]] + names[1..];
      assert multiset(names) == multiset([names[0]]) + multiset(names[1..]);
      KeepCountOne(names[1..], a);
    }
  }

  /** Filtering out two different names drops exactly their occurrences. */
  lemma {:induction false} KeepCountTwo(names: seq<string>, a: string, b: string)
    requires a != b
    ensures |Keep(names, {a, b})| == |names| - multiset(names)[a] - multiset(names)[b]
    decreases |names|
  {
    if names != [] {
      assert names == [names[0]] + names[1..];
      assert multiset(names) == multiset([names[0]]) + multiset(names[1..]);
      KeepCountTwo(names[1..], a, b);
    }
  }

  /** The ordinal parameter name `"@" + i`. */
  function Marker(i: nat): string {
    "@" + NatToString(i)
  }

  /** `string.Format("{0}.[{1}]", tableName, p)`. */
  function Column(table: string, p: string): string {
    table + ".[" + p + "]"
  }

  function Columns(table: string, names: seq<string>): seq<string> {
    seq(|names|, i requires 0 <= i < |names| => Column(table, names[i]))
  }

  function Names(ps: seq<Parameter>): seq<string> {
    seq(|ps|, i requires 0 <= i < |ps| => ps[i].name)
  }

  /** `Select((p, i) => new Parameter("@" + i, entity[p]))`. */
  function OrdinalParameters(e: Entity, names: seq<string>): seq<Parameter>
    requires forall i :: 0 <= i < |names| ==> names[i] in PropertyNames(e)
  {
    seq(|names|, i requires 0 <= i < |names| && names[i] in PropertyNames(e) => Parameter(Marker(i), Item(e, names[i]).value))
  }

  /** Create: every property but Id, as a column and an ordinal parameter. */
  function CreateStatement(e: Entity, entityType: ClrType): Statement {
    var table := ToTableName(entityType);
    var names := Keep(PropertyNames(e), {"Id"});
    var parameters := OrdinalParameters(e, names);
    Statement("INSERT INTO " + table + " (" + Join(",", Columns(table, names)) + ") OUTPUT INSERTED.* VALUES("
                + Join(",", Names(parameters)) + ")",
              parameters)
  }

  /** The SET list of Update: column i assigned from `@i`. */
  function Assignments(table: string, names: seq<string>): seq<string> {
    seq(|names|, i requires 0 <= i < |names| => Column(table, names[i]) + "=@" + NatToString(i))
  }

  function UIdCondition(table: string): string {
    table + ".[UId]=@UId"
  }

  /** Update: every property but Id and UId, then the UId parameter; an entity
      without UId throws when it is looked up. */
  function UpdateStatement(e: Entity, entityType: ClrType): Result<Statement, Fault> {
    var table := ToTableName(entityType);
    var names := Keep(PropertyNames(e), {"Id", "UId"});
    var parameters := OrdinalParameters(e, names);
    var uid :- Item(e, "UId");
    Ok(Statement("UPDATE " + table + " SET " + Join(",", Assignments(table, names)) + " OUTPUT INSERTED.* WHERE "
                   + UIdCondition(table),
                 parameters + [Parameter("@UId", uid)]))
  }

  /** Delete: by UId alone. */
  function DeleteStatement(e: Entity, entityType: ClrType): Result<Statement, Fault> {
    var table := ToTableName(entityType);
    var uid :- Item(e, "UId");
    Ok(Statement("DELETE FROM " + table + " OUTPUT DELETED.* WHERE " + UIdCondition(table), [Parameter("@UId", uid)]))
  }

  // ---------------------------------------------------------------- what the builders promise

  /** Ordinal names never collide, and never collide with `@UId`. */
  lemma MarkersDistinct(i: nat, j: nat)
    ensures Marker(i) == Marker(j) <==> i == j
    ensures Marker(i) != "@UId"
  {
    if Marker(i) == Marker(j) {
      assert NatToString(i) == Marker(i)[1..] == Marker(j)[1..] == NatToString(j);
      NatToStringInjective(i, j);
    }
    assert Marker(i)[1] == NatToString(i)[0];
  }

  /** The ordinal markers `@0` … `@(n-1)`, in order. */
  function Markers(n: nat): seq<string> {
    seq(n, i requires 0 <= i < n => Marker(i))
  }

  /** Create binds one parameter per property other than Id, in property order, named
      by position and holding that property's value; the names are distinct, and the
      column list and the VALUES list both follow that order. */
  lemma CreateBindsEveryProperty(e: Entity, entityType: ClrType)
    ensures var s := CreateStatement(e, entityType);
            var names := Keep(PropertyNames(e), {"Id"});
            var table := ToTableName(entityType);
            && s.text == "INSERT INTO " + table + " (" + Join(",", Columns(table, names)) + ") OUTPUT INSERTED.* VALUES("
                           + Join(",", Markers(|names|)) + ")"
            && (forall i :: 0 <= i < |names| ==> Columns(table, names)[i] == table + ".[" + names[i] + "]")
            && "Id" !in names
            && (forall p :: p in PropertyNames(e) && p != "Id" ==> p in names)
            && |s.parameters| == |names|
            && (forall i :: 0 <= i < |names| ==> s.parameters[i].name == Marker(i))
            && (forall i :: 0 <= i < |names| ==> Item(e, names[i]) == Ok(s.parameters[i].value))
            && (forall i, j :: 0 <= i < j < |names| ==> s.parameters[i].name != s.parameters[j].name)
  {
    var s := CreateStatement(e, entityType);
    forall i, j | 0 <= i < j < |s.parameters|
      ensures s.parameters[i].name != s.parameters[j].name
    {
      MarkersDistinct(i, j);
    }
    CreateText(e, entityType);
  }

  lemma CreateText(e: Entity, entityType: ClrType)
    ensures var names := Keep(PropertyNames(e), {"Id"});
            var table := ToTableName(entityType);
            CreateStatement(e, entityType).text
              == "INSERT INTO " + table + " (" + Join(",", Columns(table, names)) + ") OUTPUT INSERTED.* VALUES("
                 + Join(",", Markers(|names|)) + ")"
  {
    var s := CreateStatement(e, entityType);
    assert Names(s.parameters) == Markers(|s.parameters|);
  }

  /** Update fails exactly when the entity has no UId. Otherwise it binds the ordinal
      parameters of every property but Id and UId, then `@UId` with the entity's UId,
      all names distinct; SET item i assigns that column from the i-th parameter. */
  lemma UpdateBindsEveryProperty(e: Entity, entityType: ClrType)
    ensures UpdateStatement(e, entityType).Ok? <==> "UId" in PropertyNames(e)
    ensures UpdateStatement(e, entityType).Err? ==> UpdateStatement(e, entityType).error == KeyNotFound("UId")
    ensures UpdateStatement(e, entityType).Ok? ==>
            var s := UpdateStatement(e, entityType).value;
            var table := ToTableName(entityType);
            var names := Keep(PropertyNames(e), {"Id", "UId"});
            && |s.parameters| == |names| + 1
            && s.parameters[|names|] == Parameter("@UId", Item(e, "UId").value)
            && (forall i :: 0 <= i < |names| ==> s.parameters[i].name == Marker(i))
            && (forall i :: 0 <= i < |names| ==> Item(e, names[i]) == Ok(s.parameters[i].value))
            && (forall i, j :: 0 <= i < j < |s.parameters| ==> s.parameters[i].name != s.parameters[j].name)
            && (forall i :: 0 <= i < |names| ==> Assignments(table, names)[i] == Column(table, names[i]) + "=" + Marker(i))
  {
    UpdateParameters(e, entityType);
    if "UId" in PropertyNames(e) {
      var names := Keep(PropertyNames(e), {"Id", "UId"});
      OrdinalsThenUId(e, names, Item(e, "UId").value);
      AssignmentsUseMarkers(ToTableName(entityType), names);
    }
  }

  /** Update's ordinal parameters are for exactly the properties other than Id and UId. */
  lemma UpdateNamesExcludeKeys(e: Entity)
    ensures var names := Keep(PropertyNames(e), {"Id", "UId"});
            forall p :: p in names <==> p in PropertyNames(e) && p != "Id" && p != "UId"
  {
  }

  /** The ordinal parameters followed by `@UId`: positional names, all distinct. */
  lemma OrdinalsThenUId(e: Entity, names: seq<string>, uid: Value)
    requires forall i :: 0 <= i < |names| ==> names[i] in PropertyNames(e)
    ensures var ps := OrdinalParameters(e, names) + [Parameter("@UId", uid)];
            && |ps| == |names| + 1
            && (forall i :: 0 <= i < |names| ==> ps[i].name == Marker(i))
            && (forall i :: 0 <= i < |names| ==> Item(e, names[i]) == Ok(ps[i].value))
            && (forall i, j :: 0 <= i < j < |ps| ==> ps[i].name != ps[j].name)
  {
    var ps := OrdinalParameters(e, names) + [Parameter("@UId", uid)];
    forall i, j | 0 <= i < j < |ps|
      ensures ps[i].name != ps[j].name
    {
      MarkersDistinct(i, j);
    }
  }

  /** SET item i assigns column i from the parameter named `@i`. */
  lemma AssignmentsUseMarkers(table: string, names: seq<string>)
    ensures forall i :: 0 <= i < |names| ==> Assignments(table, names)[i] == Column(table, names[i]) + "=" + Marker(i)
  {
    forall i | 0 <= i < |names|
      ensures Assignments(table, names)[i] == Column(table, names[i]) + "=" + Marker(i)
    {
      assert "=@" + NatToString(i) == "=" + ("@" + NatToString(i));
    }
  }

  /** The parameters of Update: the ordinals, then `@UId`. */
  lemma UpdateParameters(e: Entity, entityType: ClrType)
    ensures UpdateStatement(e, entityType).Ok? <==> "UId" in PropertyNames(e)
    ensures UpdateStatement(e, entityType).Err? ==> UpdateStatement(e, entityType).error == KeyNotFound("UId")
    ensures UpdateStatement(e, entityType).Ok? ==>
              UpdateStatement(e, entityType).value.parameters
                == OrdinalParameters(e, Keep(PropertyNames(e), {"Id", "UId"})) + [Parameter("@UId", Item(e, "UId").value)]
  {
  }

  /** Delete fails exactly when the entity has no UId, and otherwise binds exactly one
      parameter, `@UId`, holding it. */
  lemma DeleteBindsUId(e: Entity, entityType: ClrType)
    ensures DeleteStatement(e, entityType).Ok? <==> "UId" in PropertyNames(e)
    ensures DeleteStatement(e, entityType).Err? ==> DeleteStatement(e, entityType).error == KeyNotFound("UId")
    ensures DeleteStatement(e, entityType).Ok? ==>
              DeleteStatement(e, entityType).value.parameters == [Parameter("@UId", Item(e, "UId").value)]
  {
  }

  /** With Id present once, Create binds one parameter fewer than the entity has
      properties. */
  lemma CreateParameterCount(e: Entity, entityType: ClrType)
    requires multiset(PropertyNames(e))["Id"] == 1
    ensures |CreateStatement(e, entityType).parameters| == |e.properties| - 1
  {
    KeepCountOne(PropertyNames(e), "Id");
  }

  /** With Id and UId present once each, Update binds the other properties and then
      UId: (property count - 2) + 1 parameters. */
  lemma UpdateParameterCount(e: Entity, entityType: ClrType)
    requires multiset(PropertyNames(e))["Id"] == 1 && multiset(PropertyNames(e))["UId"] == 1
    ensures UpdateStatement(e, entityType).Ok?
    ensures |UpdateStatement(e, entityType).value.parameters| == (|e.properties| - 2) + 1
  {
    KeepCountTwo(PropertyNames(e), "Id", "UId");
    UpdateParameters(e, entityType);
  }

  /** The entity {Id, Name = "A"}: one parameter, `@0`, holding Name. */
  lemma CreateExample(t: ClrType, id: Value, idType: ClrType, nameType: ClrType)
    ensures var e := Entity([Property("Id", idType, id), Property("Name", nameType, Text("A"))]);
            CreateStatement(e, t).parameters == [Parameter("@0", Text("A"))]
  {
    var e := Entity([Property("Id", idType, id), Property("Name", nameType, Text("A"))]);
    assert PropertyNames(e) == ["Id", "Name"];
    assert Keep(["Name"], {"Id"}) == ["Name"] by {
      assert ["Name"][1..] == [];
    }
    assert ["Id", "Name"][1..] == ["Name"];
    assert Marker(0) == "@0";
    assert Item(e, "Name") == Ok(Text("A"));
  }

  /** The entity {Id, UId = 7, Name = "B"}: Name is bound as `@0`, then UId. */
  lemma UpdateExample(t: ClrType, id: Value, idType: ClrType, uidType: ClrType, nameType: ClrType)
    ensures var e := Entity([Property("Id", idType, id), Property("UId", uidType, Integer(7)), Property("Name", nameType, Text("B"))]);
            UpdateStatement(e, t).Ok?
            && UpdateStatement(e, t).value.parameters == [Parameter("@0", Text("B")), Parameter("@UId", Integer(7))]
  {
    var e := Entity([Property("Id", idType, id), Property("UId", uidType, Integer(7)), Property("Name", nameType, Text("B"))]);
    assert PropertyNames(e) == ["Id", "UId", "Name"];
    ExampleNames();
    ExampleOrdinals(e);
    UpdateParameters(e, t);
    assert Item(e, "UId") == Ok(Integer(7));
  }

  /** An entity holding only Id and UId: the SET list is empty, so two spaces separate
      SET from OUTPUT, and UId is the only parameter. */
  lemma UpdateEmptySetExample(t: ClrType, id: Value, idType: ClrType, uid: Value, uidType: ClrType)
    ensures var e := Entity([Property("Id", idType, id), Property("UId", uidType, uid)]);
            var table := ToTableName(t);
            UpdateStatement(e, t)
              == Ok(Statement("UPDATE " + table + " SET  OUTPUT INSERTED.* WHERE " + table + ".[UId]=@UId",
                              [Parameter("@UId", uid)]))
  {
    var e := Entity([Property("Id", idType, id), Property("UId", uidType, uid)]);
    var table := ToTableName(t);
    assert PropertyNames(e) == ["Id", "UId"];
    KeysOnlyNames();
    assert Item(e, "UId") == Ok(uid);
    var names := Keep(PropertyNames(e), {"Id", "UId"});
    assert names == [];
    assert OrdinalParameters(e, names) == [];
    assert Join(",", Assignments(table, names)) == "";
    EmptySetText(table);
    var text := "UPDATE " + table + " SET " + Join(",", Assignments(table, names)) + " OUTPUT INSERTED.* WHERE " + UIdCondition(table);
    assert text == "UPDATE " + table + " SET  OUTPUT INSERTED.* WHERE " + table + ".[UId]=@UId";
    assert UpdateStatement(e, t) == Ok(Statement(text, OrdinalParameters(e, names) + [Parameter("@UId", uid)]));
    assert OrdinalParameters(e, names) + [Parameter("@UId", uid)] == [Parameter("@UId", uid)];
  }

  lemma KeysOnlyNames()
    ensures Keep(["Id", "UId"], {"Id", "UId"}) == []
  {
    var excluded := {"Id", "UId"};
    assert Keep(["UId"], excluded) == [] by {
      assert "UId" in excluded;
      assert ["UId"][1..] == [];
    }
    assert "Id" in excluded;
    assert ["Id", "UId"][1..] == ["UId"];
  }

  lemma EmptySetText(table: string)
    ensures "UPDATE " + table + " SET " + "" + " OUTPUT INSERTED.* WHERE " + UIdCondition(table)
         == "UPDATE " + table + " SET  OUTPUT INSERTED.* WHERE " + table + ".[UId]=@UId"
  {
  }

  lemma ExampleOrdinals(e: Entity)
    requires "Name" in PropertyNames(e) && Item(e, "Name") == Ok(Text("B"))
    ensures OrdinalParameters(e, ["Name"]) == [Parameter("@0", Text("B"))]
  {
    assert Marker(0) == "@0";
  }

  lemma ExampleNames()
    ensures Keep(["Id", "UId", "Name"], {"Id", "UId"}) == ["Name"]
  {
    var excluded := {"Id", "UId"};
    assert Keep(["Name"], excluded) == ["Name"] by {
      assert "Name" !in excluded;
      assert ["Name"][1..] == [];
    }
    assert Keep(["UId", "Name"], excluded) == ["Name"] by {
      assert ["UId", "Name"][1..] == ["Name"];
    }
    assert ["Id", "UId", "Name"][1..] == ["UId", "Name"];
  }

  /** Update binds what Create binds, minus the UId property, and then the UId. */
  lemma UpdateNamesAreCreateNamesWithoutUId(e: Entity)
    ensures Keep(Keep(PropertyNames(e), {"Id"}), {"UId"}) == Keep(PropertyNames(e), {"Id", "UId"})
  {
    assert {"Id"} + {"UId"} == {"Id", "UId"};
    KeepTwice(PropertyNames(e), {"Id"}, {"UId"});
  }

  /** The columns of Create and Update are the text the expression compiler gives the
      member of that name on the entity's type. */
  lemma ColumnIsMemberText(ns: seq<string>, t: ClrType, p: string)
    requires Join(".", ns) == t.namespace
    ensures ToSqlStatement(MemberExpression(ns, t.name, p)) == Ok(Column(ToTableName(t), p))
  {
    assert MemberText(ns, t.name, p) == ("[" + t.namespace + "." + t.name + "]") + ".[" + p + "]";
  }

  // ---------------------------------------------------------------- commands

  /** `parameter.Value ?? DBNull.Value`. */
  function BindValue(v: Value): Value {
    if v.Null? then DbNull else v
  }

  /** The parameters a command holds once the given ones are bound in order. */
  function Bindings(ps: seq<Parameter>): seq<SqlParameter> {
    seq(|ps|, i requires 0 <= i < |ps| => SqlParameter(ps[i].name, BindValue(ps[i].value)))
  }

  /** Binding keeps names and order and never passes a null: a null is sent as DBNull
      and any other value as it is. */
  lemma BindingsKeepOrder(ps: seq<Parameter>)
    ensures |Bindings(ps)| == |ps|
    ensures forall i :: 0 <= i < |ps| ==> Bindings(ps)[i].parameterName == ps[i].name
    ensures forall i :: 0 <= i < |ps| ==> !Bindings(ps)[i].value.Null?
    ensures forall i :: 0 <= i < |ps| ==> (Bindings(ps)[i].value.DbNull? <==> ps[i].value.Null? || ps[i].value.DbNull?)
    ensures forall i :: 0 <= i < |ps| && !ps[i].value.Null? ==> Bindings(ps)[i].value == ps[i].value
  {
  }

  lemma BindingsAppend(ps: seq<Parameter>, p: Parameter)
    ensures Bindings(ps + [p]) == Bindings(ps) + [SqlParameter(p.name, BindValue(p.value))]
  {
    assert forall i :: 0 <= i < |ps| ==> (ps + [p])[i] == ps[i];
  }

  /** A SqlCommand with its text and its bound parameters. */
  class SqlCommand {
    var commandText: string
    var parameters: seq<SqlParameter>

    constructor (text: string)
      ensures commandText == text && parameters == []
    {
      commandText := text;
      parameters := [];
    }

    /** `command.Parameters.AddWithValue(name, value)`. */
    method AddWithValue(name: string, value: Value)
      modifies this
      ensures commandText == old(commandText)
      ensures parameters == old(parameters) + [SqlParameter(name, value)]
    {
      parameters := parameters + [SqlParameter(name, value)];
    }
  }

  /** CreateCommand: a new text command; with a parameter array, each parameter is bound
      in order. */
  method CreateCommand(query: string, parameters: Option<seq<Parameter>>) returns (command: SqlCommand)
    ensures fresh(command)
    ensures command.commandText == query
    ensures command.parameters == if parameters.Some? then Bindings(parameters.value) else []
  {
    command := new SqlCommand(query);
    if parameters.Some? {
      var ps := parameters.value;
      for i := 0 to |ps|
        invariant command.commandText == query
        invariant command.parameters == Bindings(ps[..i])
      {
        var parameter := ps[i];
        assert ps[..i + 1] == ps[..i] + [parameter];
        BindingsAppend(ps[..i], parameter);
        command.AddWithValue(parameter.name, if parameter.value.Null? then DbNull else parameter.value);
      }
      assert ps[..|ps|] == ps;
    }
  }

  /** CreateCommand(Query): the query's text and parameters. */
  method CreateQueryCommand(query: Query) returns (command: SqlCommand)
    ensures fresh(command)
    ensures command.commandText == query.command
    ensures command.parameters == Bindings(query.parameters)
  {
    command := CreateCommand(query.command, Some(query.parameters));
  }

  // ---------------------------------------------------------------- reading

  /** `reader.IsDBNull(i) ? null : reader[i]`. */
  function FieldValue(v: Value): Value {
    if v.DbNull? then Null else v
  }

  function FieldProperty(f: Field): Property {
    Property(f.name, f.fieldType, FieldValue(f.value))
  }

  /** The entity a row becomes. */
  function RowEntity(row: Row): Entity {
    Entity(seq(|row|, i requires 0 <= i < |row| => FieldProperty(row[i])))
  }

  /** The entities the rows become. */
  function ReadRows(rows: seq<Row>): seq<Entity> {
    seq(|rows|, k requires 0 <= k < |rows| => RowEntity(rows[k]))
  }

  /** One entity per row and one property per field, in order, named and typed like the
      field; a NULL field becomes null and no DBNull is ever returned. */
  lemma ReadMapsFields(rows: seq<Row>)
    ensures |ReadRows(rows)| == |rows|
    ensures forall k :: 0 <= k < |rows| ==> |ReadRows(rows)[k].properties| == |rows[k]|
    ensures forall k, i :: 0 <= k < |rows| && 0 <= i < |rows[k]| ==>
              var p := ReadRows(rows)[k].properties[i];
              && p.name == rows[k][i].name && p.propertyType == rows[k][i].fieldType
              && !p.value.DbNull?
              && (p.value.Null? <==> rows[k][i].value.Null? || rows[k][i].value.DbNull?)
              && (!rows[k][i].value.DbNull? ==> p.value == rows[k][i].value)
  {
  }

  /** Binding and reading undo each other's null markers: a value other than DBNull
      sent as a parameter and read back from a field is the same value. */
  lemma NullMarkersRoundTrip(v: Value)
    ensures !v.DbNull? ==> FieldValue(BindValue(v)) == v
    ensures BindValue(FieldValue(v)) == BindValue(v)
  {
  }

  /** Read: a `while` over the rows and, inside it, a `for` over each row's fields. */
  method Read(rows: seq<Row>) returns (entities: seq<Entity>)
    ensures entities == ReadRows(rows)
  {
    entities := [];
    var k := 0;
    while k < |rows|
      invariant 0 <= k <= |rows|
      invariant entities == ReadRows(rows[..k])
    {
      var row := rows[k];
      var properties: seq<Property> := [];
      for i := 0 to |row|
        invariant properties == RowEntity(row[..i]).properties
      {
        var field := row[i];
        var fieldValue := if field.value.DbNull? then Null else field.value;
        properties := properties + [Property(field.name, field.fieldType, fieldValue)];
      }
      assert row[..|row|] == row;
      entities := entities + [Entity(properties)];
      k := k + 1;
      assert ReadRows(rows[..k]) == ReadRows(rows[..k - 1]) + [RowEntity(rows[k - 1])];
    }
    assert rows[..|rows|] == rows;
  }

  /** `FirstOrDefault()`: the first entity, or none. */
  function FirstOrDefault(entities: seq<Entity>): (r: Option<Entity>)
    ensures r.None? <==> entities == []
    ensures r.Some? ==> r.value == entities[0]
  {
    if entities == [] then None else Some(entities[0])
  }

  // ---------------------------------------------------------------- the operations

  /** Create: runs the INSERT and returns the entity of the first inserted row. */
  method Create(entity: Entity, entityType: ClrType, output: seq<Row>) returns (command: SqlCommand, result: Option<Entity>)
    ensures fresh(command)
    ensures command.commandText == CreateStatement(entity, entityType).text
    ensures command.parameters == Bindings(CreateStatement(entity, entityType).parameters)
    ensures result == if output == [] then None else Some(RowEntity(output[0]))
  {
    var statement := CreateStatement(entity, entityType);
    command := CreateCommand(statement.text, Some(statement.parameters));
    var entities := Read(output);
    result := FirstOrDefault(entities);
  }

  /** Update: builds the ordinal parameters, appends `@UId` and runs the UPDATE; an
      entity without UId throws before any command exists. */
  method Update(entity: Entity, entityType: ClrType, output: seq<Row>) returns (command: SqlCommand?, result: Result<Option<Entity>, Fault>)
    ensures UpdateStatement(entity, entityType).Err? ==>
              command == null && result == Err(UpdateStatement(entity, entityType).error)
    ensures UpdateStatement(entity, entityType).Ok? ==>
              && command != null && fresh(command)
              && command.commandText == UpdateStatement(entity, entityType).value.text
              && command.parameters == Bindings(UpdateStatement(entity, entityType).value.parameters)
              && result == Ok(if output == [] then None else Some(RowEntity(output[0])))
  {
    var table := ToTableName(entityType);
    var names := Keep(PropertyNames(entity), {"Id", "UId"});
    var parameters := OrdinalParameters(entity, names);
    var uid := Item(entity, "UId");
    if uid.Err? {
      return null, Err(uid.error);
    }
    parameters := parameters + [Parameter("@UId", uid.value)];
    var text := "UPDATE " + table + " SET " + Join(",", Assignments(table, names)) + " OUTPUT INSERTED.* WHERE "
                + UIdCondition(table);
    var c := CreateCommand(text, Some(parameters));
    var entities := Read(output);
    command, result := c, Ok(FirstOrDefault(entities));
  }

  /** Delete: runs the DELETE by UId and returns the entity of the first deleted row. */
  method Delete(entity: Entity, entityType: ClrType, output: seq<Row>) returns (command: SqlCommand?, result: Result<Option<Entity>, Fault>)
    ensures DeleteStatement(entity, entityType).Err? ==>
              command == null && result == Err(DeleteStatement(entity, entityType).error)
    ensures DeleteStatement(entity, entityType).Ok? ==>
              && command != null && fresh(command)
              && command.commandText == DeleteStatement(entity, entityType).value.text
              && command.parameters == Bindings(DeleteStatement(entity, entityType).value.parameters)
              && result == Ok(if output == [] then None else Some(RowEntity(output[0])))
  {
    var statement := DeleteStatement(entity, entityType);
    if statement.Err? {
      return null, Err(statement.error);
    }
    var c := CreateCommand(statement.value.text, Some(statement.value.parameters));
    var entities := Read(output);
    command, result := c, Ok(FirstOrDefault(entities));
  }

  /** RetrieveByText (ReadByText, then ToList): the query's command and every row read. */
  method RetrieveByText(query: Query, output: seq<Row>) returns (command: SqlCommand, entities: seq<Entity>)
    ensures fresh(command)
    ensures command.commandText == query.command && command.parameters == Bindings(query.parameters)
    ensures entities == ReadRows(output)
  {
    command := CreateQueryCommand(query);
    entities := Read(output);
  }

  /** NonQueryByText: the command it executes. */
  method NonQueryByText(query: Query) returns (command: SqlCommand)
    ensures fresh(command)
    ensures command.commandText == query.command && command.parameters == Bindings(query.parameters)
  {
    command := CreateQueryCommand(query);
  }

  // ---------------------------------------------------------------- ReadByExpression

  /** `"@" + p.Name.TrimStart('@')` as the new name of one parameter. */
  function Renamed(p: Parameter): Parameter {
    p.(name := NormalizeParameterName(p.name))
  }

  /** The parameters after ReadByExpression's renaming: each keeps its value and gets
      the name `"@" + name.TrimStart('@')`. */
  function NormalizedParameters(ps: seq<Parameter>): seq<Parameter> {
    seq(|ps|, i requires 0 <= i < |ps| => Renamed(ps[i]))
  }

  /** Renaming twice renames once, and every name ends up with exactly one marker. */
  lemma NormalizedParametersIdempotent(ps: seq<Parameter>)
    ensures NormalizedParameters(NormalizedParameters(ps)) == NormalizedParameters(ps)
    ensures forall i :: 0 <= i < |ps| ==>
              var n := NormalizedParameters(ps)[i].name;
              n[0] == '@' && (|n| == 1 || n[1] != '@')
    ensures forall i :: 0 <= i < |ps| ==> NormalizedParameters(ps)[i].value == ps[i].value
  {
    forall i | 0 <= i < |ps|
      ensures NormalizeParameterName(NormalizeParameterName(ps[i].name)) == NormalizeParameterName(ps[i].name)
      ensures var n := NormalizeParameterName(ps[i].name); n[0] == '@' && (|n| == 1 || n[1] != '@')
    {
      SqlGenerationProperties.NormalizeIdempotent(ps[i].name);
      SqlGenerationProperties.NormalizedNameShape(ps[i].name);
    }
  }

  /** `p.Name = "@" + p.Name.TrimStart('@')` on each parameter, in place. */
  method NormalizeParameters(ps: array<Parameter>)
    modifies ps
    ensures ps[..] == NormalizedParameters(old(ps[..]))
  {
    ghost var original := ps[..];
    for i := 0 to ps.Length
      invariant forall k :: 0 <= k < i ==> ps[k] == Renamed(original[k])
      invariant forall k :: i <= k < ps.Length ==> ps[k] == original[k]
    {
      ps[i] := Renamed(ps[i]);
    }
    assert forall k :: 0 <= k < ps.Length ==> ps[..][k] == NormalizedParameters(original)[k];
  }

  /** ReadByExpression: compiles the query, renames its parameters in place (the
      array is the query's own parameter list), binds them and reads every row. A query
      that does not compile throws before anything is renamed. */
  method ReadByExpression(query: ExpressionQuery, parameters: array<Parameter>, output: seq<Row>)
    returns (command: SqlCommand?, result: Result<seq<Entity>, Fault>)
    requires parameters[..] == query.parameters
    modifies parameters
    ensures SelectQuery(query).Err? ==>
              && command == null && result == Err(SelectQuery(query).error)
              && parameters[..] == old(parameters[..])
    ensures SelectQuery(query).Ok? ==>
              && parameters[..] == NormalizedParameters(query.parameters)
              && command != null && fresh(command)
              && command.commandText == SelectQuery(query).value
              && command.parameters == Bindings(NormalizedParameters(query.parameters))
              && result == Ok(ReadRows(output))
  {
    var queryString := ToSelectQuery(query);
    if queryString.Err? {
      return null, Err(queryString.error);
    }
    NormalizeParameters(parameters);
    var c := CreateCommand(queryString.value, Some(parameters[..]));
    var entities := Read(output);
    command, result := c, Ok(entities);
  }
}
