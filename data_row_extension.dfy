/** DataRowExtension.ToEntity: an entity with one property per column of a DataTable
    row, holding the row's value as it is. */
module DataRowExtension {
  import opened Data
  import MsSqlDatabase

  /** A column of a DataTable: its name and its CLR type. */
  datatype DataColumn = DataColumn(columnName: string, dataType: ClrType)

  /** A row of a DataTable: one item per column of its table, in column order; a NULL
      cell holds DbNull. */
  datatype DataRow = DataRow(items: seq<Value>)

  /** The entity a row becomes. */
  function RowEntity(row: DataRow, columns: seq<DataColumn>): Entity
    requires |row.items| == |columns|
  {
    Entity(seq(|columns|, i requires 0 <= i < |columns| => Property(columns[i].columnName, columns[i].dataType, row.items[i])))
  }

  /** ToEntity: a `foreach` over the columns, adding one property per column. */
  method ToEntity(row: DataRow, columns: seq<DataColumn>) returns (entity: Entity)
    requires |row.items| == |columns|
    ensures entity == RowEntity(row, columns)
  {
    var properties: seq<Property> := [];
    for k := 0 to |columns|
      invariant properties == RowEntity(DataRow(row.items[..k]), columns[..k]).properties
    {
      var column := columns[k];
      var property := Property(column.columnName, column.dataType, row.items[k]);
      properties := properties + [property];
    }
    assert row.items[..|columns|] == row.items && columns[..|columns|] == columns;
    entity := Entity(properties);
  }

  /** One property per column, in column order, named and typed like the column and
      holding the row's value unchanged (a NULL cell stays DbNull); no columns, no
      properties. */
  lemma ToEntityKeepsValues(row: DataRow, columns: seq<DataColumn>)
    requires |row.items| == |columns|
    ensures var e := RowEntity(row, columns);
            && |e.properties| == |columns|
            && PropertyNames(e) == seq(|columns|, i requires 0 <= i < |columns| => columns[i].columnName)
            && (forall i :: 0 <= i < |columns| ==> e.properties[i].propertyType == columns[i].dataType)
            && (forall i :: 0 <= i < |columns| ==> e.properties[i].value == row.items[i])
            && (columns == [] ==> e.properties == [])
  {
  }

  /** The fields a reader would return for the same row. */
  function AsFields(row: DataRow, columns: seq<DataColumn>): seq<MsSqlDatabase.Field>
    requires |row.items| == |columns|
  {
    seq(|columns|, i requires 0 <= i < |columns| => MsSqlDatabase.Field(columns[i].columnName, columns[i].dataType, row.items[i]))
  }

  /** ToEntity and the data reader's mapping agree on a row exactly when none of its
      cells is NULL: the reader turns DbNull into null, ToEntity keeps it. */
  lemma ToEntityAgreesWithReader(row: DataRow, columns: seq<DataColumn>)
    requires |row.items| == |columns|
    ensures (RowEntity(row, columns) == MsSqlDatabase.RowEntity(AsFields(row, columns)))
        <==> (forall i :: 0 <= i < |columns| ==> !row.items[i].DbNull?)
  {
    var mine := RowEntity(row, columns);
    var theirs := MsSqlDatabase.RowEntity(AsFields(row, columns));
    if mine == theirs {
      forall i | 0 <= i < |columns|
        ensures !row.items[i].DbNull?
      {
        assert mine.properties[i].value == theirs.properties[i].value;
      }
    }
  }
}
