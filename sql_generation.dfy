/** The T-SQL text generator (ExpressionQueryExtension): compiles an ExpressionQuery
    into a SELECT statement. */
module SqlGeneration {
  import opened Wrappers
  import opened Strings
  import opened Data
  import opened Expressions

  // ---------------------------------------------------------------- leaves

  /** Type.ToTableName(): `[namespace.Name]`. */
  function ToTableName(t: ClrType): string {
    "[" + t.namespace + "." + t.name + "]"
  }

  /** The operator-to-template table; {0} is the left operand, {1} the right one. */
  function ToSqlBinaryFormat(op: BinaryOperator): string {
    match op
    case Add => "({0} + {1})"
    case Divide => "({0} / {1})"
    case Subtract => "({0} - {1})"
    case Multiply => "({0} * {1})"
    case Power => "POWER({0}, {1})"
    case Modulo => "({0} % {1})"
    case And => "({0} & {1})"
    case Or => "({0} & {1})"
    case ExclusiveOr => "({0} ^ {1})"
    case AndAlso => "({0} AND {1})"
    case OrElse => "({0} OR {1})"
    case Equal => "({0} = {1})"
    case NotEqual => "({0} <> {1})"
    case GreaterThan => "({0} > {1})"
    case GreaterThanOrEqual => "({0} >= {1})"
    case LessThan => "({0} < {1})"
    case LessThanOrEqual => "({0} <= {1})"
  }

  /** The type codes whose constants are written without quotes. */
  predicate TypeIsNumber(code: TypeCode) {
    match code
    case Byte | SByte | UInt16 | UInt32 | UInt64 | Int16 | Int32 | Int64 | Decimal | Double | Single => true
    case _ => false
  }

  /** Value.ToString(); calling it on null throws. */
  function Display(v: Value): Result<string, Fault> {
    match v
    case Null => Err(NullReference)
    case DbNull => Ok("")
    case Integer(i) => Ok(IntToString(i))
    case Text(s) => Ok(s)
    case Opaque(d) => Ok(d)
  }

  /** How String.Format shows an argument: null as the empty string, anything else by ToString(). */
  function FormatArgument(v: Value): string {
    match v
    case Null => ""
    case DbNull => ""
    case Integer(i) => IntToString(i)
    case Text(s) => s
    case Opaque(d) => d
  }

  /** ConstantExpression.ToSqlConstantString(): numbers bare, everything else in single quotes. */
  function ToSqlConstantString(value: Value, valueType: ClrType): Result<string, Fault> {
    if TypeIsNumber(valueType.code) then Display(value)
    else Ok("'" + FormatArgument(value) + "'")
  }

  /** `"@" + name.TrimStart('@')`: the marker written for a parameter, and the name
      ReadByExpression gives each bound parameter. */
  function NormalizeParameterName(name: string): string {
    "@" + TrimStartChar(name, '@')
  }

  /** `[ns1.ns2.Object].[Member]`. */
  function MemberText(namespace: seq<string>, objectName: string, memberName: string): string {
    "[" + Join(".", namespace) + "." + objectName + "].[" + memberName + "]"
  }

  /** ToSqlStatement: the T-SQL text of an expression in a general position. */
  function ToSqlStatement(e: QueryExpression): Result<string, Fault>
    decreases e, 1
  {
    match e
    case BinaryExpression(_, _, _) => BinaryToSqlStatement(e)
    case ConstantExpression(value, valueType) => ToSqlConstantString(value, valueType)
    case ParameterExpression(p) => Ok(NormalizeParameterName(p.name))
    case OrderExpression(ns, o, m, direction) =>
      Ok(MemberText(ns, o, m) + " " + (if direction == Ascending then "ASC" else "DESC"))
    case MemberExpression(ns, o, m) => Ok(MemberText(ns, o, m))
    case MethodExpression(_, _) => Err(NotImplemented)
    case OtherExpression(typeName) => Err(ArgumentOutOfRange("Expression Type: " + typeName))
  }

  /** Renders the left operand, then the right one, into the operator's template. */
  function BinaryToSqlStatement(e: QueryExpression): Result<string, Fault>
    requires e.BinaryExpression?
    decreases e, 0
  {
    var left :- ToSqlStatement(e.left);
    var format := ToSqlBinaryFormat(e.operator);
    var right :- ToSqlStatement(e.right);
    Ok(Format(format, left, right))
  }

  /** Renders a list of expressions in order; the first failure is the one reported. */
  function RenderEach(es: seq<QueryExpression>): (r: Result<seq<string>, Fault>)
    decreases |es|
    ensures r.Ok? <==> forall i :: 0 <= i < |es| ==> ToSqlStatement(es[i]).Ok?
    ensures r.Ok? ==> |r.value| == |es| && forall i :: 0 <= i < |es| ==> ToSqlStatement(es[i]) == Ok(r.value[i])
  {
    if es == [] then Ok([])
    else
      var head :- ToSqlStatement(es[0]);
      var tail :- RenderEach(es[1..]);
      assert forall i :: 1 <= i < |es| ==> es[i] == es[1..][i - 1];
      Ok([head] + tail)
  }

  function Parenthesize(rs: seq<string>): seq<string> {
    seq(|rs|, i requires 0 <= i < |rs| => "(" + rs[i] + ")")
  }

  // ---------------------------------------------------------------- clauses

  function TableNames(types: seq<ClrType>): seq<string> {
    seq(|types|, i requires 0 <= i < |types| => ToTableName(types[i]))
  }

  /** The FROM clause over the source types. */
  function TypesFrom(types: seq<ClrType>): string {
    "FROM " + Join(", ", TableNames(types))
  }

  /** The FROM clause over a compiled sub-query. */
  function SubQueryFrom(inner: string, queryIndex: nat): string {
    "FROM (" + inner + ") AS F" + NatToString(queryIndex)
  }

  function FromClause(q: ExpressionQuery): Result<string, Fault>
    decreases q, 0
  {
    match q.subQuery
    case Some(sub) =>
      var inner :- SelectQuery(sub);
      Ok(SubQueryFrom(inner, q.queryIndex))
    case None => Ok(TypesFrom(q.types))
  }

  /** The WHERE clause, or the empty string when there are no filters. */
  function WhereClause(filters: seq<QueryExpression>): Result<string, Fault> {
    if filters == [] then Ok("")
    else
      var rs :- RenderEach(filters);
      Ok("WHERE " + Join(" AND ", Parenthesize(rs)))
  }

  /** The ORDER BY clause, or None (the C# null) when there are no sorts. */
  function OrderByClause(sorts: seq<QueryExpression>): Result<Option<string>, Fault> {
    if sorts == [] then Ok(None)
    else
      var rs :- RenderEach(sorts);
      Ok(Some("ORDER BY " + Join(",", rs)))
  }

  /** The window ordering of the row number: the sorts, or `ORDER BY Id` without them. */
  function Window(orderBy: Option<string>): string {
    orderBy.GetOr("ORDER BY Id")
  }

  function SelectClause(projections: seq<QueryExpression>, queryIndex: nat, orderBy: Option<string>): Result<string, Fault> {
    if projections != [] then
      var ps :- RenderEach(projections);
      Ok("SELECT ROW_NUMBER() OVER(" + Window(orderBy) + ") AS RowId" + NatToString(queryIndex) + ", " + Join(",", ps))
    else
      Ok("SELECT ROW_NUMBER() OVER (" + Window(orderBy) + ") AS RowId" + NatToString(queryIndex) + ", *")
  }

  /** `"{0} {1} {2} {3}"` over select, from, where and order by, trimmed at both ends. */
  function Assemble(from: string, q: ExpressionQuery): Result<string, Fault> {
    var where :- WhereClause(q.filters);
    var orderBy :- OrderByClause(q.sorts);
    var select :- SelectClause(q.projections, q.queryIndex, orderBy);
    Ok(Trim(select + " " + from + " " + where + " " + orderBy.GetOr("")))
  }

  /** The query before its partitions are applied. */
  function CoreQuery(q: ExpressionQuery): Result<string, Fault>
    decreases q, 1
  {
    var from :- FromClause(q);
    Assemble(from, q)
  }

  // ---------------------------------------------------------------- partitions

  function PartitionWrap(core: string, queryIndex: nat): string {
    "* FROM (" + core + ") AS P" + NatToString(queryIndex)
  }

  /** `partitionMethod.Parameter.ToSqlStatement()`; a null argument throws. */
  function RenderArgument(argument: Option<QueryExpression>): Result<string, Fault> {
    match argument
    case None => Err(NullReference)
    case Some(a) => ToSqlStatement(a)
  }

  /** One step of the partition loop. */
  function ApplyPartition(sqlQuery: string, e: QueryExpression, queryIndex: nat): Result<string, Fault> {
    match e
    case MethodExpression(m, argument) =>
      if m == First || m == FirstOrDefault then Ok("SELECT TOP 1 " + sqlQuery)
      else if m == Last || m == LastOrDefault then
        Ok("SELECT TOP 1 " + sqlQuery + " ORDER BY RowId" + NatToString(queryIndex) + " DESC")
      else if m == MethodType.Single || m == SingleOrDefault then Ok("SELECT " + sqlQuery)
      else if m == Take then
        var count :- RenderArgument(argument);
        Ok("SELECT TOP " + count + " " + sqlQuery)
      else
        var count :- RenderArgument(argument);
        Ok(sqlQuery + " WHERE RowId" + NatToString(queryIndex) + " > " + count)
    case _ => Ok(sqlQuery)
  }

  /** The partition loop over `parts`, in list order. */
  function ApplyPartitions(sqlQuery: string, parts: seq<QueryExpression>, queryIndex: nat): Result<string, Fault>
    decreases |parts|
  {
    if parts == [] then Ok(sqlQuery)
    else
      var before :- ApplyPartitions(sqlQuery, parts[..|parts| - 1], queryIndex);
      ApplyPartition(before, parts[|parts| - 1], queryIndex)
  }

  /** ToSelectQuery as a function of the query. */
  function SelectQuery(q: ExpressionQuery): Result<string, Fault>
    decreases q, 2
  {
    var core :- CoreQuery(q);
    if q.partitions == [] then Ok(core)
    else ApplyPartitions(PartitionWrap(core, q.queryIndex), q.partitions, q.queryIndex)
  }

  /** Once the partition loop has failed, the later entries do not change the outcome. */
  lemma {:induction false} PartitionFailurePersists(sqlQuery: string, parts: seq<QueryExpression>, k: nat, queryIndex: nat)
    requires k <= |parts|
    requires ApplyPartitions(sqlQuery, parts[..k], queryIndex).Err?
    ensures ApplyPartitions(sqlQuery, parts, queryIndex) == ApplyPartitions(sqlQuery, parts[..k], queryIndex)
    decreases |parts| - k
  {
    if k < |parts| {
      var init := parts[..|parts| - 1];
      assert init[..k] == parts[..k];
      PartitionFailurePersists(sqlQuery, init, k, queryIndex);
    } else {
      assert parts[..k] == parts;
    }
  }

  /** The `foreach` over the partitions: each method entry rewrites the query text in turn. */
  method RewritePartitions(wrapped: string, parts: seq<QueryExpression>, queryIndex: nat) returns (r: Result<string, Fault>)
    ensures r == ApplyPartitions(wrapped, parts, queryIndex)
  {
    var sqlQuery := wrapped;
    for i := 0 to |parts|
      invariant ApplyPartitions(wrapped, parts[..i], queryIndex) == Ok(sqlQuery)
    {
      assert parts[..i + 1][..i] == parts[..i];
      match parts[i]
      case MethodExpression(m, argument) =>
        if m == First || m == FirstOrDefault {
          sqlQuery := "SELECT TOP 1 " + sqlQuery;
        } else if m == Last || m == LastOrDefault {
          sqlQuery := "SELECT TOP 1 " + sqlQuery + " ORDER BY RowId" + NatToString(queryIndex) + " DESC";
        } else if m == MethodType.Single || m == SingleOrDefault {
          sqlQuery := "SELECT " + sqlQuery;
        } else if m == Take {
          var count := RenderArgument(argument);
          if count.Err? {
            PartitionFailurePersists(wrapped, parts, i + 1, queryIndex);
            return Err(count.error);
          }
          sqlQuery := "SELECT TOP " + count.value + " " + sqlQuery;
        } else {
          var count := RenderArgument(argument);
          if count.Err? {
            PartitionFailurePersists(wrapped, parts, i + 1, queryIndex);
            return Err(count.error);
          }
          sqlQuery := sqlQuery + " WHERE RowId" + NatToString(queryIndex) + " > " + count.value;
        }
      case _ =>
    }
    assert parts[..|parts|] == parts;
    return Ok(sqlQuery);
  }

  /** ToSelectQuery: assembles the query (compiling the sub-query first), then runs
      the partition loop over it when there are partitions. */
  method ToSelectQuery(q: ExpressionQuery) returns (r: Result<string, Fault>)
    ensures r == SelectQuery(q)
    decreases q
  {
    var from: string;
    if q.subQuery.Some? {
      var inner := ToSelectQuery(q.subQuery.value);
      if inner.Err? {
        assert FromClause(q) == Err(inner.error);
        return Err(inner.error);
      }
      from := SubQueryFrom(inner.value, q.queryIndex);
    } else {
      from := TypesFrom(q.types);
    }
    assert FromClause(q) == Ok(from);
    var assembled := Assemble(from, q);
    assert CoreQuery(q) == assembled;
    if assembled.Err? || q.partitions == [] {
      return assembled;
    }
    r := RewritePartitions(PartitionWrap(assembled.value, q.queryIndex), q.partitions, q.queryIndex);
  }
}
