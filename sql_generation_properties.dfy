/** What the T-SQL generator promises, proved about SqlGeneration. */
module SqlGenerationProperties {
  import opened Wrappers
  import opened Strings
  import opened Data
  import opened Expressions
  import opened SqlGeneration

  // ---------------------------------------------------------------- binary operators

  /** The T-SQL symbol of an infix operator. Or shares And's `&`, as the table has it. */
  function InfixSymbol(op: BinaryOperator): string
    requires op != Power
  {
    match op
    case Add => "+"
    case Subtract => "-"
    case Multiply => "*"
    case Divide => "/"
    case Modulo => "%"
    case And => "&"
    case Or => "&"
    case ExclusiveOr => "^"
    case AndAlso => "AND"
    case OrElse => "OR"
    case Equal => "="
    case NotEqual => "<>"
    case GreaterThan => ">"
    case GreaterThanOrEqual => ">="
    case LessThan => "<"
    case LessThanOrEqual => "<="
  }

  /** The rendering every operator is meant to have: parenthesised infix, and Power as a call. */
  function BinaryReference(op: BinaryOperator, left: string, right: string): string {
    if op == Power then "POWER(" + left + ", " + right + ")"
    else "(" + left + " " + InfixSymbol(op) + " " + right + ")"
  }

  /** Every entry of the operator table is a two-hole template whose holes are filled
      left operand first: formatting it gives the reference rendering. */
  lemma BinaryTemplateCorrect(op: BinaryOperator, left: string, right: string)
    ensures Format(ToSqlBinaryFormat(op), left, right) == BinaryReference(op, left, right)
  {
    match op
    case Power =>
      assert ToSqlBinaryFormat(op) == "POWER(" + "{0}" + ", " + "{1}" + ")";
      FormatTemplate("POWER(", ", ", ")", left, right);
    case Add | Subtract | Multiply | Divide | Modulo => ArithmeticTemplates(op, left, right);
    case And | Or | ExclusiveOr => BitwiseTemplates(op, left, right);
    case AndAlso | OrElse => LogicalTemplates(op, left, right);
    case Equal | NotEqual => EqualityTemplates(op, left, right);
    case GreaterThan | GreaterThanOrEqual | LessThan | LessThanOrEqual => OrderingTemplates(op, left, right);
  }

  lemma ArithmeticTemplates(op: BinaryOperator, left: string, right: string)
    requires op == Add || op == Subtract || op == Multiply || op == Divide || op == Modulo
    ensures Format(ToSqlBinaryFormat(op), left, right) == BinaryReference(op, left, right)
  {
    match op
    case Add => InfixTemplate(op, " + ", left, right);
    case Subtract => InfixTemplate(op, " - ", left, right);
    case Multiply => InfixTemplate(op, " * ", left, right);
    case Divide => InfixTemplate(op, " / ", left, right);
    case Modulo => InfixTemplate(op, " % ", left, right);
  }

  lemma BitwiseTemplates(op: BinaryOperator, left: string, right: string)
    requires op == And || op == Or || op == ExclusiveOr
    ensures Format(ToSqlBinaryFormat(op), left, right) == BinaryReference(op, left, right)
  {
    match op
    case And => InfixTemplate(op, " & ", left, right);
    case Or => InfixTemplate(op, " & ", left, right);
    case ExclusiveOr => InfixTemplate(op, " ^ ", left, right);
  }

  lemma LogicalTemplates(op: BinaryOperator, left: string, right: string)
    requires op == AndAlso || op == OrElse
    ensures Format(ToSqlBinaryFormat(op), left, right) == BinaryReference(op, left, right)
  {
    match op
    case AndAlso => InfixTemplate(op, " AND ", left, right);
    case OrElse => InfixTemplate(op, " OR ", left, right);
  }

  lemma EqualityTemplates(op: BinaryOperator, left: string, right: string)
    requires op == Equal || op == NotEqual
    ensures Format(ToSqlBinaryFormat(op), left, right) == BinaryReference(op, left, right)
  {
    match op
    case Equal => InfixTemplate(op, " = ", left, right);
    case NotEqual => InfixTemplate(op, " <> ", left, right);
  }

  lemma OrderingTemplates(op: BinaryOperator, left: string, right: string)
    requires op == GreaterThan || op == GreaterThanOrEqual || op == LessThan || op == LessThanOrEqual
    ensures Format(ToSqlBinaryFormat(op), left, right) == BinaryReference(op, left, right)
  {
    match op
    case GreaterThan => InfixTemplate(op, " > ", left, right);
    case GreaterThanOrEqual => InfixTemplate(op, " >= ", left, right);
    case LessThan => InfixTemplate(op, " < ", left, right);
    case LessThanOrEqual => InfixTemplate(op, " <= ", left, right);
  }

  lemma InfixTemplate(op: BinaryOperator, middle: string, left: string, right: string)
    requires op != Power && middle == " " + InfixSymbol(op) + " "
    requires ToSqlBinaryFormat(op) == "(" + "{0}" + middle + "{1}" + ")"
    requires forall i :: 0 <= i < |middle| ==> middle[i] != '{'
    ensures Format(ToSqlBinaryFormat(op), left, right) == BinaryReference(op, left, right)
  {
    FormatTemplate("(", middle, ")", left, right);
    InfixText(left, InfixSymbol(op), right);
  }

  lemma InfixText(left: string, symbol: string, right: string)
    ensures "(" + left + (" " + symbol + " ") + right + ")" == "(" + left + " " + symbol + " " + right + ")"
  {
  }

  /** A binary expression substitutes its rendered operands into its operator's template;
      a failing operand fails the whole, the left one first. */
  lemma BinaryRendering(l: QueryExpression, op: BinaryOperator, r: QueryExpression)
    ensures var result := ToSqlStatement(BinaryExpression(l, op, r));
            && (ToSqlStatement(l).Err? ==> result == ToSqlStatement(l))
            && (ToSqlStatement(l).Ok? && ToSqlStatement(r).Err? ==> result == ToSqlStatement(r))
            && (ToSqlStatement(l).Ok? && ToSqlStatement(r).Ok? ==>
                  result == Ok(BinaryReference(op, ToSqlStatement(l).value, ToSqlStatement(r).value)))
  {
    if ToSqlStatement(l).Ok? && ToSqlStatement(r).Ok? {
      BinaryTemplateCorrect(op, ToSqlStatement(l).value, ToSqlStatement(r).value);
    }
  }

  /** As written, Or renders exactly as And does. */
  lemma OrRendersAsAnd(l: QueryExpression, r: QueryExpression)
    ensures ToSqlStatement(BinaryExpression(l, Or, r)) == ToSqlStatement(BinaryExpression(l, And, r))
  {
  }

  // ---------------------------------------------------------------- which nodes fail

  /** The nodes of an expression in the order the renderer visits them. */
  function Subterms(e: QueryExpression): (r: seq<QueryExpression>)
    ensures e in r
  {
    match e
    case BinaryExpression(l, _, rt) => Subterms(l) + [e] + Subterms(rt)
    case _ => [e]
  }

  /** The exception a node raises by itself, when it is rendered in an expression position. */
  function NodeFault(e: QueryExpression): Option<Fault> {
    match e
    case MethodExpression(_, _) => Some(NotImplemented)
    case OtherExpression(typeName) => Some(ArgumentOutOfRange("Expression Type: " + typeName))
    case ConstantExpression(value, valueType) =>
      if TypeIsNumber(valueType.code) && value.Null? then Some(NullReference) else None
    case _ => None
  }

  /** The fault of the first failing node of `es`. */
  function FirstFault(es: seq<QueryExpression>): (r: Option<Fault>)
    decreases |es|
    ensures r.None? <==> forall i :: 0 <= i < |es| ==> NodeFault(es[i]).None?
  {
    if es == [] then None
    else if NodeFault(es[0]).Some? then NodeFault(es[0])
    else
      assert forall i :: 1 <= i < |es| ==> es[i] == es[1..][i - 1];
      FirstFault(es[1..])
  }

  lemma {:induction false} FirstFaultAppend(a: seq<QueryExpression>, b: seq<QueryExpression>)
    ensures FirstFault(a + b) == if FirstFault(a).Some? then FirstFault(a) else FirstFault(b)
    decreases |a|
  {
    if a != [] {
      assert (a + b)[1..] == a[1..] + b;
      FirstFaultAppend(a[1..], b);
    } else {
      assert a + b == b;
    }
  }

  /** Rendering fails exactly when some node is unsupported (a method in an expression
      position, an unknown node kind, a numeric constant whose value is null), and the
      exception reported is that of the first such node in left-to-right order. */
  lemma {:induction false} RenderingFaults(e: QueryExpression)
    ensures ToSqlStatement(e).Ok? <==> FirstFault(Subterms(e)).None?
    ensures ToSqlStatement(e).Err? ==> FirstFault(Subterms(e)) == Some(ToSqlStatement(e).error)
  {
    match e
    case BinaryExpression(l, op, r) =>
      RenderingFaults(l);
      RenderingFaults(r);
      FirstFaultAppend(Subterms(l) + [e], Subterms(r));
      FirstFaultAppend(Subterms(l), [e]);
      assert FirstFault([e]) == None;
      BinaryRendering(l, op, r);
    case ConstantExpression(value, valueType) =>
    case _ =>
  }

  // ---------------------------------------------------------------- parameters

  /** The normalised name carries exactly one leading marker, followed by the
      original name with all its leading markers removed. */
  lemma NormalizedNameShape(name: string)
    ensures var n := NormalizeParameterName(name);
            && n[0] == '@' && (|n| == 1 || n[1] != '@')
            && |n| - 1 <= |name| && n[1..] == name[|name| - (|n| - 1)..]
            && forall i :: 0 <= i < |name| - (|n| - 1) ==> name[i] == '@'
  {
    var n := NormalizeParameterName(name);
    assert n[1..] == TrimStartChar(name, '@');
  }

  /** Normalising twice is normalising once. */
  lemma NormalizeIdempotent(name: string)
    ensures NormalizeParameterName(NormalizeParameterName(name)) == NormalizeParameterName(name)
  {
    var t := TrimStartChar(name, '@');
    assert ("@" + t)[1..] == t;
    assert t == [] || t[0] != '@';
  }

  /** A name is left as it is exactly when it already has a single leading marker. */
  lemma NormalizedExactly(name: string)
    ensures NormalizeParameterName(name) == name <==> |name| > 0 && name[0] == '@' && (|name| == 1 || name[1] != '@')
  {
    NormalizedNameShape(name);
    if |name| > 0 && name[0] == '@' && (|name| == 1 || name[1] != '@') {
      assert TrimStartChar(name[1..], '@') == name[1..];
    }
  }

  /** The SQL text refers to a parameter by the name ReadByExpression binds it under, and
      renaming the parameter to that name (as ReadByExpression does in place) does not
      change the text. */
  lemma ParameterMarkerMatchesBinding(p: Parameter)
    ensures ToSqlStatement(ParameterExpression(p)) == Ok(NormalizeParameterName(p.name))
    ensures ToSqlStatement(ParameterExpression(p.(name := NormalizeParameterName(p.name))))
         == ToSqlStatement(ParameterExpression(p))
  {
    NormalizeIdempotent(p.name);
  }

  // ---------------------------------------------------------------- constants

  /** A constant of a numeric type is written bare; any other is quoted around the
      value's text, with embedded quotes left as they are. */
  lemma ConstantRendering(value: Value, valueType: ClrType)
    ensures TypeIsNumber(valueType.code) && value.Integer? ==>
              ToSqlConstantString(value, valueType) == Ok(IntToString(value.i))
    ensures TypeIsNumber(valueType.code) && value.Null? ==>
              ToSqlConstantString(value, valueType) == Err(NullReference)
    ensures !TypeIsNumber(valueType.code) ==>
              var r := ToSqlConstantString(value, valueType).value;
              && ToSqlConstantString(value, valueType).Ok?
              && |r| >= 2 && r[0] == '\'' && r[|r| - 1] == '\''
              && r[1..|r| - 1] == FormatArgument(value)
  {
  }

  /** An integer constant is quoted exactly when its type is not numeric. */
  lemma IntegerQuotedIffNotNumber(i: int, valueType: ClrType)
    ensures ToSqlConstantString(Integer(i), valueType).Ok?
    ensures ToSqlConstantString(Integer(i), valueType).value[0] == '\'' <==> !TypeIsNumber(valueType.code)
  {
    var digits := NatToString(if i < 0 then -i else i);
    assert '0' <= digits[0] <= '9';
  }

  lemma ConstantExamples()
    ensures ToSqlStatement(ConstantExpression(Integer(42), ClrType("System", "Int32", Int32))) == Ok("42")
    ensures ToSqlStatement(ConstantExpression(Text("x"), ClrType("System", "String", String))) == Ok("'x'")
    ensures ToSqlStatement(ConstantExpression(Text("O'Brien"), ClrType("System", "String", String))) == Ok("'O'Brien'")
  {
    assert NatToString(42) == "42" by {
      assert NatToString(42) == NatToString(4) + [DigitChar(2)];
    }
    assert IntToString(42) == "42";
    assert TypeIsNumber(Int32) && !TypeIsNumber(String);
    assert "'" + "x" + "'" == "'x'";
    assert "'" + "O'Brien" + "'" == "'O'Brien'";
  }

  // ---------------------------------------------------------------- members and tables

  /** An order expression renders as the member it orders by, followed by its direction. */
  lemma OrderExtendsMember(ns: seq<string>, o: string, m: string, d: SortDirection)
    ensures ToSqlStatement(OrderExpression(ns, o, m, d)).value
         == ToSqlStatement(MemberExpression(ns, o, m)).value + (if d == Ascending then " ASC" else " DESC")
  {
  }

  /** A member whose namespace parts and object name spell a type is that type's table
      name followed by the bracketed column. */
  lemma MemberColumnOfTable(ns: seq<string>, t: ClrType, m: string)
    requires Join(".", ns) == t.namespace
    ensures ToSqlStatement(MemberExpression(ns, t.name, m)) == Ok(ToTableName(t) + ".[" + m + "]")
  {
    assert MemberText(ns, t.name, m) == ("[" + t.namespace + "." + t.name + "]") + ".[" + m + "]";
  }

  /** Type names hold no dot, so the table name identifies namespace and name. */
  lemma TableNameInjective(a: ClrType, b: ClrType)
    requires forall i :: 0 <= i < |a.name| ==> a.name[i] != '.'
    requires forall i :: 0 <= i < |b.name| ==> b.name[i] != '.'
    requires ToTableName(a) == ToTableName(b)
    ensures a.namespace == b.namespace && a.name == b.name
  {
    var s := ToTableName(a);
    assert s == ToTableName(b);
    var la, lb := |a.name|, |b.name|;
    assert forall k :: 0 <= k < la ==> s[|s| - 1 - la + k] == a.name[k];
    assert forall k :: 0 <= k < lb ==> s[|s| - 1 - lb + k] == b.name[k];
    assert s[|s| - 2 - la] == '.' && s[|s| - 2 - lb] == '.';
    assert a.name == s[|s| - 1 - la..|s| - 1] == b.name;
    assert a.namespace == s[1..|s| - 2 - la] == b.namespace;
  }

  // ---------------------------------------------------------------- lists and clauses

  lemma RenderEachAppend(es: seq<QueryExpression>, e: QueryExpression)
    requires RenderEach(es).Ok? && ToSqlStatement(e).Ok?
    ensures RenderEach(es + [e]) == Ok(RenderEach(es).value + [ToSqlStatement(e).value])
  {
    var all := es + [e];
    assert forall i :: 0 <= i < |es| ==> all[i] == es[i];
    assert all[|es|] == e;
    assert forall i :: 0 <= i < |all| ==> ToSqlStatement(all[i]).Ok?;
    var expected := RenderEach(es).value + [ToSqlStatement(e).value];
    var r := RenderEach(all).value;
    assert forall i :: 0 <= i < |all| ==> r[i] == expected[i];
    assert r == expected;
  }

  lemma RenderSingle(e: QueryExpression)
    requires ToSqlStatement(e).Ok?
    ensures RenderEach([e]) == Ok([ToSqlStatement(e).value])
  {
    assert [e][0] == e;
    var r := RenderEach([e]);
    assert r.Ok?;
    assert r.value == [ToSqlStatement(e).value];
  }

  /** The WHERE clause is empty without filters, and fails exactly when a filter fails. */
  lemma WhereClauseFails(filters: seq<QueryExpression>)
    ensures WhereClause([]) == Ok("")
    ensures WhereClause(filters).Ok? <==> forall i :: 0 <= i < |filters| ==> ToSqlStatement(filters[i]).Ok?
  {
  }

  /** One filter is parenthesised after `WHERE `. */
  lemma WhereSingle(f: QueryExpression)
    requires ToSqlStatement(f).Ok?
    ensures WhereClause([f]) == Ok("WHERE (" + ToSqlStatement(f).value + ")")
  {
    RenderSingle(f);
    var x := ToSqlStatement(f).value;
    assert Parenthesize([x]) == ["(" + x + ")"];
    assert Join(" AND ", ["(" + x + ")"]) == "(" + x + ")";
    assert "WHERE " + ("(" + x + ")") == "WHERE (" + x + ")";
  }

  /** A further filter is added, parenthesised, after ` AND `. */
  lemma WhereAppend(filters: seq<QueryExpression>, f: QueryExpression)
    requires ToSqlStatement(f).Ok? && filters != [] && WhereClause(filters).Ok?
    ensures WhereClause(filters + [f]) == Ok(WhereClause(filters).value + " AND (" + ToSqlStatement(f).value + ")")
  {
    var rs := RenderEach(filters).value;
    var x := ToSqlStatement(f).value;
    RenderEachAppend(filters, f);
    assert WhereClause(filters + [f]) == Ok("WHERE " + Join(" AND ", Parenthesize(rs + [x])));
    WhereText(rs, x);
  }

  lemma WhereText(rs: seq<string>, x: string)
    requires rs != []
    ensures "WHERE " + Join(" AND ", Parenthesize(rs + [x])) == "WHERE " + Join(" AND ", Parenthesize(rs)) + " AND (" + x + ")"
  {
    assert Parenthesize(rs + [x]) == Parenthesize(rs) + ["(" + x + ")"];
    JoinAppend(" AND ", Parenthesize(rs), "(" + x + ")");
  }

  /** Two filters: `WHERE (a) AND (b)`. */
  lemma WhereTwoFilters(f: QueryExpression, g: QueryExpression)
    requires ToSqlStatement(f).Ok? && ToSqlStatement(g).Ok?
    ensures WhereClause([f, g]) == Ok("WHERE (" + ToSqlStatement(f).value + ") AND (" + ToSqlStatement(g).value + ")")
  {
    WhereSingle(f);
    WhereAppend([f], g);
    assert [f] + [g] == [f, g];
    var x, y := ToSqlStatement(f).value, ToSqlStatement(g).value;
    assert "WHERE (" + x + ")" + " AND (" + y + ")" == "WHERE (" + x + ") AND (" + y + ")";
  }

  /** The FROM clause over source types: `FROM ` and the table names joined with ", ". */
  lemma TypesFromShape(types: seq<ClrType>, t: ClrType)
    ensures TypesFrom([]) == "FROM "
    ensures TypesFrom([t]) == "FROM " + ToTableName(t)
    ensures types != [] ==> TypesFrom(types + [t]) == TypesFrom(types) + ", " + ToTableName(t)
  {
    assert TableNames([t]) == [ToTableName(t)];
    if types != [] {
      assert TableNames(types + [t]) == TableNames(types) + [ToTableName(t)];
      JoinAppend(", ", TableNames(types), ToTableName(t));
    }
  }

  /** With a sub-query the source types are ignored: the sub-query is compiled, wrapped
      as `FROM (...) AS F{q}`, and its failure is the query's failure. */
  lemma SubQueryReplacesTypes(q: ExpressionQuery, types: seq<ClrType>)
    requires q.subQuery.Some?
    ensures SelectQuery(q.(types := types)) == SelectQuery(q)
    ensures SelectQuery(q.subQuery.value).Ok? ==>
              FromClause(q) == Ok("FROM (" + SelectQuery(q.subQuery.value).value + ") AS F" + NatToString(q.queryIndex))
    ensures SelectQuery(q.subQuery.value).Err? ==> SelectQuery(q) == SelectQuery(q.subQuery.value)
  {
    var q' := q.(types := types);
    assert FromClause(q') == FromClause(q);
    assert CoreQuery(q') == CoreQuery(q) by {
      if FromClause(q).Ok? {
        assert Assemble(FromClause(q).value, q') == Assemble(FromClause(q).value, q);
      }
    }
  }

  lemma ClauseEndsSolid(inner: string)
    ensures EndsSolid("(" + inner + ")")
  {
  }

  /** A non-empty WHERE clause ends in its last filter's closing parenthesis. */
  lemma WhereEndsSolid(filters: seq<QueryExpression>)
    requires filters != [] && WhereClause(filters).Ok?
    ensures EndsSolid(WhereClause(filters).value)
  {
    var ps := Parenthesize(RenderEach(filters).value);
    ClauseEndsSolid(RenderEach(filters).value[|ps| - 1]);
    JoinEndsSolid(" AND ", ps);
    EndsSolidSuffix("WHERE ", Join(" AND ", ps));
  }

  /** The FROM clause ends solid unless it names no source at all. */
  lemma FromEndsSolid(q: ExpressionQuery)
    requires FromClause(q).Ok? && (q.subQuery.Some? || q.types != [])
    ensures EndsSolid(FromClause(q).value)
  {
    if q.subQuery.Some? {
      var d := NatToString(q.queryIndex);
      EndsSolidSuffix("FROM (" + SelectQuery(q.subQuery.value).value + ") AS F", d);
    } else {
      var names := TableNames(q.types);
      assert EndsSolid(names[|names| - 1]);
      JoinEndsSolid(", ", names);
      EndsSolidSuffix("FROM ", Join(", ", names));
    }
  }

  // ---------------------------------------------------------------- assembly

  lemma HasSolidAt(s: string, i: nat)
    requires i < |s| && !IsWhiteSpace(s[i])
    ensures HasSolid(s)
  {
  }

  // Trimming `select from where orderBy`: one lemma per shape of the clauses.

  lemma TrimAssemblyStart(select: string, from: string, where: string, orderBy: string)
    requires |select| > 0 && !IsWhiteSpace(select[0])
    ensures Trim(select + " " + from + " " + where + " " + orderBy) == TrimEnd(select + " " + from + " " + where + " " + orderBy)
  {
    var e := select + " " + from + " " + where + " " + orderBy;
    assert e[0] == select[0];
  }

  lemma TrimAssemblyPrefix(select: string, from: string, where: string, orderBy: string)
    requires |from| > 0 && !IsWhiteSpace(from[0])
    ensures select <= TrimEnd(select + " " + from + " " + where + " " + orderBy)
  {
    var rest := " " + from + " " + where + " " + orderBy;
    assert rest[1] == from[0];
    HasSolidAt(rest, 1);
    TrimEndKeepsPrefix(select, rest);
    assert select + rest == select + " " + from + " " + where + " " + orderBy;
  }

  lemma TrimAssemblyOrdered(select: string, from: string, where: string, orderBy: string)
    requires EndsSolid(orderBy)
    ensures TrimEnd(select + " " + from + " " + where + " " + orderBy) == select + " " + from + " " + where + " " + orderBy
  {
    var e := select + " " + from + " " + where + " " + orderBy;
    EndsSolidSuffix(select + " " + from + " " + where + " ", orderBy);
    TrimEndUnique(e, e);
  }

  lemma TrimAssemblyWhere(select: string, from: string, where: string)
    requires EndsSolid(where)
    ensures TrimEnd(select + " " + from + " " + where + " " + "") == select + " " + from + " " + where
  {
    var a := select + " " + from + " " + where;
    assert select + " " + from + " " + where + " " + "" == a + " ";
    TrimEndDropsBlank(a, " ");
    EndsSolidSuffix(select + " " + from + " ", where);
    TrimEndUnique(a, a);
  }

  lemma TrimAssemblyBare(select: string, from: string)
    requires |from| > 0 && !IsWhiteSpace(from[0])
    ensures TrimEnd(select + " " + from + " " + "" + " " + "") == select + " " + TrimEnd(from)
  {
    assert select + " " + from + " " + "" + " " + "" == (select + " " + from) + "  ";
    TrimEndDropsBlank(select + " " + from, "  ");
    HasSolidAt(from, 0);
    TrimEndKeepsPrefix(select + " ", from);
  }

  /** Assembling `select from where orderBy` and trimming only touches the end: the
      SELECT list always survives intact, interior double spaces (an empty WHERE) stay,
      and a trailing ORDER BY appears exactly when there are sorts. */
  lemma CoreQueryShape(q: ExpressionQuery)
    requires CoreQuery(q).Ok?
    ensures FromClause(q).Ok? && WhereClause(q.filters).Ok? && OrderByClause(q.sorts).Ok?
    ensures SelectClause(q.projections, q.queryIndex, OrderByClause(q.sorts).value).Ok?
    ensures var from := FromClause(q).value;
            var where := WhereClause(q.filters).value;
            var orderBy := OrderByClause(q.sorts).value;
            var select := SelectClause(q.projections, q.queryIndex, orderBy).value;
            var core := CoreQuery(q).value;
            && select <= core
            && (orderBy.Some? && EndsSolid(orderBy.value) ==> core == select + " " + from + " " + where + " " + orderBy.value)
            && (orderBy.None? && where != "" ==> core == select + " " + from + " " + where)
            && (orderBy.None? && where == "" ==> core == select + " " + TrimEnd(from))
  {
    var from := FromClause(q).value;
    var where := WhereClause(q.filters).value;
    var orderBy := OrderByClause(q.sorts).value;
    var select := SelectClause(q.projections, q.queryIndex, orderBy).value;
    CoreQueryParts(q);
    FromStartsSolid(q);
    SelectStartsSolid(q.projections, q.queryIndex, orderBy);
    if where != "" {
      WhereEndsSolid(q.filters);
    }
    AssemblyShape(select, from, where, orderBy);
  }

  lemma CoreQueryParts(q: ExpressionQuery)
    requires CoreQuery(q).Ok?
    ensures FromClause(q).Ok? && WhereClause(q.filters).Ok? && OrderByClause(q.sorts).Ok?
    ensures SelectClause(q.projections, q.queryIndex, OrderByClause(q.sorts).value).Ok?
    ensures CoreQuery(q).value
         == Trim(SelectClause(q.projections, q.queryIndex, OrderByClause(q.sorts).value).value + " " + FromClause(q).value
                 + " " + WhereClause(q.filters).value + " " + OrderByClause(q.sorts).value.GetOr(""))
  {
  }

  lemma FromStartsSolid(q: ExpressionQuery)
    requires FromClause(q).Ok?
    ensures |FromClause(q).value| > 0 && FromClause(q).value[0] == 'F'
  {
  }

  lemma SelectStartsSolid(projections: seq<QueryExpression>, queryIndex: nat, orderBy: Option<string>)
    requires SelectClause(projections, queryIndex, orderBy).Ok?
    ensures |SelectClause(projections, queryIndex, orderBy).value| > 0 && SelectClause(projections, queryIndex, orderBy).value[0] == 'S'
  {
  }

  /** The four shapes put together, over the clause texts alone. */
  lemma AssemblyShape(select: string, from: string, where: string, orderBy: Option<string>)
    requires |select| > 0 && !IsWhiteSpace(select[0]) && |from| > 0 && !IsWhiteSpace(from[0])
    requires where != "" ==> EndsSolid(where)
    ensures var core := Trim(select + " " + from + " " + where + " " + orderBy.GetOr(""));
            && select <= core
            && (orderBy.Some? && EndsSolid(orderBy.value) ==> core == select + " " + from + " " + where + " " + orderBy.value)
            && (orderBy.None? && where != "" ==> core == select + " " + from + " " + where)
            && (orderBy.None? && where == "" ==> core == select + " " + TrimEnd(from))
  {
    var o := orderBy.GetOr("");
    TrimAssemblyStart(select, from, where, o);
    TrimAssemblyPrefix(select, from, where, o);
    if orderBy.Some? && EndsSolid(o) {
      TrimAssemblyOrdered(select, from, where, o);
    } else if orderBy.None? && where != "" {
      TrimAssemblyWhere(select, from, where);
    } else if orderBy.None? {
      TrimAssemblyBare(select, from);
    }
  }

  /** Every assembled query starts with its row-number column: the window is ordered
      by the sorts, or by Id without them, and the alias is RowId{q}; without
      projections every column follows as `*`. */
  lemma RowNumberWindow(q: ExpressionQuery)
    requires CoreQuery(q).Ok? && q.projections == []
    ensures RenderEach(q.sorts).Ok?
    ensures var window := if q.sorts == [] then "ORDER BY Id" else "ORDER BY " + Join(",", RenderEach(q.sorts).value);
            "SELECT ROW_NUMBER() OVER (" + window + ") AS RowId" + NatToString(q.queryIndex) + ", *" <= CoreQuery(q).value
  {
    CoreQueryShape(q);
    WindowOfSorts(q.sorts);
  }

  /** With projections, they follow the row-number column, joined with commas. */
  lemma RowNumberWindowProjected(q: ExpressionQuery)
    requires CoreQuery(q).Ok? && q.projections != []
    ensures RenderEach(q.sorts).Ok? && RenderEach(q.projections).Ok?
    ensures var window := if q.sorts == [] then "ORDER BY Id" else "ORDER BY " + Join(",", RenderEach(q.sorts).value);
            "SELECT ROW_NUMBER() OVER(" + window + ") AS RowId" + NatToString(q.queryIndex) + ", "
              + Join(",", RenderEach(q.projections).value) <= CoreQuery(q).value
  {
    CoreQueryShape(q);
    var orderBy := OrderByClause(q.sorts).value;
    WindowOfSorts(q.sorts);
    SelectClauseProjected(q.projections, q.queryIndex, orderBy);
  }

  /** The row-number window: the sorts' ORDER BY, or `ORDER BY Id` without sorts. */
  lemma WindowOfSorts(sorts: seq<QueryExpression>)
    requires OrderByClause(sorts).Ok?
    ensures RenderEach(sorts).Ok?
    ensures Window(OrderByClause(sorts).value) == if sorts == [] then "ORDER BY Id" else "ORDER BY " + Join(",", RenderEach(sorts).value)
  {
  }

  lemma SelectClauseProjected(projections: seq<QueryExpression>, queryIndex: nat, orderBy: Option<string>)
    requires projections != [] && SelectClause(projections, queryIndex, orderBy).Ok?
    ensures RenderEach(projections).Ok?
    ensures SelectClause(projections, queryIndex, orderBy).value
         == "SELECT ROW_NUMBER() OVER(" + Window(orderBy) + ") AS RowId" + NatToString(queryIndex) + ", " + Join(",", RenderEach(projections).value)
  {
  }

  /** An order expression ends in ASC or DESC, never in white space. */
  lemma OrderEndsSolid(e: QueryExpression)
    requires e.OrderExpression?
    ensures EndsSolid(ToSqlStatement(e).value)
  {
    var d := if e.direction == Ascending then "ASC" else "DESC";
    EndsSolidSuffix(MemberText(e.namespace, e.objectName, e.memberName) + " ", d);
  }

  /** When the sorts are order expressions, the query (without partitions) ends in the
      ORDER BY clause, preceded by whatever the WHERE clause is (even empty). */
  lemma TrailingOrderBy(q: ExpressionQuery)
    requires q.partitions == [] && SelectQuery(q).Ok? && q.sorts != []
    requires forall i :: 0 <= i < |q.sorts| ==> q.sorts[i].OrderExpression?
    ensures FromClause(q).Ok? && WhereClause(q.filters).Ok? && RenderEach(q.sorts).Ok?
    ensures SelectClause(q.projections, q.queryIndex, Some("ORDER BY " + Join(",", RenderEach(q.sorts).value))).Ok?
    ensures var orderBy := "ORDER BY " + Join(",", RenderEach(q.sorts).value);
            SelectQuery(q).value == SelectClause(q.projections, q.queryIndex, Some(orderBy)).value
              + " " + FromClause(q).value + " " + WhereClause(q.filters).value + " " + orderBy
  {
    NoPartitionsUnchanged(q);
    TrailingOrderByCore(q);
  }

  lemma TrailingOrderByCore(q: ExpressionQuery)
    requires CoreQuery(q).Ok? && q.sorts != []
    requires forall i :: 0 <= i < |q.sorts| ==> q.sorts[i].OrderExpression?
    ensures FromClause(q).Ok? && WhereClause(q.filters).Ok? && RenderEach(q.sorts).Ok?
    ensures SelectClause(q.projections, q.queryIndex, Some("ORDER BY " + Join(",", RenderEach(q.sorts).value))).Ok?
    ensures var orderBy := "ORDER BY " + Join(",", RenderEach(q.sorts).value);
            CoreQuery(q).value == SelectClause(q.projections, q.queryIndex, Some(orderBy)).value
              + " " + FromClause(q).value + " " + WhereClause(q.filters).value + " " + orderBy
  {
    CoreQueryShape(q);
    var rs := RenderEach(q.sorts).value;
    assert OrderByClause(q.sorts) == Ok(Some("ORDER BY " + Join(",", rs)));
    OrderEndsSolid(q.sorts[|q.sorts| - 1]);
    JoinEndsSolid(",", rs);
    EndsSolidSuffix("ORDER BY ", Join(",", rs));
  }

  /** One sort over one type, with no filters, projections or partitions: the sort is
      both the window and the trailing ORDER BY, and the empty WHERE leaves two spaces. */
  lemma OneTypeOneSort(t: ClrType, sort: QueryExpression, queryIndex: nat)
    requires sort.OrderExpression?
    ensures var s := ToSqlStatement(sort).value;
            SelectQuery(ExpressionQuery([t], None, [], [sort], [], [], [], queryIndex))
            == Ok("SELECT ROW_NUMBER() OVER (ORDER BY " + s + ") AS RowId" + NatToString(queryIndex)
                  + ", * FROM " + ToTableName(t) + "  ORDER BY " + s)
  {
    var q := ExpressionQuery([t], None, [], [sort], [], [], [], queryIndex);
    var s := ToSqlStatement(sort).value;
    var idx := NatToString(queryIndex);
    var orderBy := "ORDER BY " + s;
    var select := "SELECT ROW_NUMBER() OVER (" + orderBy + ") AS RowId" + idx + ", *";
    var from := "FROM " + ToTableName(t);
    OneTypeOneSortClauses(t, sort, queryIndex);
    NoPartitionsUnchanged(q);
    OrderEndsSolid(sort);
    EndsSolidSuffix("ORDER BY ", s);
    CoreQueryShape(q);
    OneTypeOneSortText(s, idx, ToTableName(t));
  }

  lemma OneTypeOneSortClauses(t: ClrType, sort: QueryExpression, queryIndex: nat)
    requires sort.OrderExpression?
    ensures var q := ExpressionQuery([t], None, [], [sort], [], [], [], queryIndex);
            var orderBy := "ORDER BY " + ToSqlStatement(sort).value;
            && CoreQuery(q).Ok?
            && OrderByClause(q.sorts) == Ok(Some(orderBy))
            && SelectClause([], queryIndex, Some(orderBy)) == Ok("SELECT ROW_NUMBER() OVER (" + orderBy + ") AS RowId" + NatToString(queryIndex) + ", *")
            && FromClause(q) == Ok("FROM " + ToTableName(t))
            && WhereClause(q.filters) == Ok("")
  {
    var q := ExpressionQuery([t], None, [], [sort], [], [], [], queryIndex);
    var s := ToSqlStatement(sort).value;
    RenderSingle(sort);
    assert Join(",", [s]) == s;
    TypesFromShape([], t);
  }

  lemma OneTypeOneSortText(s: string, idx: string, table: string)
    ensures "SELECT ROW_NUMBER() OVER (" + ("ORDER BY " + s) + ") AS RowId" + idx + ", *" + " " + ("FROM " + table)
              + " " + "" + " " + ("ORDER BY " + s)
         == "SELECT ROW_NUMBER() OVER (ORDER BY " + s + ") AS RowId" + idx + ", * FROM " + table + "  ORDER BY " + s
  {
    assert "SELECT ROW_NUMBER() OVER (" + "ORDER BY " == "SELECT ROW_NUMBER() OVER (ORDER BY ";
    assert ", *" + " " + "FROM " == ", * FROM ";
    assert " " + "" + " " + "ORDER BY " == "  ORDER BY ";
  }

  /** The pieces of the example `Foo.Bar` ordered by its `Bar` member, ascending. */
  lemma FooBarExample()
    ensures ToSqlStatement(OrderExpression(["Foo"], "Bar", "Bar", Ascending)) == Ok("[Foo.Bar].[Bar] ASC")
    ensures ToTableName(ClrType("Foo", "Bar", Object)) == "[Foo.Bar]"
  {
    assert Join(".", ["Foo"]) == "Foo";
    assert MemberText(["Foo"], "Bar", "Bar") == "[Foo.Bar].[Bar]";
    assert "[Foo.Bar].[Bar]" + " " + "ASC" == "[Foo.Bar].[Bar] ASC";
  }

  // ---------------------------------------------------------------- partitions

  /** What one partition entry puts before and after the query text. */
  function PartitionAffix(e: QueryExpression, queryIndex: nat): Result<(string, string), Fault> {
    match e
    case MethodExpression(m, argument) =>
      if m == First || m == FirstOrDefault then Ok(("SELECT TOP 1 ", ""))
      else if m == Last || m == LastOrDefault then Ok(("SELECT TOP 1 ", " ORDER BY RowId" + NatToString(queryIndex) + " DESC"))
      else if m == MethodType.Single || m == SingleOrDefault then Ok(("SELECT ", ""))
      else if m == Take then
        var count :- RenderArgument(argument);
        Ok(("SELECT TOP " + count + " ", ""))
      else
        var count :- RenderArgument(argument);
        Ok(("", " WHERE RowId" + NatToString(queryIndex) + " > " + count))
    case _ => Ok(("", ""))
  }

  /** The accumulated text before and after: later entries' prefixes go in front of
      earlier ones, later suffixes after earlier ones. */
  function Affixes(parts: seq<QueryExpression>, queryIndex: nat): Result<(string, string), Fault>
    decreases |parts|
  {
    if parts == [] then Ok(("", ""))
    else
      var before :- Affixes(parts[..|parts| - 1], queryIndex);
      var last :- PartitionAffix(parts[|parts| - 1], queryIndex);
      Ok((last.0 + before.0, before.1 + last.1))
  }

  lemma PartitionStepAffix(sqlQuery: string, e: QueryExpression, queryIndex: nat)
    ensures ApplyPartition(sqlQuery, e, queryIndex) ==
            match PartitionAffix(e, queryIndex)
            case Ok(a) => Ok(a.0 + sqlQuery + a.1)
            case Err(f) => Err(f)
  {
    assert "" + sqlQuery + "" == sqlQuery;
    match e
    case MethodExpression(m, argument) =>
      var idx := NatToString(queryIndex);
      assert "SELECT TOP 1 " + sqlQuery + "" == "SELECT TOP 1 " + sqlQuery;
      assert "SELECT " + sqlQuery + "" == "SELECT " + sqlQuery;
      assert "" + sqlQuery + (" WHERE RowId" + idx + " > " + "") == sqlQuery + " WHERE RowId" + idx + " > " + "";
      if RenderArgument(argument).Ok? {
        var n := RenderArgument(argument).value;
        assert ("SELECT TOP " + n + " ") + sqlQuery + "" == "SELECT TOP " + n + " " + sqlQuery;
        assert "" + sqlQuery + (" WHERE RowId" + idx + " > " + n) == sqlQuery + " WHERE RowId" + idx + " > " + n;
      }
      assert ("SELECT TOP 1 ") + sqlQuery + (" ORDER BY RowId" + idx + " DESC") == "SELECT TOP 1 " + sqlQuery + " ORDER BY RowId" + idx + " DESC";
    case _ =>
  }

  /** The partition loop never re-wraps: each entry only adds text in front of or after
      the query, so the result is all prefixes, the query, then all suffixes. */
  lemma {:induction false} PartitionsOnlyAffix(sqlQuery: string, parts: seq<QueryExpression>, queryIndex: nat)
    ensures ApplyPartitions(sqlQuery, parts, queryIndex) ==
            match Affixes(parts, queryIndex)
            case Ok(a) => Ok(a.0 + sqlQuery + a.1)
            case Err(f) => Err(f)
    decreases |parts|
  {
    if parts != [] {
      var init, last := parts[..|parts| - 1], parts[|parts| - 1];
      PartitionsOnlyAffix(sqlQuery, init, queryIndex);
      if Affixes(init, queryIndex).Ok? {
        var a := Affixes(init, queryIndex).value;
        PartitionStepAffix(a.0 + sqlQuery + a.1, last, queryIndex);
        AffixesStep(sqlQuery, parts, queryIndex, a);
      }
    } else {
      assert "" + sqlQuery + "" == sqlQuery;
    }
  }

  /** One more entry: it is applied to what the earlier entries built, and its affix
      goes around theirs. */
  lemma AffixesStep(sqlQuery: string, parts: seq<QueryExpression>, queryIndex: nat, a: (string, string))
    requires parts != [] && Affixes(parts[..|parts| - 1], queryIndex) == Ok(a)
    requires ApplyPartitions(sqlQuery, parts[..|parts| - 1], queryIndex) == Ok(a.0 + sqlQuery + a.1)
    ensures ApplyPartitions(sqlQuery, parts, queryIndex) == ApplyPartition(a.0 + sqlQuery + a.1, parts[|parts| - 1], queryIndex)
    ensures Affixes(parts, queryIndex) ==
            match PartitionAffix(parts[|parts| - 1], queryIndex)
            case Ok(b) => Ok((b.0 + a.0, a.1 + b.1))
            case Err(f) => Err(f)
    ensures PartitionAffix(parts[|parts| - 1], queryIndex).Ok? ==>
              var b := PartitionAffix(parts[|parts| - 1], queryIndex).value;
              b.0 + (a.0 + sqlQuery + a.1) + b.1 == (b.0 + a.0) + sqlQuery + (a.1 + b.1)
  {
    var r := PartitionAffix(parts[|parts| - 1], queryIndex);
    AffixesUnfold(parts, queryIndex, a, r);
    if r.Ok? {
      AffixAround(sqlQuery, a, r.value);
    }
  }

  lemma AffixesUnfold(parts: seq<QueryExpression>, queryIndex: nat, a: (string, string), r: Result<(string, string), Fault>)
    requires parts != [] && Affixes(parts[..|parts| - 1], queryIndex) == Ok(a)
    requires PartitionAffix(parts[|parts| - 1], queryIndex) == r
    ensures Affixes(parts, queryIndex) == match r case Ok(b) => Ok((b.0 + a.0, a.1 + b.1)) case Err(f) => Err(f)
  {
  }

  lemma AffixAround(x: string, a: (string, string), b: (string, string))
    ensures b.0 + (a.0 + x + a.1) + b.1 == (b.0 + a.0) + x + (a.1 + b.1)
  {
  }

  /** With partitions, the assembled query is wrapped exactly once as
      `* FROM (...) AS P{q}` and then only prefixed and suffixed. */
  lemma PartitionedQueryShape(q: ExpressionQuery)
    requires q.partitions != [] && CoreQuery(q).Ok?
    ensures var core := CoreQuery(q).value;
            SelectQuery(q) ==
              match Affixes(q.partitions, q.queryIndex)
              case Err(f) => Err(f)
              case Ok(a) => Ok(a.0 + "* FROM (" + core + ") AS P" + NatToString(q.queryIndex) + a.1)
  {
    var core := CoreQuery(q).value;
    var wrapped := PartitionWrap(core, q.queryIndex);
    assert SelectQuery(q) == ApplyPartitions(wrapped, q.partitions, q.queryIndex);
    PartitionsOnlyAffix(wrapped, q.partitions, q.queryIndex);
    if Affixes(q.partitions, q.queryIndex).Ok? {
      var a := Affixes(q.partitions, q.queryIndex).value;
      WrapBetween(a.0, core, q.queryIndex, a.1);
    }
  }

  lemma WrapBetween(prefix: string, core: string, queryIndex: nat, suffix: string)
    ensures prefix + PartitionWrap(core, queryIndex) + suffix
         == prefix + "* FROM (" + core + ") AS P" + NatToString(queryIndex) + suffix
  {
  }

  /** Without partitions the assembled query is the result. */
  lemma NoPartitionsUnchanged(q: ExpressionQuery)
    requires q.partitions == []
    ensures SelectQuery(q) == CoreQuery(q)
  {
  }

  /** Entries that are not method expressions leave the text as it is. */
  lemma {:induction false} NonMethodEntriesIgnored(sqlQuery: string, parts: seq<QueryExpression>, queryIndex: nat)
    requires forall i :: 0 <= i < |parts| ==> !parts[i].MethodExpression?
    ensures ApplyPartitions(sqlQuery, parts, queryIndex) == Ok(sqlQuery)
    decreases |parts|
  {
    if parts != [] {
      NonMethodEntriesIgnored(sqlQuery, parts[..|parts| - 1], queryIndex);
    }
  }

  /** Take(n): `SELECT TOP n * FROM (...) AS P{q}`; without its argument it throws. */
  lemma TakeShape(core: string, c: QueryExpression, queryIndex: nat)
    requires ToSqlStatement(c).Ok?
    ensures ApplyPartitions(PartitionWrap(core, queryIndex), [MethodExpression(Take, Some(c))], queryIndex)
         == Ok("SELECT TOP " + ToSqlStatement(c).value + " * FROM (" + core + ") AS P" + NatToString(queryIndex))
    ensures ApplyPartitions(PartitionWrap(core, queryIndex), [MethodExpression(Take, None)], queryIndex)
         == Err(NullReference)
  {
    var wrapped := PartitionWrap(core, queryIndex);
    ApplySingle(wrapped, MethodExpression(Take, Some(c)), queryIndex);
    ApplySingle(wrapped, MethodExpression(Take, None), queryIndex);
    var n := ToSqlStatement(c).value;
    assert ApplyPartition(wrapped, MethodExpression(Take, Some(c)), queryIndex) == Ok("SELECT TOP " + n + " " + wrapped);
    TakeText(n, core, NatToString(queryIndex));
  }

  /** A single entry is applied once. */
  lemma ApplySingle(sqlQuery: string, e: QueryExpression, queryIndex: nat)
    ensures ApplyPartitions(sqlQuery, [e], queryIndex) == ApplyPartition(sqlQuery, e, queryIndex)
  {
    assert [e][..0] == [];
  }

  lemma TakeText(n: string, core: string, idx: string)
    ensures "SELECT TOP " + n + " " + ("* FROM (" + core + ") AS P" + idx) == "SELECT TOP " + n + " * FROM (" + core + ") AS P" + idx
  {
    assert " " + "* FROM (" == " * FROM (";
  }

  /** Last: `SELECT TOP 1 * FROM (...) AS P{q} ORDER BY RowId{q} DESC`. */
  lemma LastShape(core: string, queryIndex: nat)
    ensures ApplyPartitions(PartitionWrap(core, queryIndex), [MethodExpression(Last, None)], queryIndex)
         == Ok("SELECT TOP 1 * FROM (" + core + ") AS P" + NatToString(queryIndex) + " ORDER BY RowId" + NatToString(queryIndex) + " DESC")
  {
    assert [MethodExpression(Last, None)][..0] == [];
    assert "SELECT TOP 1 " + "* FROM (" == "SELECT TOP 1 * FROM (";
    assert "SELECT TOP 1 " + PartitionWrap(core, queryIndex) == "SELECT TOP 1 * FROM (" + core + ") AS P" + NatToString(queryIndex);
  }

  /** Skip(a) alone: the condition follows the wrap, leaving a text that is not a
      complete SELECT. */
  lemma SkipShape(core: string, a: QueryExpression, queryIndex: nat)
    requires ToSqlStatement(a).Ok?
    ensures ApplyPartitions(PartitionWrap(core, queryIndex), [MethodExpression(Skip, Some(a))], queryIndex)
         == Ok(PartitionWrap(core, queryIndex) + " WHERE RowId" + NatToString(queryIndex) + " > " + ToSqlStatement(a).value)
  {
    assert [MethodExpression(Skip, Some(a))][..0] == [];
  }

  /** Skip(a) then Take(b) shares the single wrap: the skip condition follows it, outside
      the parentheses. */
  lemma SkipThenTakeShape(core: string, a: QueryExpression, b: QueryExpression, queryIndex: nat)
    requires ToSqlStatement(a).Ok? && ToSqlStatement(b).Ok?
    ensures var idx := NatToString(queryIndex);
            ApplyPartitions(PartitionWrap(core, queryIndex), [MethodExpression(Skip, Some(a)), MethodExpression(Take, Some(b))], queryIndex)
            == Ok("SELECT TOP " + ToSqlStatement(b).value + " * FROM (" + core + ") AS P" + idx + " WHERE RowId" + idx + " > " + ToSqlStatement(a).value)
  {
    var skip, take := MethodExpression(Skip, Some(a)), MethodExpression(Take, Some(b));
    var w := PartitionWrap(core, queryIndex);
    assert [skip, take][..1] == [skip];
    SkipShape(core, a, queryIndex);
    var idx, na, nb := NatToString(queryIndex), ToSqlStatement(a).value, ToSqlStatement(b).value;
    var skipped := w + " WHERE RowId" + idx + " > " + na;
    assert ApplyPartitions(w, [skip, take], queryIndex) == ApplyPartition(skipped, take, queryIndex);
    TakeAfterSkipText(core, idx, na, nb);
  }

  lemma TakeAfterSkipText(core: string, idx: string, na: string, nb: string)
    ensures "SELECT TOP " + nb + " " + ("* FROM (" + core + ") AS P" + idx + " WHERE RowId" + idx + " > " + na)
         == "SELECT TOP " + nb + " * FROM (" + core + ") AS P" + idx + " WHERE RowId" + idx + " > " + na
  {
    assert " " + "* FROM (" == " * FROM (";
  }
}
