/** The backend-neutral query representation the provider compiles: expression
    nodes and the top-level ExpressionQuery. */
module Expressions {
  import opened Wrappers
  import opened Data

  datatype SortDirection = Ascending | Descending

  datatype BinaryOperator =
    | Add | Subtract | Multiply | Divide | Power | Modulo
    | And | Or | ExclusiveOr | AndAlso | OrElse
    | Equal | NotEqual | GreaterThan | GreaterThanOrEqual | LessThan | LessThanOrEqual

  /** The partition operators a MethodExpression can name. */
  datatype MethodType =
    | First | FirstOrDefault | Last | LastOrDefault | Single | SingleOrDefault | Take | Skip

  /** IQueryExpression. `OrderExpression` is the MemberExpression subclass that adds a
      direction; `MethodExpression` carries its argument (Take/Skip's count), which may be
      null; `OtherExpression` stands for any other implementation of the interface, known
      only by the name of its type. */
  datatype QueryExpression =
    | MemberExpression(namespace: seq<string>, objectName: string, memberName: string)
    | OrderExpression(namespace: seq<string>, objectName: string, memberName: string, direction: SortDirection)
    | ConstantExpression(value: Value, valueType: ClrType)
    | ParameterExpression(parameter: Parameter)
    | BinaryExpression(left: QueryExpression, operator: BinaryOperator, right: QueryExpression)
    | MethodExpression(methodType: MethodType, argument: Option<QueryExpression>)
    | OtherExpression(typeName: string)

  /** The top-level query node. `types` are the types its TypeExpressions name;
      `queryIndex` tells the aliases of nested levels apart. */
  datatype ExpressionQuery = ExpressionQuery(
    types: seq<ClrType>,
    subQuery: Option<ExpressionQuery>,
    filters: seq<QueryExpression>,
    sorts: seq<QueryExpression>,
    projections: seq<QueryExpression>,
    partitions: seq<QueryExpression>,
    parameters: seq<Parameter>,
    queryIndex: nat)
}
