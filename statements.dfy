/**
 * The collaborators that ObjectQuery drives, reduced to what it hands them.
 * A select statement is recorded as the trace of calls made on it
 * (`orderBy`, `andWhere`, `limit`); the expression objects passed in those
 * calls (LogicalExpression, DBField, DBValue, Expression::isNull/notNull) are
 * uninterpreted constructors.
 */
module Statements {
  import opened Wrappers

  /** A filter operand as the client wrote it: a string (property name or plain value) or null. */
  datatype Operand = Null | Str(s: string)

  /** The comparator of a LogicalExpression, passed along unread. */
  type Logic = string

  /** `orderBy(...)->asc()` or `orderBy(...)->desc()`. */
  datatype Order = Asc | Desc

  /** An operand of a LogicalExpression built during translation. */
  datatype Term =
    | Raw(operand: Operand)         // the client's operand, passed through as it is
    | Field(name: string)           // new DBField($name)
    | FieldList(names: seq<string>) // new DBField($columns), an array of columns
    | Value(value: string)          // new DBValue($value)

  /** `Expression::isNull($col)` and `Expression::notNull($col)`. */
  datatype NullTest = IsNullOf(col: string) | NotNullOf(col: string)

  /** One call on the select statement. */
  datatype Clause =
    | OrderBy(col: string, order: Order)              // $query->orderBy($col)->asc() / ->desc()
    | OrderByExpr(test: NullTest)                     // $query->orderBy(Expression::isNull($col))
    | AndWhere(left: Term, right: Term, logic: Logic) // $query->andWhere(new LogicalExpression(...))
    | Limit(limit: Option<int>, offset: Option<int>)  // $query->limit($limit, $offset)

  predicate IsOrdering(c: Clause)
  {
    c.OrderBy? || c.OrderByExpr?
  }
}
