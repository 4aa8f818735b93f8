/**
 * Client code for ObjectQuery: each method drives a fresh query through its
 * public methods, and its postcondition is what the caller can rely on.
 */
module ObjectQueryScenarios {
  import opened Wrappers
  import opened PhpArrays
  import opened PhpStrings
  import opened Statements
  import opened QueryTranslation
  import opened DAOs

  /** With no sort entry and no filter the statement only receives `limit($limit, $offset)`. */
  lemma NoCriteria(m: Mapping, limit: Option<int>, offset: Option<int>)
    ensures Translate([], [], m, limit, offset) == Ok([Limit(limit, offset)])
  {
    var empty: seq<Clause> := [];
    assert SortClauses([], m) == Ok(empty) && FilterClauses([], m) == empty;
    assert empty + empty + [Limit(limit, offset)] == [Limit(limit, offset)];
  }

  /** A table of one mapped entry and no filter: that entry's clauses, then the limit call. */
  lemma SingleSortTranslation(p: string, d: Direction, m: Mapping, limit: Option<int>, offset: Option<int>)
    requires p in m
    ensures EntryClauses(p, d, m).Ok?
    ensures Translate([Entry(p, d)], [], m, limit, offset) == Ok(EntryClauses(p, d, m).value + [Limit(limit, offset)])
  {
    var empty: seq<Clause> := [];
    assert [Entry(p, d)][..0] == [];
    var cs := EntryClauses(p, d, m).value;
    assert SortClauses([Entry(p, d)], m) == Ok(empty + cs);
    assert FilterClauses([], m) == empty;
    assert empty + cs + empty + [Limit(limit, offset)] == cs + [Limit(limit, offset)];
  }

  /** No sort entry and one filter: that filter's clauses, then the limit call. */
  lemma SingleFilterTranslation(e: LogicalExpression, m: Mapping, limit: Option<int>, offset: Option<int>)
    ensures Translate([], [e], m, limit, offset) == Ok(ExprClauses(e, m) + [Limit(limit, offset)])
  {
    var empty: seq<Clause> := [];
    assert [e][..0] == [];
    var cs := ExprClauses(e, m);
    assert FilterClauses([e], m) == empty + cs;
    assert SortClauses([], m) == Ok(empty);
    assert empty + (empty + cs) + [Limit(limit, offset)] == cs + [Limit(limit, offset)];
  }

  /** Two columns give two clauses, in column order. */
  lemma EachTwo(c1: string, c2: string, t: Template)
    ensures Each([c1, c2], t) == [Instance(t, c1), Instance(t, c2)]
  {
  }

  /** Two left columns against two right columns: four comparisons, left column major. */
  lemma CrossTwoByTwo(a1: string, a2: string, b1: string, b2: string, logic: Logic)
    ensures Cross([a1, a2], [b1, b2], logic) ==
      [AndWhere(Raw(Str(a1)), Raw(Str(b1)), logic), AndWhere(Raw(Str(a1)), Raw(Str(b2)), logic),
       AndWhere(Raw(Str(a2)), Raw(Str(b1)), logic), AndWhere(Raw(Str(a2)), Raw(Str(b2)), logic)]
  {
    EachTwo(b1, b2, RightColumn(a1, logic));
    EachTwo(b1, b2, RightColumn(a2, logic));
    assert [a1, a2][..1] == [a1];
    assert [a1][..0] == [];
    var empty: seq<Clause> := [];
    assert Cross([a1], [b1, b2], logic) == empty + Each([b1, b2], RightColumn(a1, logic));
  }

  /** The first direction given to a pending name on an empty table: a one-entry table. */
  lemma FirstDirected(x: string, d: Direction)
    requires Truthy(x)
    ensures Directed([], Some(x), d) == Ok([Entry(x, d)])
  {
    var empty: PhpArray<string, Direction> := [];
    assert !HasKey(empty, x);
  }

  /** A pending name committed into an empty table reads SORT_ASC. */
  lemma FirstCommitted(x: string)
    requires Truthy(x)
    ensures CommitPending([], Some(x)) == [Entry(x, SortAsc)]
  {
    var empty: PhpArray<string, Direction> := [];
    assert !HasKey(empty, x);
  }

  /** A direction given to the one name a table holds overwrites its entry. */
  lemma Redirected(x: string, d: Direction, d': Direction)
    requires Truthy(x)
    ensures Directed([Entry(x, d)], Some(x), d') == Ok([Entry(x, d')])
  {
    var table: PhpArray<string, Direction> := [Entry(x, d)];
    assert table[0].key == x && table[1..] == [];
    assert Put(table, x, d') == [Entry(x, d')] + table[1..];
    assert HasPending(Some(x));
    assert Directed(table, Some(x), d') == Ok(Put(table, x, d'));
    assert [Entry(x, d')] + table[1..] == [Entry(x, d')];
  }

  /** `sort(x)` and nothing more: translating commits the pending name as SORT_ASC. */
  method PendingNameCommitted(m: Mapping, x: string) returns (r: Result<seq<Clause>, QueryError>)
    requires Truthy(x)
    ensures r == Translate([Entry(x, SortAsc)], [], m, None, None)
  {
    FirstCommitted(x);
    var q := new ObjectQuery();
    q.Sort(x);
    assert q.sort == [] && q.current == Some(x);
    r := q.ToSelectQuery(m);
    assert q.sort == [Entry(x, SortAsc)] && q.logic == [] && q.limit == None && q.offset == None;
  }

  /** `sort(x)->asc()`: the name enters the table with SORT_ASC before the translation. */
  method ExplicitAscending(m: Mapping, x: string) returns (r: Result<seq<Clause>, QueryError>)
    requires Truthy(x)
    ensures r == Translate([Entry(x, SortAsc)], [], m, None, None)
  {
    FirstDirected(x, SortAsc);
    var q := new ObjectQuery();
    q.Sort(x);
    assert q.sort == [] && q.current == Some(x);
    var _ := q.Asc();
    assert q.sort == [Entry(x, SortAsc)] && q.current == None;
    r := q.ToSelectQuery(m);
    assert q.sort == [Entry(x, SortAsc)] && q.logic == [] && q.limit == None && q.offset == None;
  }

  /** `sort(x)` left without a direction translates exactly like `sort(x)->asc()`. */
  method ImplicitAscending(m: Mapping, x: string) returns (implicit: Result<seq<Clause>, QueryError>,
                                                          explicit: Result<seq<Clause>, QueryError>)
    requires Truthy(x)
    ensures implicit == explicit
    ensures implicit.Ok? <==> x in m
  {
    implicit := PendingNameCommitted(m, x);
    explicit := ExplicitAscending(m, x);
    SortClausesOutcome([Entry(x, SortAsc)], m);
  }

  /** Naming a property again overwrites its direction: one entry, the last direction. */
  method LastDirectionWins(m: Mapping, x: string) returns (r: Result<seq<Clause>, QueryError>)
    requires Truthy(x)
    ensures r == Translate([Entry(x, SortAsc)], [], m, None, None)
  {
    FirstDirected(x, SortDesc);
    Redirected(x, SortDesc, SortAsc);
    var q := new ObjectQuery();
    q.Sort(x);
    assert q.sort == [] && q.current == Some(x);
    var _ := q.Desc();
    assert q.sort == [Entry(x, SortDesc)] && q.current == None;
    q.Sort(x);
    assert q.sort == [Entry(x, SortDesc)] && q.current == Some(x);
    var _ := q.Asc();
    assert q.sort == [Entry(x, SortAsc)] && q.current == None;
    r := q.ToSelectQuery(m);
  }

  /** After dropSort nothing is ordered, whatever was named before. */
  method DropSortLeavesNoOrdering(m: Mapping, x: string, y: string) returns (r: Result<seq<Clause>, QueryError>)
    ensures r == Ok([Limit(None, None)])
  {
    var q := new ObjectQuery();
    q.Sort(x);
    var _ := q.Desc();
    q.Sort(y);
    q.DropSort();
    assert q.sort == [] && q.logic == [] && q.current == None && q.limit == None && q.offset == None;
    r := q.ToSelectQuery(m);
    NoCriteria(m, None, None);
  }

  /** A property mapped to two columns, sorted descending, orders by both columns in list order. */
  method DescendingOverTwoColumns(x: string, c1: string, c2: string) returns (r: Result<seq<Clause>, QueryError>)
    requires Truthy(x)
    ensures r == Ok([OrderBy(c1, Desc), OrderBy(c2, Desc), Limit(None, None)])
  {
    var m := map[x := Columns([c1, c2])];
    FirstDirected(x, SortDesc);
    var q := new ObjectQuery();
    q.Sort(x);
    assert q.sort == [] && q.current == Some(x);
    var _ := q.Desc();
    assert q.sort == [Entry(x, SortDesc)] && q.current == None;
    assert q.logic == [] && q.limit == None && q.offset == None;
    r := q.ToSelectQuery(m);
    assert r == Translate([Entry(x, SortDesc)], [], m, None, None);
    SingleSortTranslation(x, SortDesc, m, None, None);
    EachTwo(c1, c2, Ordered(Desc));
    assert EntryClauses(x, SortDesc, m) == Ok([OrderBy(c1, Desc), OrderBy(c2, Desc)]);
    assert [OrderBy(c1, Desc), OrderBy(c2, Desc)] + [Limit(None, None)] == [OrderBy(c1, Desc), OrderBy(c2, Desc), Limit(None, None)];
  }

  /** Comparing two two-column properties gives four clauses, left column major. */
  method CrossProductFilter() returns (r: Result<seq<Clause>, QueryError>)
    ensures r == Ok([AndWhere(Raw(Str("a1")), Raw(Str("b1")), "="), AndWhere(Raw(Str("a1")), Raw(Str("b2")), "="),
                     AndWhere(Raw(Str("a2")), Raw(Str("b1")), "="), AndWhere(Raw(Str("a2")), Raw(Str("b2")), "="),
                     Limit(None, None)])
  {
    var m := map["a" := Columns(["a1", "a2"]), "b" := Columns(["b1", "b2"])];
    var q := new ObjectQuery();
    q.AddLogic(LogicalExpression("a", Str("b"), "="));
    assert q.sort == [] && q.logic == [LogicalExpression("a", Str("b"), "=")] && q.limit == None && q.offset == None;
    r := q.ToSelectQuery(m);
    assert r == Translate([], [LogicalExpression("a", Str("b"), "=")], m, None, None);
    SingleFilterTranslation(LogicalExpression("a", Str("b"), "="), m, None, None);
    CrossTwoByTwo("a1", "a2", "b1", "b2", "=");
    assert ExprClauses(LogicalExpression("a", Str("b"), "="), m) == Cross(["a1", "a2"], ["b1", "b2"], "=");
    var cs := Cross(["a1", "a2"], ["b1", "b2"], "=");
    assert cs + [Limit(None, None)] == [cs[0], cs[1], cs[2], cs[3], Limit(None, None)];
  }

  /** A left operand that is not a key of the mapping becomes a value, not a column. */
  method UnmappedLeftIsValue(m: Mapping) returns (r: Result<seq<Clause>, QueryError>)
    requires "a" !in m && "5" !in m
    ensures r == Ok([AndWhere(Value("a"), Value("5"), "="), Limit(None, None)])
  {
    var q := new ObjectQuery();
    q.AddLogic(LogicalExpression("a", Str("5"), "="));
    assert q.sort == [] && q.logic == [LogicalExpression("a", Str("5"), "=")] && q.limit == None && q.offset == None;
    r := q.ToSelectQuery(m);
    assert [LogicalExpression("a", Str("5"), "=")][..0] == [];
    var empty: seq<Clause> := [];
    var clause := AndWhere(Value("a"), Value("5"), "=");
    assert FilterClauses([LogicalExpression("a", Str("5"), "=")], m) == empty + [clause];
    assert SortClauses([], m) == Ok(empty);
    assert empty + (empty + [clause]) + [Limit(None, None)] == [clause, Limit(None, None)];
  }

  /** Limit and offset alone: no ordering, no filter, then `limit(10, 20)`. */
  method PaginationOnly(m: Mapping) returns (r: Result<seq<Clause>, QueryError>, l: Option<int>, o: Option<int>)
    ensures r == Ok([Limit(Some(10), Some(20))])
    ensures l == Some(10) && o == Some(20)
  {
    var q := new ObjectQuery();
    q.SetLimit(Some(10));
    q.SetOffset(Some(20));
    assert q.sort == [] && q.logic == [] && q.current == None;
    r := q.ToSelectQuery(m);
    NoCriteria(m, Some(10), Some(20));
    l := q.GetLimit();
    o := q.GetOffset();
  }

  /** A direction with no name before it fails. */
  method DirectionWithoutName() returns (r: Outcome<QueryError>)
    ensures r == Fail(NoPendingName)
  {
    var q := new ObjectQuery();
    r := q.Asc();
  }

  /** A sort property unknown to the mapping makes the translation fail with its name. */
  method UnknownSortProperty(m: Mapping, x: string) returns (r: Result<seq<Clause>, QueryError>)
    requires Truthy(x) && x !in m
    ensures r == Err(UnknownProperty(x))
  {
    FirstCommitted(x);
    var q := new ObjectQuery();
    q.Sort(x);
    assert q.sort == [] && q.current == Some(x);
    r := q.ToSelectQuery(m);
    assert q.sort == [Entry(x, SortAsc)];
    assert [Entry(x, SortAsc)][..0] == [];
    assert SortClauses([Entry(x, SortAsc)], m) == Err(UnknownProperty(x));
  }

  /** "0" is false to PHP: it is never committed, so nothing is ordered and a direction after it fails. */
  method FalsyNameIsNeverCommitted(m: Mapping) returns (r: Result<seq<Clause>, QueryError>, d: Outcome<QueryError>)
    ensures r == Ok([Limit(None, None)])
    ensures d == Fail(NoPendingName)
  {
    var q := new ObjectQuery();
    q.Sort("0");
    assert q.sort == [] && q.logic == [] && q.current == Some("0");
    r := q.ToSelectQuery(m);
    NoCriteria(m, None, None);
    assert q.current == Some("0") && !HasPending(q.current);
    d := q.Desc();
  }
}
