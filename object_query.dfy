/**
 * ObjectQuery: a fluent criteria holder. Sort order is given as a property
 * name followed by a direction; a name left without a direction is committed
 * as SORT_ASC when the next name arrives or when the query is translated.
 * Filters are kept in the order they were added; limit and offset are stored
 * as given. `toSelectQuery` rewrites all of it against a DAO's mapping.
 */
module DAOs {
  import opened Wrappers
  import opened PhpArrays
  import opened PhpStrings
  import opened Statements
  import opened QueryTranslation

  /** `if ($this->current)`: a pending name is set and is not "" or "0". */
  predicate HasPending(current: Option<string>)
    ensures HasPending(current) ==> current.Some? && current.value != ""
    ensures current.Some? && |current.value| >= 2 ==> HasPending(current)
  {
    current.Some? && Truthy(current.value)
  }

  /**
   * The sort table after `$this->sort[$this->current] = SORT_ASC` has run
   * when a name is pending: the pending name now reads SORT_ASC, every other
   * property keeps its direction, and the key order is kept (a new name goes
   * last).
   */
  function CommitPending(sort: PhpArray<string, Direction>, current: Option<string>): (r: PhpArray<string, Direction>)
    ensures HasPending(current) ==> Get(r, current.value) == Some(SortAsc)
    ensures forall k {:trigger Get(r, k)} :: !(HasPending(current) && k == current.value) ==> Get(r, k) == Get(sort, k)
    ensures Keys(r) ==
      if HasPending(current) && !HasKey(sort, current.value) then Keys(sort) + [current.value] else Keys(sort)
  {
    if HasPending(current) then
      var r := Put(sort, current.value, SortAsc);
      PutKeys(sort, current.value, SortAsc);
      forall k ensures Get(r, k) == if k == current.value then Some(SortAsc) else Get(sort, k) {
        PutGet(sort, current.value, SortAsc, k);
      }
      r
    else sort
  }

  /**
   * `direction($constant)`: with no pending name it fails and changes nothing;
   * otherwise the pending name gets the direction (overwriting in place).
   */
  function Directed(sort: PhpArray<string, Direction>, current: Option<string>, d: Direction)
    : (r: Result<PhpArray<string, Direction>, QueryError>)
    ensures r.Err? <==> !HasPending(current)
    ensures r.Err? ==> r.error == NoPendingName
    ensures r.Ok? ==> Get(r.value, current.value) == Some(d)
    ensures r.Ok? ==> forall k {:trigger Get(r.value, k)} :: k != current.value ==> Get(r.value, k) == Get(sort, k)
    ensures r.Ok? ==> Keys(r.value) ==
                      (if HasKey(sort, current.value) then Keys(sort) else Keys(sort) + [current.value])
  {
    if !HasPending(current) then Err(NoPendingName)
    else
      var r := Put(sort, current.value, d);
      PutKeys(sort, current.value, d);
      forall k ensures Get(r, k) == if k == current.value then Some(d) else Get(sort, k) {
        PutGet(sort, current.value, d, k);
      }
      Ok(r)
  }

  class ObjectQuery {
    var sort: PhpArray<string, Direction>
    var logic: seq<LogicalExpression>
    var current: Option<string>
    var limit: Option<int>
    var offset: Option<int>

    /** `ObjectQuery::create()`: everything empty, nothing pending. */
    constructor ()
      ensures sort == [] && logic == [] && current == None && limit == None && offset == None
    {
      sort, logic, current, limit, offset := [], [], None, None, None;
    }

    /** Commits a pending name as SORT_ASC, then makes `name` the pending name. */
    method Sort(name: string)
      modifies this
      ensures sort == CommitPending(old(sort), old(current))
      ensures current == Some(name)
      ensures logic == old(logic) && limit == old(limit) && offset == old(offset)
    {
      if HasPending(current) {
        sort := Put(sort, current.value, SortAsc);
      }
      current := Some(name);
    }

    /** Forgets the pending name and every sort entry. */
    method DropSort()
      modifies this
      ensures current == None && sort == []
      ensures logic == old(logic) && limit == old(limit) && offset == old(offset)
    {
      current := None;
      sort := [];
    }

    /** The private `direction($constant)` shared by asc, desc, isNull and notNull. */
    method SetDirection(d: Direction) returns (r: Outcome<QueryError>)
      modifies this
      ensures Directed(old(sort), old(current), d).Err? ==>
        r == Fail(NoPendingName) && sort == old(sort) && current == old(current)
      ensures Directed(old(sort), old(current), d).Ok? ==>
        r == Pass && sort == Directed(old(sort), old(current), d).value && current == None
      ensures logic == old(logic) && limit == old(limit) && offset == old(offset)
    {
      match Directed(sort, current, d)
      case Err(e) =>
        r := Fail(e);
      case Ok(table) =>
        sort := table;
        current := None;
        r := Pass;
    }

    method Asc() returns (r: Outcome<QueryError>)
      modifies this
      ensures Directed(old(sort), old(current), SortAsc).Err? ==>
        r == Fail(NoPendingName) && sort == old(sort) && current == old(current)
      ensures Directed(old(sort), old(current), SortAsc).Ok? ==>
        r == Pass && sort == Directed(old(sort), old(current), SortAsc).value && current == None
      ensures logic == old(logic) && limit == old(limit) && offset == old(offset)
    {
      r := SetDirection(SortAsc);
    }

    method Desc() returns (r: Outcome<QueryError>)
      modifies this
      ensures Directed(old(sort), old(current), SortDesc).Err? ==>
        r == Fail(NoPendingName) && sort == old(sort) && current == old(current)
      ensures Directed(old(sort), old(current), SortDesc).Ok? ==>
        r == Pass && sort == Directed(old(sort), old(current), SortDesc).value && current == None
      ensures logic == old(logic) && limit == old(limit) && offset == old(offset)
    {
      r := SetDirection(SortDesc);
    }

    method IsNull() returns (r: Outcome<QueryError>)
      modifies this
      ensures Directed(old(sort), old(current), SortIsNull).Err? ==>
        r == Fail(NoPendingName) && sort == old(sort) && current == old(current)
      ensures Directed(old(sort), old(current), SortIsNull).Ok? ==>
        r == Pass && sort == Directed(old(sort), old(current), SortIsNull).value && current == None
      ensures logic == old(logic) && limit == old(limit) && offset == old(offset)
    {
      r := SetDirection(SortIsNull);
    }

    method NotNull() returns (r: Outcome<QueryError>)
      modifies this
      ensures Directed(old(sort), old(current), SortNotNull).Err? ==>
        r == Fail(NoPendingName) && sort == old(sort) && current == old(current)
      ensures Directed(old(sort), old(current), SortNotNull).Ok? ==>
        r == Pass && sort == Directed(old(sort), old(current), SortNotNull).value && current == None
      ensures logic == old(logic) && limit == old(limit) && offset == old(offset)
    {
      r := SetDirection(SortNotNull);
    }

    method GetLimit() returns (r: Option<int>)
      ensures r == limit
    {
      r := limit;
    }

    method SetLimit(l: Option<int>)
      modifies this
      ensures limit == l
      ensures sort == old(sort) && current == old(current) && logic == old(logic) && offset == old(offset)
    {
      limit := l;
    }

    method GetOffset() returns (r: Option<int>)
      ensures r == offset
    {
      r := offset;
    }

    method SetOffset(o: Option<int>)
      modifies this
      ensures offset == o
      ensures sort == old(sort) && current == old(current) && logic == old(logic) && limit == old(limit)
    {
      offset := o;
    }

    method GetLogic() returns (r: seq<LogicalExpression>)
      ensures r == logic
    {
      r := logic;
    }

    /** Appends a filter; filters are never reordered or removed. */
    method AddLogic(e: LogicalExpression)
      modifies this
      ensures logic == old(logic) + [e]
      ensures sort == old(sort) && current == old(current) && limit == old(limit) && offset == old(offset)
    {
      logic := logic + [e];
    }

    /**
     * Commits a pending name as SORT_ASC (the sort table is otherwise kept,
     * not emptied), then emits the orderings, the filters and the limit.
     * The commit has happened even when the translation fails.
     */
    method ToSelectQuery(m: Mapping) returns (r: Result<seq<Clause>, QueryError>)
      modifies this
      ensures sort == CommitPending(old(sort), old(current))
      ensures current == if HasPending(old(current)) then None else old(current)
      ensures logic == old(logic) && limit == old(limit) && offset == old(offset)
      ensures r == Translate(sort, logic, m, limit, offset)
    {
      // cleanup: `$this->sort[$this->current] = SORT_ASC` when a name is pending
      sort := CommitPending(sort, current);
      if HasPending(current) {
        current := None;
      }
      var sorted := EmitSortClauses(sort, m);
      if sorted.Err? {
        return Err(sorted.error);
      }
      var query := EmitFilterClauses(sorted.value, logic, m);
      r := Ok(query + [Limit(limit, offset)]);
    }
  }

  /** One call per column, in list order (each `foreach ($field as $col)` loop). */
  method EmitEach(query: seq<Clause>, cols: seq<string>, t: Template) returns (r: seq<Clause>)
    ensures r == query + Each(cols, t)
  {
    r := query;
    var j := 0;
    while j < |cols|
      invariant 0 <= j <= |cols|
      invariant r == query + Each(cols[..j], t)
    {
      assert cols[..j + 1][..j] == cols[..j];
      r := r + [Instance(t, cols[j])];
      j := j + 1;
    }
    assert cols[..j] == cols;
  }

  /** The `foreach ($this->sort ...)` loop of toSelectQuery; stops at the first unmapped property. */
  method EmitSortClauses(table: PhpArray<string, Direction>, m: Mapping) returns (r: Result<seq<Clause>, QueryError>)
    ensures r == SortClauses(table, m)
  {
    var query: seq<Clause> := [];
    var i := 0;
    while i < |table|
      invariant 0 <= i <= |table|
      invariant SortClauses(table[..i], m) == Ok(query)
    {
      var property, direction := table[i].key, table[i].value;
      assert table[..i + 1][..i] == table[..i];
      if property !in m {
        assert SortClauses(table[..i + 1], m) == Err(UnknownProperty(property));
        SortClausesAppend(table[..i + 1], table[i + 1..], m);
        assert table[..i + 1] + table[i + 1..] == table;
        return Err(UnknownProperty(property));
      }
      ghost var before := query;
      var field := if m[property].AsProperty? then Column(property) else m[property];
      if field.Columns? {
        match direction {
          case SortAsc => query := EmitEach(query, field.names, Ordered(Asc));
          case SortDesc => query := EmitEach(query, field.names, Ordered(Desc));
          // a LogicalChain of null tests is built here and never attached
          case SortIsNull =>
          case SortNotNull =>
        }
      } else {
        match direction {
          case SortAsc => query := query + [OrderBy(field.name, Asc)];
          case SortDesc => query := query + [OrderBy(field.name, Desc)];
          case SortIsNull => query := query + [OrderByExpr(IsNullOf(field.name))];
          case SortNotNull => query := query + [OrderByExpr(NotNullOf(field.name))];
        }
      }
      assert EntryClauses(property, direction, m).Ok?;
      assert query == before + EntryClauses(property, direction, m).value;
      i := i + 1;
    }
    assert table[..i] == table;
    r := Ok(query);
  }

  /** The `foreach ($this->logic ...)` loop of toSelectQuery; it never fails. */
  method EmitFilterClauses(query: seq<Clause>, logic: seq<LogicalExpression>, m: Mapping) returns (r: seq<Clause>)
    ensures r == query + FilterClauses(logic, m)
  {
    var emitted: seq<Clause> := [];
    var i := 0;
    while i < |logic|
      invariant 0 <= i <= |logic|
      invariant emitted == FilterClauses(logic[..i], m)
    {
      emitted := EmitExpression(emitted, logic[i], m);
      FilterClausesStep(logic, i, m);
      i := i + 1;
    }
    assert logic[..i] == logic;
    r := query + emitted;
  }

  /** The body of the filter loop: one LogicalExpression rewritten against the mapping. */
  method EmitExpression(query: seq<Clause>, exp: LogicalExpression, m: Mapping) returns (r: seq<Clause>)
    ensures r == query + ExprClauses(exp, m)
  {
    var left, right, op := exp.left, exp.right, exp.logic;
    var rk := OperandKey(right);
    if IsSet(m, left) && IsSet(m, rk) {
      if m[left].Columns? && m[rk].Columns? {
        r := EmitCross(query, m[left].names, m[rk].names, op);
      } else if m[left].Columns? {
        r := EmitEach(query, m[left].names, LeftColumn(right, op));
      } else if m[rk].Columns? {
        r := EmitEach(query, m[rk].names, RightColumn(left, op));
      } else {
        // $query->andWhere($exp): the expression itself
        r := query + [AndWhere(Raw(Str(left)), Raw(right), op)];
      }
    } else {
      var l := if left in m then (if TruthyVal(m[left]) then FieldOf(m[left]) else Field(left)) else Value(left);
      var rt := if IsSet(m, rk) then FieldOf(m[rk]) else if right.Str? then Value(right.s) else Raw(Null);
      r := query + [AndWhere(l, rt, op)];
    }
  }

  /** The nested loops over two column arrays, left column outer. */
  method EmitCross(query: seq<Clause>, ls: seq<string>, rs: seq<string>, op: Logic) returns (r: seq<Clause>)
    ensures r == query + Cross(ls, rs, op)
  {
    r := query;
    var j := 0;
    while j < |ls|
      invariant 0 <= j <= |ls|
      invariant r == query + Cross(ls[..j], rs, op)
    {
      assert ls[..j + 1][..j] == ls[..j];
      r := EmitEach(r, rs, RightColumn(ls[j], op));
      j := j + 1;
    }
    assert ls[..j] == ls;
  }
}
