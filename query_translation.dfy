/**
 * What ObjectQuery::toSelectQuery emits, as functions of the sort table, the
 * filter list, the pagination values and the DAO's property mapping.
 */
module QueryTranslation {
  import opened Wrappers
  import opened PhpArrays
  import opened PhpStrings
  import opened Statements

  /** The four SORT_* constants; no other direction can be recorded. */
  datatype Direction = SortAsc | SortDesc | SortIsNull | SortNotNull

  /**
   * A value of the DAO's mapping: `null` (the column is named like the
   * property), one column, or an array of columns.
   */
  datatype MapVal = AsProperty | Column(name: string) | Columns(names: seq<string>)

  /** `$dao->getMapping()`: property name to mapped value. */
  type Mapping = map<string, MapVal>

  /** A LogicalExpression as stored by addLogic: left operand, right operand, comparator. */
  datatype LogicalExpression = LogicalExpression(left: string, right: Operand, logic: Logic)

  /** Both error conditions surface as WrongStateException in the source. */
  datatype QueryError =
    | NoPendingName              // 'specify property name first'
    | UnknownProperty(name: string) // "known nothing about '...' property"

  // ---------------------------------------------------------------- PHP views of the mapping

  /** `isset($map[$k])`: the key is present and its value is not null. */
  predicate IsSet(m: Mapping, k: string)
    ensures IsSet(m, k) ==> k in m
  {
    k in m && !m[k].AsProperty?
  }

  /** `if ($map[$k])`: null, "", "0" and the empty array are false. */
  predicate TruthyVal(v: MapVal)
    ensures TruthyVal(v) ==> !v.AsProperty?
    ensures v.Column? && |v.name| >= 2 ==> TruthyVal(v)
  {
    match v
    case AsProperty => false
    case Column(c) => Truthy(c)
    case Columns(cs) => |cs| > 0
  }

  /** A right operand used as an array key: PHP reads a null key as "". */
  function OperandKey(o: Operand): (k: string)
    ensures k == "" <==> o.Null? || o == Str("")
  {
    match o
    case Null => ""
    case Str(s) => s
  }

  /** `new DBField($v)` for a non-null mapped value. */
  function FieldOf(v: MapVal): Term
    requires !v.AsProperty?
  {
    if v.Column? then Field(v.name) else FieldList(v.names)
  }

  /** The columns a sort property stands for: the property itself when mapped to null. */
  function SortColumns(p: string, m: Mapping): seq<string>
    requires p in m
  {
    match m[p]
    case AsProperty => [p]
    case Column(c) => [c]
    case Columns(cs) => cs
  }

  // ---------------------------------------------------------------- one clause per column

  /** The clause emitted for one column inside a `foreach ($field as $col)` loop. */
  datatype Template =
    | Ordered(order: Order)                  // $query->orderBy($col)->asc() / desc()
    | LeftColumn(right: Operand, logic: Logic) // new LogicalExpression($col, $right, $logic)
    | RightColumn(left: string, logic: Logic)  // new LogicalExpression($left, $col, $logic)

  function Instance(t: Template, col: string): Clause
  {
    match t
    case Ordered(o) => OrderBy(col, o)
    case LeftColumn(right, logic) => AndWhere(Raw(Str(col)), Raw(right), logic)
    case RightColumn(left, logic) => AndWhere(Raw(Str(left)), Raw(Str(col)), logic)
  }

  /** One clause per column, in the order of the column list. */
  function Each(cols: seq<string>, t: Template): (r: seq<Clause>)
    ensures |r| == |cols|
  {
    if cols == [] then [] else Each(cols[..|cols| - 1], t) + [Instance(t, cols[|cols| - 1])]
  }

  lemma {:induction false} EachAt(cols: seq<string>, t: Template)
    ensures forall k :: 0 <= k < |cols| ==> Each(cols, t)[k] == Instance(t, cols[k])
  {
    if cols != [] {
      EachAt(cols[..|cols| - 1], t);
    }
  }

  /** The nested loops over two column arrays: left column outer, right column inner. */
  function Cross(ls: seq<string>, rs: seq<string>, logic: Logic): (r: seq<Clause>)
    ensures rs == [] ==> r == []
  {
    if ls == [] then [] else Cross(ls[..|ls| - 1], rs, logic) + Each(rs, RightColumn(ls[|ls| - 1], logic))
  }

  // ---------------------------------------------------------------- sort translation

  /** The clauses for one entry of the sort table (the body of the first foreach). */
  function EntryClauses(p: string, d: Direction, m: Mapping): (r: Result<seq<Clause>, QueryError>)
    ensures r.Err? <==> p !in m
    ensures r.Err? ==> r.error == UnknownProperty(p)
    ensures r.Ok? && (d == SortAsc || d == SortDesc) ==> |r.value| == |SortColumns(p, m)|
  {
    if p !in m then Err(UnknownProperty(p))
    else
      var field := if m[p].AsProperty? then Column(p) else m[p];
      if field.Columns? then
        match d
        case SortAsc => Ok(Each(field.names, Ordered(Asc)))
        case SortDesc => Ok(Each(field.names, Ordered(Desc)))
        // a LogicalChain of null tests is built and never attached to the query
        case SortIsNull => Ok([])
        case SortNotNull => Ok([])
      else
        match d
        case SortAsc => Ok([OrderBy(field.name, Asc)])
        case SortDesc => Ok([OrderBy(field.name, Desc)])
        case SortIsNull => Ok([OrderByExpr(IsNullOf(field.name))])
        case SortNotNull => Ok([OrderByExpr(NotNullOf(field.name))])
  }

  /** The sort table translated entry by entry, stopping at the first unmapped property. */
  function SortClauses(es: seq<Entry<string, Direction>>, m: Mapping): (r: Result<seq<Clause>, QueryError>)
    ensures r.Err? ==> r.error.UnknownProperty? && r.error.name !in m
  {
    if es == [] then Ok([])
    else
      match SortClauses(es[..|es| - 1], m)
      case Err(e) => Err(e)
      case Ok(cs) =>
        match EntryClauses(es[|es| - 1].key, es[|es| - 1].value, m)
        case Err(e) => Err(e)
        case Ok(c) => Ok(cs + c)
  }

  // ---------------------------------------------------------------- filter translation

  /** The left operand outside the "both set" branch: a field when mapped, a value otherwise. */
  function LeftTerm(left: string, m: Mapping): (r: Term)
    ensures r.Value? <==> left !in m
    ensures r.Value? ==> r.value == left
  {
    if left in m then
      if TruthyVal(m[left]) then FieldOf(m[left]) else Field(left)
    else Value(left)
  }

  /** The right operand outside the "both set" branch: a field when set, a value, or null kept as null. */
  function RightTerm(right: Operand, m: Mapping): (r: Term)
    ensures r == Raw(Null) <==> right.Null? && !IsSet(m, "")
    ensures r.Value? ==> right == Str(r.value) && !IsSet(m, r.value)
  {
    if IsSet(m, OperandKey(right)) then FieldOf(m[OperandKey(right)])
    else if right.Str? then Value(right.s)
    else Raw(Null)
  }

  /** The clauses for one LogicalExpression (the body of the second foreach). */
  function ExprClauses(e: LogicalExpression, m: Mapping): (r: seq<Clause>)
    ensures var rk := OperandKey(e.right);
      !(IsSet(m, e.left) && IsSet(m, rk) && (m[e.left].Columns? || m[rk].Columns?)) ==> |r| == 1
  {
    var rk := OperandKey(e.right);
    if IsSet(m, e.left) && IsSet(m, rk) then
      var lv, rv := m[e.left], m[rk];
      if lv.Columns? && rv.Columns? then Cross(lv.names, rv.names, e.logic)
      else if lv.Columns? then Each(lv.names, LeftColumn(e.right, e.logic))
      else if rv.Columns? then Each(rv.names, RightColumn(e.left, e.logic))
      // the expression itself, unchanged
      else [AndWhere(Raw(Str(e.left)), Raw(e.right), e.logic)]
    else [AndWhere(LeftTerm(e.left, m), RightTerm(e.right, m), e.logic)]
  }

  function FilterClauses(es: seq<LogicalExpression>, m: Mapping): (r: seq<Clause>)
    ensures (forall i :: 0 <= i < |es| ==> !IsSet(m, es[i].left)) ==> |r| == |es|
  {
    if es == [] then [] else FilterClauses(es[..|es| - 1], m) + ExprClauses(es[|es| - 1], m)
  }

  /** One more expression of the list appends its own clauses. */
  lemma FilterClausesStep(es: seq<LogicalExpression>, i: nat, m: Mapping)
    requires i < |es|
    ensures FilterClauses(es[..i + 1], m) == FilterClauses(es[..i], m) + ExprClauses(es[i], m)
  {
    assert es[..i + 1][..i] == es[..i];
  }

  /** The whole translation: orderings, then filters, then `limit($limit, $offset)`. */
  function Translate(sort: seq<Entry<string, Direction>>, logic: seq<LogicalExpression>, m: Mapping,
                     limit: Option<int>, offset: Option<int>): (r: Result<seq<Clause>, QueryError>)
    ensures r.Ok? ==> |r.value| >= 1 && r.value[|r.value| - 1] == Limit(limit, offset)
    ensures r.Err? ==> r.error.UnknownProperty? && r.error.name !in m
  {
    match SortClauses(sort, m)
    case Err(e) => Err(e)
    case Ok(cs) => Ok(cs + FilterClauses(logic, m) + [Limit(limit, offset)])
  }

  // ---------------------------------------------------------------- properties

  lemma {:induction false} CrossLength(ls: seq<string>, rs: seq<string>, logic: Logic)
    ensures |Cross(ls, rs, logic)| == |ls| * |rs|
  {
    if ls != [] {
      CrossLength(ls[..|ls| - 1], rs, logic);
      assert |ls| * |rs| == (|ls| - 1) * |rs| + |rs|;
    }
  }

  /** The cross product distributes over a split of the left column list. */
  lemma {:induction false} CrossAppend(a: seq<string>, b: seq<string>, rs: seq<string>, logic: Logic)
    ensures Cross(a + b, rs, logic) == Cross(a, rs, logic) + Cross(b, rs, logic)
  {
    if b == [] {
      assert a + b == a;
      assert Cross(b, rs, logic) == [];
      assert Cross(a, rs, logic) + [] == Cross(a, rs, logic);
    } else {
      var b' := b[..|b| - 1];
      var row := Each(rs, RightColumn(b[|b| - 1], logic));
      CrossAppend(a, b', rs, logic);
      assert Cross(a + b, rs, logic) == Cross(a + b', rs, logic) + row by {
        assert (a + b)[..|a + b| - 1] == a + b';
        assert (a + b)[|a + b| - 1] == b[|b| - 1];
      }
      assert Cross(b, rs, logic) == Cross(b', rs, logic) + row;
      assert Cross(a, rs, logic) + Cross(b', rs, logic) + row == Cross(a, rs, logic) + (Cross(b', rs, logic) + row);
    }
  }

  /**
   * Left column major: the block for left column i starts at position
   * i * |R| and pairs that column with every right column in order.
   */
  lemma CrossRow(ls: seq<string>, rs: seq<string>, logic: Logic, i: nat)
    requires i < |ls|
    ensures |Cross(ls[..i], rs, logic)| == i * |rs|
    ensures Cross(ls, rs, logic) ==
      Cross(ls[..i], rs, logic) + Each(rs, RightColumn(ls[i], logic)) + Cross(ls[i + 1..], rs, logic)
  {
    var pre, post := ls[..i], ls[i + 1..];
    CrossLength(pre, rs, logic);
    assert ls == (pre + [ls[i]]) + post;
    CrossAppend(pre + [ls[i]], post, rs, logic);
    assert (pre + [ls[i]])[..|pre|] == pre;
  }

  /**
   * Sort entries: an unmapped property fails; ASC/DESC order by every column of
   * the property in list order (the property's own name when it is mapped to
   * null); a null test orders by one isNull/notNull expression for a single
   * column and emits nothing for a column array.
   */
  lemma EntryClausesShape(p: string, d: Direction, m: Mapping)
    ensures EntryClauses(p, d, m).Err? <==> p !in m
    ensures EntryClauses(p, d, m).Err? ==> EntryClauses(p, d, m).error == UnknownProperty(p)
    ensures p in m && (d == SortAsc || d == SortDesc) ==>
      var r := EntryClauses(p, d, m).value;
      var cols := SortColumns(p, m);
      |r| == |cols| &&
      forall k :: 0 <= k < |r| ==> r[k] == OrderBy(cols[k], if d == SortAsc then Asc else Desc)
    ensures p in m && (d == SortIsNull || d == SortNotNull) ==>
      EntryClauses(p, d, m).value ==
        if m[p].Columns? then []
        else
          var col := SortColumns(p, m)[0];
          [OrderByExpr(if d == SortIsNull then IsNullOf(col) else NotNullOf(col))]
  {
    if p in m {
      EachAt(SortColumns(p, m), Ordered(if d == SortAsc then Asc else Desc));
    }
  }

  /** Translating a table with one more entry: the table's error, else the entry's, else both clause lists. */
  lemma SortClausesSnoc(es: seq<Entry<string, Direction>>, last: Entry<string, Direction>, m: Mapping)
    ensures SortClauses(es + [last], m) ==
      if SortClauses(es, m).Err? then SortClauses(es, m)
      else if EntryClauses(last.key, last.value, m).Err? then EntryClauses(last.key, last.value, m)
      else Ok(SortClauses(es, m).value + EntryClauses(last.key, last.value, m).value)
  {
    assert (es + [last])[..|es|] == es;
  }

  /** Translating a concatenation of sort tables: the first error wins, otherwise the clauses concatenate. */
  lemma {:induction false} SortClausesAppend(a: seq<Entry<string, Direction>>, b: seq<Entry<string, Direction>>, m: Mapping)
    ensures SortClauses(a + b, m) ==
      if SortClauses(a, m).Err? then SortClauses(a, m)
      else if SortClauses(b, m).Err? then SortClauses(b, m)
      else Ok(SortClauses(a, m).value + SortClauses(b, m).value)
  {
    if b == [] {
      assert a + b == a;
      assert SortClauses(a, m).Ok? ==> SortClauses(a, m).value + [] == SortClauses(a, m).value;
    } else {
      var b', last := b[..|b| - 1], b[|b| - 1];
      assert b == b' + [last];
      assert a + b == (a + b') + [last];
      SortClausesAppend(a, b', m);
      SortClausesSnoc(b', last, m);
      SortClausesSnoc(a + b', last, m);
      var sa, sb, e := SortClauses(a, m), SortClauses(b', m), EntryClauses(last.key, last.value, m);
      if sa.Ok? && sb.Ok? && e.Ok? {
        assert sa.value + sb.value + e.value == sa.value + (sb.value + e.value);
      }
    }
  }

  /**
   * Sort translation fails exactly when some property is not a key of the
   * mapping, and then with the first such property.
   */
  lemma {:induction false} SortClausesOutcome(es: seq<Entry<string, Direction>>, m: Mapping)
    ensures SortClauses(es, m).Ok? <==> forall i :: 0 <= i < |es| ==> es[i].key in m
    ensures SortClauses(es, m).Err? ==>
      exists i :: 0 <= i < |es| && es[i].key !in m && (forall j :: 0 <= j < i ==> es[j].key in m) &&
        SortClauses(es, m).error == UnknownProperty(es[i].key)
  {
    if es != [] {
      var n := |es| - 1;
      var prefix := es[..n];
      SortClausesOutcome(prefix, m);
      assert forall i :: 0 <= i < n ==> prefix[i] == es[i];
      if SortClauses(prefix, m).Err? {
        var i :| 0 <= i < n && prefix[i].key !in m && (forall j :: 0 <= j < i ==> prefix[j].key in m) &&
          SortClauses(prefix, m).error == UnknownProperty(prefix[i].key);
        assert SortClauses(es, m) == SortClauses(prefix, m);
      } else if es[n].key !in m {
        assert SortClauses(es, m) == Err(UnknownProperty(es[n].key));
      }
    }
  }

  /** Every clause of the sort translation is an ordering. */
  lemma {:induction false} SortClausesOrder(es: seq<Entry<string, Direction>>, m: Mapping)
    requires SortClauses(es, m).Ok?
    ensures forall k :: 0 <= k < |SortClauses(es, m).value| ==> IsOrdering(SortClauses(es, m).value[k])
  {
    if es != [] {
      SortClausesOrder(es[..|es| - 1], m);
      EntryClausesShape(es[|es| - 1].key, es[|es| - 1].value, m);
    }
  }

  /**
   * Filters: both operands set and both mapped to column arrays gives the
   * |L| x |R| cross product, left column major; only one array gives one
   * clause per column of it with the other operand raw; two single columns
   * give the expression unchanged; every other case gives one clause whose
   * left operand is a DBField of its mapping (of its own name when that
   * mapping is empty) or, unmapped, a DBValue, and whose right operand is a
   * DBField of its mapping when set, a DBValue when a string, and null otherwise.
   */
  lemma ExprClausesShape(e: LogicalExpression, m: Mapping)
    ensures var r := ExprClauses(e, m);
      var rk := OperandKey(e.right);
      && (IsSet(m, e.left) && IsSet(m, rk) && m[e.left].Columns? && m[rk].Columns? ==>
            var ls, rs := m[e.left].names, m[rk].names;
            |r| == |ls| * |rs| &&
            forall i :: 0 <= i < |ls| ==>
              r == Cross(ls[..i], rs, e.logic) + Each(rs, RightColumn(ls[i], e.logic)) + Cross(ls[i + 1..], rs, e.logic))
      && (IsSet(m, e.left) && IsSet(m, rk) && m[e.left].Columns? && !m[rk].Columns? ==>
            |r| == |m[e.left].names| &&
            forall k :: 0 <= k < |r| ==> r[k] == AndWhere(Raw(Str(m[e.left].names[k])), Raw(e.right), e.logic))
      && (IsSet(m, e.left) && IsSet(m, rk) && !m[e.left].Columns? && m[rk].Columns? ==>
            |r| == |m[rk].names| &&
            forall k :: 0 <= k < |r| ==> r[k] == AndWhere(Raw(Str(e.left)), Raw(Str(m[rk].names[k])), e.logic))
      && (IsSet(m, e.left) && IsSet(m, rk) && !m[e.left].Columns? && !m[rk].Columns? ==>
            r == [AndWhere(Raw(Str(e.left)), Raw(e.right), e.logic)])
      && (!(IsSet(m, e.left) && IsSet(m, rk)) ==>
            |r| == 1 && r[0].AndWhere? && r[0].logic == e.logic
            && (e.left !in m ==> r[0].left == Value(e.left))
            && (e.left in m && TruthyVal(m[e.left]) ==> r[0].left == FieldOf(m[e.left]))
            && (e.left in m && !TruthyVal(m[e.left]) ==> r[0].left == Field(e.left))
            && (IsSet(m, rk) ==> r[0].right == FieldOf(m[rk]))
            && (e.right.Null? && !IsSet(m, "") ==> r[0].right == Raw(Null))
            && (e.right.Str? && !IsSet(m, e.right.s) ==> r[0].right == Value(e.right.s)))
  {
    var rk := OperandKey(e.right);
    if IsSet(m, e.left) && IsSet(m, rk) && m[e.left].Columns? && !m[rk].Columns? {
      EachAt(m[e.left].names, LeftColumn(e.right, e.logic));
    }
    if IsSet(m, e.left) && IsSet(m, rk) && !m[e.left].Columns? && m[rk].Columns? {
      EachAt(m[rk].names, RightColumn(e.left, e.logic));
    }
    if IsSet(m, e.left) && IsSet(m, rk) && m[e.left].Columns? && m[rk].Columns? {
      var ls, rs := m[e.left].names, m[rk].names;
      CrossLength(ls, rs, e.logic);
      forall i | 0 <= i < |ls|
        ensures ExprClauses(e, m) == Cross(ls[..i], rs, e.logic) + Each(rs, RightColumn(ls[i], e.logic)) + Cross(ls[i + 1..], rs, e.logic)
      {
        CrossRow(ls, rs, e.logic, i);
      }
    }
  }

  /** Left column major, by index: clause `i * |rs| + j` compares `ls[i]` with `rs[j]`. */
  lemma CrossAt(ls: seq<string>, rs: seq<string>, logic: Logic, i: nat, j: nat)
    requires i < |ls| && j < |rs|
    ensures |Cross(ls[..i], rs, logic)| == i * |rs|
    ensures i * |rs| + j < |Cross(ls, rs, logic)|
    ensures Cross(ls, rs, logic)[i * |rs| + j] == AndWhere(Raw(Str(ls[i])), Raw(Str(rs[j])), logic)
  {
    CrossRow(ls, rs, logic, i);
    EachAt(rs, RightColumn(ls[i], logic));
    var before, row := Cross(ls[..i], rs, logic), Each(rs, RightColumn(ls[i], logic));
    assert Cross(ls, rs, logic)[|before| + j] == row[j];
  }

  lemma {:induction false} CrossWhere(ls: seq<string>, rs: seq<string>, logic: Logic)
    ensures forall k :: 0 <= k < |Cross(ls, rs, logic)| ==> Cross(ls, rs, logic)[k].AndWhere?
  {
    if ls != [] {
      CrossWhere(ls[..|ls| - 1], rs, logic);
      EachAt(rs, RightColumn(ls[|ls| - 1], logic));
    }
  }

  /** Filter translation never fails and emits only `andWhere` calls. */
  lemma {:induction false} FilterClausesWhere(es: seq<LogicalExpression>, m: Mapping)
    ensures forall k :: 0 <= k < |FilterClauses(es, m)| ==> FilterClauses(es, m)[k].AndWhere?
  {
    if es != [] {
      var e := es[|es| - 1];
      FilterClausesWhere(es[..|es| - 1], m);
      var rk := OperandKey(e.right);
      if IsSet(m, e.left) && IsSet(m, rk) {
        if m[e.left].Columns? && m[rk].Columns? {
          CrossWhere(m[e.left].names, m[rk].names, e.logic);
        } else if m[e.left].Columns? {
          EachAt(m[e.left].names, LeftColumn(e.right, e.logic));
        } else if m[rk].Columns? {
          EachAt(m[rk].names, RightColumn(e.left, e.logic));
        }
      }
    }
  }

  /**
   * The translation succeeds exactly when every sort property is mapped; it is
   * then orderings followed by `andWhere` calls (no ordering after a filter)
   * and ends with one `limit($limit, $offset)`.
   */
  lemma TranslateLayout(sort: seq<Entry<string, Direction>>, logic: seq<LogicalExpression>, m: Mapping,
                        limit: Option<int>, offset: Option<int>)
    ensures var r := Translate(sort, logic, m, limit, offset);
      && (r.Ok? <==> forall i :: 0 <= i < |sort| ==> sort[i].key in m)
      && (r.Err? ==> r.error.UnknownProperty?)
      && (r.Ok? ==>
            && |r.value| >= 1
            && r.value[|r.value| - 1] == Limit(limit, offset)
            && (forall k :: 0 <= k < |r.value| - 1 ==> IsOrdering(r.value[k]) || r.value[k].AndWhere?)
            && (forall k, l :: 0 <= k < l < |r.value| - 1 && r.value[k].AndWhere? ==> r.value[l].AndWhere?))
  {
    SortClausesOutcome(sort, m);
    var r := Translate(sort, logic, m, limit, offset);
    if r.Ok? {
      var cs := SortClauses(sort, m).value;
      SortClausesOrder(sort, m);
      FilterClausesWhere(logic, m);
      var fs := FilterClauses(logic, m);
      assert r.value == cs + fs + [Limit(limit, offset)];
      assert forall k :: |cs| <= k < |r.value| - 1 ==> r.value[k] == fs[k - |cs|];
      assert forall k :: 0 <= k < |cs| ==> r.value[k] == cs[k];
    }
  }
}
