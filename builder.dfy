// The query builder of pkg/mysql_builder.go: a mutable object that collects
// tables, columns, predicates with their connectives, joins, grouping,
// ordering, limit, offset and rows through fluent calls, and compiles them
// into one SQL statement per statement kind.
module MysqlBuilder {
  import Text
  import opened Values
  import opened SqlFuncs

  /** OBJ: one row to write, column name to value. */
  type OBJ = map<string, Value>

  /** What Query gives: the SQL text, or the index-out-of-range panic the source runs into. */
  datatype Outcome = Sql(text: string) | Panic

  /** Every field of a QueryBuilder, as one value (the database handles are not modelled). */
  datatype BuilderState = BuilderState(
    values: seq<OBJ>,
    tables: seq<string>,
    columns: seq<string>,
    wheres: seq<string>,
    orders: seq<string>,
    groups: seq<string>,
    joins: seq<string>,
    having: string,
    ops: seq<SqlOp>,
    stp: SqlOp,
    qtyp: SqlTyp,
    limit: int,
    offset: int)

  /** The zero QueryBuilder{} with its kind set. */
  function EmptyState(kind: SqlTyp): (st: BuilderState)
    ensures st.qtyp == kind && st.stp == SqlAnd
  {
    BuilderState([], [], [], [], [], [], [], "", [], SqlAnd, kind, 0, 0)
  }

  // ---------------------------------------------------------------------------
  // The clause compiler (getWhereClauses)

  /** The text written before a predicate for its connective. */
  function Connective(op: SqlOp): (r: string)
    ensures r == "AND " || r == "OR " || r == "AND NOT "
    ensures op == SqlOr <==> r == "OR "
    ensures op == SqlAndNot <==> r == "AND NOT "
  {
    match op
    case SqlAnd => "AND "
    case SqlOr => "OR "
    case SqlAndNot => "AND NOT "
  }

  /** The i-th rendered clause: its connective when lead holds, then the predicate. */
  function ClauseText(w: string, op: SqlOp, lead: bool): string
  {
    (if lead then Connective(op) else "") + w
  }

  /** The rendered clauses in order; the first one gets its connective only when flag holds. */
  function Clauses(wheres: seq<string>, ops: seq<SqlOp>, flag: bool): (r: seq<string>)
    requires |wheres| == |ops|
    ensures |r| == |wheres|
    ensures forall i :: 0 <= i < |r| ==> r[i] == ClauseText(wheres[i], ops[i], flag || i != 0)
  {
    seq(|wheres|, i requires 0 <= i < |wheres| => ClauseText(wheres[i], ops[i], flag || i != 0))
  }

  /** getWhereClauses(flag): the rendered clauses separated by single spaces. */
  function WhereClauses(wheres: seq<string>, ops: seq<SqlOp>, flag: bool): string
    requires |wheres| == |ops|
  {
    Text.Join(Clauses(wheres, ops, flag), " ")
  }

  /**
   * With no predicates the rendering is empty. Otherwise it starts with the
   * first predicate (preceded by its connective exactly when flag holds) and
   * ends with the last predicate, so no space trails it.
   */
  lemma WhereClausesEnds(wheres: seq<string>, ops: seq<SqlOp>, flag: bool)
    requires |wheres| == |ops|
    ensures wheres == [] ==> WhereClauses(wheres, ops, flag) == ""
    ensures wheres != [] ==>
      var r := WhereClauses(wheres, ops, flag);
      var first := (if flag then Connective(ops[0]) else "") + wheres[0];
      var last := wheres[|wheres| - 1];
      && |first| <= |r| && r[..|first|] == first
      && |last| <= |r| && r[|r| - |last|..] == last
  {
    if wheres != [] {
      var cs := Clauses(wheres, ops, flag);
      var r := WhereClauses(wheres, ops, flag);
      var lastClause := cs[|cs| - 1];
      var last := wheres[|wheres| - 1];
      assert |lastClause| >= |last| && lastClause[|lastClause| - |last|..] == last;
      assert |r| >= |lastClause| && r[|r| - |lastClause|..] == lastClause by {
        Text.JoinEnds(cs, " ");
      }
      assert r[|r| - |last|..] == lastClause[|lastClause| - |last|..];
      assert cs[0] == (if flag then Connective(ops[0]) else "") + wheres[0];
      assert |r| >= |cs[0]| && r[..|cs[0]|] == cs[0] by {
        Text.JoinEnds(cs, " ");
      }
    }
  }

  /** The two renderings of the clause list differ only in the first clause's connective. */
  lemma ClausesDifferAtHead(wheres: seq<string>, ops: seq<SqlOp>)
    requires |wheres| == |ops| && wheres != []
    ensures Clauses(wheres, ops, true)[0] == Connective(ops[0]) + Clauses(wheres, ops, false)[0]
    ensures Clauses(wheres, ops, true)[1..] == Clauses(wheres, ops, false)[1..]
  {
    var t := Clauses(wheres, ops, true);
    var f := Clauses(wheres, ops, false);
    forall i | 1 <= i < |t| ensures t[i] == f[i] {
    }
    assert t[1..] == f[1..];
  }

  /** The top-level rendering is the nested one with the first connective put in front. */
  lemma WhereClausesLeading(wheres: seq<string>, ops: seq<SqlOp>)
    requires |wheres| == |ops| && wheres != []
    ensures WhereClauses(wheres, ops, true) == Connective(ops[0]) + WhereClauses(wheres, ops, false)
  {
    ClausesDifferAtHead(wheres, ops);
    Text.JoinLeading(Clauses(wheres, ops, true), Clauses(wheres, ops, false), Connective(ops[0]), " ");
  }

  /**
   * Adding one predicate with connective op appends a space, the connective and
   * the predicate to the rendering (or, on an empty list, renders it alone).
   */
  lemma WhereClausesSnoc(wheres: seq<string>, ops: seq<SqlOp>, w: string, op: SqlOp, flag: bool)
    requires |wheres| == |ops|
    ensures WhereClauses(wheres + [w], ops + [op], flag) ==
      if wheres == [] then ClauseText(w, op, flag)
      else WhereClauses(wheres, ops, flag) + " " + Connective(op) + w
  {
    var cs := Clauses(wheres, ops, flag);
    var cs' := Clauses(wheres + [w], ops + [op], flag);
    assert cs' == cs + [ClauseText(w, op, flag || |wheres| != 0)];
    if wheres != [] {
      Text.JoinSnoc(cs, ClauseText(w, op, true), " ");
    }
  }

  /** One predicate alone: its connective only at the top level. */
  lemma OneClause(w: string, op: SqlOp, flag: bool)
    ensures WhereClauses([w], [op], flag) == (if flag then Connective(op) + w else w)
  {
    assert Clauses([w], [op], flag) == [ClauseText(w, op, flag)];
  }

  /** Two predicates: the second always after its connective, the first only at the top level. */
  lemma TwoClauses(w1: string, op1: SqlOp, w2: string, op2: SqlOp, flag: bool)
    ensures WhereClauses([w1, w2], [op1, op2], flag) ==
      (if flag then Connective(op1) + w1 else w1) + " " + (Connective(op2) + w2)
  {
    var cs := Clauses([w1, w2], [op1, op2], flag);
    assert cs == [ClauseText(w1, op1, flag), Connective(op2) + w2];
    Text.JoinPair(ClauseText(w1, op1, flag), Connective(op2) + w2, " ");
  }

  // ---------------------------------------------------------------------------
  // Query: one compilation per statement kind

  /** The iteration order of a row: each of its keys exactly once. */
  predicate KeyOrder(order: seq<string>, row: OBJ)
  {
    && (forall i, j :: 0 <= i < j < |order| ==> order[i] != order[j])
    && (forall k :: k in row ==> k in order)
    && (forall i :: 0 <= i < |order| ==> order[i] in row)
  }

  /** Text after SELECT: the projected columns, or * when there are none. */
  function ColumnsSection(columns: seq<string>): (r: string)
    ensures columns == [] ==> r == "*"
  {
    if |columns| > 0 then Text.Join(columns, ", ") else "*"
  }

  /** " WHERE 1 " then every predicate with its connective; nothing without predicates. */
  function WhereSection(wheres: seq<string>, ops: seq<SqlOp>): (r: string)
    requires |wheres| == |ops|
    ensures wheres == [] <==> r == ""
  {
    if |wheres| > 0 then " WHERE 1 " + WhereClauses(wheres, ops, true) else ""
  }

  /** " GROUP BY ..." and, only then and only for a non-empty having, " HAVING ...". */
  function GroupSection(groups: seq<string>, having: string): (r: string)
    ensures groups == [] <==> r == ""
    ensures groups != [] && having == "" ==> r == " GROUP BY " + Text.Join(groups, ", ")
    ensures groups != [] && having != "" ==> r == " GROUP BY " + Text.Join(groups, ", ") + " HAVING " + having
  {
    if |groups| > 0 then
      " GROUP BY " + Text.Join(groups, ", ") + (if having != "" then " HAVING " + having else "")
    else ""
  }

  /** " <keyword> n" for a positive n, nothing otherwise. */
  function NumberSection(keyword: string, n: int): (r: string)
    ensures n <= 0 <==> r == ""
    ensures n > 0 ==> r == " " + keyword + " " + Text.IntText(n)
  {
    if n > 0 then " " + keyword + " " + Text.IntText(n) else ""
  }

  /** Everything after "SELECT " in the order the source concatenates it, before trimming. */
  function ReadTail(st: BuilderState): string
    requires |st.wheres| == |st.ops|
  {
    ColumnsSection(st.columns) + " FROM " + Text.Join(st.tables, ", ")
      + (if |st.joins| > 0 then " " + Text.Join(st.joins, " ") else "")
      + WhereSection(st.wheres, st.ops) + GroupSection(st.groups, st.having)
      + (if |st.orders| > 0 then " ORDER BY " + Text.Join(st.orders, ", ") else "")
      + NumberSection("LIMIT", st.limit) + NumberSection("OFFSET", st.offset)
  }

  /** The SELECT statement of a Read builder, with its outer spaces trimmed. */
  function ReadSql(st: BuilderState): (r: string)
    requires |st.wheres| == |st.ops|
    ensures Text.StartsWith(r, "SELECT") && Text.EndsSolid(r)
  {
    Selected(ReadTail(st))
  }

  /** "SELECT " and the tail, trimmed: the keyword stays and no space ends it. */
  function Selected(tail: string): (r: string)
    ensures Text.StartsWith(r, "SELECT") && Text.EndsSolid(r)
  {
    var q := "SELECT " + tail;
    assert q[..6] == "SELECT";
    assert Text.TrimLeft(q) == q;
    Text.TrimRightKeeps(q, 5);
    Text.Trim(q)
  }

  /** When the text after "SELECT " does not end in a space, trimming changes nothing. */
  lemma ReadSqlUntrimmed(st: BuilderState)
    requires |st.wheres| == |st.ops| && Text.EndsSolid(ReadTail(st))
    ensures ReadSql(st) == "SELECT " + ReadTail(st)
  {
    SelectUntrimmed(ReadTail(st));
  }

  lemma SelectUntrimmed(tail: string)
    requires Text.EndsSolid(tail)
    ensures Text.Trim("SELECT " + tail) == "SELECT " + tail
  {
    Text.EndsSolidAppend("SELECT ", tail);
    Text.TrimUnchanged("SELECT " + tail);
  }

  /** The text after "SELECT " of a builder with one table and predicates, and nothing else. */
  lemma FilteredTail(st: BuilderState)
    requires |st.wheres| == |st.ops| && st.wheres != [] && |st.tables| == 1
    requires st.columns == [] && st.joins == [] && st.groups == [] && st.orders == []
    requires st.limit <= 0 && st.offset <= 0
    ensures ReadTail(st) == "* FROM " + st.tables[0] + " WHERE 1 " + WhereClauses(st.wheres, st.ops, true)
  {
    assert Text.Join(st.tables, ", ") == st.tables[0];
  }

  /**
   * A SELECT over one table with predicates and nothing else: the table,
   * WHERE 1 and the predicates at the top level, left untouched by the
   * trimming when the last predicate does not end in a space.
   */
  lemma FilteredSelect(st: BuilderState)
    requires |st.wheres| == |st.ops| && st.wheres != [] && |st.tables| == 1
    requires st.columns == [] && st.joins == [] && st.groups == [] && st.orders == []
    requires st.limit <= 0 && st.offset <= 0
    requires Text.EndsSolid(st.wheres[|st.wheres| - 1])
    ensures ReadSql(st) == "SELECT * FROM " + st.tables[0] + " WHERE 1 " + WhereClauses(st.wheres, st.ops, true)
  {
    var wc := WhereClauses(st.wheres, st.ops, true);
    WhereClausesEnds(st.wheres, st.ops, true);
    Text.EndsSolidSuffix(wc, st.wheres[|st.wheres| - 1]);
    FilteredTail(st);
    Text.EndsSolidAppend("* FROM " + st.tables[0] + " WHERE 1 ", wc);
    ReadSqlUntrimmed(st);
    FilteredGlue(st.tables[0], wc);
  }

  lemma FilteredGlue(t: string, wc: string)
    ensures "SELECT " + ("* FROM " + t + " WHERE 1 " + wc) == "SELECT * FROM " + t + " WHERE 1 " + wc
  {
    assert "SELECT " + "* FROM " == "SELECT * FROM ";
  }

  /** The value a row gives for a key: a missing key reads as nil, which is NULL. */
  function CellText(row: OBJ, key: string): (r: string)
    ensures key !in row ==> r == "NULL"
    ensures key in row ==> r == Convert(row[key])
  {
    Convert(if key in row then row[key] else VNil)
  }

  /** One row's values, in the given key order. */
  function Cells(row: OBJ, keys: seq<string>): (r: seq<string>)
    ensures |r| == |keys|
    ensures forall i :: 0 <= i < |keys| ==> r[i] == CellText(row, keys[i])
  {
    seq(|keys|, i requires 0 <= i < |keys| => CellText(row, keys[i]))
  }

  /** One row as a parenthesised tuple. */
  function Tuple(row: OBJ, keys: seq<string>): string
  {
    "(" + Text.Join(Cells(row, keys), ", ") + ")"
  }

  /** Every row as a tuple, all in the same key order. */
  function Tuples(rows: seq<OBJ>, keys: seq<string>): (r: seq<string>)
    ensures |r| == |rows|
    ensures forall j :: 0 <= j < |rows| ==> r[j] == Tuple(rows[j], keys)
  {
    seq(|rows|, j requires 0 <= j < |rows| => Tuple(rows[j], keys))
  }

  /** INSERT INTO: the column list is the key order of row 0; one tuple per row. */
  function InsertSql(st: BuilderState, keys: seq<string>): (r: string)
    requires |st.tables| > 0
    ensures |r| >= 12 && r[..12] == "INSERT INTO "
  {
    "INSERT INTO " + st.tables[0] + "(" + Text.Join(keys, ", ") + ") VALUES"
      + Text.Join(Tuples(st.values, keys), ", ")
  }

  /** key=value for each key of the row, in the given order. */
  function Assignments(row: OBJ, keys: seq<string>): (r: seq<string>)
    ensures |r| == |keys|
    ensures forall i :: 0 <= i < |keys| ==> r[i] == keys[i] + "=" + CellText(row, keys[i])
  {
    seq(|keys|, i requires 0 <= i < |keys| => keys[i] + "=" + CellText(row, keys[i]))
  }

  /** UPDATE: the assignments of row 0, then WHERE and the nested-style predicates. */
  function UpdateSql(st: BuilderState, keys: seq<string>): (r: string)
    requires |st.wheres| == |st.ops| && |st.values| > 0
    ensures |r| >= 7 && r[..7] == "UPDATE "
  {
    "UPDATE " + Text.Join(st.tables, ", ") + " SET " + Text.Join(Assignments(st.values[0], keys), ", ")
      + " WHERE " + WhereClauses(st.wheres, st.ops, false)
  }

  /** DELETE: WHERE and the nested-style predicates, even when there are none. */
  function DeleteSql(st: BuilderState): (r: string)
    requires |st.wheres| == |st.ops|
    ensures |r| >= 12 && r[..12] == "DELETE FROM "
  {
    "DELETE FROM " + Text.Join(st.tables, ", ") + " WHERE " + WhereClauses(st.wheres, st.ops, false)
  }

  /** CREATE TABLE: column definitions, then constraints only when both lists are non-empty. */
  function TableSql(st: BuilderState): (r: string)
    ensures |r| >= 13 && r[..13] == "CREATE TABLE " && r[|r| - 1] == ')'
  {
    "CREATE TABLE " + Text.Join(st.tables, ", ") + "(" + Text.Join(st.columns, ", ")
      + (if |st.columns| > 0 && |st.orders| > 0 then ", " + Text.Join(st.orders, ", ") else "")
      + ")"
  }

  /**
   * Query(): the statement for the builder's kind, where keys is the order in
   * which the source's map iteration visits the keys of row 0. It panics
   * exactly when a Create builder has no rows or no table, or an Update
   * builder has no rows; otherwise the statement opens with its kind's keyword.
   */
  function Compile(st: BuilderState, keys: seq<string>): (r: Outcome)
    requires |st.wheres| == |st.ops|
    ensures r.Panic? <==>
      (st.qtyp == SqlTypCreate && (st.values == [] || st.tables == []))
      || (st.qtyp == SqlTypUpdate && st.values == [])
    ensures r.Sql? && st.qtyp == SqlTypRead ==> Text.StartsWith(r.text, "SELECT")
    ensures r.Sql? && st.qtyp == SqlTypCreate ==> Text.StartsWith(r.text, "INSERT INTO ")
    ensures r.Sql? && st.qtyp == SqlTypUpdate ==> Text.StartsWith(r.text, "UPDATE ")
    ensures r.Sql? && st.qtyp == SqlTypDelete ==> Text.StartsWith(r.text, "DELETE FROM ")
    ensures r.Sql? && st.qtyp == SqlTypTable ==> Text.StartsWith(r.text, "CREATE TABLE ")
  {
    match st.qtyp
    case SqlTypRead => Sql(ReadSql(st))
    case SqlTypCreate =>
      if |st.values| == 0 || |st.tables| == 0 then Panic else Sql(InsertSql(st, keys))
    case SqlTypUpdate => if |st.values| == 0 then Panic else Sql(UpdateSql(st, keys))
    case SqlTypDelete => Sql(DeleteSql(st))
    case SqlTypTable => Sql(TableSql(st))
  }

  /**
   * UPDATE and DELETE always write WHERE: with no predicates the statement
   * ends in " WHERE ", which is not valid SQL.
   */
  lemma BareWhere(st: BuilderState, keys: seq<string>)
    requires |st.wheres| == |st.ops| && st.wheres == []
    ensures DeleteSql(st) == "DELETE FROM " + Text.Join(st.tables, ", ") + " WHERE "
    ensures st.values != [] ==> (UpdateSql(st, keys) ==
      "UPDATE " + Text.Join(st.tables, ", ") + " SET " + Text.Join(Assignments(st.values[0], keys), ", ") + " WHERE ")
  {
    Text.JoinEnds(Clauses(st.wheres, st.ops, false), " ");
  }

  /**
   * A table definition lists its constraints after the columns, and drops
   * them altogether when it has no column.
   */
  lemma TableConstraints(st: BuilderState)
    ensures st.columns == [] ==> TableSql(st) == "CREATE TABLE " + Text.Join(st.tables, ", ") + "()"
    ensures st.columns != [] && st.orders == [] ==>
      TableSql(st) == "CREATE TABLE " + Text.Join(st.tables, ", ") + "(" + Text.Join(st.columns, ", ") + ")"
    ensures st.columns != [] && st.orders != [] ==>
      TableSql(st) == "CREATE TABLE " + Text.Join(st.tables, ", ") + "(" + Text.Join(st.columns, ", ")
        + ", " + Text.Join(st.orders, ", ") + ")"
  {
    Text.JoinEnds(st.columns, ", ");
  }

  // ---------------------------------------------------------------------------
  // Constraint texts of a table definition

  /**
   * The ON DELETE clause of ForeignKey, as the source writes it: FKCascade
   * renders SET NULL and FKSetNull renders CASCADE.
   */
  function OnDelete(ondelete: seq<FKType>): (r: string)
    ensures ondelete == [] <==> r == ""
    ensures ondelete != [] && ondelete[0] == FKCascade ==> r == " ON DELETE SET NULL"
    ensures ondelete != [] && ondelete[0] == FKSetNull ==> r == " ON DELETE CASCADE"
  {
    if |ondelete| > 0 then
      match ondelete[0]
      case FKCascade => " ON DELETE SET NULL"
      case FKSetNull => " ON DELETE CASCADE"
    else ""
  }

  // ---------------------------------------------------------------------------
  // The builder object

  class QueryBuilder {
    var values: seq<OBJ>
    var tables: seq<string>
    var columns: seq<string>
    var wheres: seq<string>
    var orders: seq<string>
    var groups: seq<string>
    var joins: seq<string>
    var having: string
    var ops: seq<SqlOp>
    var stp: SqlOp
    var qtyp: SqlTyp
    var limit: int
    var offset: int

    /** Every predicate has its connective. */
    ghost predicate Valid()
      reads this
    {
      |wheres| == |ops|
    }

    /** The builder's fields as one value. */
    function Snapshot(): (st: BuilderState)
      reads this
      ensures Valid() ==> |st.wheres| == |st.ops|
    {
      BuilderState(values, tables, columns, wheres, orders, groups, joins, having, ops, stp, qtyp, limit, offset)
    }

    /** &QueryBuilder{}: every field at its zero value (kind Create, connective AND). */
    constructor ()
      ensures Valid() && Snapshot() == EmptyState(SqlTypCreate)
    {
      values, tables, columns, wheres, orders, groups, joins := [], [], [], [], [], [], [];
      having, ops, stp, qtyp, limit, offset := "", [], SqlAnd, SqlTypCreate, 0, 0;
    }

    // -------------------------------------------------------------------------
    // Table definition. Constraints go into the same list as ORDER BY clauses:
    // the Table branch of Query renders it after the columns, a Read builder
    // as " ORDER BY ...".

    method Field(name: string, attributes: string)
      modifies this
      ensures Snapshot() == old(Snapshot()).(columns := old(columns) + [name + " " + attributes])
    {
      columns := columns + [name + " " + attributes];
    }

    method Unique(keys: seq<string>)
      modifies this
      ensures Snapshot() == old(Snapshot()).(orders := old(orders) + ["UNIQUE(" + Text.Join(keys, ", ") + ")"])
    {
      orders := orders + ["UNIQUE(" + Text.Join(keys, ", ") + ")"];
    }

    method Index(keys: seq<string>)
      modifies this
      ensures Snapshot() == old(Snapshot()).(orders := old(orders) + ["INDEX(" + Text.Join(keys, ", ") + ")"])
    {
      orders := orders + ["INDEX(" + Text.Join(keys, ", ") + ")"];
    }

    method PrimaryKey(key: string)
      modifies this
      ensures Snapshot() == old(Snapshot()).(orders := old(orders) + ["PRIMARY KEY (" + key + ")"])
    {
      orders := orders + ["PRIMARY KEY (" + key + ")"];
    }

    method ForeignKey(localField: string, remoteTable: string, remoteField: string, ondelete: seq<FKType>)
      modifies this
      ensures Snapshot() == old(Snapshot()).(orders := old(orders) +
        ["FOREIGN KEY (" + localField + ") REFERENCES " + remoteTable + " (" + remoteField + ")" + OnDelete(ondelete)])
    {
      var key := "FOREIGN KEY (" + localField + ") REFERENCES " + remoteTable + " (" + remoteField + ")";
      if |ondelete| > 0 {
        if ondelete[0] == FKCascade {
          key := key + " ON DELETE SET NULL";
        } else if ondelete[0] == FKSetNull {
          key := key + " ON DELETE CASCADE";
        }
      }
      assert key == "FOREIGN KEY (" + localField + ") REFERENCES " + remoteTable + " (" + remoteField + ")"
        + OnDelete(ondelete);
      orders := orders + [key];
    }

    // -------------------------------------------------------------------------
    // Rows, columns, tables

    method Fill(rows: seq<OBJ>)
      modifies this
      ensures Snapshot() == old(Snapshot()).(values := rows)
    {
      values := rows;
    }

    method Columns(cols: seq<string>)
      modifies this
      ensures Snapshot() == old(Snapshot()).(columns := old(columns) + cols)
    {
      columns := columns + cols;
    }

    /** Replaces the projection with a single COUNT(*) aliased count. */
    method Count()
      modifies this
      ensures Snapshot() == old(Snapshot()).(columns := ["COUNT(*) count"])
    {
      var count := SqlFuncs.Count("*", ["count"]);
      assert count == "COUNT(*) count";
      columns := [count];
    }

    method Table(table: string)
      modifies this
      ensures Snapshot() == old(Snapshot()).(tables := old(tables) + [table])
    {
      tables := tables + [table];
    }

    // -------------------------------------------------------------------------
    // Joins: sub is the builder the callback configured (an empty one when
    // no callback is given); its predicates follow ON condition with their
    // connectives, the first one included.

    method Join(table: string, condition: string, sub: QueryBuilder)
      requires sub != this && sub.Valid()
      modifies this
      ensures Snapshot() == old(Snapshot()).(joins := old(joins) +
        ["JOIN " + table + " ON " + condition + " " + WhereClauses(sub.wheres, sub.ops, true)])
    {
      var cond := sub.GetWhereClauses(true);
      joins := joins + ["JOIN " + table + " ON " + condition + " " + cond];
    }

    method LeftJoin(table: string, condition: string, sub: QueryBuilder)
      requires sub != this && sub.Valid()
      modifies this
      ensures Snapshot() == old(Snapshot()).(joins := old(joins) +
        ["LEFT JOIN " + table + " ON " + condition + " " + WhereClauses(sub.wheres, sub.ops, true)])
    {
      var cond := sub.GetWhereClauses(true);
      joins := joins + ["LEFT JOIN " + table + " ON " + condition + " " + cond];
    }

    method RightJoin(table: string, condition: string, sub: QueryBuilder)
      requires sub != this && sub.Valid()
      modifies this
      ensures Snapshot() == old(Snapshot()).(joins := old(joins) +
        ["RIGHT JOIN " + table + " ON " + condition + " " + WhereClauses(sub.wheres, sub.ops, true)])
    {
      var cond := sub.GetWhereClauses(true);
      joins := joins + ["RIGHT JOIN " + table + " ON " + condition + " " + cond];
    }

    method JoinUsing(table: string, using: string)
      modifies this
      ensures Snapshot() == old(Snapshot()).(joins := old(joins) + ["JOIN " + table + " USING(" + using + ")"])
    {
      joins := joins + ["JOIN " + table + " USING(" + using + ")"];
    }

    // -------------------------------------------------------------------------
    // Grouping and ordering

    method OrderBy(clauses: seq<string>)
      modifies this
      ensures Snapshot() == old(Snapshot()).(orders := old(orders) + clauses)
    {
      orders := orders + clauses;
    }

    method GroupBy(clauses: seq<string>)
      modifies this
      ensures Snapshot() == old(Snapshot()).(groups := old(groups) + clauses)
    {
      groups := groups + clauses;
    }

    /** HAVING is the callback builder's predicates, the first one without connective. */
    method Having(sub: QueryBuilder)
      requires sub != this && sub.Valid()
      modifies this
      ensures Snapshot() == old(Snapshot()).(having := WhereClauses(sub.wheres, sub.ops, false))
    {
      having := sub.GetWhereClauses(false);
    }

    // -------------------------------------------------------------------------
    // Predicates: each appends one predicate and the pending connective

    method AddPredicate(w: string)
      requires Valid()
      modifies this
      ensures Valid()
      ensures Snapshot() == old(Snapshot()).(wheres := old(wheres) + [w], ops := old(ops) + [old(stp)])
    {
      ops := ops + [stp];
      wheres := wheres + [w];
    }

    method BitwiseAnd(field: string, with: Text.int64, value: Text.int64)
      requires Valid()
      modifies this
      ensures Valid()
      ensures Snapshot() == old(Snapshot()).(
        wheres := old(wheres) + [field + " & " + Text.IntText(with) + " = " + Text.IntText(value)],
        ops := old(ops) + [old(stp)])
    {
      AddPredicate(field + " & " + Text.IntText(with) + " = " + Text.IntText(value));
    }

    method BitwiseOr(field: string, with: Text.int64, value: Text.int64)
      requires Valid()
      modifies this
      ensures Valid()
      ensures Snapshot() == old(Snapshot()).(
        wheres := old(wheres) + [field + " | " + Text.IntText(with) + " = " + Text.IntText(value)],
        ops := old(ops) + [old(stp)])
    {
      AddPredicate(field + " | " + Text.IntText(with) + " = " + Text.IntText(value));
    }

    method Where(field: string, value: Value)
      requires Valid()
      modifies this
      ensures Valid()
      ensures Snapshot() == old(Snapshot()).(
        wheres := old(wheres) + [field + " = " + Convert(value)], ops := old(ops) + [old(stp)])
    {
      AddPredicate(field + " = " + Convert(value));
    }

    method Find(value: Value)
      requires Valid()
      modifies this
      ensures Valid()
      ensures Snapshot() == old(Snapshot()).(
        wheres := old(wheres) + ["id = " + Convert(value)], ops := old(ops) + [old(stp)])
    {
      AddPredicate("id = " + Convert(value));
    }

    method WhereNot(field: string, value: Value)
      requires Valid()
      modifies this
      ensures Valid()
      ensures Snapshot() == old(Snapshot()).(
        wheres := old(wheres) + [field + " != " + Convert(value)], ops := old(ops) + [old(stp)])
    {
      AddPredicate(field + " != " + Convert(value));
    }

    method WhereNull(field: string)
      requires Valid()
      modifies this
      ensures Valid()
      ensures Snapshot() == old(Snapshot()).(
        wheres := old(wheres) + [field + " IS NULL"], ops := old(ops) + [old(stp)])
    {
      AddPredicate(field + " IS NULL");
    }

    method WhereNotNull(field: string)
      requires Valid()
      modifies this
      ensures Valid()
      ensures Snapshot() == old(Snapshot()).(
        wheres := old(wheres) + [field + " IS NOT NULL"], ops := old(ops) + [old(stp)])
    {
      AddPredicate(field + " IS NOT NULL");
    }

    method WhereBetween(field: string, value1: Value, value2: Value)
      requires Valid()
      modifies this
      ensures Valid()
      ensures Snapshot() == old(Snapshot()).(
        wheres := old(wheres) + [field + " BETWEEN " + Convert(value1) + " AND " + Convert(value2)],
        ops := old(ops) + [old(stp)])
    {
      AddPredicate(field + " BETWEEN " + Convert(value1) + " AND " + Convert(value2));
    }

    method WhereGT(field: string, value: Value)
      requires Valid()
      modifies this
      ensures Valid()
      ensures Snapshot() == old(Snapshot()).(
        wheres := old(wheres) + [field + " > " + Convert(value)], ops := old(ops) + [old(stp)])
    {
      AddPredicate(field + " > " + Convert(value));
    }

    method WhereGTE(field: string, value: Value)
      requires Valid()
      modifies this
      ensures Valid()
      ensures Snapshot() == old(Snapshot()).(
        wheres := old(wheres) + [field + " >= " + Convert(value)], ops := old(ops) + [old(stp)])
    {
      AddPredicate(field + " >= " + Convert(value));
    }

    method WhereLT(field: string, value: Value)
      requires Valid()
      modifies this
      ensures Valid()
      ensures Snapshot() == old(Snapshot()).(
        wheres := old(wheres) + [field + " < " + Convert(value)], ops := old(ops) + [old(stp)])
    {
      AddPredicate(field + " < " + Convert(value));
    }

    method WhereLTE(field: string, value: Value)
      requires Valid()
      modifies this
      ensures Valid()
      ensures Snapshot() == old(Snapshot()).(
        wheres := old(wheres) + [field + " <= " + Convert(value)], ops := old(ops) + [old(stp)])
    {
      AddPredicate(field + " <= " + Convert(value));
    }

    /** field in (v1,v2,...): the values serialized as one slice. */
    method WhereIn(field: string, vals: seq<Value>)
      requires Valid()
      modifies this
      ensures Valid()
      ensures Snapshot() == old(Snapshot()).(
        wheres := old(wheres) + [field + " in " + Convert(VSlice(vals))], ops := old(ops) + [old(stp)])
    {
      AddPredicate(field + " in " + Convert(VSlice(vals)));
    }

    /** field IN (<the SELECT of the callback's Read builder>). */
    method WhereInQuery(field: string, sub: QueryBuilder)
      requires Valid() && sub != this && sub.Valid() && sub.qtyp == SqlTypRead
      modifies this
      ensures Valid()
      ensures Snapshot() == old(Snapshot()).(
        wheres := old(wheres) + [field + " IN (" + ReadSql(sub.Snapshot()) + ")"], ops := old(ops) + [old(stp)])
    {
      var nested := sub.ReadQuery();
      AddPredicate(field + " IN (" + nested + ")");
    }

    /** The callback builder's predicates as one parenthesised predicate. */
    method WhereGroup(sub: QueryBuilder)
      requires Valid() && sub != this && sub.Valid()
      modifies this
      ensures Valid()
      ensures Snapshot() == old(Snapshot()).(
        wheres := old(wheres) + ["(" + WhereClauses(sub.wheres, sub.ops, false) + ")"],
        ops := old(ops) + [old(stp)])
    {
      var inner := sub.GetWhereClauses(false);
      AddPredicate("(" + inner + ")");
    }

    // -------------------------------------------------------------------------
    // The pending connective: set here, never reset by the predicates

    method Or()
      modifies this
      ensures Snapshot() == old(Snapshot()).(stp := SqlOr)
    {
      stp := SqlOr;
    }

    method And()
      modifies this
      ensures Snapshot() == old(Snapshot()).(stp := SqlAnd)
    {
      stp := SqlAnd;
    }

    method AndNot()
      modifies this
      ensures Snapshot() == old(Snapshot()).(stp := SqlAndNot)
    {
      stp := SqlAndNot;
    }

    // -------------------------------------------------------------------------
    // Limit and offset

    method Top(top: Text.int64)
      modifies this
      ensures Snapshot() == old(Snapshot()).(limit := top)
    {
      limit := top;
    }

    method Offset(n: Text.int64)
      modifies this
      ensures Snapshot() == old(Snapshot()).(offset := n)
    {
      offset := n;
    }

    method First()
      modifies this
      ensures Snapshot() == old(Snapshot()).(limit := 1)
    {
      limit := 1;
    }

    // -------------------------------------------------------------------------
    // Compilation

    /** getWhereClauses(flag): the loop that renders the predicate list. */
    method GetWhereClauses(flag: bool) returns (where: string)
      requires Valid()
      ensures where == WhereClauses(wheres, ops, flag)
    {
      ghost var cs := Clauses(wheres, ops, flag);
      where := "";
      var ln := |wheres|;
      var i := 0;
      while i < ln
        invariant 0 <= i <= ln
        invariant where == Text.JoinPrefix(cs, i, " ")
      {
        var cls := wheres[i];
        var prefix := "";
        if flag || i != 0 {
          match ops[i]
          case SqlAnd => prefix := "AND ";
          case SqlOr => prefix := "OR ";
          case SqlAndNot => prefix := "AND NOT ";
        }
        var clause := prefix + cls;
        assert clause == cs[i];
        var sep := if i != ln - 1 then " " else "";
        Text.JoinPrefixStep(cs, i, " ");
        where := where + clause + sep;
        i := i + 1;
      }
      Text.JoinPrefixDone(cs, " ");
    }

    /**
     * Query(): order is the sequence in which the source's map iteration
     * visits the keys of values[0] (used by Create and Update only).
     */
    method Query(order: seq<string>) returns (r: Outcome)
      requires Valid()
      requires |values| > 0 ==> KeyOrder(order, values[0])
      ensures r == Compile(Snapshot(), order)
    {
      match qtyp
      case SqlTypRead =>
        var query := ReadQuery();
        r := Sql(query);
      case SqlTypCreate =>
        r := InsertQuery(order);
      case SqlTypUpdate =>
        r := UpdateQuery(order);
      case SqlTypDelete =>
        var cls := GetWhereClauses(false);
        r := Sql("DELETE FROM " + Text.Join(tables, ", ") + " WHERE " + cls);
        assert r.text == DeleteSql(Snapshot());
      case SqlTypTable =>
        var table := "CREATE TABLE " + Text.Join(tables, ", ") + "(" + Text.Join(columns, ", ");
        if |columns| > 0 && |orders| > 0 {
          table := table + ", " + Text.Join(orders, ", ");
        }
        r := Sql(table + ")");
        assert r.text == TableSql(Snapshot());
    }

    /** The Read branch of Query: the sections in order, then the outer spaces trimmed. */
    method ReadQuery() returns (query: string)
      requires Valid()
      ensures query == ReadSql(Snapshot())
    {
      var cols := ColumnsSection(columns);
      var orderBy := if |orders| > 0 then " ORDER BY " + Text.Join(orders, ", ") else "";
      var where := "";
      if |wheres| > 0 {
        var cls := GetWhereClauses(true);
        where := " WHERE 1 " + cls;
      }
      var joinText := if |joins| > 0 then " " + Text.Join(joins, " ") else "";
      var groupBy := GroupSection(groups, having);
      var lim := NumberSection("LIMIT", limit);
      var off := NumberSection("OFFSET", offset);
      query := Text.Trim("SELECT " + (cols + " FROM " + Text.Join(tables, ", ")
        + joinText + where + groupBy + orderBy + lim + off));
    }

    /** The Create branch of Query: one tuple per row, every tuple in the key order of row 0. */
    method InsertQuery(order: seq<string>) returns (r: Outcome)
      requires Valid()
      ensures r == if |values| == 0 || |tables| == 0 then Panic else Sql(InsertSql(Snapshot(), order))
    {
      if |values| == 0 {
        return Panic;
      }
      ghost var tuples := Tuples(values, order);
      var stm: seq<string> := [];
      var j := 0;
      while j < |values|
        invariant 0 <= j <= |values|
        invariant stm == tuples[..j]
      {
        var item := values[j];
        var row := RenderTuple(item, order);
        assert tuples[..j + 1] == tuples[..j] + [row];
        stm := stm + [row];
        j := j + 1;
      }
      assert stm == tuples;
      if |tables| == 0 {
        return Panic;
      }
      r := Sql("INSERT INTO " + tables[0] + "(" + Text.Join(order, ", ") + ") VALUES" + Text.Join(stm, ", "));
    }

    /** The inner loop of the Create branch: one row's values in key order, in parentheses. */
    method RenderTuple(item: OBJ, order: seq<string>) returns (row: string)
      ensures row == Tuple(item, order)
    {
      ghost var cells := Cells(item, order);
      var vals := "";
      var ln := |order|;
      var i := 0;
      while i < ln
        invariant 0 <= i <= ln
        invariant vals == Text.JoinPrefix(cells, i, ", ")
      {
        // a key that row 0 has and this row lacks reads as nil
        var v := if order[i] in item then item[order[i]] else VNil;
        var sep := if i != ln - 1 then ", " else "";
        Text.JoinPrefixStep(cells, i, ", ");
        vals := vals + Convert(v) + sep;
        i := i + 1;
      }
      Text.JoinPrefixDone(cells, ", ");
      row := "(" + vals + ")";
    }

    /** The Update branch of Query: key=value over row 0 in iteration order, then WHERE. */
    method UpdateQuery(order: seq<string>) returns (r: Outcome)
      requires Valid()
      requires |values| > 0 ==> KeyOrder(order, values[0])
      ensures r == if |values| == 0 then Panic else Sql(UpdateSql(Snapshot(), order))
    {
      if |values| == 0 {
        return Panic;
      }
      var item := values[0];
      ghost var assigns := Assignments(item, order);
      var vals := "";
      var ln := |order|;
      var i := 0;
      while i < ln
        invariant 0 <= i <= ln
        invariant vals == Text.JoinPrefix(assigns, i, ", ")
      {
        var key := order[i];
        var sep := if i != ln - 1 then ", " else "";
        Text.JoinPrefixStep(assigns, i, ", ");
        vals := vals + (key + "=" + Convert(item[key])) + sep;
        i := i + 1;
      }
      Text.JoinPrefixDone(assigns, ", ");
      var cls := GetWhereClauses(false);
      r := Sql("UPDATE " + Text.Join(tables, ", ") + " SET " + vals + " WHERE " + cls);
    }
  }
}
