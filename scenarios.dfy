// Fluent call chains on the builder and the statements they compile to. Each
// method runs the chain on the QueryBuilder class, so its ensures follows from
// the contracts of the factories, the mutators and Query.
module Scenarios {
  import Text
  import opened Values
  import opened SqlFuncs
  import opened MysqlBuilder
  import Factories

  // ---------------------------------------------------------------------------
  // Read(t) with nothing else: every column of the table.

  method ReadAll(t: string) returns (q: Outcome)
    requires Text.EndsSolid(t)
    ensures q == Sql("SELECT * FROM " + t)
  {
    var b := Factories.Read(t);
    q := b.Query([]);
    Factories.ReadAlone(b.Snapshot(), t, []);
  }

  // ---------------------------------------------------------------------------
  // Read(t).Where(f1, v1).Or().Where(f2, v2): the first predicate keeps the
  // default AND, the second takes the OR set before it.

  method ReadWithOr(t: string, f1: string, v1: Value, f2: string, v2: Value) returns (q: Outcome)
    requires Text.EndsSolid(Convert(v2))
    ensures q == Sql("SELECT * FROM " + t + " WHERE 1 AND " + f1 + " = " + Convert(v1) + " OR " + f2 + " = " + Convert(v2))
  {
    var b := Factories.Read(t);
    b.Where(f1, v1);
    b.Or();
    b.Where(f2, v2);
    ghost var st := EmptyState(SqlTypRead).(tables := [t], wheres := [f1 + " = " + Convert(v1), f2 + " = " + Convert(v2)],
      ops := [SqlAnd, SqlOr], stp := SqlOr);
    assert b.Snapshot() == st;
    q := b.Query([]);
    ReadWithOrCompiled(st, t, f1, Convert(v1), f2, Convert(v2));
  }

  lemma ReadWithOrCompiled(st: BuilderState, t: string, f1: string, c1: string, f2: string, c2: string)
    requires st == EmptyState(SqlTypRead).(tables := [t], wheres := [f1 + " = " + c1, f2 + " = " + c2],
      ops := [SqlAnd, SqlOr], stp := SqlOr)
    requires Text.EndsSolid(c2)
    ensures Compile(st, []) == Sql("SELECT * FROM " + t + " WHERE 1 AND " + f1 + " = " + c1 + " OR " + f2 + " = " + c2)
  {
    Text.EndsSolidAppend(f2 + " = ", c2);
    ReadWithOrSql(st, t, f1 + " = " + c1, f2 + " = " + c2);
    ReadWithOrGlue(t, f1, c1, f2, c2);
  }

  lemma ReadWithOrSql(st: BuilderState, t: string, w1: string, w2: string)
    requires st == EmptyState(SqlTypRead).(tables := [t], wheres := [w1, w2], ops := [SqlAnd, SqlOr], stp := SqlOr)
    requires Text.EndsSolid(w2)
    ensures ReadSql(st) == "SELECT * FROM " + t + " WHERE 1 " + ("AND " + w1 + " " + "OR " + w2)
  {
    TwoClauses(w1, SqlAnd, w2, SqlOr, true);
    FilteredSelect(st);
  }

  lemma ReadWithOrGlue(t: string, f1: string, c1: string, f2: string, c2: string)
    ensures "SELECT * FROM " + t + " WHERE 1 " + ("AND " + (f1 + " = " + c1) + " " + "OR " + (f2 + " = " + c2))
      == "SELECT * FROM " + t + " WHERE 1 AND " + f1 + " = " + c1 + " OR " + f2 + " = " + c2
  {
    assert " WHERE 1 " + "AND " == " WHERE 1 AND ";
    assert " " + "OR " == " OR ";
  }

  // ---------------------------------------------------------------------------
  // Read(t).Or().Where(f1, v1).Where(f2, v2): the pending connective is never
  // reset, so both predicates take OR, the first one included.

  method StickyOr(t: string, f1: string, v1: Value, f2: string, v2: Value) returns (q: Outcome)
    requires Text.EndsSolid(Convert(v2))
    ensures q == Sql("SELECT * FROM " + t + " WHERE 1 OR " + f1 + " = " + Convert(v1) + " OR " + f2 + " = " + Convert(v2))
  {
    var b := Factories.Read(t);
    b.Or();
    b.Where(f1, v1);
    b.Where(f2, v2);
    ghost var st := EmptyState(SqlTypRead).(tables := [t], wheres := [f1 + " = " + Convert(v1), f2 + " = " + Convert(v2)],
      ops := [SqlOr, SqlOr], stp := SqlOr);
    assert b.Snapshot() == st;
    q := b.Query([]);
    StickyOrCompiled(st, t, f1, Convert(v1), f2, Convert(v2));
  }

  lemma StickyOrCompiled(st: BuilderState, t: string, f1: string, c1: string, f2: string, c2: string)
    requires st == EmptyState(SqlTypRead).(tables := [t], wheres := [f1 + " = " + c1, f2 + " = " + c2],
      ops := [SqlOr, SqlOr], stp := SqlOr)
    requires Text.EndsSolid(c2)
    ensures Compile(st, []) == Sql("SELECT * FROM " + t + " WHERE 1 OR " + f1 + " = " + c1 + " OR " + f2 + " = " + c2)
  {
    var w1, w2 := f1 + " = " + c1, f2 + " = " + c2;
    Text.EndsSolidAppend(f2 + " = ", c2);
    TwoClauses(w1, SqlOr, w2, SqlOr, true);
    FilteredSelect(st);
    StickyOrGlue(t, f1, c1, f2, c2);
  }

  lemma StickyOrGlue(t: string, f1: string, c1: string, f2: string, c2: string)
    ensures "SELECT * FROM " + t + " WHERE 1 " + ("OR " + (f1 + " = " + c1) + " " + ("OR " + (f2 + " = " + c2)))
      == "SELECT * FROM " + t + " WHERE 1 OR " + f1 + " = " + c1 + " OR " + f2 + " = " + c2
  {
    assert " WHERE 1 " + "OR " == " WHERE 1 OR ";
    assert " " + "OR " == " OR ";
  }

  // ---------------------------------------------------------------------------
  // Read(t).Where(f1, v1).Or().WhereGroup(b => b.WhereNull(f2).Or().WhereNull(f3)):
  // the group is one parenthesised predicate whose first inner predicate has
  // no connective.

  method GroupedOr(t: string, f1: string, v1: Value, f2: string, f3: string) returns (q: Outcome)
    ensures q == Sql("SELECT * FROM " + t + " WHERE 1 AND " + f1 + " = " + Convert(v1)
      + " OR (" + f2 + " IS NULL OR " + f3 + " IS NULL)")
  {
    var sub := Factories.Nested();
    sub.WhereNull(f2);
    sub.Or();
    sub.WhereNull(f3);
    assert sub.wheres == [f2 + " IS NULL", f3 + " IS NULL"] && sub.ops == [SqlAnd, SqlOr];
    ghost var group := "(" + (f2 + " IS NULL") + " OR " + (f3 + " IS NULL") + ")";
    GroupText(f2 + " IS NULL", f3 + " IS NULL");
    var b := Factories.Read(t);
    b.Where(f1, v1);
    b.Or();
    b.WhereGroup(sub);
    ghost var st := EmptyState(SqlTypRead).(tables := [t], wheres := [f1 + " = " + Convert(v1), group],
      ops := [SqlAnd, SqlOr], stp := SqlOr);
    assert b.Snapshot() == st;
    q := b.Query([]);
    GroupedOrCompiled(st, t, f1, Convert(v1), f2, f3);
  }

  /** The inner rendering of a two-predicate group. */
  lemma GroupText(w2: string, w3: string)
    ensures "(" + WhereClauses([w2, w3], [SqlAnd, SqlOr], false) + ")" == "(" + w2 + " OR " + w3 + ")"
  {
    TwoClauses(w2, SqlAnd, w3, SqlOr, false);
    assert " " + "OR " == " OR ";
  }

  lemma GroupedOrCompiled(st: BuilderState, t: string, f1: string, c1: string, f2: string, f3: string)
    requires st == EmptyState(SqlTypRead).(tables := [t],
      wheres := [f1 + " = " + c1, "(" + (f2 + " IS NULL") + " OR " + (f3 + " IS NULL") + ")"],
      ops := [SqlAnd, SqlOr], stp := SqlOr)
    ensures Compile(st, []) == Sql("SELECT * FROM " + t + " WHERE 1 AND " + f1 + " = " + c1
      + " OR (" + f2 + " IS NULL OR " + f3 + " IS NULL)")
  {
    var w1 := f1 + " = " + c1;
    var g := "(" + (f2 + " IS NULL") + " OR " + (f3 + " IS NULL") + ")";
    Text.EndsSolidAppend("(" + (f2 + " IS NULL") + " OR " + (f3 + " IS NULL"), ")");
    TwoClauses(w1, SqlAnd, g, SqlOr, true);
    FilteredSelect(st);
    GroupedOrGlue(t, f1, c1, f2, f3);
  }

  lemma GroupedOrGlue(t: string, f1: string, c1: string, f2: string, f3: string)
    ensures "SELECT * FROM " + t + " WHERE 1 "
      + ("AND " + (f1 + " = " + c1) + " " + ("OR " + ("(" + (f2 + " IS NULL") + " OR " + (f3 + " IS NULL") + ")")))
      == "SELECT * FROM " + t + " WHERE 1 AND " + f1 + " = " + c1 + " OR (" + f2 + " IS NULL OR " + f3 + " IS NULL)"
  {
    assert " WHERE 1 " + "AND " == " WHERE 1 AND ";
    assert " " + "OR " + "(" == " OR (";
    assert " IS NULL" + " OR " == " IS NULL OR ";
  }

  // ---------------------------------------------------------------------------
  // Create(t).Fill([r1, r2]): the columns are the key order of the first row
  // and the rows follow as tuples separated by a comma.

  method InsertTwoRows(t: string, r1: OBJ, r2: OBJ, order: seq<string>) returns (q: Outcome)
    requires KeyOrder(order, r1)
    ensures q == Sql("INSERT INTO " + t + "(" + Text.Join(order, ", ") + ") VALUES"
      + Tuple(r1, order) + ", " + Tuple(r2, order))
  {
    var b := Factories.Create(t);
    b.Fill([r1, r2]);
    ghost var st := EmptyState(SqlTypCreate).(tables := [t], values := [r1, r2]);
    assert b.Snapshot() == st;
    q := b.Query(order);
    InsertTwoRowsCompiled(st, t, r1, r2, order);
  }

  lemma InsertTwoRowsCompiled(st: BuilderState, t: string, r1: OBJ, r2: OBJ, order: seq<string>)
    requires st == EmptyState(SqlTypCreate).(tables := [t], values := [r1, r2])
    ensures Compile(st, order) == Sql("INSERT INTO " + t + "(" + Text.Join(order, ", ") + ") VALUES"
      + Tuple(r1, order) + ", " + Tuple(r2, order))
  {
    assert InsertSql(st, order) == "INSERT INTO " + t + "(" + Text.Join(order, ", ") + ") VALUES"
      + Text.Join(Tuples([r1, r2], order), ", ");
    TwoTuples(r1, r2, order);
    InsertGlue(t, Text.Join(order, ", "), Tuple(r1, order), Tuple(r2, order));
  }

  lemma InsertGlue(t: string, cols: string, a: string, b: string)
    ensures "INSERT INTO " + t + "(" + cols + ") VALUES" + (a + ", " + b)
      == "INSERT INTO " + t + "(" + cols + ") VALUES" + a + ", " + b
  {
  }

  /** Two rows render as their two tuples joined by a comma. */
  lemma TwoTuples(r1: OBJ, r2: OBJ, order: seq<string>)
    ensures Text.Join(Tuples([r1, r2], order), ", ") == Tuple(r1, order) + ", " + Tuple(r2, order)
  {
    var ts := Tuples([r1, r2], order);
    assert ts == [Tuple(r1, order), Tuple(r2, order)];
    Text.JoinPair(Tuple(r1, order), Tuple(r2, order), ", ");
  }

  // ---------------------------------------------------------------------------
  // Update(t).Fill([row]).Where(f, v): the predicates of an UPDATE are written
  // after a bare WHERE, the first one without its connective.

  method UpdateWhere(t: string, row: OBJ, order: seq<string>, f: string, v: Value) returns (q: Outcome)
    requires KeyOrder(order, row)
    ensures q == Sql("UPDATE " + t + " SET " + Text.Join(Assignments(row, order), ", ") + " WHERE " + f + " = " + Convert(v))
  {
    var b := Factories.Update(t);
    b.Fill([row]);
    b.Where(f, v);
    ghost var st := EmptyState(SqlTypUpdate).(tables := [t], values := [row], wheres := [f + " = " + Convert(v)],
      ops := [SqlAnd]);
    assert b.Snapshot() == st;
    q := b.Query(order);
    UpdateWhereCompiled(st, t, row, order, f, Convert(v));
  }

  lemma UpdateWhereCompiled(st: BuilderState, t: string, row: OBJ, order: seq<string>, f: string, c: string)
    requires st == EmptyState(SqlTypUpdate).(tables := [t], values := [row], wheres := [f + " = " + c], ops := [SqlAnd])
    ensures Compile(st, order) == Sql("UPDATE " + t + " SET " + Text.Join(Assignments(row, order), ", ") + " WHERE " + f + " = " + c)
  {
    assert Compile(st, order) == Sql(UpdateSql(st, order));
    UpdateWhereSql(st, t, row, order, f, c);
  }

  lemma UpdateWhereSql(st: BuilderState, t: string, row: OBJ, order: seq<string>, f: string, c: string)
    requires st == EmptyState(SqlTypUpdate).(tables := [t], values := [row], wheres := [f + " = " + c], ops := [SqlAnd])
    ensures UpdateSql(st, order) == "UPDATE " + t + " SET " + Text.Join(Assignments(row, order), ", ") + " WHERE " + f + " = " + c
  {
    assert Text.Join([t], ", ") == t;
    OneClause(f + " = " + c, SqlAnd, false);
  }

  // ---------------------------------------------------------------------------
  // Delete(t) with no predicate: the statement still ends in WHERE.

  method DeleteAll(t: string) returns (q: Outcome)
    ensures q == Sql("DELETE FROM " + t + " WHERE ")
  {
    var b := Factories.Delete(t);
    ghost var st := EmptyState(SqlTypDelete).(tables := [t]);
    q := b.Query([]);
    BareWhere(st, []);
    assert Text.Join([t], ", ") == t;
  }

  // ---------------------------------------------------------------------------
  // A table definition: one column and its primary key.

  method TableWithKey(t: string, name: string, attributes: string) returns (q: Outcome)
    ensures q == Sql("CREATE TABLE " + t + "(" + name + " " + attributes + ", PRIMARY KEY (" + name + "))")
  {
    var b := new QueryBuilder();
    b.qtyp := SqlTypTable;
    b.Table(t);
    b.Field(name, attributes);
    b.PrimaryKey(name);
    ghost var st := EmptyState(SqlTypTable).(tables := [t], columns := [name + " " + attributes],
      orders := ["PRIMARY KEY (" + name + ")"]);
    assert b.Snapshot() == st;
    q := b.Query([]);
    TableWithKeyCompiled(st, t, name, attributes);
  }

  lemma TableWithKeyCompiled(st: BuilderState, t: string, name: string, attributes: string)
    requires st == EmptyState(SqlTypTable).(tables := [t], columns := [name + " " + attributes],
      orders := ["PRIMARY KEY (" + name + ")"])
    ensures Compile(st, []) == Sql("CREATE TABLE " + t + "(" + name + " " + attributes + ", PRIMARY KEY (" + name + "))")
  {
    assert Text.Join([t], ", ") == t;
    assert Text.Join([name + " " + attributes], ", ") == name + " " + attributes;
    assert Text.Join(["PRIMARY KEY (" + name + ")"], ", ") == "PRIMARY KEY (" + name + ")";
    TableWithKeyGlue(t, name, attributes);
  }

  lemma TableWithKeyGlue(t: string, name: string, attributes: string)
    ensures "CREATE TABLE " + t + "(" + (name + " " + attributes) + ", " + ("PRIMARY KEY (" + name + ")") + ")"
      == "CREATE TABLE " + t + "(" + name + " " + attributes + ", PRIMARY KEY (" + name + "))"
  {
    assert ", " + "PRIMARY KEY (" == ", PRIMARY KEY (";
    assert ")" + ")" == "))";
  }

  // ---------------------------------------------------------------------------
  // Query(fn, alias) with fn = b => b.Table(t).WhereNull(f): as written the
  // builder is of kind Create and has no rows, so the call panics; the
  // corrected wrapper renders the SELECT the caller meant.

  method SubqueryAsWritten(t: string, f: string, alias: string) returns (r: Outcome)
    ensures r == Panic
  {
    var sub := new QueryBuilder();
    sub.Table(t);
    sub.WhereNull(f);
    r := Factories.Query(sub, alias, []);
  }

  method SubqueryCorrected(t: string, f: string, alias: string) returns (r: string)
    ensures r == "(SELECT * FROM " + t + " WHERE 1 AND " + f + " IS NULL) " + alias
  {
    var sub := Factories.Nested();
    sub.Table(t);
    sub.WhereNull(f);
    ghost var st := EmptyState(SqlTypRead).(tables := [t], wheres := [f + " IS NULL"], ops := [SqlAnd]);
    assert sub.Snapshot() == st;
    r := Factories.ReadSubquery(sub, alias);
    SubqueryCorrectedSql(st, t, f);
    SubqueryCorrectedGlue(t, f, alias);
  }

  lemma SubqueryCorrectedSql(st: BuilderState, t: string, f: string)
    requires st == EmptyState(SqlTypRead).(tables := [t], wheres := [f + " IS NULL"], ops := [SqlAnd])
    ensures ReadSql(st) == "SELECT * FROM " + t + " WHERE 1 " + ("AND " + (f + " IS NULL"))
  {
    Text.EndsSolidAppend(f, " IS NULL");
    OneClause(f + " IS NULL", SqlAnd, true);
    FilteredSelect(st);
  }

  lemma SubqueryCorrectedGlue(t: string, f: string, alias: string)
    ensures "(" + ("SELECT * FROM " + t + " WHERE 1 " + ("AND " + (f + " IS NULL"))) + ") " + alias
      == "(SELECT * FROM " + t + " WHERE 1 AND " + f + " IS NULL) " + alias
  {
    assert "(" + "SELECT * FROM " == "(SELECT * FROM ";
    assert " WHERE 1 " + "AND " == " WHERE 1 AND ";
    assert " IS NULL" + ") " == " IS NULL) ";
  }
}
