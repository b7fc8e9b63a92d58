// The factories and the subquery wrapper of pkg/sql_funcs.go: each allocates
// a QueryBuilder, fixes its statement kind and, for the factories, names its
// table.
module Factories {
  import Text
  import opened Values
  import opened SqlFuncs
  import opened MysqlBuilder

  /** Read(table): a SELECT builder on table, every other field empty. */
  method Read(table: string) returns (b: QueryBuilder)
    ensures fresh(b) && b.Valid()
    ensures b.Snapshot() == EmptyState(SqlTypRead).(tables := [table])
  {
    b := new QueryBuilder();
    b.qtyp := SqlTypRead;
    b.Table(table);
  }

  /** Create(table): an INSERT builder on table, every other field empty. */
  method Create(table: string) returns (b: QueryBuilder)
    ensures fresh(b) && b.Valid()
    ensures b.Snapshot() == EmptyState(SqlTypCreate).(tables := [table])
  {
    b := new QueryBuilder();
    b.qtyp := SqlTypCreate;
    b.Table(table);
  }

  /** Update(table): an UPDATE builder on table, every other field empty. */
  method Update(table: string) returns (b: QueryBuilder)
    ensures fresh(b) && b.Valid()
    ensures b.Snapshot() == EmptyState(SqlTypUpdate).(tables := [table])
  {
    b := new QueryBuilder();
    b.qtyp := SqlTypUpdate;
    b.Table(table);
  }

  /** Delete(table): a DELETE builder on table, every other field empty. */
  method Delete(table: string) returns (b: QueryBuilder)
    ensures fresh(b) && b.Valid()
    ensures b.Snapshot() == EmptyState(SqlTypDelete).(tables := [table])
  {
    b := new QueryBuilder();
    b.qtyp := SqlTypDelete;
    b.Table(table);
  }

  /**
   * The builder a callback of Join, LeftJoin, RightJoin, Having, WhereInQuery
   * or WhereGroup receives: &QueryBuilder{qtyp: SqlTypRead}, with no table.
   */
  method Nested() returns (b: QueryBuilder)
    ensures fresh(b) && b.Valid()
    ensures b.Snapshot() == EmptyState(SqlTypRead)
  {
    b := new QueryBuilder();
    b.qtyp := SqlTypRead;
  }

  /** A fresh Read builder on t, compiled with no further calls, is SELECT * FROM t. */
  lemma ReadAlone(st: BuilderState, t: string, keys: seq<string>)
    requires st == EmptyState(SqlTypRead).(tables := [t]) && Text.EndsSolid(t)
    ensures Compile(st, keys) == Sql("SELECT * FROM " + t)
  {
    AloneSql(st, t);
  }

  lemma AloneSql(st: BuilderState, t: string)
    requires st == EmptyState(SqlTypRead).(tables := [t]) && Text.EndsSolid(t)
    ensures ReadSql(st) == "SELECT * FROM " + t
  {
    AloneTail(st, t);
    Text.EndsSolidAppend("* FROM ", t);
    ReadSqlUntrimmed(st);
    AloneGlue(t);
  }

  lemma AloneTail(st: BuilderState, t: string)
    requires st == EmptyState(SqlTypRead).(tables := [t])
    ensures ReadTail(st) == "* FROM " + t
  {
    assert Text.Join(st.tables, ", ") == t;
  }

  lemma AloneGlue(t: string)
    ensures "SELECT " + ("* FROM " + t) == "SELECT * FROM " + t
  {
    assert "SELECT " + "* FROM " == "SELECT * FROM ";
  }

  /** Wraps a compiled statement as a parenthesised, aliased subquery; a panic stays a panic. */
  function Parenthesised(compiled: Outcome, alias: string): (r: Outcome)
    ensures compiled.Panic? <==> r.Panic?
    ensures compiled.Sql? ==> r.text == "(" + compiled.text + ") " + alias
  {
    match compiled
    case Sql(t) => Sql("(" + t + ") " + alias)
    case Panic => Panic
  }

  /**
   * Query(fn, alias), as written: the builder fn configures is the zero
   * QueryBuilder{}, whose kind is SqlTypCreate, so it compiles as an INSERT.
   */
  method Query(sub: QueryBuilder, alias: string, order: seq<string>) returns (r: Outcome)
    requires sub.Valid() && sub.qtyp == SqlTypCreate
    requires |sub.values| > 0 ==> KeyOrder(order, sub.values[0])
    ensures r == Parenthesised(Compile(sub.Snapshot(), order), alias)
  {
    var compiled := sub.Query(order);
    r := Parenthesised(compiled, alias);
  }

  /**
   * The subquery wrapper as written cannot render a SELECT: its builder stays
   * of kind Create, so without rows or without a table it panics, and with
   * both it renders an INSERT.
   */
  lemma SubqueryIsNeverSelect(st: BuilderState, alias: string, order: seq<string>)
    requires |st.wheres| == |st.ops| && st.qtyp == SqlTypCreate
    ensures st.values == [] || st.tables == [] ==> Parenthesised(Compile(st, order), alias) == Panic
    ensures st.values != [] && st.tables != [] ==>
      var r := Parenthesised(Compile(st, order), alias);
      r.Sql? && r.text[0] == '(' && r.text[1..13] == "INSERT INTO "
  {
    if st.values != [] && st.tables != [] {
      var s := InsertSql(st, order);
      assert Compile(st, order) == Sql(s);
      Text.Infix("(", s, ") " + alias, 12);
    }
  }

  /** The subquery a caller means: the configured builder compiled as a Read. */
  method ReadSubquery(sub: QueryBuilder, alias: string) returns (r: string)
    requires sub.Valid() && sub.qtyp == SqlTypRead
    ensures r == "(" + ReadSql(sub.Snapshot()) + ") " + alias
  {
    var compiled := sub.ReadQuery();
    r := "(" + compiled + ") " + alias;
  }

  /** The corrected wrapper always wraps a SELECT. */
  lemma ReadSubqueryIsSelect(st: BuilderState, alias: string)
    requires |st.wheres| == |st.ops|
    ensures var w := "(" + ReadSql(st) + ") " + alias; w[0] == '(' && w[1..7] == "SELECT"
  {
    WrappedSelect(ReadSql(st), alias);
  }

  lemma WrappedSelect(r: string, alias: string)
    requires |r| >= 6 && r[..6] == "SELECT"
    ensures var w := "(" + r + ") " + alias; w[0] == '(' && w[1..7] == "SELECT"
  {
    Text.Infix("(", r, ") " + alias, 6);
  }
}
