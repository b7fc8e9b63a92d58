// The enums and the aggregate helpers of pkg/sql_funcs.go. The factories of
// the same file build a QueryBuilder and live in module Factories.
module SqlFuncs {

  /** SqlOp: the connective stored with each predicate. The zero value is SqlAnd. */
  datatype SqlOp = SqlAnd | SqlOr | SqlAndNot

  /**
   * SqlTyp: the statement kind Query compiles. The zero value is SqlTypCreate.
   * SqlTypTable (a CREATE TABLE definition) is used by the builder but not
   * declared among the SqlTyp constants of sql_funcs.go; it is declared here.
   */
  datatype SqlTyp = SqlTypCreate | SqlTypRead | SqlTypUpdate | SqlTypDelete | SqlTypTable

  /** FKType: the ON DELETE option of a foreign key (declared here, used by ForeignKey). */
  datatype FKType = FKCascade | FKSetNull

  /** The text an aggregate gets from its optional alias: only the first one counts. */
  function AliasSuffix(alias: seq<string>): (r: string)
    ensures alias == [] <==> r == ""
    ensures alias != [] ==> r == " " + alias[0]
  {
    if |alias| > 0 then " " + alias[0] else ""
  }

  /** Count(name, alias...): COUNT(name), then the first alias after a space. */
  function Count(name: string, alias: seq<string>): (r: string)
    ensures |r| == 7 + |name| + |AliasSuffix(alias)|
    ensures r[..6] == "COUNT(" && r[6..6 + |name|] == name && r[6 + |name|] == ')'
    ensures r[7 + |name|..] == AliasSuffix(alias)
  {
    "COUNT(" + name + ")" + AliasSuffix(alias)
  }

  /** CountDistinct(name, alias...): COUNT(DISTINCT name), then the first alias after a space. */
  function CountDistinct(name: string, alias: seq<string>): (r: string)
    ensures |r| == 16 + |name| + |AliasSuffix(alias)|
    ensures r[..15] == "COUNT(DISTINCT " && r[15..15 + |name|] == name && r[15 + |name|] == ')'
    ensures r[16 + |name|..] == AliasSuffix(alias)
  {
    "COUNT(DISTINCT " + name + ")" + AliasSuffix(alias)
  }

  /** Sum(expression, alias...): SUM(expression), then the first alias after a space. */
  function Sum(expression: string, alias: seq<string>): (r: string)
    ensures |r| == 5 + |expression| + |AliasSuffix(alias)|
    ensures r[..4] == "SUM(" && r[4..4 + |expression|] == expression && r[4 + |expression|] == ')'
    ensures r[5 + |expression|..] == AliasSuffix(alias)
  {
    "SUM(" + expression + ")" + AliasSuffix(alias)
  }

  /** Aliases after the first are ignored by all three aggregates. */
  lemma OnlyFirstAlias(name: string, alias: seq<string>)
    requires |alias| > 1
    ensures Count(name, alias) == Count(name, alias[..1])
    ensures CountDistinct(name, alias) == CountDistinct(name, alias[..1])
    ensures Sum(name, alias) == Sum(name, alias[..1])
  {
  }
}
