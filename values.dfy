// The value serializer of pkg/intfc_to_sql.go: Convert turns a host value into
// the text of an SQL literal. Host values are modelled by the Value datatype,
// one constructor per kind of value Convert tells apart.
module Values {
  import opened Text

  /** The text strconv.FormatFloat(f, 'f', -1, 64) gives: never empty. */
  type FloatText = s: string | s != [] witness "0"

  /** A host value, as Convert's type switch tells them apart. */
  datatype Value =
    | VNil                                   // the nil interface
    | VStr(str: string)                      // string
    | VBytes(data: seq<byte>)                // []byte, sql.RawBytes, bytes.Buffer, *bytes.Buffer
    | VNullString(valid: bool, str: string)  // NullString
    | VFloat(floatText: FloatText)              // float32, float64: carries its FormatFloat(f, 'f', -1, 64) text
    | VNullFloat64(valid: bool, floatText: FloatText)
    | VRaw(content: string)                  // SqlReserved: raw SQL text
    | VTime(utcText: string)                 // time.Time: carries its UTC "2006-01-02 15:04:05" text
    | VNullTime(valid: bool, utcText: string)
    | VInt(num: int)                         // int, int8 .. int64, uint, uint8 .. uint64
    | VBool(flag: bool)
    | VNullInt64(valid: bool, num: int)
    | VNullInt32(valid: bool, num: int)
    | VNullBool(valid: bool, flag: bool)
    | VSlice(elems: seq<Value>)              // any other slice, through reflection
    | VOther                                 // any other type: maps, structs, *T references, named types

  // ---------------------------------------------------------------------------
  // Quoting text: strings.ReplaceAll(s, `'`, `\'`) inside single quotes

  /** Every single quote of s preceded by a backslash; every other character kept. */
  function Escape(s: string): (r: string)
    ensures r == [] || r[0] != '\''
    ensures forall i :: 0 <= i < |r| && r[i] == '\'' ==> i > 0 && r[i - 1] == '\\'
  {
    if s == [] then []
    else
      var rest := Escape(s[1..]);
      if s[0] == '\'' then
        var r := ['\\', '\''] + rest;
        assert forall i :: 2 <= i < |r| ==> r[i] == rest[i - 2];
        r
      else
        var r := [s[0]] + rest;
        assert forall i :: 1 <= i < |r| ==> r[i] == rest[i - 1];
        r
  }

  /** Undoes Escape: each backslash-quote pair, read left to right, becomes a quote. */
  function Unescape(t: string): string
  {
    if |t| >= 2 && t[0] == '\\' && t[1] == '\'' then "'" + Unescape(t[2..])
    else if t == [] then []
    else [t[0]] + Unescape(t[1..])
  }

  /** Undoing the escape recovers the original text exactly. */
  lemma {:induction false} EscapeRoundTrip(s: string)
    ensures Unescape(Escape(s)) == s
  {
    if s != [] {
      EscapeRoundTrip(s[1..]);
      if s[0] == '\'' {
        assert Escape(s)[2..] == Escape(s[1..]);
      } else {
        assert Escape(s)[1..] == Escape(s[1..]);
      }
    }
  }

  /** Text without single quotes is left as it is. */
  lemma {:induction false} EscapeNoQuote(s: string)
    requires forall i :: 0 <= i < |s| ==> s[i] != '\''
    ensures Escape(s) == s
  {
    if s != [] {
      EscapeNoQuote(s[1..]);
    }
  }

  // ---------------------------------------------------------------------------
  // How MySQL reads a quoted literal back

  datatype Option<T> = None | Some(value: T)

  /**
   * MySQL reading a literal from just after its opening quote, with its
   * default backslash escapes: \' stands for a quote and \\ for a backslash,
   * two quotes stand for one quote, and any other quote closes the literal.
   * The result is the literal's value and the text after the closing quote,
   * or None when no quote closes it. Only those two escapes are modelled:
   * MySQL reads \0 \b \n \r \t \Z as control characters and keeps the
   * backslash of \% and \_, while here every backslash takes the next
   * character as it is. The lemmas below read only \' and \\.
   */
  function ScanLiteral(t: string): Option<(string, string)>
    decreases |t|
  {
    if t == [] then None
    else if t[0] == '\\' || (t[0] == '\'' && |t| >= 2 && t[1] == '\'') then
      if |t| == 1 then None
      else match ScanLiteral(t[2..])
        case None => None
        case Some(p) => Some(([t[1]] + p.0, p.1))
    else if t[0] == '\'' then Some(([], t[1..]))
    else match ScanLiteral(t[1..])
      case None => None
      case Some(p) => Some(([t[0]] + p.0, p.1))
  }

  /**
   * Without backslashes in the string, the literal Convert writes is read
   * back as exactly the string, and it ends at its own closing quote.
   */
  lemma {:induction false} EscapeReadsWithoutBackslash(s: string, tail: string)
    requires forall i :: 0 <= i < |s| ==> s[i] != '\\'
    requires tail == [] || tail[0] != '\''
    ensures ScanLiteral(Escape(s) + "'" + tail) == Some((s, tail))
  {
    if s != [] {
      EscapeReadsWithoutBackslash(s[1..], tail);
      assert s == [s[0]] + s[1..];
      var t := Escape(s) + "'" + tail;
      if s[0] == '\'' {
        assert t[0] == '\\' && t[1] == '\'';
        assert t[2..] == Escape(s[1..]) + "'" + tail;
      } else {
        assert t[0] == s[0];
        assert t[1..] == Escape(s[1..]) + "'" + tail;
      }
    } else {
      assert Escape(s) + "'" + tail == "'" + tail;
    }
  }

  /**
   * A backslash before a quote defeats the escaping: the string \'x is
   * written as '\\'x', which MySQL reads as the one-character literal \
   * followed by x' outside any literal.
   */
  lemma BackslashEndsLiteral()
    ensures Convert(VStr("\\'x")) == "'\\\\'x'"
    ensures ScanLiteral(Convert(VStr("\\'x"))[1..]) == Some(("\\", "x'"))
  {
    assert Escape("x") == "x";
    assert Escape("'x") == "\\'x";
    assert Escape("\\'x") == "\\\\'x";
    var t := "\\\\'x'";
    assert Convert(VStr("\\'x"))[1..] == t;
    assert t[2..] == "'x'";
    assert ScanLiteral(t[2..]) == Some(([], "x'"));
    assert t[0] == '\\' && t[1] == '\\';
    assert ScanLiteral(t) == Some(([t[1]] + [], "x'"));
    assert [t[1]] + [] == "\\";
  }

  /** The escaping that also doubles each backslash, so that no quote can be freed. */
  function SafeEscape(s: string): (r: string)
    ensures |r| >= |s|
  {
    if s == [] then []
    else (if s[0] == '\\' || s[0] == '\'' then ['\\', s[0]] else [s[0]]) + SafeEscape(s[1..])
  }

  /** On text without backslashes the corrected escaping writes what the source writes. */
  lemma {:induction false} SafeEscapeAgrees(s: string)
    requires forall i :: 0 <= i < |s| ==> s[i] != '\\'
    ensures SafeEscape(s) == Escape(s)
  {
    if s != [] {
      SafeEscapeAgrees(s[1..]);
    }
  }

  /** The literal SafeEscape gives is read back as exactly the string, for every string. */
  lemma {:induction false} SafeLiteralReads(s: string, tail: string)
    requires tail == [] || tail[0] != '\''
    ensures ScanLiteral(SafeEscape(s) + "'" + tail) == Some((s, tail))
  {
    if s != [] {
      SafeLiteralReads(s[1..], tail);
      assert s == [s[0]] + s[1..];
      var t := SafeEscape(s) + "'" + tail;
      if s[0] == '\\' || s[0] == '\'' {
        assert t[0] == '\\' && t[1] == s[0];
        assert t[2..] == SafeEscape(s[1..]) + "'" + tail;
      } else {
        assert t[0] == s[0];
        assert t[1..] == SafeEscape(s[1..]) + "'" + tail;
      }
    } else {
      assert SafeEscape(s) + "'" + tail == "'" + tail;
    }
  }

  /** A string literal: the escaped text between single quotes. */
  function Quote(s: string): string
  {
    "'" + Escape(s) + "'"
  }

  // ---------------------------------------------------------------------------
  // Convert

  /** Convert(value): the SQL literal text of a host value (pkg/intfc_to_sql.go). */
  function Convert(v: Value): (r: string)
    ensures r == [] <==> v == VRaw([])
    decreases v
  {
    match v
    case VNil => "NULL"
    case VStr(s) => Quote(s)
    case VBytes(d) => "X'" + Hex(d) + "'"
    case VNullString(valid, s) => if valid then Quote(s) else "NULL"
    case VFloat(t) => t
    case VNullFloat64(valid, t) => if valid then t else "NULL"
    case VRaw(c) => c
    // the source calls Convert on the formatted string, which is the string case
    case VTime(t) => Quote(t)
    case VNullTime(valid, t) => if valid then Quote(t) else "NULL"
    case VInt(i) => IntTextRoundTrip(i); IntText(i)
    case VBool(b) => if b then "true" else "false"
    case VNullInt64(valid, i) => if valid then IntTextRoundTrip(i); IntText(i) else "NULL"
    case VNullInt32(valid, i) => if valid then IntTextRoundTrip(i); IntText(i) else "NULL"
    case VNullBool(valid, b) => if valid then (if b then "true" else "false") else "NULL"
    case VSlice(es) => "(" + SliceItems(es) + ")"
    case VOther => "NULL"
  }

  /**
   * The inside of a slice literal: each element's text, skipped when it is
   * empty, and followed by a comma unless it is the slice's last element.
   */
  function SliceItems(es: seq<Value>): string
    decreases es
  {
    if es == [] then ""
    else
      var x := Convert(es[0]);
      (if x != "" then x + (if |es| > 1 then "," else "") else "") + SliceItems(es[1..])
  }

  /** Each element's text, in order: the reference for the slice rule. */
  function ConvertAll(es: seq<Value>): (r: seq<string>)
    ensures |r| == |es|
  {
    if es == [] then [] else [Convert(es[0])] + ConvertAll(es[1..])
  }

  // ---------------------------------------------------------------------------
  // What Convert's text means

  /**
   * A string becomes a literal in single quotes whose every inner quote is
   * preceded by a backslash, and unescaping the inside gives the string back.
   */
  lemma StringLiteral(s: string)
    ensures var t := Convert(VStr(s));
      && |t| >= 2 && t[0] == '\'' && t[|t| - 1] == '\''
      && (forall i :: 1 <= i < |t| - 1 && t[i] == '\'' ==> i > 1 && t[i - 1] == '\\')
      && Unescape(t[1..|t| - 1]) == s
  {
    var e := Escape(s);
    var t := Convert(VStr(s));
    assert t[1..|t| - 1] == e;
    assert forall i :: 1 <= i < |t| - 1 ==> t[i] == e[i - 1];
    EscapeRoundTrip(s);
  }

  /** A byte blob becomes X'..' around 2n lowercase hex digits that decode to the blob. */
  lemma BytesLiteral(d: seq<byte>)
    ensures var t := Convert(VBytes(d));
      && |t| == 2 * |d| + 3 && t[..2] == "X'" && t[|t| - 1] == '\''
      && (forall i :: 2 <= i < |t| - 1 ==> IsHexDigit(t[i]))
      && Unhex(t[2..|t| - 1]) == d
  {
    var t := Convert(VBytes(d));
    assert t[2..|t| - 1] == Hex(d);
    HexRoundTrip(d);
  }

  /** An integer becomes its decimal text, which reads back as the same integer. */
  lemma IntLiteral(i: int)
    ensures var t := Convert(VInt(i));
      && t != []
      && (forall k :: (if t[0] == '-' then 1 else 0) <= k < |t| ==> IsDigit(t[k]))
      && ParseInt(t) == i
  {
    IntTextRoundTrip(i);
  }

  /**
   * A nullable wrapper gives NULL when it is not valid and otherwise the text
   * of its payload under the payload's own rule.
   */
  lemma NullableWrappers(valid: bool, s: string, f: FloatText, t: string, i: int, b: bool)
    ensures Convert(VNullString(valid, s)) == if valid then Convert(VStr(s)) else "NULL"
    ensures Convert(VNullFloat64(valid, f)) == if valid then Convert(VFloat(f)) else "NULL"
    ensures Convert(VNullTime(valid, t)) == if valid then Convert(VTime(t)) else "NULL"
    ensures Convert(VNullInt64(valid, i)) == if valid then Convert(VInt(i)) else "NULL"
    ensures Convert(VNullInt32(valid, i)) == if valid then Convert(VInt(i)) else "NULL"
    ensures Convert(VNullBool(valid, b)) == if valid then Convert(VBool(b)) else "NULL"
  {
  }

  /** A timestamp is quoted exactly as its formatted UTC text would be. */
  lemma TimeAsString(t: string)
    ensures Convert(VTime(t)) == Convert(VStr(t))
  {
  }

  /**
   * The remaining scalars: a bool prints as true or false (fmt's %v), and a
   * float is its formatted text, unquoted.
   */
  lemma Scalars(b: bool, f: FloatText)
    ensures Convert(VBool(b)) == (if b then "true" else "false")
    ensures Convert(VFloat(f)) == f
  {
  }

  /** nil and values of unknown type fall back to NULL; raw SQL passes through unchanged. */
  lemma Fallbacks(c: string)
    ensures Convert(VNil) == "NULL" && Convert(VOther) == "NULL"
    ensures Convert(VRaw(c)) == c
  {
  }

  /**
   * When no element serializes to the empty text, a slice is the comma-joined
   * texts of its elements in parentheses.
   */
  lemma SliceLiteral(es: seq<Value>)
    requires forall i :: 0 <= i < |es| ==> Convert(es[i]) != ""
    ensures Convert(VSlice(es)) == "(" + Join(ConvertAll(es), ",") + ")"
  {
    SliceItemsJoin(es);
  }

  lemma {:induction false} SliceItemsJoin(es: seq<Value>)
    requires forall i :: 0 <= i < |es| ==> Convert(es[i]) != ""
    ensures SliceItems(es) == Join(ConvertAll(es), ",")
  {
    if |es| > 1 {
      SliceItemsJoin(es[1..]);
      JoinCons(Convert(es[0]), ConvertAll(es[1..]), ",");
    }
  }

  /** An empty slice gives (). */
  lemma EmptySlice()
    ensures Convert(VSlice([])) == "()"
  {
  }

  /**
   * An element whose text is empty, anywhere but in last place, is skipped
   * together with its comma: the slice renders as if it were not there.
   */
  lemma {:induction false} SkipAnywhere(es: seq<Value>, i: nat)
    requires i + 1 < |es| && Convert(es[i]) == ""
    ensures SliceItems(es) == SliceItems(es[..i] + es[i + 1..])
  {
    if i > 0 {
      var rest := es[1..];
      SkipAnywhere(rest, i - 1);
      var es' := es[..i] + es[i + 1..];
      assert es'[0] == es[0];
      assert es'[1..] == rest[..i - 1] + rest[i..];
    } else {
      assert es[..i] + es[i + 1..] == es[1..];
    }
  }

  /** An element whose text is empty is skipped, with its comma. */
  lemma SkippedElement()
    ensures Convert(VSlice([VInt(1), VRaw(""), VInt(2)])) == "(1,2)"
  {
    assert IntText(1) == "1" && IntText(2) == "2";
  }

  /**
   * An element with empty text in last place adds nothing, but the comma
   * written after the element before it stays when that one was written.
   */
  lemma {:induction false} TrailingEmpty(es: seq<Value>, x: Value)
    requires es != [] && Convert(x) == ""
    ensures SliceItems(es + [x]) == SliceItems(es) + (if Convert(es[|es| - 1]) != "" then "," else "")
  {
    var ys := es + [x];
    var h := Convert(es[0]);
    assert ys[0] == es[0];
    assert ys[1..] == es[1..] + [x];
    if |es| > 1 {
      var head := if h != "" then h + "," else "";
      TrailingEmpty(es[1..], x);
      assert SliceItems(ys) == head + SliceItems(es[1..] + [x]);
      assert SliceItems(es) == head + SliceItems(es[1..]);
      Regroup(head, SliceItems(es[1..]), if Convert(es[|es| - 1]) != "" then "," else "");
    } else {
      assert SliceItems([x]) == "";
      assert SliceItems(ys) == (if h != "" then h + "," else "");
      assert SliceItems(es) == (if h != "" then h else "") + SliceItems(es[1..]);
    }
  }

  /** When the skipped element is the last one, the comma before it stays: (1,). */
  lemma TrailingComma()
    ensures Convert(VSlice([VInt(1), VRaw("")])) == "(1,)"
  {
    assert IntText(1) == "1";
    assert [VInt(1), VRaw("")] == [VInt(1)] + [VRaw("")];
    TrailingEmpty([VInt(1)], VRaw(""));
  }
}
