// Text primitives the builder and the serializer rely on: Go's strings.Join,
// strings.Trim(s, " "), the decimal text that fmt's %v and strconv.FormatInt
// give an integer, and the lowercase hex of encoding/hex.EncodeToString.
// Each comes with the partner that shows what the text means.
module Text {

  type byte = x: int | 0 <= x < 256

  /** Go's int64 (and int, which is 64 bits wide on the targets the source builds for). */
  type int64 = x: int | -0x8000_0000_0000_0000 <= x < 0x8000_0000_0000_0000

  /** Regrouping a concatenation, for proofs whose context is too crowded to see it. */
  lemma Regroup(a: string, b: string, c: string)
    ensures a + b + c == a + (b + c)
  {
  }

  /** The first n characters of b, read back from the middle of a + b + c. */
  lemma Infix(a: string, b: string, c: string, n: nat)
    requires n <= |b|
    ensures (a + b + c)[|a|..|a| + n] == b[..n]
  {
  }

  // ---------------------------------------------------------------------------
  // strings.Join

  /** strings.Join(xs, sep): the elements in order, with sep between neighbours. */
  function Join(xs: seq<string>, sep: string): string
  {
    if |xs| == 0 then ""
    else if |xs| == 1 then xs[0]
    else Join(xs[..|xs| - 1], sep) + sep + xs[|xs| - 1]
  }

  /** The joined text is empty for no elements, else starts with the first and ends with the last. */
  lemma {:induction false} JoinEnds(xs: seq<string>, sep: string)
    ensures xs == [] ==> Join(xs, sep) == ""
    ensures xs != [] ==> |Join(xs, sep)| >= |xs[0]| && Join(xs, sep)[..|xs[0]|] == xs[0]
    ensures xs != [] ==> (|Join(xs, sep)| >= |xs[|xs| - 1]|
                          && Join(xs, sep)[|Join(xs, sep)| - |xs[|xs| - 1]|..] == xs[|xs| - 1])
  {
    if |xs| > 1 {
      var init := xs[..|xs| - 1];
      JoinEnds(init, sep);
      assert init[0] == xs[0];
      var r := Join(xs, sep);
      assert r == Join(init, sep) + sep + xs[|xs| - 1];
      assert r[..|xs[0]|] == Join(init, sep)[..|xs[0]|];
    }
  }

  /** Joining one more element appends the separator and that element. */
  lemma JoinSnoc(xs: seq<string>, x: string, sep: string)
    requires xs != []
    ensures Join(xs + [x], sep) == Join(xs, sep) + sep + x
  {
    assert (xs + [x])[..|xs + [x]| - 1] == xs;
  }

  /** Joining from the front: the first element, the separator, the rest joined. */
  lemma {:induction false} JoinCons(x: string, xs: seq<string>, sep: string)
    requires xs != []
    ensures Join([x] + xs, sep) == x + sep + Join(xs, sep)
  {
    var ys := [x] + xs;
    if |xs| == 1 {
      assert ys[..1] == [x];
      assert Join(ys, sep) == Join([x], sep) + sep + xs[0];
    } else {
      var init := xs[..|xs| - 1];
      JoinCons(x, init, sep);
      assert ys[..|ys| - 1] == [x] + init;
      assert ys[|ys| - 1] == xs[|xs| - 1];
      calc {
        Join(ys, sep);
        Join([x] + init, sep) + sep + xs[|xs| - 1];
        x + sep + Join(init, sep) + sep + xs[|xs| - 1];
        x + sep + Join(xs, sep);
      }
    }
  }

  /** Putting a prefix in front of the first element puts it in front of the joined text. */
  lemma JoinPrefixedHead(c: string, x: string, rest: seq<string>, sep: string)
    ensures Join([c + x] + rest, sep) == c + Join([x] + rest, sep)
  {
    if rest == [] {
      assert [c + x] + rest == [c + x];
      assert [x] + rest == [x];
    } else {
      JoinCons(c + x, rest, sep);
      JoinCons(x, rest, sep);
      Regroup(c, x, sep);
      Regroup(c, x + sep, Join(rest, sep));
    }
  }

  /** Two lists that differ only by a prefix on their first element join to texts that differ by it too. */
  lemma JoinLeading(t: seq<string>, f: seq<string>, c: string, sep: string)
    requires |t| == |f| && f != [] && t[0] == c + f[0] && t[1..] == f[1..]
    ensures Join(t, sep) == c + Join(f, sep)
  {
    assert t == [c + f[0]] + t[1..];
    assert f == [f[0]] + t[1..];
    JoinPrefixedHead(c, f[0], t[1..], sep);
  }

  /** Two elements joined: the first, the separator, the second. */
  lemma JoinPair(a: string, b: string, sep: string)
    ensures Join([a, b], sep) == a + sep + b
  {
    assert [a, b][..1] == [a];
  }

  /**
   * What a loop has built after appending the first i elements, each but the
   * last followed by sep (the shape of the source's accumulating loops).
   */
  function JoinPrefix(xs: seq<string>, i: nat, sep: string): string
    requires i <= |xs|
  {
    if i == 0 then "" else Join(xs[..i], sep) + (if i < |xs| then sep else "")
  }

  /** One more iteration appends the next element and, unless it is the last, sep. */
  lemma JoinPrefixStep(xs: seq<string>, i: nat, sep: string)
    requires i < |xs|
    ensures JoinPrefix(xs, i + 1, sep) == JoinPrefix(xs, i, sep) + xs[i] + (if i < |xs| - 1 then sep else "")
  {
    if i > 0 {
      assert xs[..i + 1] == xs[..i] + [xs[i]];
      JoinSnoc(xs[..i], xs[i], sep);
    }
  }

  /** After the last iteration the loop has built exactly Join(xs, sep). */
  lemma JoinPrefixDone(xs: seq<string>, sep: string)
    ensures JoinPrefix(xs, |xs|, sep) == Join(xs, sep)
  {
    assert xs[..|xs|] == xs;
  }

  // ---------------------------------------------------------------------------
  // strings.Trim(s, " ")

  predicate AllSpaces(s: string) {
    forall i :: 0 <= i < |s| ==> s[i] == ' '
  }

  /** strings.TrimLeft(s, " "): drops the leading spaces and nothing else. */
  function TrimLeft(s: string): (r: string)
    ensures |r| <= |s| && r == s[|s| - |r|..]
    ensures AllSpaces(s[..|s| - |r|])
    ensures r == [] || r[0] != ' '
  {
    if |s| > 0 && s[0] == ' ' then
      var t := TrimLeft(s[1..]);
      assert s[..|s| - |t|] == [' '] + s[1..][..|s[1..]| - |t|];
      t
    else s
  }

  /** strings.TrimRight(s, " "): drops the trailing spaces and nothing else. */
  function TrimRight(s: string): (r: string)
    ensures |r| <= |s| && r == s[..|r|]
    ensures AllSpaces(s[|r|..])
    ensures r == [] || r[|r| - 1] != ' '
  {
    if |s| > 0 && s[|s| - 1] == ' ' then
      var t := TrimRight(s[..|s| - 1]);
      assert s[|t|..] == s[..|s| - 1][|t|..] + [' '];
      t
    else s
  }

  /** strings.Trim(s, " "): s with its leading and trailing spaces removed. */
  function Trim(s: string): (r: string)
    ensures |r| <= |s|
    ensures r == [] || (r[0] != ' ' && r[|r| - 1] != ' ')
  {
    TrimRight(TrimLeft(s))
  }

  /** TrimRight never removes a character that is not a space, nor anything before it. */
  lemma {:induction false} TrimRightKeeps(s: string, i: nat)
    requires i < |s| && s[i] != ' '
    ensures |TrimRight(s)| > i && TrimRight(s)[..i + 1] == s[..i + 1]
  {
    if s[|s| - 1] == ' ' {
      TrimRightKeeps(s[..|s| - 1], i);
    }
  }

  /** Text that starts and ends with something other than a space is left as it is. */
  lemma TrimUnchanged(s: string)
    requires s != [] && s[0] != ' ' && s[|s| - 1] != ' '
    ensures Trim(s) == s
  {
  }

  /** Text that is not empty and does not end in a space: trimming keeps its end. */
  predicate EndsSolid(s: string)
  {
    s != [] && s[|s| - 1] != ' '
  }

  /** The text opens with the given prefix. */
  predicate StartsWith(s: string, prefix: string)
  {
    |prefix| <= |s| && s[..|prefix|] == prefix
  }

  /** Whatever comes before it, text ends as its last part does. */
  lemma EndsSolidAppend(a: string, b: string)
    requires EndsSolid(b)
    ensures EndsSolid(a + b)
  {
    assert (a + b)[|a + b| - 1] == b[|b| - 1];
  }

  /** A text ends as any suffix of it does. */
  lemma EndsSolidSuffix(s: string, w: string)
    requires |w| <= |s| && s[|s| - |w|..] == w && EndsSolid(w)
    ensures EndsSolid(s)
  {
    assert s[|s| - 1] == s[|s| - |w|..][|w| - 1];
  }

  // ---------------------------------------------------------------------------
  // Decimal text of an integer (fmt "%v", strconv.FormatInt(i, 10))

  predicate IsDigit(c: char) { '0' <= c <= '9' }

  function DigitChar(d: nat): (c: char)
    requires d < 10
    ensures IsDigit(c) && c as int - '0' as int == d
  {
    ['0', '1', '2', '3', '4', '5', '6', '7', '8', '9'][d]
  }

  /** Decimal digits of n, most significant first, without leading zeros. */
  function NatText(n: nat): (r: string)
    ensures r != [] && forall i :: 0 <= i < |r| ==> IsDigit(r[i])
    ensures |r| > 1 ==> r[0] != '0'
  {
    if n < 10 then [DigitChar(n)] else NatText(n / 10) + [DigitChar(n % 10)]
  }

  /** The text fmt gives an integer: an optional minus sign, then the digits. */
  function IntText(i: int): (r: string)
  {
    if i < 0 then "-" + NatText(-i) else NatText(i)
  }

  function ParseNat(s: string): nat
    requires forall i :: 0 <= i < |s| ==> IsDigit(s[i])
  {
    if s == [] then 0
    else
      assert IsDigit(s[|s| - 1]);
      var d: nat := s[|s| - 1] as int - '0' as int;
      ParseNat(s[..|s| - 1]) * 10 + d
  }

  function ParseInt(s: string): int
    requires s != []
    requires s[0] == '-' ==> forall i :: 1 <= i < |s| ==> IsDigit(s[i])
    requires s[0] != '-' ==> forall i :: 0 <= i < |s| ==> IsDigit(s[i])
  {
    if s[0] == '-' then 0 - ParseNat(s[1..]) else ParseNat(s)
  }

  lemma {:induction false} NatTextRoundTrip(n: nat)
    ensures ParseNat(NatText(n)) == n
  {
    if n >= 10 {
      NatTextRoundTrip(n / 10);
      var t := NatText(n);
      assert t[..|t| - 1] == NatText(n / 10);
    }
  }

  /** Reading the decimal text of i back gives i: the text names exactly i. */
  lemma IntTextRoundTrip(i: int)
    ensures IntText(i) != []
    ensures IntText(i)[0] == '-' <==> i < 0
    ensures i < 0 ==> forall k :: 1 <= k < |IntText(i)| ==> IsDigit(IntText(i)[k])
    ensures i >= 0 ==> forall k :: 0 <= k < |IntText(i)| ==> IsDigit(IntText(i)[k])
    ensures ParseInt(IntText(i)) == i
  {
    if i < 0 {
      NatTextRoundTrip(-i);
      assert IntText(i)[1..] == NatText(-i);
    } else {
      NatTextRoundTrip(i);
    }
  }

  // ---------------------------------------------------------------------------
  // Lowercase hex (encoding/hex.EncodeToString)

  predicate IsHexDigit(c: char) { '0' <= c <= '9' || 'a' <= c <= 'f' }

  function HexDigit(d: nat): (c: char)
    requires d < 16
    ensures IsHexDigit(c)
  {
    "0123456789abcdef"[d]
  }

  function HexValue(c: char): (d: nat)
    requires IsHexDigit(c)
    ensures d < 16
  {
    if '0' <= c <= '9' then c as int - '0' as int else c as int - 'a' as int + 10
  }

  /** Two lowercase hex digits per byte, high nibble first. */
  function Hex(bs: seq<byte>): (r: string)
    ensures |r| == 2 * |bs|
    ensures forall i :: 0 <= i < |r| ==> IsHexDigit(r[i])
  {
    if bs == [] then "" else [HexDigit(bs[0] / 16), HexDigit(bs[0] % 16)] + Hex(bs[1..])
  }

  function Unhex(h: string): seq<byte>
    requires |h| % 2 == 0
    requires forall i :: 0 <= i < |h| ==> IsHexDigit(h[i])
  {
    if h == [] then [] else [HexValue(h[0]) * 16 + HexValue(h[1])] + Unhex(h[2..])
  }

  lemma {:induction false} HexDigitValue(d: nat)
    requires d < 16
    ensures HexValue(HexDigit(d)) == d
  {
    var digits := "0123456789abcdef";
    assert digits[d] as int == if d < 10 then '0' as int + d else 'a' as int + d - 10;
  }

  /** Decoding the hex text gives back the bytes that were encoded. */
  lemma {:induction false} HexRoundTrip(bs: seq<byte>)
    ensures Unhex(Hex(bs)) == bs
  {
    if bs != [] {
      HexDigitValue(bs[0] / 16);
      HexDigitValue(bs[0] % 16);
      HexRoundTrip(bs[1..]);
      assert Hex(bs)[2..] == Hex(bs[1..]);
    }
  }
}
