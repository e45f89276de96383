/** The little bits of Python text handling the exports and the probe
    rely on: `str()` of a scalar, `sep.join`, `str.split` and the
    single-character `str.replace`. How a float is written out (`repr`,
    `format`) is float numerics and stays a parameter. */
module PyText {

  /** A Python scalar as it reaches a CSV cell or `fmt`. */
  datatype PyValue = PyNone | PyInt(i: int) | PyFloat(x: real) | PyStr(s: string)

  predicate IsDigit(c: char) { '0' <= c <= '9' }

  function DigitChar(d: nat): (c: char)
    requires d < 10
    ensures IsDigit(c) && (c as int) - ('0' as int) == d
  {
    ('0' as int + d) as char
  }

  /** `str(n)` for `n >= 0`: decimal digits, most significant first, no
      leading zeros. */
  function NatText(n: nat): (s: string)
    ensures |s| > 0
    ensures forall i :: 0 <= i < |s| ==> IsDigit(s[i])
    ensures |s| > 1 ==> s[0] != '0'
  {
    if n < 10 then [DigitChar(n)] else NatText(n / 10) + [DigitChar(n % 10)]
  }

  /** The number a string of decimal digits denotes. */
  function DigitsValue(s: string): nat
    requires forall i :: 0 <= i < |s| ==> IsDigit(s[i])
  {
    if s == [] then 0
    else
      assert IsDigit(s[|s| - 1]);
      DigitsValue(s[..|s| - 1]) * 10 + ((s[|s| - 1] as int) - ('0' as int))
  }

  /** `int(str(n)) == n`. */
  lemma {:induction false} NatTextRoundTrip(n: nat)
    ensures DigitsValue(NatText(n)) == n
  {
    if n >= 10 {
      var s := NatText(n);
      assert s[..|s| - 1] == NatText(n / 10);
      NatTextRoundTrip(n / 10);
    }
  }

  /** `str(i)` of a Python int. */
  function IntText(i: int): (s: string)
    ensures |s| > 0
    ensures forall k :: 0 <= k < |s| ==> IsDigit(s[k]) || s[k] == '-'
    ensures (i < 0) <==> s[0] == '-'
  {
    if i < 0 then "-" + NatText(-i) else NatText(i)
  }

  /** `str(v)`; `floatText` stands for `str` of a float. */
  function Str(v: PyValue, floatText: real -> string): (s: string)
    ensures v.PyNone? ==> s == "None"
    ensures v.PyInt? ==> s == IntText(v.i)
    ensures v.PyFloat? ==> s == floatText(v.x)
    ensures v.PyStr? ==> s == v.s
  {
    match v
    case PyNone => "None"
    case PyInt(i) => IntText(i)
    case PyFloat(x) => floatText(x)
    case PyStr(t) => t
  }

  /** `s.replace(a, b)` for one-character `a` and `b`. */
  function Replace(s: string, a: char, b: char): (t: string)
    ensures |t| == |s|
    ensures forall i :: 0 <= i < |s| ==> t[i] == (if s[i] == a then b else s[i])
  {
    if s == [] then [] else [if s[0] == a then b else s[0]] + Replace(s[1..], a, b)
  }

  /** After replacing `a` by a different `b`, no `a` is left; a string
      without `a` is returned unchanged. */
  lemma ReplaceRemoves(s: string, a: char, b: char)
    ensures a != b ==> a !in Replace(s, a, b)
    ensures a !in s ==> Replace(s, a, b) == s
  {
    var t := Replace(s, a, b);
    if a != b {
      assert forall i :: 0 <= i < |t| ==> t[i] != a;
    }
    if a !in s {
      assert forall i :: 0 <= i < |s| ==> t[i] == s[i];
    }
  }

  /** `sep.join(cells)`. */
  function Join(cells: seq<string>, sep: string): string
  {
    if cells == [] then ""
    else if |cells| == 1 then cells[0]
    else cells[0] + sep + Join(cells[1..], sep)
  }

  /** The position of the first `c` in `s`. */
  function IndexOf(s: string, c: char): (i: nat)
    requires c in s
    ensures i < |s| && s[i] == c && c !in s[..i]
  {
    if s[0] == c then 0
    else
      assert c in s[1..] by { var k :| 0 <= k < |s| && s[k] == c; assert s[1..][k - 1] == c; }
      var j := IndexOf(s[1..], c);
      assert s[..j + 1] == [s[0]] + s[1..][..j];
      j + 1
  }

  /** `s.split(c)`: the pieces between the occurrences of `c`. */
  function Split(s: string, c: char): (parts: seq<string>)
    ensures |parts| > 0
    ensures forall k :: 0 <= k < |parts| ==> c !in parts[k]
    decreases |s|
  {
    if c !in s then [s]
    else
      var i := IndexOf(s, c);
      [s[..i]] + Split(s[i + 1..], c)
  }

  lemma SplitAfterFirst(x: string, c: char, rest: string)
    requires c !in x
    ensures Split(x + [c] + rest, c) == [x] + Split(rest, c)
  {
    var s := x + [c] + rest;
    assert s[|x|] == c;
    var i := IndexOf(s, c);
    assert i == |x|;
    assert s[..i] == x;
    assert s[i + 1..] == rest;
  }

  /** A line joined with a one-character separator that occurs in no cell
      splits back into exactly its cells. */
  lemma {:induction false} JoinSplit(cells: seq<string>, c: char)
    requires |cells| > 0
    requires forall k :: 0 <= k < |cells| ==> c !in cells[k]
    ensures Split(Join(cells, [c]), c) == cells
  {
    if |cells| > 1 {
      JoinSplit(cells[1..], c);
      SplitAfterFirst(cells[0], c, Join(cells[1..], [c]));
      assert cells == [cells[0]] + cells[1..];
    }
  }
}
