/** The arithmetic and text operations the job applies to single values:
    the page-count ceiling, Python's int() on text, and the removal of
    thousands separators from the amount. */
module Numbers {
  import opened Wrappers

  /** The range of pandas' int64 column type. */
  const Int64Min: int := -0x8000_0000_0000_0000
  const Int64Max: int := 0x7FFF_FFFF_FFFF_FFFF

  /** math.ceil(t / p) for a positive divisor: the least multiple count
      that covers t. Dafny's division rounds towards minus infinity for a
      positive divisor, so negating twice rounds towards plus infinity. */
  function CeilDiv(t: int, p: int): (r: int)
    requires p > 0
    ensures (r - 1) * p < t <= r * p
  {
    var q := (-t) / p;
    assert q * p <= -t < q * p + p;
    -q
  }

  /** The two bounds of CeilDiv determine it: any count with the same
      bounds is the same count. */
  lemma CeilDivUnique(t: int, p: int, r: int)
    requires p > 0
    requires (r - 1) * p < t <= r * p
    ensures r == CeilDiv(t, p)
  {
    var c := CeilDiv(t, p);
    MulLessCancel(r - 1, c, p);
    MulLessCancel(c - 1, r, p);
  }

  lemma MulLessCancel(a: int, b: int, p: int)
    requires p > 0 && a * p < b * p
    ensures a < b
  {
  }

  // ---- thousands separators -------------------------------------------

  /** str.replace(",", ""): the text with every comma removed. */
  function StripCommas(s: string): (r: string)
    ensures ',' !in r
  {
    if s == [] then []
    else if s[0] == ',' then StripCommas(s[1..])
    else [s[0]] + StripCommas(s[1..])
  }

  /** Text without a comma is copied through unchanged. */
  lemma {:induction false} StripCommasKeeps(s: string)
    requires ',' !in s
    ensures StripCommas(s) == s
  {
    if s != [] {
      StripCommasKeeps(s[1..]);
    }
  }

  /** Every character other than a comma survives, as often as it
      occurred. */
  lemma {:induction false} StripCommasCounts(s: string, c: char)
    requires c != ','
    ensures multiset(StripCommas(s))[c] == multiset(s)[c]
  {
    if s != [] {
      StripCommasCounts(s[1..], c);
      assert s == [s[0]] + s[1..];
    }
  }

  /** Removing commas distributes over concatenation, so the text on
      either side of a comma keeps its order. */
  lemma {:induction false} StripCommasAppend(a: string, b: string)
    ensures StripCommas(a + b) == StripCommas(a) + StripCommas(b)
  {
    if a != [] {
      assert (a + b)[0] == a[0];
      assert (a + b)[1..] == a[1..] + b;
      StripCommasAppend(a[1..], b);
    } else {
      assert a + b == b;
    }
  }

  lemma StripCommasExample()
    ensures StripCommas("1,234,000") == "1234000"
  {
    assert "1,234,000" == "1,234" + ",000";
    StripCommasAppend("1,234", ",000");
    assert "1,234" == "1" + ",234";
    StripCommasAppend("1", ",234");
    assert ",234"[1..] == "234" && ",000"[1..] == "000";
    StripCommasKeeps("1");
    StripCommasKeeps("234");
    StripCommasKeeps("000");
    assert "1" + "234" + "000" == "1234000";
  }

  // ---- int() on text ------------------------------------------------------

  predicate IsSpace(c: char) {
    c == ' ' || c == '\t' || c == '\n' || c == '\r' || c == '\U{000B}' || c == '\U{000C}'
  }

  predicate IsDigit(c: char) {
    '0' <= c <= '9'
  }

  predicate IsDigits(s: string) {
    |s| > 0 && forall i :: 0 <= i < |s| ==> IsDigit(s[i])
  }

  predicate AllSpace(s: string) {
    forall i :: 0 <= i < |s| ==> IsSpace(s[i])
  }

  /** Leading and trailing white space removed, as int() does. */
  function Trim(s: string): (r: string)
    ensures |r| <= |s|
    ensures r != [] ==> !IsSpace(r[0]) && !IsSpace(r[|r| - 1])
    decreases |s|
  {
    if s != [] && IsSpace(s[0]) then Trim(s[1..])
    else if s != [] && IsSpace(s[|s| - 1]) then Trim(s[..|s| - 1])
    else s
  }

  /** The value of a non-empty run of decimal digits, most significant
      first; leading zeros add nothing. */
  function DigitsValue(s: string): nat
    requires IsDigits(s)
    decreases |s|
  {
    var d := (s[|s| - 1] as int) - ('0' as int);
    if |s| == 1 then d else DigitsValue(s[..|s| - 1]) * 10 + d
  }

  /** Trim removes exactly the white space around the text: the input is
      some white space, then what Trim keeps, then some white space. */
  lemma {:induction false} TrimSplit(s: string) returns (w1: string, w2: string)
    ensures s == w1 + Trim(s) + w2
    ensures AllSpace(w1) && AllSpace(w2)
    decreases |s|
  {
    if s != [] && IsSpace(s[0]) {
      var v1, v2 := TrimSplit(s[1..]);
      w1, w2 := TrimSplitFront(s, v1, v2);
    } else if s != [] && IsSpace(s[|s| - 1]) {
      var v1, v2 := TrimSplit(s[..|s| - 1]);
      w1, w2 := TrimSplitBack(s, v1, v2);
    } else {
      w1, w2 := [], [];
      assert s == [] + s + [];
    }
  }

  /** TrimSplit's step for a leading white-space character. */
  lemma TrimSplitFront(s: string, v1: string, v2: string) returns (w1: string, w2: string)
    requires s != [] && IsSpace(s[0])
    requires s[1..] == v1 + Trim(s[1..]) + v2 && AllSpace(v1) && AllSpace(v2)
    ensures s == w1 + Trim(s) + w2
    ensures AllSpace(w1) && AllSpace(w2)
  {
    w1, w2 := [s[0]] + v1, v2;
    assert Trim(s) == Trim(s[1..]);
    assert s == [s[0]] + s[1..];
    AllSpaceAppend([s[0]], v1);
  }

  /** TrimSplit's step for a trailing white-space character. */
  lemma TrimSplitBack(s: string, v1: string, v2: string) returns (w1: string, w2: string)
    requires s != [] && !IsSpace(s[0]) && IsSpace(s[|s| - 1])
    requires s[..|s| - 1] == v1 + Trim(s[..|s| - 1]) + v2 && AllSpace(v1) && AllSpace(v2)
    ensures s == w1 + Trim(s) + w2
    ensures AllSpace(w1) && AllSpace(w2)
  {
    w1, w2 := v1, v2 + [s[|s| - 1]];
    assert Trim(s) == Trim(s[..|s| - 1]);
    assert s == s[..|s| - 1] + [s[|s| - 1]];
    AllSpaceAppend(v2, [s[|s| - 1]]);
  }

  /** White space around a text with no white space at either end is
      exactly what Trim removes. */
  lemma {:induction false} TrimSurrounding(w1: string, t: string, w2: string)
    requires AllSpace(w1) && AllSpace(w2)
    requires t == [] || (!IsSpace(t[0]) && !IsSpace(t[|t| - 1]))
    ensures Trim(w1 + t + w2) == t
    decreases |w1| + |w2|
  {
    var s := w1 + t + w2;
    if w1 != [] {
      assert s[0] == w1[0];
      assert s[1..] == w1[1..] + t + w2;
      TrimSurrounding(w1[1..], t, w2);
    } else if t == [] && w2 != [] {
      assert s == w2 && s[0] == w2[0];
      assert s[1..] == [] + [] + w2[1..];
      TrimSurrounding([], [], w2[1..]);
    } else if w2 != [] {
      assert s[0] == t[0] && s[|s| - 1] == w2[|w2| - 1];
      assert s[..|s| - 1] == [] + t + w2[..|w2| - 1];
      TrimSurrounding([], t, w2[..|w2| - 1]);
    } else {
      assert s == t;
    }
  }

  /** A run of digits has no white space to trim. */
  lemma TrimDigits(s: string)
    ensures IsDigits(s) ==> Trim(s) == s
  {
    if IsDigits(s) {
      TrimSurrounding([], s, []);
      assert [] + s + [] == s;
    }
  }

  /** int() of text with no white space around it: an optional sign and
      at least one digit; anything else is None. */
  function ParseTrimmed(t: string): Option<int> {
    if t != [] && (t[0] == '-' || t[0] == '+') then
      if IsDigits(t[1..]) then
        var v: int := DigitsValue(t[1..]);
        Some(if t[0] == '-' then -v else v)
      else None
    else if IsDigits(t) then Some(DigitsValue(t))
    else None
  }

  /** int(s) in base 10: optional white space, an optional sign, and at
      least one digit; anything else is None (Python raises ValueError).
      A plain run of digits reads as its value; text without any digit,
      the empty text included, is not a number. */
  function ParseDecimal(s: string): (r: Option<int>)
    ensures IsDigits(s) ==> r == Some(DigitsValue(s))
    ensures (forall i :: 0 <= i < |s| ==> !IsDigit(s[i])) ==> r.None?
  {
    TrimDigits(s);
    TrimInside(s);
    ParseTrimmed(Trim(s))
  }

  lemma AllSpaceAppend(x: string, y: string)
    requires AllSpace(x) && AllSpace(y)
    ensures AllSpace(x + y)
  {
    assert forall i :: |x| <= i < |x + y| ==> (x + y)[i] == y[i - |x|];
  }

  /** int() ignores white space around the number: the text parses as it
      would without it. */
  lemma ParseDecimalSurrounded(w1: string, t: string, w2: string)
    requires AllSpace(w1) && AllSpace(w2)
    ensures ParseDecimal(w1 + t + w2) == ParseDecimal(t)
  {
    var u, v := TrimSplit(t);
    var m := Trim(t);
    assert w1 + t + w2 == (w1 + u) + m + (v + w2);
    AllSpaceAppend(w1, u);
    AllSpaceAppend(v, w2);
    TrimSurrounding(w1 + u, m, v + w2);
  }

  /** Every text int() accepts is white space, an optional sign, a run of
      digits and white space, and its value is that of the digits, negated
      under a minus sign: "1.5", "12a", "1 000" or "--5" are rejected. */
  lemma ParseDecimalShape(s: string) returns (w1: string, sign: string, d: string, w2: string)
    requires ParseDecimal(s).Some?
    ensures s == w1 + sign + d + w2
    ensures AllSpace(w1) && AllSpace(w2)
    ensures sign == [] || sign == ['-'] || sign == ['+']
    ensures IsDigits(d)
    ensures ParseDecimal(s).value == if sign == ['-'] then -(DigitsValue(d) as int) else DigitsValue(d)
  {
    w1, w2 := TrimSplit(s);
    assert ParseDecimal(s) == ParseTrimmed(Trim(s));
    sign, d := ParseTrimmedShape(Trim(s));
    assert w1 + sign + d + w2 == w1 + (sign + d) + w2 by {
      assert w1 + sign + d == w1 + (sign + d);
    }
  }

  /** The shape of a text without surrounding white space that int()
      accepts. */
  lemma ParseTrimmedShape(t: string) returns (sign: string, d: string)
    requires ParseTrimmed(t).Some?
    ensures t == sign + d
    ensures sign == [] || sign == ['-'] || sign == ['+']
    ensures IsDigits(d)
    ensures ParseTrimmed(t).value == if sign == ['-'] then -(DigitsValue(d) as int) else DigitsValue(d)
  {
    if t != [] && (t[0] == '-' || t[0] == '+') {
      sign, d := [t[0]], t[1..];
      assert t == sign + d;
    } else {
      sign, d := [], t;
      assert t == sign + d;
    }
  }

  /** A sign followed by a run of digits reads as the digits' value,
      negated under a minus sign. */
  lemma ParseSigned(c: char, d: string)
    requires c == '-' || c == '+'
    requires IsDigits(d)
    ensures ParseDecimal([c] + d) == Some(if c == '-' then -(DigitsValue(d) as int) else DigitsValue(d))
  {
    var t := [c] + d;
    assert t[0] == c && t[1..] == d && t[|t| - 1] == d[|d| - 1];
    assert Trim(t) == t by {
      TrimSurrounding([], t, []);
      assert [] + t + [] == t;
    }
    assert ParseTrimmed(t) == Some(if c == '-' then -(DigitsValue(d) as int) else DigitsValue(d));
  }

  /** Digits next to other characters are not an integer. */
  lemma RejectsExamples()
    ensures ParseDecimal("1.5").None?
    ensures ParseDecimal("12a").None?
    ensures ParseDecimal("1 000").None?
    ensures ParseDecimal("--5").None?
  {
    TrimSurrounding([], "1.5", []);
    assert [] + "1.5" + [] == "1.5" && !IsDigit("1.5"[1]);
    TrimSurrounding([], "12a", []);
    assert [] + "12a" + [] == "12a" && !IsDigit("12a"[2]);
    TrimSurrounding([], "1 000", []);
    assert [] + "1 000" + [] == "1 000" && !IsDigit("1 000"[1]);
    TrimSurrounding([], "--5", []);
    assert [] + "--5" + [] == "--5" && !IsDigit("--5"[1..][0]);
  }

  /** The canonical decimal text of a natural number. */
  function ShowNat(n: nat): (s: string)
    ensures IsDigits(s)
    ensures s[0] != '0' || n == 0
  {
    var d := ['0' + (n % 10) as char];
    if n < 10 then d else ShowNat(n / 10) + d
  }

  /** The canonical decimal text of an integer, str(n). */
  function ShowInt(n: int): string {
    if n < 0 then "-" + ShowNat(-n) else ShowNat(n)
  }

  lemma {:induction false} DigitsValueShowNat(n: nat)
    ensures DigitsValue(ShowNat(n)) == n
  {
    if n >= 10 {
      DigitsValueShowNat(n / 10);
      var s := ShowNat(n);
      assert s[..|s| - 1] == ShowNat(n / 10);
    }
  }

  /** Parsing the decimal text of any integer gives it back. */
  lemma ParseShowInt(n: int)
    ensures ParseDecimal(ShowInt(n)) == Some(n)
  {
    var s := ShowInt(n);
    if n < 0 {
      DigitsValueShowNat(-n);
      assert s[1..] == ShowNat(-n);
    } else {
      DigitsValueShowNat(n);
    }
    assert Trim(s) == s;
  }

  /** A code with leading zeros reads as a smaller number: "01111" is 1111,
      so coercing such a code to an integer would lose its text. */
  lemma LeadingZerosExample()
    ensures ParseDecimal("01111") == Some(1111)
    ensures ShowInt(1111) != "01111"
  {
    assert Trim("01111") == "01111";
    assert "01111"[..4] == "0111";
    assert "0111"[..3] == "011";
    assert "011"[..2] == "01";
    assert "01"[..1] == "0";
  }

  lemma {:induction false} TrimInside(s: string)
    ensures forall i :: 0 <= i < |Trim(s)| ==> Trim(s)[i] in s
    decreases |s|
  {
    if s != [] && IsSpace(s[0]) {
      TrimInside(s[1..]);
    } else if s != [] && IsSpace(s[|s| - 1]) {
      TrimInside(s[..|s| - 1]);
    }
  }
}
