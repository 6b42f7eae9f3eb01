/** String primitives of JavaScript that the data layer uses: `trim`,
    `toUpperCase`, `split` on one character, `parseInt(s, 10)` and
    `parseFloat(s)`. */
module Text {
  import opened Js

  /** ECMAScript WhiteSpace and LineTerminator code points, the set that
      `String.prototype.trim`, `parseInt` and `parseFloat` strip. */
  predicate IsWhiteSpace(c: char)
  {
    var n := c as int;
    n == 0x09 || n == 0x0A || n == 0x0B || n == 0x0C || n == 0x0D || n == 0x20
    || n == 0xA0 || n == 0x1680 || (0x2000 <= n <= 0x200A)
    || n == 0x2028 || n == 0x2029 || n == 0x202F || n == 0x205F
    || n == 0x3000 || n == 0xFEFF
  }

  /** `s.trimStart()`: the suffix of `s` left after its leading white space. */
  function TrimStart(s: string): (r: string)
    ensures |r| <= |s| && r == s[|s| - |r|..]
    ensures r == "" || !IsWhiteSpace(r[0])
    ensures forall i :: 0 <= i < |s| - |r| ==> IsWhiteSpace(s[i])
    decreases |s|
  {
    if |s| > 0 && IsWhiteSpace(s[0]) then TrimStart(s[1..]) else s
  }

  /** `s.trimEnd()`: the prefix of `s` left after its trailing white space. */
  function TrimEnd(s: string): (r: string)
    ensures |r| <= |s| && r == s[..|r|]
    ensures r == "" || !IsWhiteSpace(r[|r| - 1])
    ensures forall i :: |r| <= i < |s| ==> IsWhiteSpace(s[i])
    decreases |s|
  {
    if |s| > 0 && IsWhiteSpace(s[|s| - 1]) then TrimEnd(s[..|s| - 1]) else s
  }

  /** A string with no white space at either end. */
  predicate IsTrimmed(s: string)
  {
    s == "" || (!IsWhiteSpace(s[0]) && !IsWhiteSpace(s[|s| - 1]))
  }

  /** `s.trim()`: the middle slice of `s` between its leading and trailing
      white space. */
  function Trim(s: string): (r: string)
    ensures IsTrimmed(r)
    ensures exists i, j ::
              && 0 <= i <= j <= |s| && r == s[i..j]
              && (forall k :: 0 <= k < i ==> IsWhiteSpace(s[k]))
              && (forall k :: j <= k < |s| ==> IsWhiteSpace(s[k]))
  {
    var t := TrimStart(s);
    var r := TrimEnd(t);
    var i := |s| - |t|;
    assert r == s[i..i + |r|];
    r
  }

  lemma TrimOfTrimmed(s: string)
    requires IsTrimmed(s)
    ensures Trim(s) == s
  {
    assert TrimStart(s) == s;
    assert TrimEnd(s) == s;
  }

  /** Trimming twice is trimming once. */
  lemma TrimIdempotent(s: string)
    ensures Trim(Trim(s)) == Trim(s)
  {
    TrimOfTrimmed(Trim(s));
  }

  /** `toUpperCase` on one character, restricted to the ASCII letters. */
  function UpperChar(c: char): char
  {
    if 'a' <= c <= 'z' then (c as int - 32) as char else c
  }

  predicate IsLowerAscii(c: char)
  {
    'a' <= c <= 'z'
  }

  /** `s.toUpperCase()` for ASCII text: letters are capitalised one by one,
      every other character is left as it is. */
  function Upper(s: string): (r: string)
    ensures |r| == |s|
    ensures forall i :: 0 <= i < |r| ==> !IsLowerAscii(r[i])
    ensures forall i :: 0 <= i < |s| ==> (IsWhiteSpace(r[i]) <==> IsWhiteSpace(s[i]))
    ensures forall i :: 0 <= i < |s| && !IsLowerAscii(s[i]) ==> r[i] == s[i]
    ensures forall i :: 0 <= i < |s| && IsLowerAscii(s[i]) ==> r[i] == (s[i] as int - 32) as char
  {
    seq(|s|, i requires 0 <= i < |s| => UpperChar(s[i]))
  }

  /** Upper-casing keeps white space where it is, so it commutes with
      stripping leading white space. */
  lemma {:induction false} UpperTrimStart(s: string)
    ensures TrimStart(Upper(s)) == Upper(TrimStart(s))
    decreases |s|
  {
    if |s| > 0 && IsWhiteSpace(s[0]) {
      assert Upper(s)[1..] == Upper(s[1..]);
      UpperTrimStart(s[1..]);
    }
  }

  /** Likewise for trailing white space. */
  lemma {:induction false} UpperTrimEnd(s: string)
    ensures TrimEnd(Upper(s)) == Upper(TrimEnd(s))
    decreases |s|
  {
    if |s| > 0 && IsWhiteSpace(s[|s| - 1]) {
      assert Upper(s)[..|s| - 1] == Upper(s[..|s| - 1]);
      UpperTrimEnd(s[..|s| - 1]);
    }
  }

  /** A string without lower-case ASCII letters is its own upper case. */
  lemma UpperOfUpper(s: string)
    requires forall i :: 0 <= i < |s| ==> !IsLowerAscii(s[i])
    ensures Upper(s) == s
  {
  }

  /** The canonical form of a country code: upper-cased and trimmed. */
  predicate IsCanonical(s: string)
  {
    IsTrimmed(s) && forall i :: 0 <= i < |s| ==> !IsLowerAscii(s[i])
  }

  /** `s.toUpperCase().trim()` is the upper case of the trimmed text; it is
      canonical, and canonical strings are left unchanged by it. */
  function UpperTrim(s: string): (r: string)
    ensures r == Upper(Trim(s))
    ensures IsCanonical(r)
    ensures IsCanonical(s) ==> r == s
    ensures |r| <= |s|
  {
    var r := Trim(Upper(s));
    UpperTrimCommutes(s);
    UpperOfTrimmed(Trim(s));
    if IsCanonical(s) then
      UpperOfUpper(s);
      TrimOfTrimmed(s);
      r
    else
      r
  }

  /** Upper-casing and trimming commute. */
  lemma UpperTrimCommutes(s: string)
    ensures Trim(Upper(s)) == Upper(Trim(s))
  {
    UpperTrimStart(s);
    UpperTrimEnd(TrimStart(s));
  }

  /** The upper case of a trimmed string is canonical. */
  lemma UpperOfTrimmed(t: string)
    requires IsTrimmed(t)
    ensures IsCanonical(Upper(t))
  {
  }


  // ----- split / join -----

  /** `parts.join(sep)`. */
  function Join(parts: seq<string>, sep: char): string
    requires |parts| >= 1
  {
    if |parts| == 1 then parts[0] else parts[0] + [sep] + Join(parts[1..], sep)
  }

  /** `s.split(sep)` for a one-character separator: the maximal pieces of
      `s` between separators, at least one of them. */
  function Split(s: string, sep: char): (parts: seq<string>)
    ensures |parts| >= 1
    ensures forall i :: 0 <= i < |parts| ==> sep !in parts[i]
    ensures Join(parts, sep) == s
  {
    if |s| == 0 then [""]
    else
      var rest := Split(s[1..], sep);
      if s[0] == sep then
        assert Join([""] + rest, sep) == [sep] + Join(rest, sep) by {
          assert ([""] + rest)[1..] == rest;
        }
        assert s == [sep] + s[1..];
        [""] + rest
      else
        var parts := [[s[0]] + rest[0]] + rest[1..];
        assert parts[1..] == rest[1..];
        assert Join(parts, sep) == [s[0]] + Join(rest, sep);
        assert s == [s[0]] + s[1..];
        parts
  }

  /** Splitting a join of separator-free pieces gives the pieces back. */
  lemma {:induction false} SplitJoin(parts: seq<string>, sep: char)
    requires |parts| >= 1
    requires forall i :: 0 <= i < |parts| ==> sep !in parts[i]
    ensures Split(Join(parts, sep), sep) == parts
    decreases |parts|, |parts[0]|
  {
    var s := Join(parts, sep);
    if |parts[0]| == 0 {
      if |parts| == 1 {
      } else {
        assert s == [sep] + Join(parts[1..], sep);
        assert s[1..] == Join(parts[1..], sep);
        SplitJoin(parts[1..], sep);
        assert [""] + parts[1..] == parts;
      }
    } else {
      var c := parts[0][0];
      var tail := [parts[0][1..]] + parts[1..];
      assert parts[0] == [c] + parts[0][1..];
      assert tail[1..] == parts[1..];
      if |parts| == 1 {
        assert s[1..] == Join(tail, sep);
      } else {
        assert s[1..] == Join(tail, sep) by {
          assert s == parts[0] + [sep] + Join(parts[1..], sep);
          assert parts[0] == [c] + parts[0][1..];
        }
      }
      assert s[0] == c;
      SplitJoin(tail, sep);
      assert [[c] + tail[0]] + tail[1..] == parts;
    }
  }

  // ----- digits and number parsing -----

  predicate IsDigit(c: char)
  {
    '0' <= c <= '9'
  }

  function DigitValue(c: char): nat
    requires IsDigit(c)
  {
    c as int - '0' as int
  }

  function DigitChar(d: nat): (c: char)
    requires d < 10
    ensures IsDigit(c) && DigitValue(c) == d
  {
    ('0' as int + d) as char
  }

  predicate AllDigits(s: string)
  {
    forall i :: 0 <= i < |s| ==> IsDigit(s[i])
  }

  /** The longest prefix of `s` made of decimal digits. */
  function LeadingDigits(s: string): (d: string)
    ensures AllDigits(d)
    ensures |d| <= |s| && d == s[..|d|]
    ensures |d| == |s| || !IsDigit(s[|d|])
  {
    if |s| > 0 && IsDigit(s[0]) then
      var d := [s[0]] + LeadingDigits(s[1..]);
      assert d == s[..|d|];
      d
    else ""
  }

  /** The value of a string of decimal digits, most significant first. */
  function DigitsValue(d: string): nat
    requires AllDigits(d)
  {
    if |d| == 0 then 0 else DigitsValue(d[..|d| - 1]) * 10 + DigitValue(d[|d| - 1])
  }

  /** The decimal rendering of a natural number, without leading zeros. */
  function ShowNat(n: nat): (s: string)
    ensures |s| >= 1 && AllDigits(s)
  {
    if n < 10 then [DigitChar(n)] else ShowNat(n / 10) + [DigitChar(n % 10)]
  }

  /** The decimal rendering of an integer, with `-` for negatives. */
  function ShowInt(n: int): string
  {
    if n < 0 then "-" + ShowNat(-n) else ShowNat(n)
  }

  lemma {:induction false} DigitsValueShowNat(n: nat)
    ensures DigitsValue(ShowNat(n)) == n
  {
    if n >= 10 {
      var s := ShowNat(n);
      assert s[..|s| - 1] == ShowNat(n / 10);
      DigitsValueShowNat(n / 10);
    }
  }

  lemma {:induction false} LeadingDigitsOfDigits(d: string, tail: string)
    requires AllDigits(d)
    requires tail == "" || !IsDigit(tail[0])
    ensures LeadingDigits(d + tail) == d
  {
    if |d| > 0 {
      assert (d + tail)[1..] == d[1..] + tail;
      LeadingDigitsOfDigits(d[1..], tail);
      assert d == [d[0]] + d[1..];
    }
  }

  /** The optional sign after leading white space: whether it is `-`, and
      the text after it. */
  function SignAndBody(s: string): (bool, string)
  {
    var t := TrimStart(s);
    if |t| > 0 && (t[0] == '-' || t[0] == '+') then (t[0] == '-', t[1..]) else (false, t)
  }

  /** `parseInt(s, 10)`: skip white space, read an optional sign and then the
      longest run of decimal digits; no digits gives NaN, here `None`. */
  function ParseInt(s: string): (r: Option<int>)
    ensures r.None? <==> LeadingDigits(SignAndBody(s).1) == ""
    ensures r.Some? && !SignAndBody(s).0 ==> r.value >= 0
    ensures r.Some? && SignAndBody(s).0 ==> r.value <= 0
  {
    var (neg, body) := SignAndBody(s);
    var d := LeadingDigits(body);
    if |d| == 0 then None
    else
      var v: int := DigitsValue(d);
      Some(if neg then -v else v)
  }

  /** The magnitude of an integer. */
  function Abs(n: int): nat
  {
    if n < 0 then -n else n
  }

  /** A decimal rendering has no leading white space, so its sign and digits
      are read as written. */
  lemma SignAndBodyShowInt(n: int, tail: string)
    ensures SignAndBody(ShowInt(n) + tail) == (n < 0, ShowNat(Abs(n)) + tail)
  {
    var s := ShowInt(n) + tail;
    assert s[0] == '-' || IsDigit(s[0]);
    assert !IsWhiteSpace(s[0]);
    assert TrimStart(s) == s;
    if n < 0 {
      assert s[1..] == ShowNat(Abs(n)) + tail;
    } else {
      assert s == ShowNat(Abs(n)) + tail;
    }
  }

  /** `parseInt` reads back any integer written in decimal, whatever non-digit
      text follows it. */
  lemma ParseIntShowInt(n: int, tail: string)
    requires tail == "" || !IsDigit(tail[0])
    ensures ParseInt(ShowInt(n) + tail) == Some(n)
  {
    SignAndBodyShowInt(n, tail);
    LeadingDigitsOfDigits(ShowNat(Abs(n)), tail);
    DigitsValueShowNat(Abs(n));
  }

  function Pow10(e: nat): (p: nat)
    ensures p >= 1
  {
    if e == 0 then 1 else 10 * Pow10(e - 1)
  }

  /** `10^e` for any integer exponent, as an exact real. */
  function Scale(e: int): (p: real)
    ensures p > 0.0
  {
    if e >= 0 then Pow10(e) as real else 1.0 / (Pow10(-e) as real)
  }

  /** The decimal exponent after a mantissa: `e`/`E`, an optional sign and at
      least one digit; anything else contributes exponent 0. */
  function Exponent(s: string): int
  {
    if |s| > 0 && (s[0] == 'e' || s[0] == 'E') then
      var t := s[1..];
      var (neg, body) := if |t| > 0 && (t[0] == '-' || t[0] == '+') then (t[0] == '-', t[1..]) else (false, t);
      var d := LeadingDigits(body);
      var v: int := if |d| == 0 then 0 else DigitsValue(d);
      if neg then -v else v
    else 0
  }

  /** The parts of a decimal literal: whole digits, fraction digits and the
      text after them. */
  datatype Literal = Literal(whole: string, frac: string, rest: string)

  /** Reads the longest decimal literal at the start of `body`: digits, then
      a `.` and the digits after it when present. */
  function ScanDecimal(body: string): (l: Literal)
    ensures AllDigits(l.whole) && AllDigits(l.frac)
    ensures l.whole == LeadingDigits(body)
    ensures l.whole == "" ==> (l.frac != "" <==> |body| > 1 && body[0] == '.' && IsDigit(body[1]))
  {
    var whole := LeadingDigits(body);
    var after := body[|whole|..];
    if |after| > 0 && after[0] == '.' then
      var frac := LeadingDigits(after[1..]);
      Literal(whole, frac, after[1 + |frac|..])
    else Literal(whole, "", after)
  }

  /** The value of a scanned literal, scaled by its exponent. */
  function DecimalValue(l: Literal): real
    requires AllDigits(l.whole) && AllDigits(l.frac)
  {
    var mantissa := DigitsValue(l.whole) as real + DigitsValue(l.frac) as real / (Pow10(|l.frac|) as real);
    mantissa * Scale(Exponent(l.rest))
  }

  /** `parseFloat(s)` for finite decimal literals: white space, an optional
      sign, digits with an optional fraction (at least one digit in all), and
      an optional exponent. No digits gives NaN, here `None`. */
  function ParseFloat(s: string): (r: Option<real>)
    ensures r.None? <==>
              && LeadingDigits(SignAndBody(s).1) == ""
              && !(|SignAndBody(s).1| > 1 && SignAndBody(s).1[0] == '.' && IsDigit(SignAndBody(s).1[1]))
  {
    var (neg, body) := SignAndBody(s);
    var l := ScanDecimal(body);
    if |l.whole| + |l.frac| == 0 then None
    else
      var v := DecimalValue(l);
      Some(if neg then -v else v)
  }

  lemma ScanDigits(d: string)
    requires AllDigits(d)
    ensures ScanDecimal(d) == Literal(d, "", "")
  {
    LeadingDigitsOfDigits(d, "");
    assert d + "" == d;
  }

  lemma DecimalOfDigits(d: string)
    requires AllDigits(d)
    ensures DecimalValue(Literal(d, "", "")) == DigitsValue(d) as real
  {
    assert Exponent("") == 0;
    assert Scale(0) == 1.0;
    assert Pow10(0) == 1;
    assert DigitsValue("") == 0;
  }

  /** A body of digits alone is read as its integer value. */
  lemma ParseFloatOfDigits(s: string)
    requires SignAndBody(s).1 != "" && AllDigits(SignAndBody(s).1)
    ensures var v := DigitsValue(SignAndBody(s).1) as real;
      ParseFloat(s) == Some(if SignAndBody(s).0 then -v else v)
  {
    var (neg, d) := SignAndBody(s);
    ScanDigits(d);
    DecimalOfDigits(d);
  }

  /** `parseFloat` reads back any integer written in decimal. */
  lemma ParseFloatShowInt(n: int)
    ensures ParseFloat(ShowInt(n)) == Some(n as real)
  {
    SignAndBodyShowInt(n, "");
    assert ShowInt(n) + "" == ShowInt(n);
    assert ShowNat(Abs(n)) + "" == ShowNat(Abs(n));
    ParseFloatOfDigits(ShowInt(n));
    DigitsValueShowNat(Abs(n));
  }

  /** `parseFloat` reads back a decimal fraction: a natural number written
      in decimal, a point and any fraction digits. */
  lemma ParseFloatShowFraction(w: nat, frac: string)
    requires AllDigits(frac)
    ensures ParseFloat(ShowNat(w) + "." + frac) == Some(w as real + FractionOf(frac))
  {
    var whole := ShowNat(w);
    var t := whole + "." + frac;
    UnsignedBody(whole, "." + frac);
    assert t == whole + ("." + frac);
    ScanFraction(whole, frac);
    FractionValue(whole, frac);
    DigitsValueShowNat(w);
    ParseFloatOfLiteral(t, false, t, Literal(whole, frac, ""), w as real + FractionOf(frac));
  }

  /** Text that starts with a digit has no sign and no leading white space. */
  lemma UnsignedBody(d: string, tail: string)
    requires |d| > 0 && AllDigits(d)
    ensures SignAndBody(d + tail) == (false, d + tail)
  {
    var s := d + tail;
    assert IsDigit(s[0]);
    assert !IsWhiteSpace(s[0]);
    assert TrimStart(s) == s;
  }

  /** The value of fraction digits after the point. */
  function FractionOf(frac: string): real
    requires AllDigits(frac)
  {
    DigitsValue(frac) as real / (Pow10(|frac|) as real)
  }

  /** A body that scans as a literal with an empty rest is read as that
      literal's value, signed. */
  lemma ParseFloatOfLiteral(s: string, neg: bool, body: string, l: Literal, v: real)
    requires SignAndBody(s) == (neg, body)
    requires ScanDecimal(body) == l && l.rest == "" && |l.whole| > 0
    requires DecimalValue(l) == v
    ensures ParseFloat(s) == Some(if neg then -v else v)
  {
  }

  lemma ScanFraction(whole: string, frac: string)
    requires AllDigits(whole) && AllDigits(frac)
    ensures ScanDecimal(whole + ("." + frac)) == Literal(whole, frac, "")
  {
    var body := whole + ("." + frac);
    LeadingDigitsOfDigits(whole, "." + frac);
    assert body[|whole|..] == "." + frac;
    LeadingDigitsOfDigits(frac, "");
    assert frac + "" == frac;
    assert ("." + frac)[1..] == frac;
  }

  lemma FractionValue(whole: string, frac: string)
    requires AllDigits(whole) && AllDigits(frac)
    ensures DecimalValue(Literal(whole, frac, "")) == DigitsValue(whole) as real + FractionOf(frac)
  {
    var m := DigitsValue(whole) as real + FractionOf(frac);
    assert Scale(Exponent("")) == 1.0;
    assert DecimalValue(Literal(whole, frac, "")) == m * 1.0;
  }

}
