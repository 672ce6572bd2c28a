/** The insulin-duration parser `encode_duration` of app.py.

    The function never raises: the literal "Invalid" gives -1; otherwise the
    text is split on whitespace as Python's `str.split()` does, the first token
    is read as a number by `float` and truncated toward zero by `int`; a missing
    token or a token `float`/`int` rejects gives -1. Only the decimal-literal
    part of Python's `float` grammar is modelled: an optional sign, digits and
    an optional fraction, with at least one digit in all. */
module Duration {
  import opened Wrappers

  /** The sentinel answer the form offers, and the code it encodes to. */
  const InvalidText: string := "Invalid"
  const InvalidCode: int := -1

  // ---------------------------------------------------------------------------
  // Whitespace splitting, as Python's str.split() with no separator
  // ---------------------------------------------------------------------------

  /** The characters Python's `str.isspace` accepts, by code point. */
  predicate IsSpace(c: char) {
    var n := c as int;
    || (9 <= n <= 13)          // \t \n \v \f \r
    || (28 <= n <= 32)         // the four separators \x1c-\x1f and the space
    || n == 0x85 || n == 0xA0 || n == 0x1680
    || (0x2000 <= n <= 0x200A)
    || n == 0x2028 || n == 0x2029 || n == 0x202F || n == 0x205F || n == 0x3000
  }

  predicate AllSpace(s: string) {
    forall i :: 0 <= i < |s| ==> IsSpace(s[i])
  }

  predicate NoSpace(s: string) {
    forall i :: 0 <= i < |s| ==> !IsSpace(s[i])
  }

  /** The length of the run of non-space characters that starts `s`. */
  function TokenEnd(s: string): (n: nat)
    ensures n <= |s|
    ensures NoSpace(s[..n])
    ensures n == |s| || IsSpace(s[n])
  {
    if s == [] || IsSpace(s[0]) then 0 else 1 + TokenEnd(s[1..])
  }

  /** The whitespace-separated tokens of `s`, in order. */
  function Split(s: string): (tokens: seq<string>)
    ensures forall k :: 0 <= k < |tokens| ==> tokens[k] != [] && NoSpace(tokens[k])
    ensures tokens == [] <==> AllSpace(s)
    decreases |s|
  {
    if s == [] then []
    else if IsSpace(s[0]) then Split(s[1..])
    else
      var n := TokenEnd(s);
      [s[..n]] + Split(s[n..])
  }

  /** Leading whitespace does not change the tokens. */
  lemma {:induction false} SplitSkipsLeadingSpace(w: string, u: string)
    requires AllSpace(w)
    ensures Split(w + u) == Split(u)
    decreases |w|
  {
    if w == [] {
      assert w + u == u;
    } else {
      assert (w + u)[0] == w[0];
      assert (w + u)[1..] == w[1..] + u;
      assert AllSpace(w[1..]) by {
        forall i | 0 <= i < |w| - 1 ensures IsSpace(w[1..][i]) { assert w[1..][i] == w[i + 1]; }
      }
      SplitSkipsLeadingSpace(w[1..], u);
    }
  }

  /** A token followed by the end of the text or by whitespace is the first
      token, whatever comes after that whitespace. */
  lemma SplitFirstToken(t: string, rest: string)
    requires t != [] && NoSpace(t)
    requires rest == [] || IsSpace(rest[0])
    ensures |Split(t + rest)| > 0 && Split(t + rest)[0] == t
  {
    var s := t + rest;
    assert s[0] == t[0];
    assert forall i :: 0 <= i < |t| ==> s[i] == t[i];
    assert |t| < |s| ==> s[|t|] == rest[0];
    assert TokenEnd(s) == |t|;
    assert s[..|t|] == t;
  }

  /** The first token of `w + t + rest` is `t` when `w` is whitespace and `rest`
      is empty or starts with whitespace. */
  lemma FirstTokenOf(w: string, t: string, rest: string)
    requires AllSpace(w)
    requires t != [] && NoSpace(t)
    requires rest == [] || IsSpace(rest[0])
    ensures |Split(w + t + rest)| > 0 && Split(w + t + rest)[0] == t
  {
    assert w + t + rest == w + (t + rest);
    SplitSkipsLeadingSpace(w, t + rest);
    SplitFirstToken(t, rest);
  }

  // ---------------------------------------------------------------------------
  // Decimal literals, the part of Python's float() grammar that is modelled
  // ---------------------------------------------------------------------------

  predicate IsDigit(c: char) {
    '0' <= c <= '9'
  }

  predicate IsSign(c: char) {
    c == '+' || c == '-'
  }

  predicate AllDigits(s: string) {
    forall i :: 0 <= i < |s| ==> IsDigit(s[i])
  }

  function Pow10(n: nat): (p: nat)
    ensures p >= 1
  {
    if n == 0 then 1 else 10 * Pow10(n - 1)
  }

  /** The value of a string of decimal digits, most significant first. */
  function DigitsValue(ds: string): (v: nat)
    requires AllDigits(ds)
    ensures v < Pow10(|ds|)
    decreases |ds|
  {
    if ds == [] then 0
    else DigitsValue(ds[..|ds| - 1]) * 10 + (ds[|ds| - 1] as int - '0' as int)
  }

  /** A parsed decimal literal: the value is
      (-1 if negative) * (whole + fraction / 10^places). */
  datatype Decimal = Decimal(negative: bool, whole: nat, fraction: nat, places: nat)

  /** The exact value a decimal literal denotes. */
  function DecimalValue(d: Decimal): real {
    var magnitude := d.whole as real + d.fraction as real / Pow10(d.places) as real;
    if d.negative then -magnitude else magnitude
  }

  /** The index of the first '.' in `s`, or `|s|` if there is none. */
  function DotIndex(s: string): (k: nat)
    ensures k <= |s|
    ensures forall i :: 0 <= i < k ==> s[i] != '.'
    ensures k == |s| || s[k] == '.'
  {
    if s == [] || s[0] == '.' then 0 else 1 + DotIndex(s[1..])
  }

  /** The text after an optional leading sign. */
  function Unsigned(t: string): string {
    if |t| > 0 && IsSign(t[0]) then t[1..] else t
  }

  /** The text before the first point. */
  function IntPart(body: string): string {
    body[..DotIndex(body)]
  }

  /** The text after the first point, empty when there is no point. */
  function FracPart(body: string): string {
    var k := DotIndex(body);
    if k < |body| then body[k + 1..] else []
  }

  /** `float` on an unsigned decimal literal: digits, optionally a point and
      more digits, at least one digit in all ("5", ".5", "7.", "2.9"). */
  function ParseUnsigned(body: string): (r: Option<Decimal>)
    ensures r.Some? ==> body != [] && !r.value.negative && r.value.fraction < Pow10(r.value.places)
  {
    var ip, fp := IntPart(body), FracPart(body);
    if AllDigits(ip) && AllDigits(fp) && |ip| + |fp| > 0 then
      Some(Decimal(false, DigitsValue(ip), DigitsValue(fp), |fp|))
    else
      None
  }

  /** `float(t)` on a decimal literal: an optional sign before an unsigned
      literal ("-2.9", "+.5"). Anything else is rejected. */
  function ParseDecimal(t: string): (r: Option<Decimal>)
    ensures r.Some? ==> r.value.fraction < Pow10(r.value.places)
    ensures r.Some? ==> t != [] && (r.value.negative <==> t[0] == '-')
  {
    match ParseUnsigned(Unsigned(t))
    case None => None
    case Some(d) => Some(d.(negative := |t| > 0 && t[0] == '-'))
  }

  /** The optional sign of a decimal literal. */
  datatype Sign = NoSign | Plus | Minus

  function SignText(sign: Sign): string {
    match sign
    case NoSign => ""
    case Plus => "+"
    case Minus => "-"
  }

  /** The unsigned part of a literal: integer digits, then optionally a point
      and fraction digits. */
  function UnsignedLiteral(ip: string, dot: bool, fp: string): string {
    ip + (if dot then "." else "") + fp
  }

  /** The literal made of a sign and an unsigned part. */
  function Literal(sign: Sign, ip: string, dot: bool, fp: string): string {
    SignText(sign) + UnsignedLiteral(ip, dot, fp)
  }

  /** A sign in front of a text that does not itself start with a sign is
      what `Unsigned` removes, and it is negative exactly when it is '-'. */
  lemma UnsignedOfSigned(sign: Sign, b: string)
    requires b != [] && !IsSign(b[0])
    ensures Unsigned(SignText(sign) + b) == b
    ensures (SignText(sign) + b)[0] == '-' <==> sign == Minus
  {
    var t := SignText(sign) + b;
    if sign == NoSign {
      assert t == b;
    } else {
      assert t[0] == SignText(sign)[0];
      assert t[1..] == b;
    }
  }

  /** In digits, optionally followed by a point and more digits, the first point
      is right after the integer digits. */
  lemma DotIndexAfterDigits(ip: string, dot: bool, fp: string)
    requires AllDigits(ip) && AllDigits(fp)
    requires dot || fp == ""
    ensures var body := UnsignedLiteral(ip, dot, fp);
            DotIndex(body) == |ip| && IntPart(body) == ip && FracPart(body) == fp
  {
    var body := UnsignedLiteral(ip, dot, fp);
    var k := DotIndex(body);
    assert forall i :: 0 <= i < |ip| ==> body[i] == ip[i];
    if dot {
      assert body[|ip|] == '.';
      assert body[|ip| + 1..] == fp;
    } else {
      assert body == ip;
    }
    assert k == |ip|;
    assert body[..k] == ip;
  }

  /** An unsigned literal starts with a digit or a point, never with a sign. */
  lemma UnsignedLiteralUnsigned(ip: string, dot: bool, fp: string)
    requires AllDigits(ip) && |ip| + |fp| > 0
    requires dot || fp == ""
    ensures var body := UnsignedLiteral(ip, dot, fp); body != [] && !IsSign(body[0])
  {
    var body := UnsignedLiteral(ip, dot, fp);
    if |ip| > 0 { assert body[0] == ip[0]; } else { assert body[0] == '.'; }
  }

  /** A literal assembled from its parts parses to the value of those parts:
      the sign, the integer digits, the fraction digits and how many there are. */
  lemma ParseDecimalOfParts(sign: Sign, ip: string, dot: bool, fp: string)
    requires AllDigits(ip) && AllDigits(fp) && |ip| + |fp| > 0
    requires dot || fp == ""
    ensures ParseDecimal(Literal(sign, ip, dot, fp))
            == Some(Decimal(sign == Minus, DigitsValue(ip), DigitsValue(fp), |fp|))
  {
    UnsignedLiteralUnsigned(ip, dot, fp);
    UnsignedOfSigned(sign, UnsignedLiteral(ip, dot, fp));
    DotIndexAfterDigits(ip, dot, fp);
  }

  /** Every character of an unsigned literal that parses is a digit, except
      the first point; and it holds a digit. */
  lemma ParseUnsignedShape(body: string)
    requires ParseUnsigned(body).Some?
    ensures forall i :: 0 <= i < |body| ==> IsDigit(body[i]) || i == DotIndex(body)
    ensures exists i :: 0 <= i < |body| && IsDigit(body[i])
  {
    var k := DotIndex(body);
    var ip, fp := IntPart(body), FracPart(body);
    assert forall i :: 0 <= i < k ==> body[i] == ip[i];
    assert forall i :: k < i < |body| ==> body[i] == fp[i - k - 1];
    if |ip| > 0 {
      assert IsDigit(body[0]);
    } else {
      assert IsDigit(body[k + 1]);
    }
  }

  /** Only digits, one leading sign and a single point can make up a token that
      parses, and it holds at least one digit. */
  lemma ParseDecimalShape(t: string)
    requires ParseDecimal(t).Some?
    ensures forall i :: 0 <= i < |t| ==> IsDigit(t[i]) || t[i] == '.' || (i == 0 && IsSign(t[i]))
    ensures forall i, j :: 0 <= i < j < |t| && t[i] == '.' ==> t[j] != '.'
    ensures exists i :: 0 <= i < |t| && IsDigit(t[i])
  {
    var body := Unsigned(t);
    var off := if |t| > 0 && IsSign(t[0]) then 1 else 0;
    assert |t| == |body| + off;
    assert forall i :: 0 <= i < |body| ==> body[i] == t[i + off];
    ParseUnsignedShape(body);
    var k := DotIndex(body);
    assert forall i :: 0 <= i < |t| ==> i < off || IsDigit(t[i]) || i == k + off by {
      forall i | off <= i < |t| ensures IsDigit(t[i]) || i == k + off {
        assert t[i] == body[i - off];
      }
    }
    var d :| 0 <= d < |body| && IsDigit(body[d]);
    assert IsDigit(t[d + off]);
  }

  // ---------------------------------------------------------------------------
  // Truncation toward zero, as Python's int() on a float
  // ---------------------------------------------------------------------------

  /** The integer part of `v`, rounding toward zero. */
  function TruncateTowardZero(v: real): (r: int)
    ensures v >= 0.0 ==> r as real <= v < r as real + 1.0
    ensures v < 0.0 ==> r as real - 1.0 < v <= r as real
  {
    if v >= 0.0 then v.Floor else -((-v).Floor)
  }

  /** Truncating a decimal drops its fraction digits, whatever its sign. */
  lemma TruncateDecimal(d: Decimal)
    requires d.fraction < Pow10(d.places)
    ensures TruncateTowardZero(DecimalValue(d)) == if d.negative then -(d.whole as int) else d.whole
  {
    var f := d.fraction as real / Pow10(d.places) as real;
    assert 0.0 <= f < 1.0 by {
      DivBelowOne(d.fraction as real, Pow10(d.places) as real);
    }
  }

  lemma DivBelowOne(n: real, q: real)
    requires 0.0 <= n < q
    ensures 0.0 <= n / q < 1.0
  {
  }

  // ---------------------------------------------------------------------------
  // encode_duration
  // ---------------------------------------------------------------------------

  /** `int(float(token))` inside the `try`: a token that does not parse gives -1. */
  function TokenCode(token: string): (code: int)
    ensures ParseDecimal(token).None? ==> code == InvalidCode
    ensures ParseDecimal(token).Some? ==>
      var d := ParseDecimal(token).value;
      code == if d.negative then -(d.whole as int) else d.whole
  {
    match ParseDecimal(token)
    case None => InvalidCode
    case Some(d) =>
      TruncateDecimal(d);
      TruncateTowardZero(DecimalValue(d))
  }

  /** `encode_duration(x)`: total, never failing. */
  function EncodeDuration(x: string): (code: int)
    ensures x == InvalidText ==> code == InvalidCode
    ensures AllSpace(x) ==> code == InvalidCode
    ensures !AllSpace(x) && x != InvalidText ==> code == TokenCode(Split(x)[0])
  {
    if x == InvalidText then InvalidCode
    else
      var tokens := Split(x);
      if |tokens| == 0 then InvalidCode else TokenCode(tokens[0])
  }

  /** The sentinel answer encodes to -1. */
  lemma EncodeDurationSentinel()
    ensures EncodeDuration(InvalidText) == InvalidCode
  {
  }

  /** Empty or whitespace-only text has no first token and encodes to -1. */
  lemma EncodeDurationBlank(x: string)
    requires AllSpace(x)
    ensures EncodeDuration(x) == InvalidCode
  {
  }

  /** The sentinel is made of letters only. */
  lemma InvalidTextIsLetters()
    ensures NoSpace(InvalidText)
    ensures forall i :: 0 <= i < |InvalidText| ==> !IsDigit(InvalidText[i]) && !IsSign(InvalidText[i]) && InvalidText[i] != '.'
  {
    assert forall i :: 0 <= i < |InvalidText| ==> 'A' <= InvalidText[i] <= 'z';
  }

  /** The sentinel check is redundant: "Invalid" as a token is not a number,
      so it would encode to -1 by the parse failure alone. */
  lemma SentinelIsNotANumber()
    ensures ParseDecimal(InvalidText) == None
  {
    if ParseDecimal(InvalidText).Some? {
      InvalidTextIsLetters();
      ParseDecimalShape(InvalidText);
    }
  }

  /** The code of a text is the code of its first token. */
  lemma EncodeDurationFirstToken(w: string, t: string, rest: string)
    requires AllSpace(w)
    requires t != [] && NoSpace(t)
    requires rest == [] || IsSpace(rest[0])
    ensures EncodeDuration(w + t + rest) == TokenCode(t)
  {
    var x := w + t + rest;
    FirstTokenOf(w, t, rest);
    if x == InvalidText {
      InvalidTextIsLetters();
      FirstTokenOf("", InvalidText, "");
      assert "" + InvalidText + "" == InvalidText;
      assert t == InvalidText;
      SentinelIsNotANumber();
    } else {
      assert EncodeDuration(x) == TokenCode(Split(x)[0]);
    }
  }

  /** A first token that is a decimal literal encodes to its integer digits,
      negated for a '-' sign: the fraction is truncated toward zero, leading
      whitespace is skipped and everything after the token is ignored. */
  lemma EncodeDurationDecimal(w: string, sign: Sign, ip: string, dot: bool, fp: string, rest: string)
    requires AllSpace(w)
    requires AllDigits(ip) && AllDigits(fp) && |ip| + |fp| > 0
    requires dot || fp == ""
    requires rest == [] || IsSpace(rest[0])
    ensures EncodeDuration(w + Literal(sign, ip, dot, fp) + rest)
            == if sign == Minus then -(DigitsValue(ip) as int) else DigitsValue(ip)
  {
    LiteralIsToken(sign, ip, dot, fp);
    EncodeDurationFirstToken(w, Literal(sign, ip, dot, fp), rest);
    TokenCodeOfLiteral(sign, ip, dot, fp);
  }

  /** A decimal literal holds no whitespace, so it is a whole token. */
  lemma LiteralIsToken(sign: Sign, ip: string, dot: bool, fp: string)
    requires AllDigits(ip) && AllDigits(fp) && |ip| + |fp| > 0
    requires dot || fp == ""
    ensures Literal(sign, ip, dot, fp) != [] && NoSpace(Literal(sign, ip, dot, fp))
  {
    var t := Literal(sign, ip, dot, fp);
    ParseDecimalOfParts(sign, ip, dot, fp);
    ParseDecimalShape(t);
    assert forall i :: 0 <= i < |t| ==> IsDigit(t[i]) || IsSign(t[i]) || t[i] == '.';
  }

  /** `int(float(t))` of a decimal literal is its signed integer digits. */
  lemma TokenCodeOfLiteral(sign: Sign, ip: string, dot: bool, fp: string)
    requires AllDigits(ip) && AllDigits(fp) && |ip| + |fp| > 0
    requires dot || fp == ""
    ensures TokenCode(Literal(sign, ip, dot, fp)) == if sign == Minus then -(DigitsValue(ip) as int) else DigitsValue(ip)
  {
    ParseDecimalOfParts(sign, ip, dot, fp);
    TruncateDecimal(Decimal(sign == Minus, DigitsValue(ip), DigitsValue(fp), |fp|));
  }

  /** A first token holding a character that is not a digit, a point or a
      leading sign ("abc", "inf", "nan", "six") encodes to -1. */
  lemma EncodeDurationNotNumber(w: string, t: string, rest: string, i: nat)
    requires AllSpace(w)
    requires t != [] && NoSpace(t)
    requires rest == [] || IsSpace(rest[0])
    requires i < |t| && !IsDigit(t[i]) && t[i] != '.' && !(i == 0 && IsSign(t[i]))
    ensures EncodeDuration(w + t + rest) == InvalidCode
  {
    EncodeDurationFirstToken(w, t, rest);
    if ParseDecimal(t).Some? {
      ParseDecimalShape(t);
    }
  }

  /** Only the first token matters: text after it is ignored. */
  lemma EncodeDurationIgnoresTail(t: string, rest: string)
    requires t != [] && NoSpace(t)
    requires rest == [] || IsSpace(rest[0])
    ensures EncodeDuration(t + rest) == EncodeDuration(t)
  {
    assert "" + t + rest == t + rest;
    assert "" + t + "" == t;
    EncodeDurationFirstToken("", t, rest);
    EncodeDurationFirstToken("", t, "");
  }

  /** "6 months" encodes to 6. */
  lemma EncodeDurationSixMonths()
    ensures EncodeDuration("6 months") == 6
  {
    assert "6 months" == "" + Literal(NoSign, "6", false, "") + " months";
    EncodeDurationDecimal("", NoSign, "6", false, "", " months");
  }

  /** "2.9 yrs" encodes to 2: the fraction is truncated. */
  lemma EncodeDurationTruncates()
    ensures EncodeDuration("2.9 yrs") == 2
  {
    assert "2.9 yrs" == "" + Literal(NoSign, "2", true, "9") + " yrs";
    EncodeDurationDecimal("", NoSign, "2", true, "9", " yrs");
  }

  /** "-1.5" encodes to -1: truncation is toward zero, not down. */
  lemma EncodeDurationNegative()
    ensures EncodeDuration("-1.5") == -1
  {
    assert "-1.5" == "" + Literal(Minus, "1", true, "5") + "";
    EncodeDurationDecimal("", Minus, "1", true, "5", "");
  }

  /** "abc" and the empty text encode to -1. */
  lemma EncodeDurationRejects()
    ensures EncodeDuration("abc") == InvalidCode
    ensures EncodeDuration("") == InvalidCode
  {
    assert "abc" == "" + "abc" + "";
    EncodeDurationNotNumber("", "abc", "", 0);
  }
}
