/** JSON value texts (RFC 8259): a declarative grammar, and the scalar reader the request decoder
    relies on, proved to agree with it. */
module Json {
  import opened Wrappers
  import opened Text

  /** A number literal in parts; an empty fraction means there is none. */
  datatype Numeral = Numeral(negative: bool, whole: string, fraction: string, exponent: Option<Exponent>)

  datatype Exponent = Exponent(mark: char, sign: string, digits: string)

  datatype Value =
    | Null
    | Bool(b: bool)
    | Number(n: Numeral)
    | String(text: string)
    | Array(elements: seq<Value>)
    | Object(names: seq<string>, members: seq<Value>)

  // ----- number literals, section 6

  predicate ExponentOK(e: Option<Exponent>) {
    e.Some? ==>
      && e.value.mark in "eE" && e.value.sign in ["", "+", "-"]
      && e.value.digits != [] && AllDigits(e.value.digits)
  }

  predicate WellFormed(n: Numeral) {
    && n.whole != [] && AllDigits(n.whole) && (n.whole[0] == '0' ==> |n.whole| == 1)
    && AllDigits(n.fraction)
    && ExponentOK(n.exponent)
  }

  function FractionText(fraction: string): string { if fraction == [] then "" else "." + fraction }

  function ExponentText(e: Option<Exponent>): string {
    if e.None? then "" else [e.value.mark] + e.value.sign + e.value.digits
  }

  function Literal(n: Numeral): string {
    (if n.negative then "-" else "") + n.whole + FractionText(n.fraction) + ExponentText(n.exponent)
  }

  // ----- strings, section 7

  function HexValue(c: char): Option<nat> {
    if '0' <= c <= '9' then Some(c as int - '0' as int)
    else if 'a' <= c <= 'f' then Some(c as int - 'a' as int + 10)
    else if 'A' <= c <= 'F' then Some(c as int - 'A' as int + 10)
    else None
  }

  /** The code unit a \uXXXX escape at the head of `s` denotes. */
  function CodeUnit(s: string): (r: Option<nat>)
    ensures r.Some? ==> |s| >= 6 && r.value < 0x10000
  {
    if |s| < 6 || s[0] != '\\' || s[1] != 'u' then None
    else
      match (HexValue(s[2]), HexValue(s[3]), HexValue(s[4]), HexValue(s[5]))
      case (Some(a), Some(b), Some(c), Some(d)) => Some(0x1000 * a + 0x100 * b + 0x10 * c + d)
      case _ => None
  }

  const REPLACEMENT: char := 0xFFFD as char

  function SimpleEscape(c: char): Option<char> {
    if c in "\"\\/" then Some(c)
    else if c == 'b' then Some(8 as char)
    else if c == 'f' then Some(12 as char)
    else if c == 'n' then Some('\n')
    else if c == 'r' then Some('\r')
    else if c == 't' then Some('\t')
    else None
  }

  /** The text between the quotes of a string, decoded; a surrogate without its partner becomes
      U+FFFD. */
  function Unescape(s: string): Option<string> {
    if s == [] then Some("")
    else if s[0] == '"' || s[0] as int < 0x20 then None
    else if s[0] != '\\' then Prepend(s[0], Unescape(s[1..]))
    else if |s| < 2 then None
    else if s[1] != 'u' then
      match SimpleEscape(s[1])
      case Some(c) => Prepend(c, Unescape(s[2..]))
      case None => None
    else
      match CodeUnit(s)
      case None => None
      case Some(u) =>
        if 0xD800 <= u < 0xDC00 then
          var low := CodeUnit(s[6..]);
          if low.Some? && 0xDC00 <= low.value < 0xE000 then
            Prepend((0x10000 + (u - 0xD800) * 0x400 + (low.value - 0xDC00)) as char, Unescape(s[12..]))
          else Prepend(REPLACEMENT, Unescape(s[6..]))
        else if 0xDC00 <= u < 0xE000 then Prepend(REPLACEMENT, Unescape(s[6..]))
        else Prepend(u as char, Unescape(s[6..]))
  }

  function Prepend(c: char, rest: Option<string>): Option<string> {
    match rest
    case Some(t) => Some([c] + t)
    case None => None
  }

  // ----- the grammar, sections 2 to 7

  predicate JsonBlank(s: string) { forall i :: 0 <= i < |s| ==> s[i] in " \t\n\r" }

  /** The blanks between tokens are the blank, the tab, the line feed and the carriage return. */
  lemma OneBlank(c: char)
    ensures JsonBlank([c]) <==> c as int in {0x20, 0x09, 0x0A, 0x0D}
  {
    assert JsonBlank([c]) <==> [c][0] in " \t\n\r";
  }

  /** `text` is a JSON value text for `v`: the value's own text between insignificant blanks. */
  ghost predicate Denotes(text: string, v: Value)
    decreases v, 2
  {
    exists i, j :: 0 <= i <= j <= |text| && DenotesAt(text, i, j, v)
  }

  ghost predicate DenotesAt(text: string, i: nat, j: nat, v: Value)
    requires i <= j <= |text|
    decreases v, 1
  {
    JsonBlank(text[..i]) && JsonBlank(text[j..]) && Body(text[i..j], v)
  }

  ghost predicate Quoted(body: string, text: string) {
    |body| >= 2 && body[0] == '"' && body[|body| - 1] == '"' && Unescape(body[1..|body| - 1]) == Some(text)
  }

  ghost predicate Body(body: string, v: Value)
    decreases v, 0
  {
    match v
    case Null => body == "null"
    case Bool(b) => body == if b then "true" else "false"
    case Number(n) => WellFormed(n) && body == Literal(n)
    case String(text) => Quoted(body, text)
    case Array(es) => |body| >= 2 && body[0] == '[' && body[|body| - 1] == ']' && Elements(body[1..|body| - 1], es)
    case Object(names, ms) =>
      |body| >= 2 && body[0] == '{' && body[|body| - 1] == '}' && Members(body[1..|body| - 1], names, ms)
  }

  ghost predicate Elements(s: string, es: seq<Value>)
    decreases es
  {
    if es == [] then JsonBlank(s)
    else if |es| == 1 then Denotes(s, es[0])
    else exists i :: 0 <= i < |s| && s[i] == ',' && Denotes(s[..i], es[0]) && Elements(s[i + 1..], es[1..])
  }

  ghost predicate Member(s: string, name: string, v: Value)
    decreases v, 3
  {
    exists i :: 0 <= i < |s| && s[i] == ':' && Denotes(s[i + 1..], v)
      && exists a, b :: 0 <= a <= b <= i && JsonBlank(s[..a]) && JsonBlank(s[b..i]) && Quoted(s[a..b], name)
  }

  ghost predicate Members(s: string, names: seq<string>, ms: seq<Value>)
    decreases ms
  {
    if |names| != |ms| then false
    else if ms == [] then JsonBlank(s)
    else if |ms| == 1 then Member(s, names[0], ms[0])
    else
      exists i :: 0 <= i < |s| && s[i] == ','
        && Member(s[..i], names[0], ms[0]) && Members(s[i + 1..], names[1..], ms[1..])
  }

  // ----- the reader

  /** How many digits `s` starts with. */
  function DigitRun(s: string): (n: nat)
    ensures n <= |s| && AllDigits(s[..n]) && (n < |s| ==> !IsDigit(s[n]))
  {
    if s != [] && IsDigit(s[0]) then 1 + DigitRun(s[1..]) else 0
  }

  function ReadExponent(s: string): Option<Option<Exponent>> {
    if s == [] then Some(None)
    else if s[0] !in "eE" then None
    else
      var sign := if |s| > 1 && s[1] in "+-" then s[1..2] else "";
      var digits := s[1 + |sign|..];
      if digits != [] && DigitRun(digits) == |digits| then Some(Some(Exponent(s[0], sign, digits))) else None
  }

  function ReadNumeral(s: string): Option<Numeral> {
    var negative := s != [] && s[0] == '-';
    var t := if negative then s[1..] else s;
    ReadUnsigned(negative, t)
  }

  function ReadUnsigned(negative: bool, t: string): Option<Numeral> {
    var w := DigitRun(t);
    if w == 0 || (t[0] == '0' && w > 1) then None else ReadTail(negative, t[..w], t[w..])
  }

  /** The fraction and exponent after the integer part. */
  function ReadTail(negative: bool, whole: string, u: string): Option<Numeral> {
    var f := if u != [] && u[0] == '.' then DigitRun(u[1..]) else 0;
    if u != [] && u[0] == '.' && f == 0 then None
    else
      match ReadExponent(if f > 0 then u[1 + f..] else u)
      case None => None
      case Some(e) => Some(Numeral(negative, whole, if f > 0 then u[1..1 + f] else "", e))
  }

  /** Reads a trimmed scalar text; arrays, objects and malformed texts yield None. */
  function ReadScalar(s: string): Option<Value> {
    if s == "null" then Some(Null)
    else if s == "true" then Some(Bool(true))
    else if s == "false" then Some(Bool(false))
    else if |s| >= 2 && s[0] == '"' && s[|s| - 1] == '"' then
      match Unescape(s[1..|s| - 1])
      case Some(t) => Some(String(t))
      case None => None
    else
      match ReadNumeral(s)
      case Some(n) => Some(Number(n))
      case None => None
  }

  // ----- the reader agrees with the grammar

  lemma {:induction false} DigitRunStops(digits: string, rest: string)
    requires AllDigits(digits) && (rest == [] || !IsDigit(rest[0]))
    ensures DigitRun(digits + rest) == |digits|
  {
    if digits == [] {
      assert digits + rest == rest;
    } else {
      assert (digits + rest)[1..] == digits[1..] + rest;
      DigitRunStops(digits[1..], rest);
    }
  }

  lemma ExponentRead(e: Option<Exponent>)
    requires ExponentOK(e)
    ensures ReadExponent(ExponentText(e)) == Some(e)
  {
    if e.Some? {
      var s, x := ExponentText(e), e.value;
      assert s[1..] == x.sign + x.digits;
      if x.sign != "" {
        assert s[1] == x.sign[0];
        assert s[1..2] == x.sign;
      }
      assert s[1 + |x.sign|..] == x.digits;
      DigitRunStops(x.digits, "");
      assert x.digits + "" == x.digits;
    }
  }

  lemma TailRead(n: Numeral, u: string)
    requires WellFormed(n) && u == FractionText(n.fraction) + ExponentText(n.exponent)
    ensures ReadTail(n.negative, n.whole, u) == Some(n)
  {
    ExponentRead(n.exponent);
    if n.fraction == [] {
      assert u == ExponentText(n.exponent);
    } else {
      FractionRead(n.fraction, ExponentText(n.exponent));
    }
  }

  lemma FractionRead(fraction: string, rest: string)
    requires fraction != [] && AllDigits(fraction) && (rest == [] || !IsDigit(rest[0]))
    ensures var u := FractionText(fraction) + rest;
            && u[0] == '.' && DigitRun(u[1..]) == |fraction|
            && u[1..1 + |fraction|] == fraction && u[1 + |fraction|..] == rest
  {
    assert (FractionText(fraction) + rest)[1..] == fraction + rest;
    DigitRunStops(fraction, rest);
  }

  lemma UnsignedRead(n: Numeral, u: string)
    requires WellFormed(n) && u == FractionText(n.fraction) + ExponentText(n.exponent)
    ensures ReadUnsigned(n.negative, n.whole + u) == Some(n)
  {
    TailStart(n, u);
    DigitRunStops(n.whole, u);
    TailRead(n, u);
  }

  lemma SignRead(negative: bool, t: string)
    requires t != [] && t[0] != '-'
    ensures ReadNumeral((if negative then "-" else "") + t) == ReadUnsigned(negative, t)
  {
    assert "-" + t != [] && ("-" + t)[1..] == t;
    assert "" + t == t;
  }

  /** Reading a literal gives back its parts, so a literal has only one reading. */
  lemma NumeralRead(n: Numeral)
    requires WellFormed(n)
    ensures ReadNumeral(Literal(n)) == Some(n)
  {
    var u := FractionText(n.fraction) + ExponentText(n.exponent);
    var sign := if n.negative then "-" else "";
    assert Literal(n) == sign + (n.whole + u);
    assert (n.whole + u)[0] == n.whole[0];
    SignRead(n.negative, n.whole + u);
    UnsignedRead(n, u);
  }

  lemma TailStart(n: Numeral, u: string)
    requires WellFormed(n) && u == FractionText(n.fraction) + ExponentText(n.exponent)
    ensures u == [] || !IsDigit(u[0])
  {}

  predicate Scalar(v: Value) { !v.Array? && !v.Object? }

  /** The first character of a value's own text tells its kind, and the text has no outer blanks. */
  lemma BodyShape(body: string, v: Value)
    requires Body(body, v)
    ensures Tight(body)
    ensures v.Array? <==> body[0] == '['
    ensures v.Object? <==> body[0] == '{'
    ensures v.String? <==> body[0] == '"'
    ensures v.Number? <==> (body[0] == '-' || IsDigit(body[0]))
    ensures v.Null? <==> body == "null"
  {
    if v.Number? { LiteralEnds(v.n); }
  }

  lemma LiteralEnds(n: Numeral)
    requires WellFormed(n)
    ensures var s := Literal(n); s != [] && (s[0] == '-' || IsDigit(s[0])) && IsDigit(s[|s| - 1])
  {
    var s := Literal(n);
    if n.exponent.Some? {
      assert s[|s| - 1] == n.exponent.value.digits[|n.exponent.value.digits| - 1];
    } else if n.fraction != [] {
      assert s[|s| - 1] == n.fraction[|n.fraction| - 1];
    } else {
      assert s[|s| - 1] == n.whole[|n.whole| - 1];
    }
  }

  /** On scalar texts the reader returns exactly the value the grammar assigns. */
  lemma ScalarRead(body: string, v: Value)
    requires Body(body, v) && Scalar(v)
    ensures ReadScalar(body) == Some(v)
  {
    BodyShape(body, v);
    if v.Number? { NumeralRead(v.n); }
  }

  // ----- and reads nothing else

  lemma ExponentReadBack(s: string)
    requires ReadExponent(s).Some?
    ensures ExponentText(ReadExponent(s).value) == s && ExponentOK(ReadExponent(s).value)
  {
    if s != [] {
      var sign := if |s| > 1 && s[1] in "+-" then s[1..2] else "";
      var digits := s[1 + |sign|..];
      assert s == [s[0]] + sign + digits;
      assert sign == "" || sign == [s[1]];
      assert sign in ["", "+", "-"];
      assert digits[..|digits|] == digits;
    }
  }

  lemma FractionReadBack(u: string)
    requires u != [] && u[0] == '.' && DigitRun(u[1..]) > 0
    ensures var f := DigitRun(u[1..]);
            AllDigits(u[1..1 + f]) && FractionText(u[1..1 + f]) + u[1 + f..] == u
  {
    var f := DigitRun(u[1..]);
    assert u[1..][..f] == u[1..1 + f];
    assert "." + u[1..1 + f] + u[1 + f..] == u;
  }

  lemma TailReadBack(negative: bool, whole: string, u: string)
    requires ReadTail(negative, whole, u).Some?
    ensures var n := ReadTail(negative, whole, u).value;
            && n.negative == negative && n.whole == whole
            && AllDigits(n.fraction) && ExponentOK(n.exponent)
            && FractionText(n.fraction) + ExponentText(n.exponent) == u
  {
    if u != [] && u[0] == '.' {
      FractionReadBack(u);
      ExponentReadBack(u[1 + DigitRun(u[1..])..]);
    } else {
      ExponentReadBack(u);
    }
  }

  lemma UnsignedReadBack(negative: bool, t: string)
    requires ReadUnsigned(negative, t).Some?
    ensures var n := ReadUnsigned(negative, t).value;
            && WellFormed(n) && n.negative == negative
            && |n.whole| <= |t| && n.whole == t[..|n.whole|]
            && FractionText(n.fraction) + ExponentText(n.exponent) == t[|n.whole|..]
  {
    var w := DigitRun(t);
    assert t[..w][0] == t[0];
    TailReadBack(negative, t[..w], t[w..]);
  }

  lemma Rejoined(sign: string, whole: string, rest: string, t: string)
    requires |whole| <= |t| && whole == t[..|whole|] && rest == t[|whole|..]
    ensures sign + (whole + rest) == sign + t
  {
    assert whole + rest == t;
  }

  lemma SignSplit(s: string)
    requires s != [] && s[0] == '-'
    ensures "-" + s[1..] == s
  {}

  /** Whatever the number reader accepts is a number literal, the one whose parts it returns. */
  lemma NumeralReadBack(s: string)
    requires ReadNumeral(s).Some?
    ensures WellFormed(ReadNumeral(s).value) && Literal(ReadNumeral(s).value) == s
  {
    var negative := s != [] && s[0] == '-';
    var t := if negative then s[1..] else s;
    var n := ReadNumeral(s).value;
    UnsignedReadBack(negative, t);
    LiteralSplits(n);
    Rejoined(if negative then "-" else "", n.whole, t[|n.whole|..], t);
    if negative { SignSplit(s); } else { assert "" + s == s; }
  }

  lemma LiteralSplits(n: Numeral)
    ensures Literal(n)
         == (if n.negative then "-" else "") + (n.whole + (FractionText(n.fraction) + ExponentText(n.exponent)))
  {}

  lemma ReaderSound(body: string)
    requires ReadScalar(body).Some?
    ensures Body(body, ReadScalar(body).value) && Scalar(ReadScalar(body).value)
  {
    if ReadScalar(body).value.Number? { NumeralReadBack(body); }
  }

  /** The reader is exact: it returns a value for a text exactly when the grammar assigns that scalar
      value to it. */
  lemma ReaderExact(body: string, v: Value)
    ensures ReadScalar(body) == Some(v) <==> Body(body, v) && Scalar(v)
  {
    if ReadScalar(body) == Some(v) {
      ReaderSound(body);
    } else if Body(body, v) && Scalar(v) {
      ScalarRead(body, v);
    }
  }

  // ----- strings as they are written

  function HexDigit(n: nat): char
    requires n < 16
  {
    if n < 10 then ('0' as int + n) as char else ('a' as int + n - 10) as char
  }

  function Hex4(u: nat): string
    requires u < 0x10000
  {
    [HexDigit(u / 16 / 16 / 16), HexDigit(u / 16 / 16 % 16), HexDigit(u / 16 % 16), HexDigit(u % 16)]
  }

  function UnitEscape(u: nat): string
    requires u < 0x10000
  {
    ['\\', 'u'] + Hex4(u)
  }

  /** One character between quotes: escaped when it has to be. */
  function EscapeChar(c: char): string {
    if c == '"' || c == '\\' then ['\\', c] else if c as int < 0x20 then UnitEscape(c as int) else [c]
  }

  function Escape(t: string): string {
    if t == [] then "" else EscapeChar(t[0]) + Escape(t[1..])
  }

  /** The surrogates of a character above U+FFFF. */
  function High(c: char): (u: nat)
    requires c as int >= 0x10000
    ensures 0xD800 <= u < 0xDC00
  {
    0xD800 + (c as int - 0x10000) / 0x400
  }

  function Low(c: char): (u: nat)
    requires c as int >= 0x10000
    ensures 0xDC00 <= u < 0xE000
  {
    0xDC00 + (c as int - 0x10000) % 0x400
  }

  /** The same with every character as a code unit, or as a surrogate pair above U+FFFF. */
  function UnicodeEscape(c: char): string {
    if c as int < 0x10000 then UnitEscape(c as int) else UnitEscape(High(c)) + UnitEscape(Low(c))
  }

  function EscapeAll(t: string): string {
    if t == [] then "" else UnicodeEscape(t[0]) + EscapeAll(t[1..])
  }

  lemma HexRead(n: nat)
    requires n < 16
    ensures HexValue(HexDigit(n)) == Some(n)
  {}

  /** Upper-case hexadecimal digits read the same. */
  lemma UpperHexRead(c: char)
    requires 'a' <= c <= 'f'
    ensures HexValue((c as int - 0x20) as char) == HexValue(c) && HexValue(c).Some?
  {}

  lemma HexSum(u: nat)
    requires u < 0x10000
    ensures 0x1000 * (u / 16 / 16 / 16) + 0x100 * (u / 16 / 16 % 16) + 0x10 * (u / 16 % 16) + u % 16 == u
  {
    var p := u / 16;
    var q := p / 16;
    assert u == 16 * p + u % 16 && p == 16 * q + p % 16 && q == 16 * (q / 16) + q % 16;
  }

  lemma FourDigits(a: char, b: char, c: char, d: char, rest: string)
    ensures var s := ['\\', 'u'] + [a, b, c, d] + rest;
            && |s| >= 6 && s[0] == '\\' && s[1] == 'u' && s[2] == a && s[3] == b && s[4] == c && s[5] == d
            && s[6..] == rest
  {}

  lemma CodeUnitRead(u: nat, rest: string)
    requires u < 0x10000
    ensures CodeUnit(UnitEscape(u) + rest) == Some(u) && (UnitEscape(u) + rest)[6..] == rest
  {
    var a, b, c, d := u / 16 / 16 / 16, u / 16 / 16 % 16, u / 16 % 16, u % 16;
    HexRead(a);
    HexRead(b);
    HexRead(c);
    HexRead(d);
    HexSum(u);
    FourDigits(HexDigit(a), HexDigit(b), HexDigit(c), HexDigit(d), rest);
  }

  /** A code unit escape outside the surrogates denotes its character. */
  lemma UnitDenotes(u: nat, rest: string)
    requires u < 0xD800 || 0xE000 <= u < 0x10000
    ensures Unescape(UnitEscape(u) + rest) == Prepend(u as char, Unescape(rest))
  {
    CodeUnitRead(u, rest);
  }

  lemma TwoUnits(high: nat, low: nat, rest: string)
    requires 0xD800 <= high < 0xDC00 && 0xDC00 <= low < 0xE000
    ensures Unescape(UnitEscape(high) + (UnitEscape(low) + rest))
         == Prepend((0x10000 + (high - 0xD800) * 0x400 + (low - 0xDC00)) as char, Unescape(rest))
  {
    CodeUnitRead(high, UnitEscape(low) + rest);
    CodeUnitRead(low, rest);
    TailOfTail(UnitEscape(high), UnitEscape(low), rest);
  }

  lemma TailOfTail(a: string, b: string, rest: string)
    requires |a| == |b| == 6
    ensures (a + (b + rest))[6..] == b + rest && (a + (b + rest))[12..] == rest
  {}

  lemma PairSum(c: char)
    requires c as int >= 0x10000
    ensures 0x10000 + (High(c) - 0xD800) * 0x400 + (Low(c) - 0xDC00) == c as int
  {}

  lemma Reassociated(a: string, b: string, c: string)
    ensures a + b + c == a + (b + c)
  {}

  /** A surrogate pair denotes the character above U+FFFF it encodes. */
  lemma PairDenotes(c: char, rest: string)
    requires c as int >= 0x10000
    ensures Unescape(UnicodeEscape(c) + rest) == Prepend(c, Unescape(rest))
  {
    PairSum(c);
    PairRead(c, High(c), Low(c), rest);
  }

  lemma PairRead(c: char, high: nat, low: nat, rest: string)
    requires 0xD800 <= high < 0xDC00 && 0xDC00 <= low < 0xE000
    requires 0x10000 + (high - 0xD800) * 0x400 + (low - 0xDC00) == c as int
    ensures Unescape(UnitEscape(high) + UnitEscape(low) + rest) == Prepend(c, Unescape(rest))
  {
    Reassociated(UnitEscape(high), UnitEscape(low), rest);
    TwoUnits(high, low, rest);
  }

  /** A surrogate without its partner denotes U+FFFD, and what follows is read by itself. */
  lemma LoneSurrogate(u: nat, rest: string)
    requires 0xD800 <= u < 0xE000
    requires u < 0xDC00 ==> CodeUnit(rest).None? || !(0xDC00 <= CodeUnit(rest).value < 0xE000)
    ensures Unescape(UnitEscape(u) + rest) == Prepend(0xFFFD as char, Unescape(rest))
  {
    CodeUnitRead(u, rest);
  }

  /** What each two-character escape denotes. */
  lemma SimpleDenotes(e: char, rest: string)
    requires e in "\"\\/bfnrt"
    ensures var c := if e == 'b' then 8 else if e == 'f' then 12 else if e == 'n' then 10
                     else if e == 'r' then 13 else if e == 't' then 9 else e as int;
            Unescape(['\\', e] + rest) == Prepend(c as char, Unescape(rest))
  {
    assert (['\\', e] + rest)[2..] == rest;
  }

  /** A character that need not be escaped denotes itself. */
  lemma PlainDenotes(c: char, rest: string)
    requires c != '"' && c != '\\' && c as int >= 0x20
    ensures Unescape([c] + rest) == Prepend(c, Unescape(rest))
  {
    assert ([c] + rest)[1..] == rest;
  }

  /** A bare quote, a control character, a backslash at the end and an unknown escape are errors. */
  lemma NotAString(c: char, rest: string)
    requires c == '"' || c as int < 0x20
    ensures Unescape([c] + rest) == None && Unescape("\\") == None
    ensures forall e :: e !in "\"\\/bfnrtu" ==> Unescape(['\\', e] + rest) == None
  {}

  /** Every text is denoted by its escaped form. */
  lemma {:induction false} EscapeRoundTrip(t: string)
    ensures Unescape(Escape(t)) == Some(t)
  {
    if t != [] {
      var c, rest := t[0], Escape(t[1..]);
      EscapeRoundTrip(t[1..]);
      if c == '"' || c == '\\' {
        SimpleDenotes(c, rest);
      } else if c as int < 0x20 {
        UnitDenotes(c as int, rest);
      } else {
        PlainDenotes(c, rest);
      }
      assert t == [c] + t[1..];
    }
  }

  /** A text without quotes, backslashes and control characters denotes itself. */
  lemma {:induction false} PlainText(t: string)
    requires forall i :: 0 <= i < |t| ==> t[i] != '"' && t[i] != '\\' && t[i] as int >= 0x20
    ensures Unescape(t) == Some(t)
  {
    if t != [] {
      PlainText(t[1..]);
      assert t == [t[0]] + t[1..];
      PlainDenotes(t[0], t[1..]);
    }
  }

  /** So does the form in which every character is a code unit or a surrogate pair. */
  lemma {:induction false} EscapeAllRoundTrip(t: string)
    ensures Unescape(EscapeAll(t)) == Some(t)
  {
    if t != [] {
      EscapeAllRoundTrip(t[1..]);
      if t[0] as int < 0x10000 {
        UnitDenotes(t[0] as int, EscapeAll(t[1..]));
      } else {
        PairDenotes(t[0], EscapeAll(t[1..]));
      }
      assert t == [t[0]] + t[1..];
    }
  }

  // ----- values as they are written

  function Quote(t: string): string { ['"'] + Escape(t) + ['"'] }

  predicate Encodable(v: Value)
    decreases v
  {
    match v
    case Number(n) => WellFormed(n)
    case Array(es) => forall e :: e in es ==> Encodable(e)
    case Object(names, ms) => |names| == |ms| && forall m :: m in ms ==> Encodable(m)
    case _ => true
  }

  function Encode(v: Value): string
    requires Encodable(v)
    decreases v, 1
  {
    match v
    case Null => "null"
    case Bool(b) => if b then "true" else "false"
    case Number(n) => Literal(n)
    case String(t) => Quote(t)
    case Array(es) => "[" + EncodeElements(es) + "]"
    case Object(names, ms) => "{" + EncodeMembers(names, ms) + "}"
  }

  function EncodeElements(es: seq<Value>): string
    requires forall e :: e in es ==> Encodable(e)
    decreases es, 0
  {
    if es == [] then "" else if |es| == 1 then Encode(es[0]) else Encode(es[0]) + "," + EncodeElements(es[1..])
  }

  function EncodeMembers(names: seq<string>, ms: seq<Value>): string
    requires |names| == |ms| && forall m :: m in ms ==> Encodable(m)
    decreases ms, 0
  {
    if ms == [] then ""
    else
      var first := Quote(names[0]) + ":" + Encode(ms[0]);
      if |ms| == 1 then first else first + "," + EncodeMembers(names[1..], ms[1..])
  }

  lemma Unquoted(t: string)
    ensures Quoted(Quote(t), t)
  {
    EscapeRoundTrip(t);
    assert Quote(t)[1..|Quote(t)| - 1] == Escape(t);
  }

  lemma Inside(open: char, inner: string, close: char)
    ensures var s := [open] + inner + [close];
            |s| >= 2 && s[0] == open && s[|s| - 1] == close && s[1..|s| - 1] == inner
  {}

  lemma BodyDenotes(lead: string, text: string, trail: string, v: Value)
    requires JsonBlank(lead) && Body(text, v) && JsonBlank(trail)
    ensures Denotes(lead + text + trail, v)
  {
    var whole, i, j := lead + text + trail, |lead|, |lead| + |text|;
    assert whole[..i] == lead && whole[i..j] == text && whole[j..] == trail;
    assert DenotesAt(whole, i, j, v);
  }

  lemma Denoted(text: string, v: Value)
    requires Body(text, v)
    ensures Denotes(text, v)
  {
    BodyDenotes("", text, "", v);
    assert "" + text + "" == text;
  }

  /** Every value is denoted by its encoding, so the grammar leaves no value out. */
  lemma {:induction false} EncodeDenotes(v: Value)
    requires Encodable(v)
    ensures Body(Encode(v), v) && Denotes(Encode(v), v)
    decreases v, 1
  {
    match v {
      case String(t) => Unquoted(t);
      case Array(es) =>
        ElementsEncoded(es);
        Inside('[', EncodeElements(es), ']');
      case Object(names, ms) =>
        MembersEncoded(names, ms);
        Inside('{', EncodeMembers(names, ms), '}');
      case _ =>
    }
    Denoted(Encode(v), v);
  }

  lemma {:induction false} ElementsEncoded(es: seq<Value>)
    requires forall e :: e in es ==> Encodable(e)
    ensures Elements(EncodeElements(es), es)
    decreases es, 0
  {
    if es != [] {
      EncodeDenotes(es[0]);
      if |es| > 1 {
        ElementsEncoded(es[1..]);
        ElementsJoined(Encode(es[0]), EncodeElements(es[1..]), es);
      }
    }
  }

  lemma ElementsJoined(first: string, rest: string, es: seq<Value>)
    requires |es| > 1 && Denotes(first, es[0]) && Elements(rest, es[1..])
    ensures Elements(first + "," + rest, es)
  {
    var s, i := first + "," + rest, |first|;
    assert s[i] == ',' && s[..i] == first && s[i + 1..] == rest;
  }

  lemma MemberEncoded(name: string, text: string, v: Value)
    requires Denotes(text, v)
    ensures Member(Quote(name) + ":" + text, name, v)
  {
    var q := Quote(name);
    var s, i := q + ":" + text, |q|;
    Unquoted(name);
    assert s[i] == ':' && s[i + 1..] == text && s[0..i] == q && s[..0] == "" && s[i..i] == "";
  }

  lemma {:induction false} MembersEncoded(names: seq<string>, ms: seq<Value>)
    requires |names| == |ms| && forall m :: m in ms ==> Encodable(m)
    ensures Members(EncodeMembers(names, ms), names, ms)
    decreases ms, 0
  {
    if ms != [] {
      EncodeDenotes(ms[0]);
      MemberEncoded(names[0], Encode(ms[0]), ms[0]);
      if |ms| > 1 {
        MembersEncoded(names[1..], ms[1..]);
        MembersJoined(Quote(names[0]) + ":" + Encode(ms[0]), EncodeMembers(names[1..], ms[1..]), names, ms);
      }
    }
  }

  lemma MembersJoined(first: string, rest: string, names: seq<string>, ms: seq<Value>)
    requires |names| == |ms| > 1 && Member(first, names[0], ms[0]) && Members(rest, names[1..], ms[1..])
    ensures Members(first + "," + rest, names, ms)
  {
    var s, i := first + "," + rest, |first|;
    assert s[i] == ',' && s[..i] == first && s[i + 1..] == rest;
  }
}
