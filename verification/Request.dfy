/** Decoding the request: the evaluation context from raw JSON property texts. */
module Request {
  import opened Wrappers
  import opened Text
  import Json
  import Metrics
  import opened Ofrep

  const TARGETING_KEY := "targetingKey"

  const INT64_MIN: int := -0x8000_0000_0000_0000
  const INT64_MAX: int := 0x7FFF_FFFF_FFFF_FFFF

  datatype Limits = Limits(maxAttributes: nat, maxStringBytes: nat)

  /** A property of the evaluation context. `Float(near)` is the float64 nearest to `near`. */
  datatype Attribute = Nil | AText(s: string) | ATruth(b: bool) | Int(i: int) | Float(near: real)

  /** The request body after the JSON reader: too large, not JSON, or named raw value texts. */
  datatype RequestBody = Oversized | Malformed(message: string) | Context(properties: map<string, string>)

  datatype Request = Request(key: string, keyIsUtf8: bool, body: RequestBody)

  datatype EvaluationContext = EvaluationContext(targetingKey: string, attributes: map<string, Attribute>)

  // ----- numbers

  function Pow(base: nat, n: nat): nat { if n == 0 then 1 else base * Pow(base, n - 1) }

  /** 10 to the power `e`. */
  function Scale(e: int): (r: real)
    ensures r > 0.0
    decreases if e < 0 then -e else e
  {
    if e == 0 then 1.0 else if e > 0 then 10.0 * Scale(e - 1) else Scale(e + 1) / 10.0
  }

  /** A numeral with its decimal point moved. */
  function Shifted(digits: nat, places: int): real { digits as real * Scale(places) }

  /** The exact value of a number literal. */
  function ExactValue(n: Json.Numeral): real
    requires Json.WellFormed(n)
  {
    var magnitude := Shifted(NatOf(n.whole + n.fraction), ExponentValue(n.exponent) - |n.fraction|);
    if n.negative then -magnitude else magnitude
  }

  function ExponentValue(e: Option<Json.Exponent>): int
    requires e.Some? ==> AllDigits(e.value.digits)
  {
    if e.None? then 0 else if e.value.sign == "-" then -(NatOf(e.value.digits) as int) else NatOf(e.value.digits)
  }

  /** The magnitude from which rounding to the nearest float64 overflows. */
  function Overflow(): int { Pow(2, 1024) - Pow(2, 970) }

  /** strconv.ParseInt in base 10 for 64 bits: an optional sign, digits, and a value in range. */
  function ParseInt(s: string): Option<int> {
    var signed := s != [] && s[0] in "+-";
    ParseDigits(signed && s[0] == '-', if signed then s[1..] else s)
  }

  function ParseDigits(negative: bool, digits: string): Option<int> {
    if digits == [] || Json.DigitRun(digits) != |digits| then None
    else
      var magnitude := NatOf(digits[..Json.DigitRun(digits)]);
      var i := if negative then -(magnitude as int) else magnitude;
      if INT64_MIN <= i <= INT64_MAX then Some(i) else None
  }

  /** strconv.ParseFloat on a JSON literal: an error when the literal overflows. */
  function ParseFloat(s: string): Option<real> {
    match Json.ReadNumeral(s)
    case None => None
    case Some(n) =>
      Json.NumeralReadBack(s);
      var x := ExactValue(n);
      if -(Overflow() as real) < x < Overflow() as real then Some(x) else None
  }

  predicate ContainsAny(s: string, chars: string) { exists i :: 0 <= i < |s| && s[i] in chars }

  function DecodeNumber(literal: string): Result<Attribute, Rejection> {
    if !ContainsAny(literal, ".eE") && ParseInt(literal).Some? then Success(Int(ParseInt(literal).value))
    else
      match ParseFloat(literal)
      case Some(x) => Success(Float(x))
      case None => Failure(NotRepresentable)
  }

  // ----- attributes

  predicate IsJsonNull(raw: string) { raw == [] || TrimSpace(raw) == "null" }

  function WithinLimit(s: string, limits: Limits): Result<Attribute, Rejection> {
    if ByteLength(s) > limits.maxStringBytes then Failure(TooLong(ByteLength(s), limits.maxStringBytes))
    else Success(AText(s))
  }

  /** One property: classified by the prefix of its text, and read only when it is a scalar. */
  function DecodeAttribute(raw: string, limits: Limits): Result<Attribute, Rejection> {
    var trimmed := TrimSpace(raw);
    if IsJsonNull(raw) then Success(Nil)
    else if HasPrefix(trimmed, "{") then Failure(IsObject)
    else if HasPrefix(trimmed, "[") then Failure(IsArray)
    else
      match Json.ReadScalar(trimmed)
      case None => Failure(NotJson)
      case Some(String(s)) => WithinLimit(s, limits)
      case Some(Bool(b)) => Success(ATruth(b))
      case Some(Number(n)) => DecodeNumber(Json.Literal(n))
      case Some(_) => Failure(Unsupported)
  }

  function DecodeTargetingKey(raw: string): Result<Attribute, Rejection> {
    if IsJsonNull(raw) then Success(Nil)
    else
      match Json.ReadScalar(TrimSpace(raw))
      case Some(String(s)) => Success(AText(s))
      case _ => Failure(NotAString)
  }

  /** One property under its name; the targeting key is a bounded string or null. */
  function Accept(name: string, raw: string, limits: Limits): Result<Attribute, Rejection> {
    if name == TARGETING_KEY then
      match DecodeTargetingKey(raw)
      case Success(AText(s)) => WithinLimit(s, limits)
      case other => other
    else DecodeAttribute(raw, limits)
  }

  // ----- what a property's text means

  function NumberMeaning(n: Json.Numeral): Result<Attribute, Rejection>
    requires Json.WellFormed(n)
  {
    var x := ExactValue(n);
    if n.fraction == [] && n.exponent.None? && INT64_MIN as real <= x <= INT64_MAX as real then Success(Int(x.Floor))
    else if -(Overflow() as real) < x < Overflow() as real then Success(Float(x))
    else Failure(NotRepresentable)
  }

  /** The attribute a JSON value stands for: null, a truth value, a string within the limit, or a
      representable number; nothing else is accepted. */
  function Meaning(v: Json.Value, limits: Limits): Result<Attribute, Rejection>
    requires v.Number? ==> Json.WellFormed(v.n)
  {
    match v
    case Null => Success(Nil)
    case Bool(b) => Success(ATruth(b))
    case String(s) => WithinLimit(s, limits)
    case Number(n) => NumberMeaning(n)
    case Array(_) => Failure(IsArray)
    case Object(_, _) => Failure(IsObject)
  }

  lemma BlankText(s: string)
    requires Json.JsonBlank(s)
    ensures Blank(s)
  {
    forall i | 0 <= i < |s| ensures IsSpace(s[i]) {
      assert s[i] in " \t\n\r";
    }
  }

  /** Trimming a value text leaves the value's own text. */
  lemma Trimmed(raw: string, v: Json.Value) returns (body: string)
    requires Json.Denotes(raw, v)
    ensures body == TrimSpace(raw) && Json.Body(body, v) && raw != []
  {
    var i: nat, j: nat :| i <= j <= |raw| && Json.DenotesAt(raw, i, j, v);
    body := raw[i..j];
    Json.BodyShape(body, v);
    BlankText(raw[..i]);
    BlankText(raw[j..]);
    TrimmedBetween(raw, i, j);
  }

  lemma TrimmedBetween(raw: string, i: nat, j: nat)
    requires i <= j <= |raw| && Blank(raw[..i]) && Tight(raw[i..j]) && Blank(raw[j..])
    ensures TrimSpace(raw) == raw[i..j]
  {
    assert raw == raw[..i] + raw[i..j] + raw[j..];
    TrimSurrounded(raw[..i], raw[i..j], raw[j..]);
  }

  /** The prefix classification refines a full reading: on every JSON value text the decoder
      returns exactly the attribute the value stands for. */
  lemma ClassificationRefines(raw: string, v: Json.Value, limits: Limits)
    requires Json.Denotes(raw, v) && (v.Number? ==> Json.WellFormed(v.n))
    ensures DecodeAttribute(raw, limits) == Meaning(v, limits)
  {
    var body := Trimmed(raw, v);
    Json.BodyShape(body, v);
    assert HasPrefix(body, "{") <==> body[0] == '{';
    assert HasPrefix(body, "[") <==> body[0] == '[';
    if Json.Scalar(v) {
      Json.ScalarRead(body, v);
      if v.Number? { NumberRefines(v.n); }
    }
  }

  /** A targeting key is accepted exactly when it is null or a string within the limit. */
  lemma TargetingKeyRefines(raw: string, v: Json.Value, limits: Limits)
    requires Json.Denotes(raw, v)
    ensures Accept(TARGETING_KEY, raw, limits).Success?
       <==> v.Null? || (v.String? && ByteLength(v.text) <= limits.maxStringBytes)
    ensures v.Null? ==> Accept(TARGETING_KEY, raw, limits) == Success(Nil)
    ensures v.String? && ByteLength(v.text) <= limits.maxStringBytes ==>
              Accept(TARGETING_KEY, raw, limits) == Success(AText(v.text))
  {
    var body := Trimmed(raw, v);
    Json.BodyShape(body, v);
    if Json.Scalar(v) {
      Json.ScalarRead(body, v);
    } else if Json.ReadScalar(body).Some? {
      ReaderSkipsContainers(body);
    }
  }

  lemma ReaderSkipsContainers(body: string)
    requires body != [] && (body[0] == '[' || body[0] == '{')
    ensures Json.ReadScalar(body).None?
  {}

  lemma {:induction false} LiteralMarks(n: Json.Numeral)
    requires Json.WellFormed(n)
    ensures ContainsAny(Json.Literal(n), ".eE") <==> n.fraction != [] || n.exponent.Some?
  {
    var s := Json.Literal(n);
    var head := (if n.negative then "-" else "") + n.whole;
    if n.fraction != [] {
      assert s[|head|] == '.';
    } else if n.exponent.Some? {
      assert s[|head|] == n.exponent.value.mark;
    } else {
      assert s == head;
    }
  }

  lemma NumberRefines(n: Json.Numeral)
    requires Json.WellFormed(n)
    ensures DecodeNumber(Json.Literal(n)) == NumberMeaning(n)
  {
    LiteralMarks(n);
    Json.NumeralRead(n);
    if n.fraction == [] && n.exponent.None? {
      IntegerParsed(n);
      IntegerExact(n);
    }
  }

  function IntegerValue(n: Json.Numeral): int
    requires Json.WellFormed(n)
  {
    if n.negative then -(NatOf(n.whole) as int) else NatOf(n.whole)
  }

  lemma IntegerExact(n: Json.Numeral)
    requires Json.WellFormed(n) && n.fraction == [] && n.exponent.None?
    ensures ExactValue(n) == IntegerValue(n) as real
    ensures ExactValue(n).Floor == IntegerValue(n)
  {
    assert n.whole + n.fraction == n.whole;
  }

  lemma IntegerParsed(n: Json.Numeral)
    requires Json.WellFormed(n) && n.fraction == [] && n.exponent.None?
    ensures ParseInt(Json.Literal(n))
         == if INT64_MIN <= IntegerValue(n) <= INT64_MAX then Some(IntegerValue(n)) else None
  {
    IntegerLiteral(n);
    SignedParsed(n.negative, n.whole);
  }

  lemma IntegerLiteral(n: Json.Numeral)
    requires n.fraction == [] && n.exponent.None?
    ensures Json.Literal(n) == (if n.negative then "-" else "") + n.whole
  {
    assert (if n.negative then "-" else "") + n.whole + "" + "" == (if n.negative then "-" else "") + n.whole;
  }

  lemma SignedParsed(negative: bool, digits: string)
    requires digits != [] && AllDigits(digits)
    ensures var i := if negative then -(NatOf(digits) as int) else NatOf(digits);
            ParseInt((if negative then "-" else "") + digits) == if INT64_MIN <= i <= INT64_MAX then Some(i) else None
  {
    DigitsParsed(negative, digits);
    SignTaken(negative, digits);
  }

  lemma DigitsParsed(negative: bool, digits: string)
    requires digits != [] && AllDigits(digits)
    ensures var i := if negative then -(NatOf(digits) as int) else NatOf(digits);
            ParseDigits(negative, digits) == if INT64_MIN <= i <= INT64_MAX then Some(i) else None
  {
    AllOneRun(digits);
  }

  lemma SignTaken(negative: bool, digits: string)
    requires digits != [] && AllDigits(digits)
    ensures ParseInt((if negative then "-" else "") + digits) == ParseDigits(negative, digits)
  {
    if negative { MinusSplit(digits); } else { assert "" + digits == digits; }
  }

  lemma AllOneRun(digits: string)
    requires AllDigits(digits)
    ensures Json.DigitRun(digits) == |digits| && digits[..|digits|] == digits
  {
    Json.DigitRunStops(digits, "");
    assert digits + "" == digits;
  }

  lemma MinusSplit(digits: string)
    ensures var s := "-" + digits;
            s != [] && s[0] == '-' && s[1..] == digits
  {}

  // ----- what the numbers are, apart from how they are computed

  lemma {:induction false} PowSplit(base: nat, m: nat, n: nat)
    ensures Pow(base, m + n) == Pow(base, m) * Pow(base, n) && Pow(base, 0) == 1 && Pow(base, 1) == base
  {
    if m > 0 {
      PowSplit(base, m - 1, n);
      Regrouped(base, Pow(base, m - 1), Pow(base, n));
    }
  }

  lemma Regrouped(a: nat, b: nat, c: nat)
    ensures a * (b * c) == (a * b) * c
  {}

  lemma ScaleNext(e: int)
    ensures Scale(0) == 1.0 && Scale(e + 1) == 10.0 * Scale(e)
  {}

  lemma TenTimes(a: real, b: real)
    ensures a * (10.0 * b) == 10.0 * (a * b)
  {}

  /** Shifting by no place changes nothing, and each place more multiplies by ten, also towards the left of
      the decimal point. */
  lemma ShiftedNext(digits: nat, places: int)
    ensures Shifted(digits, 0) == digits as real && Shifted(digits, places + 1) == 10.0 * Shifted(digits, places)
  {
    ScaleNext(places);
    TenTimes(digits as real, Scale(places));
  }

  /** The exponent a literal writes, less the length of its fraction. */
  function Places(n: Json.Numeral): int
    requires Json.WellFormed(n)
  {
    (if n.exponent.None? then 0
     else if n.exponent.value.sign == "-" then -(NatOf(n.exponent.value.digits) as int)
     else NatOf(n.exponent.value.digits)) - |n.fraction|
  }

  /** The exact value of a literal: its digits as one numeral, shifted by as many places. */
  lemma ExactValueMoved(n: Json.Numeral)
    requires Json.WellFormed(n)
    ensures var magnitude := Shifted(NatOf(n.whole + n.fraction), Places(n));
            ExactValue(n) == if n.negative then -magnitude else magnitude
  {
    assert ExponentValue(n.exponent) - |n.fraction| == Places(n);
  }

  lemma TwoDigits(a: char, b: char)
    requires IsDigit(a) && IsDigit(b)
    ensures AllDigits([a, b]) && NatOf([a, b]) == 10 * (a as int - 0x30) + (b as int - 0x30)
    ensures NatOf([a]) == a as int - 0x30
  {
    assert [] + [a] == [a] && [a] + [b] == [a, b];
    NatOfNext([], a);
    NatOfNext([a], b);
  }

  /** 1.5 is three halves, -25e-1 is minus two and a half, and 1e2 is a hundred as a float. */
  lemma NumbersForExample()
    ensures DecodeNumber("1.5") == Success(Float(1.5))
    ensures DecodeNumber("-25e-1") == Success(Float(-2.5))
    ensures DecodeNumber("1e2") == Success(Float(100.0))
  {
    ThreeHalves();
    MinusTwoAndAHalf();
    Hundred();
  }

  lemma ThreeHalves()
    ensures DecodeNumber("1.5") == Success(Float(1.5))
  {
    var n := Json.Numeral(false, "1", "5", None);
    TwoDigits('1', '5');
    assert n.whole + n.fraction == ['1', '5'] && Scale(-1) == 0.1;
    ForExample(n, "1.5", 1.5);
  }

  lemma MinusTwoAndAHalf()
    ensures DecodeNumber("-25e-1") == Success(Float(-2.5))
  {
    var n := Json.Numeral(true, "25", "", Some(Json.Exponent('e', "-", "1")));
    TwoDigits('2', '5');
    TwoDigits('1', '1');
    assert n.whole + n.fraction == ['2', '5'] && n.exponent.value.digits == ['1'] && Scale(-1) == 0.1;
    ForExample(n, "-25e-1", -2.5);
  }

  lemma Hundred()
    ensures DecodeNumber("1e2") == Success(Float(100.0))
  {
    var n := Json.Numeral(false, "1", "", Some(Json.Exponent('e', "", "2")));
    TwoDigits('1', '1');
    TwoDigits('2', '2');
    assert n.whole + n.fraction == ['1'] && n.exponent.value.digits == ['2'];
    assert Scale(1) == 10.0 && Scale(2) == 100.0;
    ForExample(n, "1e2", 100.0);
  }

  lemma ForExample(n: Json.Numeral, literal: string, x: real)
    requires Json.WellFormed(n) && Json.Literal(n) == literal && ExactValue(n) == x && -1000.0 < x < 1000.0
    requires n.fraction != [] || n.exponent.Some?
    ensures DecodeNumber(literal) == Success(Float(x))
  {
    NumberRefines(n);
    OverflowIsLarge();
  }

  lemma HalfAbove(a: int, b: int, c: int, d: int)
    requires a * b == c && b == 2 * d
    ensures c - d == (a - 1) * b + d
  {}

  /** Rounding overflows half a unit in the last place above the largest float64. */
  lemma OverflowIsHalfAboveMax()
    ensures Overflow() == (Pow(2, 53) - 1) * Pow(2, 971) + Pow(2, 970)
  {
    PowSplit(2, 53, 971);
    PowSplit(2, 1, 970);
    HalfAbove(Pow(2, 53), Pow(2, 971), Pow(2, 1024), Pow(2, 970));
  }

  // ----- integers stay exact

  /** A literal without fraction or exponent decodes to the integer of exactly its value when that
      fits in 64 bits, and otherwise takes the float path; no other literal decodes to an integer. */
  lemma IntegersStayExact(n: Json.Numeral)
    requires Json.WellFormed(n)
    ensures n.fraction == [] && n.exponent.None?
            && -0x8000_0000_0000_0000 <= IntegerValue(n) <= 0x7FFF_FFFF_FFFF_FFFF ==>
              DecodeNumber(Json.Literal(n)) == Success(Int(IntegerValue(n)))
    ensures !(n.fraction == [] && n.exponent.None?
              && -0x8000_0000_0000_0000 <= IntegerValue(n) <= 0x7FFF_FFFF_FFFF_FFFF) ==>
              DecodeNumber(Json.Literal(n)) in {Failure(NotRepresentable), Success(Float(ExactValue(n)))}
  {
    NumberRefines(n);
    if n.fraction == [] && n.exponent.None? { IntegerExact(n); }
  }

  /** Literals that decode to integers decode to the same one only when their values are equal. */
  lemma IntegersNeverCollide(a: Json.Numeral, b: Json.Numeral)
    requires Json.WellFormed(a) && Json.WellFormed(b)
    requires var x := DecodeNumber(Json.Literal(a)); x.Success? && x.value.Int? && x == DecodeNumber(Json.Literal(b))
    ensures ExactValue(a) == ExactValue(b)
  {
    NumberRefines(a);
    NumberRefines(b);
    if a.fraction == [] && a.exponent.None? { IntegerExact(a); }
    if b.fraction == [] && b.exponent.None? { IntegerExact(b); }
  }

  /** Every JSON value, however it is surrounded by blanks, decodes to what it stands for. */
  lemma EncodedDecodes(lead: string, v: Json.Value, trail: string, limits: Limits)
    requires Json.JsonBlank(lead) && Json.Encodable(v) && Json.JsonBlank(trail)
    ensures DecodeAttribute(lead + Json.Encode(v) + trail, limits) == Meaning(v, limits)
  {
    Json.EncodeDenotes(v);
    Json.BodyDenotes(lead, Json.Encode(v), trail, v);
    ClassificationRefines(lead + Json.Encode(v) + trail, v, limits);
  }

  /** Every text within the byte limit, quoted and escaped, decodes to itself, as an attribute and as the
      targeting key; a longer one is refused with its length and the limit. */
  lemma TextDecodes(t: string, limits: Limits)
    ensures |Utf8(t)| <= limits.maxStringBytes ==>
              && DecodeAttribute(Json.Quote(t), limits) == Success(AText(t))
              && Accept("targetingKey", Json.Quote(t), limits) == Success(AText(t))
    ensures |Utf8(t)| > limits.maxStringBytes ==>
              && DecodeAttribute(Json.Quote(t), limits) == Failure(TooLong(|Utf8(t)|, limits.maxStringBytes))
              && Accept("targetingKey", Json.Quote(t), limits) == Failure(TooLong(|Utf8(t)|, limits.maxStringBytes))
  {
    var v := Json.String(t);
    ByteLengthIsUtf8(t);
    Json.EncodeDenotes(v);
    ClassificationRefines(Json.Quote(t), v, limits);
    KeyDecodes(t, limits);
  }

  /** The targeting key is a string or null: no other value is taken for it. */
  lemma KeyIsText(v: Json.Value, limits: Limits)
    requires Json.Encodable(v)
    ensures Accept("targetingKey", Json.Encode(v), limits)
         == match v { case Null => Success(Nil) case String(t) => WithinLimit(t, limits) case _ => Failure(NotAString) }
  {
    Json.EncodeDenotes(v);
    KeyRead(Json.Encode(v), v);
  }

  lemma KeyRead(raw: string, v: Json.Value)
    requires Json.Denotes(raw, v)
    ensures DecodeTargetingKey(raw)
         == if v.Null? then Success(Nil) else if v.String? then Success(AText(v.text)) else Failure(NotAString)
  {
    var body := Trimmed(raw, v);
    Json.BodyShape(body, v);
    if Json.Scalar(v) {
      Json.ScalarRead(body, v);
    } else if Json.ReadScalar(body).Some? {
      ReaderSkipsContainers(body);
    }
  }

  /** An absent raw value counts as null. */
  lemma AbsentIsNull(limits: Limits)
    ensures DecodeAttribute("", limits) == Success(Nil) && Accept("targetingKey", "", limits) == Success(Nil)
  {}

  lemma KeyDecodes(t: string, limits: Limits)
    ensures Accept(TARGETING_KEY, Json.Quote(t), limits) == WithinLimit(t, limits)
  {
    var v := Json.String(t);
    Json.EncodeDenotes(v);
    var body := Trimmed(Json.Quote(t), v);
    Json.BodyShape(body, v);
    Json.ScalarRead(body, v);
  }

  /** A text that needs no escape, between quotes, decodes to itself. */
  lemma PlainTextDecodes(t: string, limits: Limits)
    requires forall i :: 0 <= i < |t| ==> t[i] != '"' && t[i] != '\\' && t[i] as int >= 0x20
    requires |Utf8(t)| <= limits.maxStringBytes
    ensures DecodeAttribute(['"'] + t + ['"'], limits) == Success(AText(t))
  {
    var v, raw := Json.String(t), ['"'] + t + ['"'];
    Json.PlainText(t);
    assert raw[1..|raw| - 1] == t;
    ByteLengthIsUtf8(t);
    Json.Denoted(raw, v);
    ClassificationRefines(raw, v, limits);
  }

  /** A number is representable when rounding it to a float64 does not overflow. */
  predicate Representable(n: Json.Numeral)
    requires Json.WellFormed(n)
  {
    -(Overflow() as real) < ExactValue(n) < Overflow() as real
  }

  lemma {:induction false} PowGrows(a: nat, b: nat)
    requires a <= b
    ensures 0 < Pow(2, a) <= Pow(2, b)
  {
    if a < b {
      PowGrows(a, b - 1);
    } else if a > 0 {
      PowGrows(a - 1, a - 1);
    }
  }

  lemma PowFour(n: nat)
    ensures Pow(2, n + 4) == 16 * Pow(2, n)
  {
    assert Pow(2, n + 2) == 4 * Pow(2, n) by { assert Pow(2, n + 1) == 2 * Pow(2, n); }
    assert Pow(2, n + 4) == 4 * Pow(2, n + 2) by { assert Pow(2, n + 3) == 2 * Pow(2, n + 2); }
  }

  lemma PowEight(n: nat)
    ensures Pow(2, n + 8) == 256 * Pow(2, n)
  {
    PowFour(n);
    PowFour(n + 4);
  }

  /** Every 64-bit integer is representable. */
  lemma OverflowIsLarge()
    ensures Overflow() > 0x8000_0000_0000_0000
  {
    PowGrows(971, 1024);
    PowGrows(64, 970);
    PowEight(0);
    PowEight(8);
    PowEight(16);
    PowEight(24);
    PowEight(32);
    PowEight(40);
    PowEight(48);
    PowEight(56);
  }

  lemma NumberAccepted(n: Json.Numeral)
    requires Json.WellFormed(n)
    ensures NumberMeaning(n).Success? <==> Representable(n)
  {
    OverflowIsLarge();
  }

  /** A JSON value text decodes exactly when its value is null, a truth value, a string within the byte
      limit or a representable number. */
  lemma OnlyScalarsDecode(raw: string, v: Json.Value, limits: Limits)
    requires Json.Denotes(raw, v) && (v.Number? ==> Json.WellFormed(v.n))
    ensures DecodeAttribute(raw, limits).Success?
       <==> || v.Null?
            || v.Bool?
            || (v.String? && ByteLength(v.text) <= limits.maxStringBytes)
            || (v.Number? && Representable(v.n))
  {
    ClassificationRefines(raw, v, limits);
    if v.Number? { NumberAccepted(v.n); }
  }

  /** On JSON value texts the last branch of the decoder, for values of an unsupported type, is dead. */
  lemma NeverUnsupported(raw: string, v: Json.Value, limits: Limits)
    requires Json.Denotes(raw, v) && (v.Number? ==> Json.WellFormed(v.n))
    ensures DecodeAttribute(raw, limits) != Failure(Unsupported)
  {
    ClassificationRefines(raw, v, limits);
  }

  /** A property is refused as malformed exactly when its trimmed text is that of no scalar and starts
      neither an object nor an array. */
  lemma NotJsonExactly(raw: string, limits: Limits)
    ensures DecodeAttribute(raw, limits) == Failure(NotJson)
       <==> && raw != "" && !HasPrefix(TrimSpace(raw), "{") && !HasPrefix(TrimSpace(raw), "[")
            && forall v :: Json.Scalar(v) ==> !Json.Body(TrimSpace(raw), v)
  {
    var trimmed := TrimSpace(raw);
    forall v ensures Json.ReadScalar(trimmed) == Some(v) <==> Json.Body(trimmed, v) && Json.Scalar(v) {
      Json.ReaderExact(trimmed, v);
    }
    if trimmed == "null" { assert Json.Body(trimmed, Json.Null) && Json.Scalar(Json.Null); }
    match Json.ReadScalar(trimmed)
    case Some(v) => assert Json.Body(trimmed, v) && Json.Scalar(v);
    case None =>
  }

  /** Every 64-bit integer is reached, by its own decimal literal. */
  lemma EveryInt64Reached(i: int) returns (n: Json.Numeral)
    requires -0x8000_0000_0000_0000 <= i <= 0x7FFF_FFFF_FFFF_FFFF
    ensures Json.WellFormed(n) && DecodeNumber(Json.Literal(n)) == Success(Int(i))
  {
    n := Json.Numeral(i < 0, Decimal(if i < 0 then -i else i), "", None);
    DecimalRoundTrip(if i < 0 then -i else i);
    IntegersStayExact(n);
  }

  // ----- the sorted walk

  ghost predicate StrictlySorted(keys: seq<string>) {
    forall i, j :: 0 <= i < j < |keys| ==> Before(keys[i], keys[j])
  }

  /** Inserts a key into a sorted sequence. */
  function Insert(key: string, keys: seq<string>): seq<string> {
    if keys == [] || Before(key, keys[0]) then [key] + keys else [keys[0]] + Insert(key, keys[1..])
  }

  lemma {:induction false} InsertMember(key: string, keys: seq<string>, k: string)
    ensures k in Insert(key, keys) <==> k == key || k in keys
  {
    if !(keys == [] || Before(key, keys[0])) { InsertMember(key, keys[1..], k); }
  }

  lemma {:induction false} InsertSorted(key: string, keys: seq<string>)
    requires StrictlySorted(keys) && key !in keys
    ensures StrictlySorted(Insert(key, keys))
  {
    if keys == [] {
    } else if Before(key, keys[0]) {
      forall j | 0 <= j < |keys| ensures Before(key, keys[j]) {
        if j > 0 { BeforeIsTransitive(key, keys[0], keys[j]); }
      }
    } else {
      InsertSorted(key, keys[1..]);
      BeforeIsTotal(key, keys[0]);
      forall j | 0 <= j < |Insert(key, keys[1..])| ensures Before(keys[0], Insert(key, keys[1..])[j]) {
        InsertMember(key, keys[1..], Insert(key, keys[1..])[j]);
      }
    }
  }

  /** The keys of the map in byte order, however the map is iterated. */
  method SortedKeys(m: map<string, string>) returns (keys: seq<string>)
    ensures StrictlySorted(keys) && forall k :: k in keys <==> k in m
  {
    var unsorted := [];
    var rest := m.Keys;
    while rest != {}
      invariant rest <= m.Keys
      invariant forall k :: k in unsorted <==> k in m && k !in rest
      invariant forall i, j :: 0 <= i < j < |unsorted| ==> unsorted[i] != unsorted[j]
      decreases rest
    {
      var k :| k in rest;
      unsorted := unsorted + [k];
      rest := rest - {k};
    }
    keys := [];
    for i := 0 to |unsorted|
      invariant StrictlySorted(keys)
      invariant forall k :: k in keys <==> k in unsorted[..i]
    {
      InsertSorted(unsorted[i], keys);
      forall k ensures k in Insert(unsorted[i], keys) <==> k in unsorted[..i + 1] {
        InsertMember(unsorted[i], keys, k);
      }
      keys := Insert(unsorted[i], keys);
    }
  }

  /** The strictly sorted enumeration of a set of keys is unique. */
  lemma {:induction false} SortedUnique(a: seq<string>, b: seq<string>)
    requires StrictlySorted(a) && StrictlySorted(b) && forall k :: k in a <==> k in b
    ensures a == b
  {
    Inhabited(b);
    if a != [] {
      assert a[0] in b;
      SameHead(a, b);
      forall k ensures k in a[1..] <==> k in b[1..] {
        TailMember(a, k);
        TailMember(b, k);
      }
      SortedUnique(a[1..], b[1..]);
    }
  }

  lemma Inhabited(keys: seq<string>)
    ensures keys != [] ==> exists k :: k in keys
  {
    assert keys != [] ==> keys[0] in keys;
  }

  lemma SameHead(a: seq<string>, b: seq<string>)
    requires StrictlySorted(a) && StrictlySorted(b) && a != [] && b != [] && a[0] in b && b[0] in a
    ensures a[0] == b[0]
  {
    BeforeIsTotal(a[0], b[0]);
  }

  lemma TailMember(a: seq<string>, k: string)
    requires StrictlySorted(a) && a != []
    ensures k in a[1..] <==> k in a && k != a[0]
  {
    BeforeIsTotal(a[0], a[0]);
  }

  // ----- the whole context

  ghost predicate IsLeast(name: string, names: set<string>) {
    name in names && forall k :: k in names && k != name ==> Before(name, k)
  }

  ghost function Rejected(properties: map<string, string>, limits: Limits): set<string> {
    set k | k in properties && Accept(k, properties[k], limits).Failure?
  }

  function Refusal(key: string, code: string, details: Detail): Reply {
    Reply(400, FailureBody(key, code, details, None), Metrics.InvalidRequest, false)
  }

  function TooLarge(key: string): Reply {
    Reply(413, FailureBody(key, PARSE_ERROR, BodyTooLarge, None), Metrics.InvalidRequest, false)
  }

  /** What decoding a request must give, without reference to any order of the properties. */
  ghost predicate Decodes(r: Request, limits: Limits, result: Result<EvaluationContext, Reply>) {
    if r.key == "" then result == Failure(Refusal(r.key, GENERAL, EmptyKey))
    else if !r.keyIsUtf8 then result == Failure(Refusal(r.key, PARSE_ERROR, KeyNotUtf8))
    else
      match r.body
      case Oversized =>
        result == Failure(TooLarge(r.key))
      case Malformed(message) => result == Failure(Refusal(r.key, PARSE_ERROR, BodyMalformed(message)))
      case Context(properties) =>
        if |properties| > limits.maxAttributes then
          result == Failure(Refusal(r.key, INVALID_CONTEXT, TooManyProperties(|properties|, limits.maxAttributes)))
        else if Rejected(properties, limits) != {} then
          exists name :: IsLeast(name, Rejected(properties, limits))
            && var why := Accept(name, properties[name], limits).error;
               result == Failure(Refusal(r.key, INVALID_CONTEXT, BadProperty(name, why)))
        else result == Success(Accepted(properties, limits))
  }

  function KeyText(accepted: Result<Attribute, Rejection>): string {
    if accepted.Success? && accepted.value.AText? then accepted.value.s else ""
  }

  ghost function Accepted(properties: map<string, string>, limits: Limits): EvaluationContext
    requires Rejected(properties, limits) == {}
  {
    assert forall k :: k in properties ==> k !in Rejected(properties, limits);
    EvaluationContext(
      if TARGETING_KEY in properties then KeyText(Accept(TARGETING_KEY, properties[TARGETING_KEY], limits)) else "",
      map k | k in properties && k != TARGETING_KEY :: Accept(k, properties[k], limits).value)
  }

  /** Decoding is a function of the request: the least rejected key is unique. */
  lemma DecodesOnce(r: Request, limits: Limits,
    a: Result<EvaluationContext, Reply>, b: Result<EvaluationContext, Reply>)
    requires Decodes(r, limits, a) && Decodes(r, limits, b)
    ensures a == b
  {
    if r.body.Context? {
      forall x, y | IsLeast(x, Rejected(r.body.properties, limits)) && IsLeast(y, Rejected(r.body.properties, limits))
        ensures x == y
      {
        BeforeIsTotal(x, y);
      }
    }
  }

  /** A decoding that fails answers 413 exactly for a body that is too large and 400 otherwise, always as
      an invalid request, without Retry-After, for the request's own key. */
  lemma FailureAnswered(r: Request, limits: Limits, result: Result<EvaluationContext, Reply>)
    requires Decodes(r, limits, result) && result.Failure?
    ensures var reply := result.error;
            && reply.outcome == Metrics.InvalidRequest && !reply.retryAfter
            && reply.body.FailureBody? && reply.body.key == r.key && reply.body.metadata == None
            && (reply.status == 413 <==> r.key != "" && r.keyIsUtf8 && r.body.Oversized?)
            && (reply.status == 400 <==> reply.status != 413)
  {}

  /** The error code and the details tell what was wrong. */
  lemma FailureExplained(r: Request, limits: Limits, result: Result<EvaluationContext, Reply>)
    requires Decodes(r, limits, result) && result.Failure?
    ensures var code, details := result.error.body.errorCode, result.error.body.details;
            if r.key == "" then code == "GENERAL" && details == EmptyKey
            else if !r.keyIsUtf8 then code == "PARSE_ERROR" && details == KeyNotUtf8
            else if r.body.Oversized? then code == "PARSE_ERROR" && details == BodyTooLarge
            else if r.body.Malformed? then code == "PARSE_ERROR" && details == BodyMalformed(r.body.message)
            else if |r.body.properties| > limits.maxAttributes then
              code == "INVALID_CONTEXT" && details == TooManyProperties(|r.body.properties|, limits.maxAttributes)
            else
              && code == "INVALID_CONTEXT" && details.BadProperty? && details.name in r.body.properties
              && Accept(details.name, r.body.properties[details.name], limits) == Failure(details.why)
              && forall k :: k in r.body.properties && BytesBefore(Utf8(k), Utf8(details.name)) ==>
                   Accept(k, r.body.properties[k], limits).Success?
  {
    if r.key != "" && r.keyIsUtf8 && r.body.Context? && |r.body.properties| <= limits.maxAttributes {
      LeastInBytes(r.body.properties, limits, result.error.body.details.name);
    }
  }

  /** No property before the least rejected one, in the order of UTF-8 bytes, is rejected. */
  lemma LeastInBytes(properties: map<string, string>, limits: Limits, name: string)
    requires IsLeast(name, Rejected(properties, limits))
    ensures forall k :: k in properties && BytesBefore(Utf8(k), Utf8(name)) ==>
              Accept(k, properties[k], limits).Success?
  {
    forall k | k in properties && BytesBefore(Utf8(k), Utf8(name)) ensures Accept(k, properties[k], limits).Success? {
      BeforeIsByteOrder(k, name);
      BeforeIsTotal(k, name);
    }
  }

  /** A property is acceptable when its value is: the targeting key as null or a string within the
      limit, any other property as null, a truth value, such a string or a representable number. */
  predicate Acceptable(name: string, v: Json.Value, limits: Limits)
    requires v.Number? ==> Json.WellFormed(v.n)
  {
    if name == TARGETING_KEY then v.Null? || (v.String? && ByteLength(v.text) <= limits.maxStringBytes)
    else Meaning(v, limits).Success?
  }

  ghost predicate Reads(properties: map<string, string>, values: map<string, Json.Value>) {
    && properties.Keys == values.Keys
    && forall k :: k in properties ==>
         (values[k].Number? ==> Json.WellFormed(values[k].n)) && Json.Denotes(properties[k], values[k])
  }

  /** The text of the targeting key, empty when there is none. */
  function KeyOf(values: map<string, Json.Value>): string {
    if TARGETING_KEY in values && values[TARGETING_KEY].String? then values[TARGETING_KEY].text else ""
  }

  lemma AcceptMeans(name: string, raw: string, v: Json.Value, limits: Limits)
    requires (v.Number? ==> Json.WellFormed(v.n)) && Json.Denotes(raw, v)
    ensures Accept(name, raw, limits).Success? <==> Acceptable(name, v, limits)
    ensures name != TARGETING_KEY ==> Accept(name, raw, limits) == Meaning(v, limits)
  {
    if name == TARGETING_KEY {
      TargetingKeyRefines(raw, v, limits);
    } else {
      ClassificationRefines(raw, v, limits);
    }
  }

  lemma AllAccepted(properties: map<string, string>, values: map<string, Json.Value>, limits: Limits)
    requires Reads(properties, values)
    ensures Rejected(properties, limits) == {} <==> forall k :: k in values ==> Acceptable(k, values[k], limits)
  {
    forall k | k in properties ensures k in Rejected(properties, limits) <==> !Acceptable(k, values[k], limits) {
      AcceptMeans(k, properties[k], values[k], limits);
    }
  }

  lemma AcceptedMeans(properties: map<string, string>, values: map<string, Json.Value>, limits: Limits)
    requires Reads(properties, values) && Rejected(properties, limits) == {}
    ensures var context := Accepted(properties, limits);
            && context.attributes.Keys == values.Keys - {TARGETING_KEY}
            && (forall k :: k in context.attributes ==> Meaning(values[k], limits) == Success(context.attributes[k]))
            && context.targetingKey == KeyOf(values)
  {
    assert forall k :: k in properties ==> k !in Rejected(properties, limits);
    forall k | k in properties && k != TARGETING_KEY
      ensures Accept(k, properties[k], limits) == Meaning(values[k], limits)
    {
      AcceptMeans(k, properties[k], values[k], limits);
    }
    if TARGETING_KEY in values { TargetingKeyRefines(properties[TARGETING_KEY], values[TARGETING_KEY], limits); }
  }

  /** Decoding a context of JSON value texts succeeds exactly when the property count is within the
      limit and every property is acceptable; the attributes are then the properties other than the
      targeting key, each with the meaning of its own value. */
  lemma ContextMeaning(r: Request, limits: Limits, values: map<string, Json.Value>,
    result: Result<EvaluationContext, Reply>)
    requires r.key != "" && r.keyIsUtf8 && r.body.Context? && Reads(r.body.properties, values)
    requires Decodes(r, limits, result)
    ensures result.Success?
       <==> |values| <= limits.maxAttributes && forall k :: k in values ==> Acceptable(k, values[k], limits)
    ensures result.Success? ==>
              && result.value.attributes.Keys == values.Keys - {TARGETING_KEY}
              && (forall k :: k in result.value.attributes ==>
                    Meaning(values[k], limits) == Success(result.value.attributes[k]))
              && result.value.targetingKey == KeyOf(values)
  {
    var properties := r.body.properties;
    assert |properties.Keys| == |values.Keys|;
    AllAccepted(properties, values, limits);
    if result.Success? { AcceptedMeans(properties, values, limits); }
  }

  /** The walk over the sorted properties stops at the first rejected one. */
  method DecodeContext(r: Request, limits: Limits) returns (result: Result<EvaluationContext, Reply>)
    ensures Decodes(r, limits, result)
  {
    if r.key == "" {
      return Failure(Refusal(r.key, GENERAL, EmptyKey));
    }
    if !r.keyIsUtf8 {
      return Failure(Refusal(r.key, PARSE_ERROR, KeyNotUtf8));
    }
    if r.body.Oversized? {
      return Failure(TooLarge(r.key));
    }
    if r.body.Malformed? {
      return Failure(Refusal(r.key, PARSE_ERROR, BodyMalformed(r.body.message)));
    }
    var properties := r.body.properties;
    if |properties| > limits.maxAttributes {
      return Failure(Refusal(r.key, INVALID_CONTEXT, TooManyProperties(|properties|, limits.maxAttributes)));
    }
    var walked := WalkProperties(properties, limits);
    match walked
    case Failure((name, why)) => return Failure(Refusal(r.key, INVALID_CONTEXT, BadProperty(name, why)));
    case Success(context) => return Success(context);
  }

  method WalkProperties(properties: map<string, string>, limits: Limits)
    returns (result: Result<EvaluationContext, (string, Rejection)>)
    ensures result.Success? <==> Rejected(properties, limits) == {}
    ensures result.Success? ==> result.value == Accepted(properties, limits)
    ensures result.Failure? ==>
              IsLeast(result.error.0, Rejected(properties, limits))
              && result.error.1 == Accept(result.error.0, properties[result.error.0], limits).error
  {
    var targetingKey := "";
    var attributes: map<string, Attribute> := map[];
    var keys := SortedKeys(properties);
    for i := 0 to |keys|
      invariant Walked(properties, limits, keys[..i], targetingKey, attributes)
    {
      var name := keys[i];
      assert name in keys;
      var accepted := Accept(name, properties[name], limits);
      if accepted.Failure? {
        FirstIsLeast(properties, limits, keys, i);
        return Failure((name, accepted.error));
      }
      WalkNext(properties, limits, keys, i, targetingKey, attributes);
      if name == TARGETING_KEY {
        if accepted.value.AText? { targetingKey := accepted.value.s; }
      } else {
        attributes := attributes[name := accepted.value];
      }
    }
    assert keys[..|keys|] == keys;
    WalkedAll(properties, limits, keys, targetingKey, attributes);
    result := Success(EvaluationContext(targetingKey, attributes));
  }

  /** The state of the walk after the properties named in `walked`, all of them accepted. */
  ghost predicate Walked(properties: map<string, string>, limits: Limits, walked: seq<string>,
    targetingKey: string, attributes: map<string, Attribute>)
  {
    && (forall k :: k in walked ==> k in properties && Accept(k, properties[k], limits).Success?)
    && (forall k :: k in attributes <==> k in walked && k != TARGETING_KEY)
    && (forall k :: k in attributes ==> Accept(k, properties[k], limits) == Success(attributes[k]))
    && targetingKey ==
       if TARGETING_KEY in walked then KeyText(Accept(TARGETING_KEY, properties[TARGETING_KEY], limits)) else ""
  }

  lemma WalkStep(properties: map<string, string>, limits: Limits, walked: seq<string>, name: string,
    targetingKey: string, attributes: map<string, Attribute>)
    requires Walked(properties, limits, walked, targetingKey, attributes) && name !in walked && name in properties
    requires Accept(name, properties[name], limits).Success?
    ensures var value := Accept(name, properties[name], limits).value;
            if name != TARGETING_KEY then
              Walked(properties, limits, walked + [name], targetingKey, attributes[name := value])
            else Walked(properties, limits, walked + [name], if value.AText? then value.s else targetingKey, attributes)
  {}

  lemma NotYet(keys: seq<string>, i: nat)
    requires StrictlySorted(keys) && i < |keys|
    ensures keys[i] !in keys[..i]
  {
    BeforeIsTotal(keys[i], keys[i]);
  }

  lemma WalkNext(properties: map<string, string>, limits: Limits, keys: seq<string>, i: nat,
    targetingKey: string, attributes: map<string, Attribute>)
    requires StrictlySorted(keys) && i < |keys| && keys[i] in properties
    requires Walked(properties, limits, keys[..i], targetingKey, attributes)
    requires Accept(keys[i], properties[keys[i]], limits).Success?
    ensures var value := Accept(keys[i], properties[keys[i]], limits).value;
            if keys[i] != TARGETING_KEY then
              Walked(properties, limits, keys[..i + 1], targetingKey, attributes[keys[i] := value])
            else Walked(properties, limits, keys[..i + 1], if value.AText? then value.s else targetingKey, attributes)
  {
    assert keys[..i + 1] == keys[..i] + [keys[i]];
    NotYet(keys, i);
    WalkStep(properties, limits, keys[..i], keys[i], targetingKey, attributes);
  }

  lemma WalkedAll(properties: map<string, string>, limits: Limits, keys: seq<string>,
    targetingKey: string, attributes: map<string, Attribute>)
    requires forall k :: k in keys <==> k in properties
    requires Walked(properties, limits, keys, targetingKey, attributes)
    ensures Rejected(properties, limits) == {}
    ensures EvaluationContext(targetingKey, attributes) == Accepted(properties, limits)
  {
    assert Rejected(properties, limits) == {};
    assert attributes.Keys == Accepted(properties, limits).attributes.Keys;
  }

  lemma FirstIsLeast(properties: map<string, string>, limits: Limits, keys: seq<string>, i: nat)
    requires StrictlySorted(keys) && (forall k :: k in keys <==> k in properties) && i < |keys|
    requires forall k :: k in keys[..i] ==> Accept(k, properties[k], limits).Success?
    requires keys[i] in Rejected(properties, limits)
    ensures IsLeast(keys[i], Rejected(properties, limits))
  {
    assert keys == keys[..i] + [keys[i]] + keys[i + 1..];
    forall k | k in Rejected(properties, limits) && k != keys[i] ensures Before(keys[i], k) {
      assert k in keys && k !in keys[..i];
      assert k in keys[i + 1..];
    }
  }
}
