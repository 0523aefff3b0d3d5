/** Text as sequences of Unicode scalar values: trimming, byte lengths, byte order, decimals. */
module Text {
  // ----- white space

  /** The characters strings.TrimSpace removes. */
  predicate IsSpace(c: char) {
    var n := c as int;
    || 0x09 <= n <= 0x0D || n == 0x20 || n == 0x85 || n == 0xA0 || n == 0x1680
    || 0x2000 <= n <= 0x200A || n == 0x2028 || n == 0x2029 || n == 0x202F || n == 0x205F || n == 0x3000
  }

  /** Among the ASCII characters these are the blank, the tab, the line feed, the vertical tab, the form
      feed and the carriage return. */
  lemma AsciiSpace(c: char)
    requires c as int < 0x80
    ensures IsSpace(c) <==> c as int in {0x20, 0x09, 0x0A, 0x0B, 0x0C, 0x0D}
  {}

  /** Beyond ASCII they are the other characters with the Unicode property White_Space. */
  lemma UnicodeSpace(c: char)
    requires c as int >= 0x80
    ensures IsSpace(c)
       <==> || c as int in {0x85, 0xA0, 0x1680, 0x2028, 0x2029, 0x202F, 0x205F, 0x3000}
            || c as int in {0x2000, 0x2001, 0x2002, 0x2003, 0x2004, 0x2005, 0x2006, 0x2007, 0x2008, 0x2009, 0x200A}
  {}

  function TrimLeft(s: string): string {
    if s != [] && IsSpace(s[0]) then TrimLeft(s[1..]) else s
  }

  function TrimRight(s: string): string {
    if s != [] && IsSpace(s[|s| - 1]) then TrimRight(s[..|s| - 1]) else s
  }

  function TrimSpace(s: string): string { TrimRight(TrimLeft(s)) }

  predicate Blank(s: string) { forall i :: 0 <= i < |s| ==> IsSpace(s[i]) }

  /** A text that neither starts nor ends with white space. */
  predicate Tight(s: string) { s != [] && !IsSpace(s[0]) && !IsSpace(s[|s| - 1]) }

  lemma {:induction false} TrimLeftBlank(lead: string, rest: string)
    requires Blank(lead) && (rest == [] || !IsSpace(rest[0]))
    ensures TrimLeft(lead + rest) == rest
  {
    if lead == [] {
      assert lead + rest == rest;
    } else {
      assert (lead + rest)[1..] == lead[1..] + rest;
      TrimLeftBlank(lead[1..], rest);
    }
  }

  lemma {:induction false} TrimRightBlank(rest: string, trail: string)
    requires Blank(trail) && (rest == [] || !IsSpace(rest[|rest| - 1]))
    ensures TrimRight(rest + trail) == rest
  {
    if trail == [] {
      assert rest + trail == rest;
    } else {
      assert (rest + trail)[..|rest + trail| - 1] == rest + trail[..|trail| - 1];
      TrimRightBlank(rest, trail[..|trail| - 1]);
    }
  }

  lemma TrimSurrounded(lead: string, body: string, trail: string)
    requires Blank(lead) && Tight(body) && Blank(trail)
    ensures TrimSpace(lead + body + trail) == body
  {
    assert lead + body + trail == lead + (body + trail);
    TrimLeftBlank(lead, body + trail);
    TrimRightBlank(body, trail);
  }

  // ----- byte lengths and byte order of UTF-8 text

  function CharBytes(c: char): nat {
    if c as int < 0x80 then 1 else if c as int < 0x800 then 2 else if c as int < 0x10000 then 3 else 4
  }

  /** The length of the text in UTF-8 bytes. */
  function ByteLength(s: string): nat {
    if s == [] then 0 else CharBytes(s[0]) + ByteLength(s[1..])
  }

  /** Byte order: UTF-8 keeps the order of the scalar values it encodes. */
  predicate Before(a: string, b: string) {
    b != [] && (a == [] || a[0] < b[0] || (a[0] == b[0] && Before(a[1..], b[1..])))
  }

  lemma {:induction false} BeforeIsTotal(a: string, b: string)
    ensures a == b || Before(a, b) || Before(b, a)
    ensures !(Before(a, b) && Before(b, a)) && !Before(a, a)
  {
    if a != [] && b != [] {
      BeforeIsTotal(a[1..], b[1..]);
      assert a == [a[0]] + a[1..] && b == [b[0]] + b[1..];
    }
    if a != [] { BeforeIsTotal(a[1..], a[1..]); }
  }

  lemma {:induction false} BeforeIsTransitive(a: string, b: string, c: string)
    requires Before(a, b) && Before(b, c)
    ensures Before(a, c)
  {
    if a != [] && a[0] == b[0] == c[0] { BeforeIsTransitive(a[1..], b[1..], c[1..]); }
  }

  // ----- the UTF-8 bytes themselves (RFC 3629, section 3)

  function Utf8Char(n: nat): seq<nat>
    requires n < 0x110000
  {
    if n < 0x80 then [n]
    else if n < 0x800 then [0xC0 + n / 0x40, 0x80 + n % 0x40]
    else if n < 0x10000 then [0xE0 + n / 0x1000, 0x80 + n / 0x40 % 0x40, 0x80 + n % 0x40]
    else [0xF0 + n / 0x40000, 0x80 + n / 0x1000 % 0x40, 0x80 + n / 0x40 % 0x40, 0x80 + n % 0x40]
  }

  function Utf8(s: string): seq<nat> {
    if s == [] then [] else Utf8Char(s[0] as int) + Utf8(s[1..])
  }

  /** Lexicographic order of byte sequences. */
  predicate BytesBefore(a: seq<nat>, b: seq<nat>) {
    b != [] && (a == [] || a[0] < b[0] || (a[0] == b[0] && BytesBefore(a[1..], b[1..])))
  }

  /** The byte length is the number of UTF-8 bytes. */
  lemma {:induction false} ByteLengthIsUtf8(s: string)
    ensures ByteLength(s) == |Utf8(s)|
  {
    if s != [] { ByteLengthIsUtf8(s[1..]); }
  }

  lemma {:induction false} FirstDifference(a: seq<nat>, b: seq<nat>, i: nat)
    requires i < |a| && i < |b| && a[..i] == b[..i] && a[i] < b[i]
    ensures BytesBefore(a, b) && !BytesBefore(b, a)
  {
    if i > 0 {
      assert a[0] == a[..i][0] && b[0] == b[..i][0];
      assert a[1..][..i - 1] == a[..i][1..] && b[1..][..i - 1] == b[..i][1..];
      FirstDifference(a[1..], b[1..], i - 1);
    }
  }

  lemma {:induction false} SamePrefix(p: seq<nat>, a: seq<nat>, b: seq<nat>)
    ensures BytesBefore(p + a, p + b) <==> BytesBefore(a, b)
  {
    if p == [] {
      assert p + a == a && p + b == b;
    } else {
      assert (p + a)[1..] == p[1..] + a && (p + b)[1..] == p[1..] + b;
      SamePrefix(p[1..], a, b);
    }
  }

  /** Where the encodings of two characters first differ. */
  lemma CharsDiffer(m: nat, n: nat) returns (i: nat)
    requires m < n < 0x110000
    ensures var a, b := Utf8Char(m), Utf8Char(n);
            i < |a| && i < |b| && a[..i] == b[..i] && a[i] < b[i]
  {
    if n < 0x80 || m < 0x80 {
      i := 0;
    } else if n < 0x800 {
      i := if m / 0x40 < n / 0x40 then 0 else 1;
    } else if m >= 0x10000 {
      i := DifferFour(m, n);
    } else if m >= 0x800 && n < 0x10000 {
      i := DifferThree(m, n);
    } else {
      i := 0;
    }
  }

  lemma LessDigit(m: nat, n: nat)
    requires m < n
    ensures m / 0x40 <= n / 0x40
    ensures m / 0x40 == n / 0x40 ==> m % 0x40 < n % 0x40
  {}

  lemma HigherDigits(m: nat)
    ensures m / 0x1000 == m / 0x40 / 0x40 && m / 0x40000 == m / 0x40 / 0x40 / 0x40
  {}

  lemma DifferThree(m: nat, n: nat) returns (i: nat)
    requires 0x800 <= m < n < 0x10000
    ensures var a, b := Utf8Char(m), Utf8Char(n);
            i < 3 && |a| == |b| == 3 && a[..i] == b[..i] && a[i] < b[i]
  {
    var p, q := m / 0x40, n / 0x40;
    HigherDigits(m);
    HigherDigits(n);
    LessDigit(m, n);
    if p < q { LessDigit(p, q); }
    i := if p == q then 2 else if p / 0x40 == q / 0x40 then 1 else 0;
    ThreeBytes(0xE0 + p / 0x40, 0x80 + p % 0x40, 0x80 + m % 0x40, 0xE0 + q / 0x40, 0x80 + q % 0x40, 0x80 + n % 0x40, i);
  }

  lemma ThreeBytes(a: nat, b: nat, c: nat, x: nat, y: nat, z: nat, i: nat)
    requires i < 3 && (i > 0 ==> a == x) && (i > 1 ==> b == y)
    ensures [a, b, c][..i] == [x, y, z][..i]
  {}

  lemma DifferFour(m: nat, n: nat) returns (i: nat)
    requires 0x10000 <= m < n < 0x110000
    ensures var a, b := Utf8Char(m), Utf8Char(n);
            i < 4 && |a| == |b| == 4 && a[..i] == b[..i] && a[i] < b[i]
  {
    var p, q := m / 0x40, n / 0x40;
    var r, t := p / 0x40, q / 0x40;
    HigherDigits(m);
    HigherDigits(n);
    LessDigit(m, n);
    if p < q { LessDigit(p, q); }
    if r < t { LessDigit(r, t); }
    i := if p == q then 3 else if r == t then 2 else if r / 0x40 == t / 0x40 then 1 else 0;
    FourBytes(0xF0 + r / 0x40, 0x80 + r % 0x40, 0x80 + p % 0x40, 0x80 + m % 0x40,
      0xF0 + t / 0x40, 0x80 + t % 0x40, 0x80 + q % 0x40, 0x80 + n % 0x40, i);
  }

  lemma FourBytes(a: nat, b: nat, c: nat, d: nat, w: nat, x: nat, y: nat, z: nat, i: nat)
    requires i < 4 && (i > 0 ==> a == w) && (i > 1 ==> b == x) && (i > 2 ==> c == y)
    ensures [a, b, c, d][..i] == [w, x, y, z][..i]
  {}

  lemma CharOrder(m: nat, n: nat, x: seq<nat>, y: seq<nat>)
    requires m < n < 0x110000
    ensures BytesBefore(Utf8Char(m) + x, Utf8Char(n) + y) && !BytesBefore(Utf8Char(n) + y, Utf8Char(m) + x)
  {
    var i := CharsDiffer(m, n);
    var a, b := Utf8Char(m) + x, Utf8Char(n) + y;
    assert a[..i] == Utf8Char(m)[..i] && b[..i] == Utf8Char(n)[..i];
    FirstDifference(a, b, i);
  }

  /** The order of texts is the order of their UTF-8 bytes. */
  lemma {:induction false} BeforeIsByteOrder(a: string, b: string)
    ensures Before(a, b) <==> BytesBefore(Utf8(a), Utf8(b))
  {
    if a != [] && b != [] {
      if a[0] == b[0] {
        BeforeIsByteOrder(a[1..], b[1..]);
        SamePrefix(Utf8Char(a[0] as int), Utf8(a[1..]), Utf8(b[1..]));
      } else if a[0] < b[0] {
        CharOrder(a[0] as int, b[0] as int, Utf8(a[1..]), Utf8(b[1..]));
      } else {
        CharOrder(b[0] as int, a[0] as int, Utf8(b[1..]), Utf8(a[1..]));
      }
    }
  }

  // ----- decimal numerals

  predicate IsDigit(c: char) { '0' <= c <= '9' }

  predicate AllDigits(s: string) { forall i :: 0 <= i < |s| ==> IsDigit(s[i]) }

  function DigitValue(c: char): nat
    requires IsDigit(c)
  {
    c as int - '0' as int
  }

  /** The number a run of decimal digits denotes. */
  function NatOf(s: string): nat
    requires AllDigits(s)
  {
    if s == [] then 0 else 10 * NatOf(s[..|s| - 1]) + DigitValue(s[|s| - 1])
  }

  function Decimal(n: nat): (s: string)
    ensures s != [] && AllDigits(s)
  {
    if n < 10 then [('0' as int + n) as char] else Decimal(n / 10) + [('0' as int + n % 10) as char]
  }

  /** Decimal is a right inverse of NatOf and writes no leading zero. */
  lemma {:induction false} DecimalRoundTrip(n: nat)
    ensures NatOf(Decimal(n)) == n
    ensures |Decimal(n)| == 1 || Decimal(n)[0] != '0'
  {
    if n >= 10 {
      DecimalRoundTrip(n / 10);
      assert Decimal(n)[..|Decimal(n)| - 1] == Decimal(n / 10);
    }
  }

  /** Numerals are read in base ten. */
  lemma NatOfNext(s: string, d: char)
    requires AllDigits(s) && IsDigit(d)
    ensures AllDigits(s + [d]) && NatOf(s + [d]) == 10 * NatOf(s) + (d as int - 0x30)
  {
    assert (s + [d])[..|s + [d]| - 1] == s;
  }

  predicate HasPrefix(s: string, p: string) { |p| <= |s| && s[..|p|] == p }
}
