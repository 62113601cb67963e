/** The textual forms: hexadecimal object identifiers (src/pool/oid.go), the decimal numbers of
    strconv and fmt, and fractional timestamps (src/store/time.go). */
module Text {
  import opened Base

  // ---- hexadecimal -------------------------------------------------------------------------

  function HexDigit(n: nat): Byte
    requires n < 16
  {
    if n < 10 then ('0' as int + n) as char else ('a' as int + n - 10) as char
  }

  function HexValue(c: Byte): Option<nat> {
    if '0' <= c <= '9' then Some(c as int - '0' as int)
    else if 'a' <= c <= 'f' then Some(c as int - 'a' as int + 10)
    else if 'A' <= c <= 'F' then Some(c as int - 'A' as int + 10)
    else None
  }

  function Hex(b: Bytes): (t: Bytes)
    ensures |t| == 2 * |b|
  {
    if b == [] then []
    else [HexDigit(b[0] as int / 16), HexDigit(b[0] as int % 16)] + Hex(b[1..])
  }

  /** The bytes of the pairs of hexadecimal digits of either case at the front, up to the first other character;
      nothing when that character splits a pair. */
  function ParseHex(t: Bytes): Option<Bytes> {
    if t == [] || HexValue(t[0]).None? then Some([])
    else if |t| == 1 then None
    else match (HexValue(t[0]), HexValue(t[1]), ParseHex(t[2..]))
      case (Some(h), Some(l), Some(rest)) => Some([Chr(16 * h + l)] + rest)
      case _ => None
  }

  /** The length of the white space character at the front, of those in UTF-8 that `Sscanf` skips. */
  function SpaceLength(t: Bytes): (n: nat)
    ensures n <= |t|
  {
    var at := (i: nat) => if i < |t| then t[i] as int else 0;
    if at(0) in {0x09, 0x0B, 0x0C, 0x0D, 0x20} then 1
    else if at(0) == 0xC2 && at(1) in {0x85, 0xA0} then 2
    else if at(0) == 0xE1 && at(1) == 0x9A && at(2) == 0x80 then 3
    else if at(0) == 0xE2 && at(1) == 0x80 && (0x80 <= at(2) <= 0x8A || at(2) in {0xA8, 0xA9, 0xAF}) then 3
    else if at(0) == 0xE2 && at(1) == 0x81 && at(2) == 0x9F then 3
    else if at(0) == 0xE3 && at(1) == 0x80 && at(2) == 0x80 then 3
    else 0
  }

  /** Without the white space at the front; a newline there is an error. */
  function SkipSpace(t: Bytes): Option<Bytes>
    decreases |t|
  {
    if t != [] && t[0] == '\n' then None
    else if SpaceLength(t) == 0 then Some(t)
    else SkipSpace(t[SpaceLength(t)..])
  }

  /** `OID.String`. */
  function OidText(oid: OID): Bytes {
    Hex(oid)
  }

  /** `ParseOID`: what `Sscanf` reads with "%x" must be twenty bytes; what follows them is not looked at. */
  function ParseOid(t: Bytes): Option<OID> {
    match SkipSpace(t)
    case None => None
    case Some(text) =>
      match ParseHex(text)
      case Some(b) => if |b| == OID_LEN then Some(b) else None
      case None => None
  }

  const LOWER: Bytes := "0123456789abcdef"
  const UPPER: Bytes := "0123456789ABCDEF"

  /** Digits are written in lower case, and read in either. */
  lemma HexDigitCases(n: nat, c: Byte)
    requires n < 16
    ensures HexDigit(n) == LOWER[n]
    ensures HexValue(c) == Some(n) <==> c == LOWER[n] || c == UPPER[n]
  {
  }

  /** Each byte is written as two digits, the high one first. */
  lemma {:induction false} HexAt(b: Bytes, i: nat)
    requires i < |b|
    ensures Hex(b)[2 * i] == LOWER[b[i] as int / 16] && Hex(b)[2 * i + 1] == LOWER[b[i] as int % 16]
  {
    if i == 0 {
      HexDigitCases(b[0] as int / 16, '0');
      HexDigitCases(b[0] as int % 16, '0');
    } else {
      HexAt(b[1..], i - 1);
      assert Hex(b)[2 * i] == Hex(b[1..])[2 * (i - 1)] && Hex(b)[2 * i + 1] == Hex(b[1..])[2 * (i - 1) + 1];
    }
  }

  lemma HexDigitRoundTrip(n: nat)
    requires n < 16
    ensures HexValue(HexDigit(n)) == Some(n)
  {
  }

  lemma HexPair(c: Byte, rest: Bytes)
    ensures ParseHex([HexDigit(c as int / 16), HexDigit(c as int % 16)] + rest)
         == match ParseHex(rest) case Some(b) => Some([c] + b) case None => None
  {
    var t: Bytes := [HexDigit(c as int / 16), HexDigit(c as int % 16)] + rest;
    HexDigitRoundTrip(c as int / 16);
    HexDigitRoundTrip(c as int % 16);
    assert t[2..] == rest;
    assert Chr(16 * (c as int / 16) + c as int % 16) == c;
  }

  lemma {:induction false} HexThen(b: Bytes, rest: Bytes)
    requires rest == [] || HexValue(rest[0]).None?
    ensures ParseHex(Hex(b) + rest) == Some(b)
  {
    if b == [] {
      assert [] + rest == rest;
    } else {
      HexThen(b[1..], rest);
      HexPair(b[0], Hex(b[1..]) + rest);
      Assoc([HexDigit(b[0] as int / 16), HexDigit(b[0] as int % 16)], Hex(b[1..]), rest);
      assert [b[0]] + b[1..] == b;
    }
  }

  lemma HexRoundTrip(b: Bytes)
    ensures ParseHex(Hex(b)) == Some(b)
  {
    HexThen(b, []);
    assert Hex(b) + [] == Hex(b);
  }

  /** An identifier is read from its text, whatever follows after another character than a hexadecimal digit. */
  lemma OidTextThen(oid: OID, rest: Bytes)
    requires rest == [] || HexValue(rest[0]).None?
    ensures ParseOid(OidText(oid) + rest) == Some(oid)
  {
    HexThen(oid, rest);
    assert (OidText(oid) + rest)[0] == HexDigit(oid[0] as int / 16);
  }

  lemma OidTextRoundTrip(oid: OID)
    ensures ParseOid(OidText(oid)) == Some(oid) && |OidText(oid)| == 40
  {
    OidTextThen(oid, []);
    assert OidText(oid) + [] == OidText(oid);
  }

  /** The digits at the front of a text are those of some bytes, and end there. */
  predicate DigitsOf(t: Bytes, b: Bytes) {
    && 2 * |b| <= |t|
    && (forall i :: 0 <= i < |b| ==> HexValue(t[2 * i]) == Some(b[i] as int / 16))
    && (forall i :: 0 <= i < |b| ==> HexValue(t[2 * i + 1]) == Some(b[i] as int % 16))
    && (2 * |b| < |t| ==> HexValue(t[2 * |b|]).None?)
  }

  /** Bytes are read exactly when they are those of the digits at the front. */
  lemma {:induction false} HexExactly(t: Bytes, b: Bytes)
    ensures ParseHex(t) == Some(b) <==> DigitsOf(t, b)
  {
    if b != [] && t != [] && HexValue(t[0]).None? {
      assert HexValue(t[2 * 0]).None?;
    } else if b != [] && |t| >= 2 {
      hide HexValue, DigitsOf, Chr;
      HexExactly(t[2..], b[1..]);
      DigitsNext(t, b);
      if HexValue(t[1]).Some? {
        HexValueSmall(t[0]);
        HexValueSmall(t[1]);
        BytePair(b[0], HexValue(t[0]).value, HexValue(t[1]).value);
        assert [b[0]] + b[1..] == b;
      }
    }
  }

  lemma HexValueSmall(c: Byte)
    ensures HexValue(c).Some? ==> HexValue(c).value < 16
  {
  }

  lemma DigitsNext(t: Bytes, b: Bytes)
    requires |t| >= 2 && b != []
    ensures DigitsOf(t, b) <==>
      && DigitsOf(t[2..], b[1..])
      && HexValue(t[0]) == Some(b[0] as int / 16) && HexValue(t[1]) == Some(b[0] as int % 16)
  {
    hide HexValue;
    forall i | 0 < i < |b| && 2 * |b| <= |t|
      ensures t[2 * i] == t[2..][2 * (i - 1)] && t[2 * i + 1] == t[2..][2 * (i - 1) + 1] && b[i] == b[1..][i - 1]
    {
    }
    if DigitsOf(t, b) {
      forall i | 0 <= i < |b[1..]|
        ensures HexValue(t[2..][2 * i]) == Some(b[1..][i] as int / 16)
        ensures HexValue(t[2..][2 * i + 1]) == Some(b[1..][i] as int % 16)
      {
        assert HexValue(t[2 * (i + 1)]) == Some(b[i + 1] as int / 16);
        assert HexValue(t[2 * (i + 1) + 1]) == Some(b[i + 1] as int % 16);
      }
    }
    if DigitsOf(t[2..], b[1..]) {
      forall i | 0 < i < |b|
        ensures HexValue(t[2 * i]) == Some(b[i] as int / 16) && HexValue(t[2 * i + 1]) == Some(b[i] as int % 16)
      {
        assert HexValue(t[2..][2 * (i - 1)]) == Some(b[1..][i - 1] as int / 16);
        assert HexValue(t[2..][2 * (i - 1) + 1]) == Some(b[1..][i - 1] as int % 16);
      }
    }
  }

  lemma BytePair(c: Byte, h: nat, l: nat)
    requires h < 16 && l < 16
    ensures Chr(16 * h + l) == c <==> h == c as int / 16 && l == c as int % 16
  {
  }

  /** White space before an identifier is skipped, and a newline is an error. */
  lemma OidAfterSpace(c: Byte, t: Bytes)
    requires c == ' ' || c == '\t' || c == '\r'
    ensures ParseOid([c] + t) == ParseOid(t) && ParseOid(['\n'] + t) == None
  {
    assert ([c] + t)[1..] == t;
    assert SkipSpace(['\n'] + t) == None;
  }

  // ---- decimal numbers ---------------------------------------------------------------------

  predicate IsDigit(c: Byte) {
    '0' <= c <= '9'
  }

  predicate AllDigits(t: Bytes) {
    forall i :: 0 <= i < |t| ==> IsDigit(t[i])
  }

  function Digit(n: nat): Byte
    requires n < 10
  {
    ('0' as int + n) as char
  }

  function Decimal(n: nat): (t: Bytes)
    ensures t != [] && AllDigits(t)
  {
    if n < 10 then [Digit(n)] else Decimal(n / 10) + [Digit(n % 10)]
  }

  function SignedDecimal(i: int): Bytes {
    if i < 0 then "-" + Decimal(-i) else Decimal(i)
  }

  /** The value of a string of digits, and nothing for any other string. */
  function Digits(t: Bytes): Option<nat> {
    if t == [] || !IsDigit(t[|t| - 1]) then None
    else
      var d := t[|t| - 1] as int - '0' as int;
      if |t| == 1 then Some(d)
      else match Digits(t[..|t| - 1])
        case Some(n) => Some(10 * n + d)
        case None => None
  }

  const INT64_LIMIT := 0x8000_0000_0000_0000
  const UINT64_LIMIT := 0x1_0000_0000_0000_0000

  predicate IsInt64(i: int) {
    -INT64_LIMIT <= i < INT64_LIMIT
  }

  /** `strconv.ParseInt(t, 10, 64)`. */
  function ParseInt(t: Bytes): Option<int> {
    var negative := t != [] && t[0] == '-';
    match Digits(if t != [] && (t[0] == '-' || t[0] == '+') then t[1..] else t)
    case Some(n) =>
      var i: int := if negative then -(n as int) else n;
      if IsInt64(i) then Some(i) else None
    case None => None
  }

  /** `strconv.ParseUint(t, 10, 64)`. */
  function ParseUint(t: Bytes): Option<nat> {
    match Digits(t)
    case Some(n) => if n < UINT64_LIMIT then Some(n) else None
    case None => None
  }

  lemma {:induction false} DecimalRoundTrip(n: nat)
    ensures Digits(Decimal(n)) == Some(n)
  {
    if n >= 10 {
      DecimalRoundTrip(n / 10);
      var t := Decimal(n);
      assert t[..|t| - 1] == Decimal(n / 10);
    }
  }

  lemma DivDiv(n: nat, e: nat)
    ensures Pow(10, e) > 0 && Pow(10, e + 1) == 10 * Pow(10, e) && n / Pow(10, e + 1) == n / 10 / Pow(10, e)
  {
    PowPositive(10, e);
    var p := Pow(10, e);
    var q, r := n / 10 / p, n / 10 % p;
    assert n / 10 == p * q + r;
    assert n == 10 * p * q + (10 * r + n % 10);
    Quotient(n, 10 * p, q, 10 * r + n % 10);
  }

  lemma Quotient(n: nat, m: nat, q: nat, r: nat)
    requires m > 0 && n == m * q + r && r < m
    ensures n / m == q
  {
    var k := n / m;
    if k < q {
      MulMono(m, k + 1, q);
    } else if k > q {
      MulMono(m, q + 1, k);
    }
  }

  /** The digits of a number, the most significant first, without a leading zero. */
  lemma {:induction false} DecimalAt(n: nat, i: nat)
    requires i < |Decimal(n)|
    ensures Pow(10, |Decimal(n)| - 1 - i) > 0
    ensures Decimal(n)[i] == Digit(n / Pow(10, |Decimal(n)| - 1 - i) % 10)
    ensures Decimal(n)[0] == '0' ==> n == 0
  {
    var last := |Decimal(n)| - 1;
    if n >= 10 {
      if i < last {
        DecimalAt(n / 10, i);
        DivDiv(n, last - 1 - i);
      } else {
        DecimalAt(n / 10, 0);
        assert Pow(10, 0) == 1;
      }
    } else {
      assert Pow(10, 0) == 1;
    }
  }

  lemma ParseUintRoundTrip(n: nat)
    requires n < UINT64_LIMIT
    ensures ParseUint(Decimal(n)) == Some(n)
  {
    DecimalRoundTrip(n);
  }

  lemma ParseIntRoundTrip(i: int)
    requires IsInt64(i)
    ensures ParseInt(SignedDecimal(i)) == Some(i)
  {
    DecimalRoundTrip(if i < 0 then -i else i);
    if i >= 0 {
      assert IsDigit(Decimal(i)[0]);
    } else {
      assert SignedDecimal(i)[1..] == Decimal(-i);
    }
  }

  /** A decimal numeral of a number, perhaps with zeros before it. */
  predicate Numeral(t: Bytes, n: nat) {
    t != [] && n < Pow(10, |t|) && t == Padded(n, |t|)
  }

  /** Each digit of a numeral by its place. */
  lemma {:induction false} PaddedAt(n: nat, width: nat, i: nat)
    requires i < width
    ensures Pow(10, width - 1 - i) > 0
    ensures Padded(n, width)[i] == Digit(n / Pow(10, width - 1 - i) % 10)
  {
    if i < width - 1 {
      PaddedAt(n / 10, width - 1, i);
      DivDiv(n, width - 2 - i);
    } else {
      assert Pow(10, 0) == 1;
    }
  }

  lemma {:induction false} DigitsExactly(t: Bytes, n: nat)
    ensures Digits(t) == Some(n) <==> Numeral(t, n)
  {
    if t != [] {
      var u, c := t[..|t| - 1], t[|t| - 1];
      assert t == u + [c];
      assert Padded(n, |t|) == Padded(n / 10, |u|) + [Digit(n % 10)];
      assert Pow(10, |t|) == 10 * Pow(10, |u|);
      if u == [] {
        assert Pow(10, 0) == 1;
      } else {
        DigitsExactly(u, n / 10);
      }
    }
  }

  /** Exactly the decimal numerals below 2^64 are read, with any zeros before them. */
  lemma ParseUintExactly(t: Bytes, n: nat)
    ensures ParseUint(t) == Some(n) <==> n < 0x1_0000_0000_0000_0000 && Numeral(t, n)
  {
    hide Numeral;
    DigitsExactly(t, n);
  }

  /** The same of 64-bit numbers with a sign, which may be left out. */
  lemma ParseIntExactly(t: Bytes, i: int)
    ensures ParseInt(t) == Some(i) <==>
      && -0x8000_0000_0000_0000 <= i < 0x8000_0000_0000_0000
      && if t != [] && t[0] == '-' then i <= 0 && Numeral(t[1..], -i)
         else i >= 0 && Numeral(if t != [] && t[0] == '+' then t[1..] else t, i)
  {
    hide Numeral;
    var u := if t != [] && (t[0] == '-' || t[0] == '+') then t[1..] else t;
    DigitsExactly(u, if i < 0 then -i else i);
  }

  lemma {:induction false} DecimalLength(n: nat, d: nat)
    requires d >= 1 && n < Pow(10, d)
    ensures |Decimal(n)| <= d
  {
    if n >= 10 {
      assert Pow(10, 1) == 10;
      assert n / 10 < Pow(10, d - 1);
      DecimalLength(n / 10, d - 1);
    }
  }

  // ---- timestamps --------------------------------------------------------------------------

  const NANO := 1_000_000_000

  /** Nine digits with leading zeros: the verb "%09d" for 0 <= n < 10^9. */
  function Padded(n: nat, width: nat): (t: Bytes)
    ensures |t| == width && AllDigits(t)
  {
    if width == 0 then [] else Padded(n / 10, width - 1) + [Digit(n % 10)]
  }

  /** The text "%d.%09d" of a time in seconds and nanoseconds. */
  function FormatTime(sec: int, nsec: nat): Bytes {
    SignedDecimal(sec) + "." + Padded(nsec, 9)
  }

  /** The pieces of a text between its points. */
  function SplitDots(t: Bytes): (parts: seq<Bytes>)
    ensures |parts| >= 1
  {
    if t == [] then [[]]
    else
      var rest := SplitDots(t[1..]);
      if t[0] == '.' then [[]] + rest else [[t[0]] + rest[0]] + rest[1..]
  }

  predicate NoDots(t: Bytes) {
    forall i :: 0 <= i < |t| ==> t[i] != '.'
  }

  /** `DecodeTimestamp`, as the number of nanoseconds of the instant it returns. */
  function Timestamp(t: Bytes): Option<int> {
    var parts := SplitDots(t);
    if |parts| == 1 then
      match ParseInt(parts[0])
      case Some(sec) => Some(sec * NANO)
      case None => None
    else if |parts| == 2 then
      match (ParseInt(parts[1]), ParseInt(parts[0]))
      case (Some(frac), Some(sec)) =>
        if |parts[1]| > 9 then None else Some(sec * NANO + frac * Pow(10, 9 - |parts[1]|))
      case _ => None
    else None
  }

  lemma ScaleStep(n: int, e: nat)
    requires e >= 1
    ensures n * Pow(10, e) == n * 10 * Pow(10, e - 1)
  {
    var p := Pow(10, e - 1);
    assert n * (10 * p) == n * 10 * p;
  }

  method DecodeTimestamp(t: Bytes) returns (result: Option<int>)
    ensures result == Timestamp(t)
  {
    var parts := SplitDots(t);
    var nsec := 0;
    if |parts| == 2 {
      var frac := ParseInt(parts[1]);
      if frac.None? {
        return None;
      }
      nsec := frac.value;
      if |parts[1]| > 9 {
        return None;
      }
      var i := |parts[1]|;
      while i < 9
        invariant |parts[1]| <= i <= 9
        invariant nsec * Pow(10, 9 - i) == frac.value * Pow(10, 9 - |parts[1]|)
      {
        ScaleStep(nsec, 9 - i);
        nsec := nsec * 10;
        i := i + 1;
      }
    } else if |parts| != 1 {
      return None;
    }
    var sec := ParseInt(parts[0]);
    if sec.None? {
      return None;
    }
    return Some(sec.value * NANO + nsec);
  }

  lemma {:induction false} PaddedDigits(n: nat, width: nat)
    requires width >= 1 && n < Pow(10, width)
    ensures Digits(Padded(n, width)) == Some(n)
  {
    var t := Padded(n, width);
    assert t[..|t| - 1] == Padded(n / 10, width - 1);
    if width == 1 {
      assert Pow(10, 1) == 10;
    } else {
      assert n / 10 < Pow(10, width - 1);
      PaddedDigits(n / 10, width - 1);
    }
  }

  lemma {:induction false} SplitNoDots(t: Bytes)
    requires NoDots(t)
    ensures SplitDots(t) == [t]
  {
    if t != [] {
      SplitNoDots(t[1..]);
      assert [t[0]] + t[1..] == t;
    }
  }

  lemma {:induction false} SplitOneDot(a: Bytes, b: Bytes)
    requires NoDots(a)
    requires NoDots(b)
    ensures SplitDots(a + "." + b) == [a, b]
  {
    var t := a + "." + b;
    if a == [] {
      SplitNoDots(b);
      assert t[1..] == b;
    } else {
      SplitOneDot(a[1..], b);
      assert t[1..] == a[1..] + "." + b;
      assert [a[0]] + a[1..] == a;
    }
  }

  lemma PaddedParses(nsec: nat)
    requires nsec < NANO
    ensures ParseInt(Padded(nsec, 9)) == Some(nsec)
  {
    PowTen9();
    PaddedDigits(nsec, 9);
    assert IsDigit(Padded(nsec, 9)[0]);
  }

  /** A formatted time decodes to the instant it was made from. */
  lemma TimestampRoundTrip(sec: int, nsec: nat)
    requires IsInt64(sec) && nsec < NANO
    ensures Timestamp(FormatTime(sec, nsec)) == Some(sec * NANO + nsec)
  {
    hide SplitDots, SignedDecimal, Padded, ParseInt;
    var whole, frac := SignedDecimal(sec), Padded(nsec, 9);
    NumberHasNoDots(sec);
    SplitOneDot(whole, frac);
    ParseIntRoundTrip(sec);
    PaddedParses(nsec);
    assert Pow(10, 0) == 1;
  }

  lemma NumberHasNoDots(i: int)
    ensures NoDots(SignedDecimal(i))
  {
  }

  /** A fraction of fewer than nine digits counts tenths, hundredths and so on, and none at all is zero. */
  lemma TimestampFraction(sec: int, frac: nat, width: nat)
    requires IsInt64(sec) && 1 <= width <= 9 && frac < Pow(10, width)
    ensures Timestamp(SignedDecimal(sec)) == Some(sec * NANO)
    ensures Timestamp(SignedDecimal(sec) + "." + Padded(frac, width)) == Some(sec * NANO + frac * Pow(10, 9 - width))
  {
    hide SplitDots, SignedDecimal, Padded, ParseInt;
    NumberHasNoDots(sec);
    SplitNoDots(SignedDecimal(sec));
    SplitOneDot(SignedDecimal(sec), Padded(frac, width));
    ParseIntRoundTrip(sec);
    FractionParses(frac, width);
  }

  lemma FractionParses(frac: nat, width: nat)
    requires 1 <= width <= 9 && frac < Pow(10, width)
    ensures ParseInt(Padded(frac, width)) == Some(frac)
  {
    PowGrows(width, 9);
    PowTen9();
    PaddedDigits(frac, width);
    assert IsDigit(Padded(frac, width)[0]);
  }

  lemma {:induction false} PowGrows(d: nat, e: nat)
    requires d <= e
    ensures Pow(10, d) <= Pow(10, e)
  {
    if d < e {
      PowGrows(d, e - 1);
    }
  }

  /** Seconds, with a sign if negative, a point and nine digits. */
  lemma FormatTimeShape(sec: int, nsec: nat)
    requires nsec < NANO
    ensures var t := FormatTime(sec, nsec); var n := |t| - 10;
      && n >= 1 && t[..n] == SignedDecimal(sec) && t[n] == '.'
      && AllDigits(t[n + 1..]) && Digits(t[n + 1..]) == Some(nsec)
    ensures SignedDecimal(sec) == (if sec < 0 then "-" else "") + Decimal(if sec < 0 then -sec else sec)
  {
    hide Padded, Digits, Decimal;
    PowTen9();
    PaddedDigits(nsec, 9);
    var t, whole := FormatTime(sec, nsec), SignedDecimal(sec);
    assert t[..|whole|] == whole && t[|whole| + 1..] == Padded(nsec, 9);
  }

  lemma PowTen9()
    ensures Pow(10, 9) == NANO
  {
    assert Pow(10, 3) == 1000;
    assert Pow(10, 6) == 1_000_000;
  }
}
