/** Numbers and ranges of the obfuscation settings (numericRange and wireRange in awg31.go, parseU32 and validHeader in obf.go). */
module Ranges {
  import opened Wrappers
  import opened Text
  import opened Splitting

  // ---------- decimal numbers ----------

  function Digit(d: nat): char
    requires d < 10
  {
    '0' + d as char
  }

  /** strconv.Itoa on numbers that are not negative. */
  function Decimal(n: nat): (r: string)
    ensures r != ""
  {
    if n < 10 then [Digit(n)] else Decimal(n / 10) + [Digit(n % 10)]
  }

  function DigitValue(c: char): Option<nat> {
    if '0' <= c <= '9' then Some((c - '0') as nat)
    else if 'a' <= c <= 'f' then Some((c - 'a') as nat + 10)
    else if 'A' <= c <= 'F' then Some((c - 'A') as nat + 10)
    else None
  }

  function Digits(s: string, base: nat): Option<nat> {
    if s == "" then Some(0)
    else
      match Digits(s[..|s| - 1], base)
      case None => None
      case Some(front) =>
        match DigitValue(s[|s| - 1])
        case None => None
        case Some(d) => if d < base then Some(front * base + d) else None
  }

  /** strconv.ParseUint: digits only, within the width. */
  function ParseUint(s: string, base: nat, bits: nat): Option<nat> {
    if s == "" then None
    else
      match Digits(s, base)
      case None => None
      case Some(n) => if n < Limit(bits) then Some(n) else None
  }

  /** The first number that does not fit. */
  function Limit(bits: nat): nat {
    if bits == 32 then 4294967296 else 65536
  }

  predicate AllDigits(s: string) {
    forall i :: 0 <= i < |s| ==> '0' <= s[i] <= '9'
  }

  lemma {:induction false} DecimalIsDigits(n: nat)
    ensures AllDigits(Decimal(n))
  {
    if n >= 10 {
      DecimalIsDigits(n / 10);
    }
  }

  lemma {:induction false} DecimalReadsBack(n: nat)
    ensures Digits(Decimal(n), 10) == Some(n)
  {
    if n < 10 {
      assert Decimal(n)[..0] == "";
      assert Digits("", 10) == Some(0);
      assert DigitValue(Digit(n)) == Some(n);
    } else {
      DecimalReadsBack(n / 10);
      var s := Decimal(n);
      assert s[..|s| - 1] == Decimal(n / 10);
      assert DigitValue(Digit(n % 10)) == Some(n % 10);
    }
  }

  // ---------- ranges ----------

  predicate IsHex(s: string) {
    |s| > 2 && s[0] == '0' && (s[1] == 'x' || s[1] == 'X')
  }

  function ParseU32(raw: string): Option<nat> {
    var s := TrimSpace(raw);
    if IsHex(s) then ParseUint(s[2..], 16, 32) else ParseUint(s, 10, 32)
  }

  /** One bound of a range; only 32-bit bounds may be hexadecimal. */
  function ParseBound(s: string, bits: nat): Option<nat> {
    if bits == 32 then ParseU32(s) else ParseUint(TrimSpace(s), 10, bits)
  }

  datatype Interval = Interval(low: nat, high: nat)

  /** numericRange. */
  function NumericRange(s: string, bits: nat): Option<Interval> {
    var parts := Split(TrimSpace(s), '-');
    if |parts| > 2 then None
    else
      var a := ParseBound(parts[0], bits);
      var b := ParseBound(parts[|parts| - 1], bits);
      if a.Some? && b.Some? && a.value <= b.value then Some(Interval(a.value, b.value)) else None
  }

  /** wireRange: the normal form of a number or range; anything else is only trimmed. */
  function WireRange(s: string, bits: nat): string {
    var r := NumericRange(s, bits);
    if r.None? then TrimSpace(s)
    else if '-' in s then Decimal(r.value.low) + "-" + Decimal(r.value.high)
    else Decimal(r.value.low)
  }

  // ---------- the normal form ----------

  lemma DigitsAreTrimmed(s: string)
    requires AllDigits(s)
    ensures TrimSpace(s) == s && !IsHex(s) && '-' !in s
  {
    TrimOfTrimmed(s);
  }

  lemma BoundReadsBack(n: nat, bits: nat)
    requires n < Limit(bits)
    ensures ParseBound(Decimal(n), bits) == Some(n)
  {
    hide TrimSpace, Digits, Decimal;
    DecimalIsDigits(n);
    DecimalReadsBack(n);
    DigitsAreTrimmed(Decimal(n));
  }

  lemma BoundsFit(s: string, bits: nat)
    requires bits == 16 || bits == 32
    ensures ParseBound(s, bits).Some? ==> ParseBound(s, bits).value < Limit(bits)
  {
    hide TrimSpace, Digits;
  }

  /** Writing an interval and reading it gives the interval. */
  lemma RangeReadsBack(a: nat, b: nat, bits: nat)
    requires a <= b && a < Limit(bits) && b < Limit(bits)
    ensures NumericRange(Decimal(a) + "-" + Decimal(b), bits) == Some(Interval(a, b))
    ensures NumericRange(Decimal(a), bits) == Some(Interval(a, a))
  {
    hide TrimSpace, Split, ParseBound, Decimal;
    DecimalIsDigits(a);
    DecimalIsDigits(b);
    BoundReadsBack(a, bits);
    BoundReadsBack(b, bits);
    DigitsAreTrimmed(Decimal(a));
    SplitWithout(Decimal(a), '-');
    SplitWithout(Decimal(b), '-');
    var s := Decimal(a) + "-" + Decimal(b);
    assert s[0] == Decimal(a)[0] && s[|s| - 1] == Decimal(b)[|Decimal(b)| - 1];
    assert Trimmed(s);
    TrimOfTrimmed(s);
    SplitAppends(Decimal(a), Decimal(b), '-');
    assert "-" == ['-'];
  }

  lemma {:induction false} TrimLeftKeeps(s: string, c: char)
    requires !IsSpace(c)
    ensures c in TrimLeft(s) <==> c in s
  {
    if s != "" && IsSpace(s[0]) {
      TrimLeftKeeps(s[1..], c);
      assert s == [s[0]] + s[1..];
    }
  }

  lemma {:induction false} TrimRightKeeps(s: string, c: char)
    requires !IsSpace(c)
    ensures c in TrimRight(s) <==> c in s
  {
    if s != "" && IsSpace(s[|s| - 1]) {
      TrimRightKeeps(s[..|s| - 1], c);
      assert s == s[..|s| - 1] + [s[|s| - 1]];
    }
  }

  lemma TrimSpaceKeeps(s: string, c: char)
    requires !IsSpace(c)
    ensures c in TrimSpace(s) <==> c in s
  {
    TrimLeftKeeps(s, c);
    TrimRightKeeps(TrimLeft(s), c);
  }

  /** A number without a dash denotes one value. */
  lemma NoDashOneValue(s: string, bits: nat)
    requires NumericRange(s, bits).Some? && '-' !in s
    ensures NumericRange(s, bits).value.low == NumericRange(s, bits).value.high
  {
    hide TrimSpace, ParseBound, Split;
    TrimSpaceKeeps(s, '-');
    OnePieceWithoutSeparators(TrimSpace(s), '-');
  }

  lemma RangeFits(s: string, bits: nat)
    requires (bits == 16 || bits == 32) && NumericRange(s, bits).Some?
    ensures var r := NumericRange(s, bits).value;
            r.low <= r.high < Limit(bits)
  {
    hide TrimSpace, ParseBound, Split;
    var parts := Split(TrimSpace(s), '-');
    BoundsFit(parts[0], bits);
    BoundsFit(parts[|parts| - 1], bits);
  }

  /** The normal form denotes the same interval. */
  lemma WireRangeKeepsInterval(s: string, bits: nat)
    requires bits == 16 || bits == 32
    ensures NumericRange(WireRange(s, bits), bits) == NumericRange(s, bits)
  {
    var r := NumericRange(s, bits);
    if r.None? {
      hide TrimSpace, Split, ParseBound;
      TrimSpaceTrims(s);
    } else {
      RangeFits(s, bits);
      RangeReadsBack(r.value.low, r.value.high, bits);
      if '-' !in s {
        NoDashOneValue(s, bits);
      }
    }
  }

  /** Normalising twice changes nothing. */
  lemma WireRangeIsIdempotent(s: string, bits: nat)
    requires bits == 16 || bits == 32
    ensures WireRange(WireRange(s, bits), bits) == WireRange(s, bits)
  {
    hide TrimSpace, NumericRange, Decimal;
    WireRangeKeepsInterval(s, bits);
    var r := NumericRange(s, bits);
    if r.None? {
      TrimSpaceTrims(s);
    } else {
      DecimalIsDigits(r.value.low);
      DigitsAreTrimmed(Decimal(r.value.low));
      assert '-' in "-";
    }
  }

  /** A number or range in normal form. */
  predicate Normal(v: string, bits: nat) {
    NumericRange(v, bits).Some? && WireRange(v, bits) == v && TrimSpace(v) == v
  }

  lemma RangeIsTrimmed(a: nat, b: nat)
    ensures TrimSpace(Decimal(a) + "-" + Decimal(b)) == Decimal(a) + "-" + Decimal(b)
  {
    hide Decimal;
    DecimalIsDigits(a);
    DecimalIsDigits(b);
    var s := Decimal(a) + "-" + Decimal(b);
    assert s[0] == Decimal(a)[0] && s[|s| - 1] == Decimal(b)[|Decimal(b)| - 1];
    TrimOfTrimmed(s);
  }

  /** What wireRange makes of a range is normal. */
  lemma WireRangeIsNormal(s: string, bits: nat)
    requires (bits == 16 || bits == 32) && NumericRange(WireRange(s, bits), bits).Some?
    ensures Normal(WireRange(s, bits), bits)
  {
    hide TrimSpace, NumericRange, Decimal;
    WireRangeKeepsInterval(s, bits);
    WireRangeIsIdempotent(s, bits);
    var r := NumericRange(s, bits).value;
    RangeIsTrimmed(r.low, r.high);
    DecimalIsDigits(r.low);
    DigitsAreTrimmed(Decimal(r.low));
  }

  /** A decimal number that fits is normal and denotes itself. */
  lemma DecimalIsNormal(n: nat, bits: nat)
    requires (bits == 16 || bits == 32) && NumericRange(Decimal(n), bits).Some?
    ensures Normal(Decimal(n), bits) && NumericRange(Decimal(n), bits).value.low == n
  {
    hide TrimSpace, Digits, Split, Decimal;
    DecimalIsDigits(n);
    DecimalReadsBack(n);
    DigitsAreTrimmed(Decimal(n));
    SplitWithout(Decimal(n), '-');
  }

  /** A normal text without a dash is a decimal number. */
  lemma NormalWithoutDash(v: string, bits: nat)
    requires Normal(v, bits) && '-' !in v
    ensures v == Decimal(NumericRange(v, bits).value.low)
  {
  }

  lemma NegativeIsNoRange(d: string)
    requires AllDigits(d)
    ensures NumericRange("-" + d, 16).None?
  {
    hide TrimSpace, Digits;
    var s := "-" + d;
    if d != "" {
      assert s[|s| - 1] == d[|d| - 1];
    }
    assert Trimmed(s);
    TrimOfTrimmed(s);
    assert s == "" + ['-'] + d;
    SplitAppends("", d, '-');
    SplitWithout(d, '-');
    assert Split("", '-') == [""];
    TrimOfTrimmed("");
  }

  // ---------- headers ----------

  /** validHeader, which cuts at the first dash instead of at every dash. */
  predicate ValidHeader(raw: string) {
    var s := TrimSpace(raw);
    && s != ""
    && var i := IndexOf(s, '-');
       if i < |s| then
         var a, b := ParseU32(TrimSpace(s[..i])), ParseU32(TrimSpace(s[i + 1..]));
         a.Some? && b.Some? && a.value <= b.value
       else ParseU32(s).Some?
  }

  lemma {:induction false} DashIsNoNumber(s: string, base: nat)
    requires '-' in s
    ensures Digits(s, base).None?
  {
    assert s == s[..|s| - 1] + [s[|s| - 1]];
    if s[|s| - 1] != '-' {
      DashIsNoNumber(s[..|s| - 1], base);
    }
  }

  lemma DashIsNoBound(s: string)
    requires '-' in s
    ensures ParseU32(s).None?
  {
    hide TrimSpace, Digits;
    TrimSpaceKeeps(s, '-');
    var t := TrimSpace(s);
    DashIsNoNumber(t, 10);
    if IsHex(t) {
      assert t == t[..2] + t[2..];
      DashIsNoNumber(t[2..], 16);
    }
  }

  lemma ParseTrimmed(s: string)
    ensures ParseU32(TrimSpace(s)) == ParseU32(s)
  {
    hide TrimSpace, Digits;
    TrimSpaceTrims(s);
  }

  /** Both ways of reading a header accept the same texts. */
  lemma HeadersAreRanges(raw: string)
    ensures ValidHeader(raw) <==> NumericRange(raw, 32).Some?
  {
    hide TrimSpace, ParseU32, Split;
    var s := TrimSpace(raw);
    var i := IndexOf(s, '-');
    if i < |s| {
      var a, b := s[..i], s[i + 1..];
      assert s == a + ['-'] + b;
      SplitAppends(a, b, '-');
      SplitWithout(a, '-');
      OnePieceWithoutSeparators(b, '-');
      ParseTrimmed(a);
      ParseTrimmed(b);
      if '-' in b {
        DashIsNoBound(b);
      } else {
        SplitWithout(b, '-');
      }
    } else {
      assert '-' !in s;
      SplitWithout(s, '-');
      ParseTrimmed(raw);
      if s == "" {
        EmptyIsNoNumber();
      }
      TrimSpaceTrims(raw);
    }
  }

  lemma EmptyIsNoNumber()
    ensures ParseU32("").None?
  {
  }
}
