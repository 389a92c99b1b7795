/** Timestamps as text (src/time_util.rs): RFC 3339 out, ISO 8601 in. Text is
    its octets. */
module Timestamps {
  import opened Octets
  import opened Calendar

  const HYPHEN: byte := 45
  const PLUS: byte := 43
  const COLON: byte := 58
  const POINT: byte := 46
  const COMMA: byte := 44
  const ZERO: byte := 48
  const LETTER_T: byte := 84
  const LETTER_Z: byte := 90

  const DAY: int := 86_400
  const NANOS: int := 1_000_000_000

  // ---- Decimal numbers.

  predicate IsDigit(b: byte) { 48 <= b <= 57 }

  predicate AllDigits(s: octets) { forall i :: 0 <= i < |s| ==> IsDigit(s[i]) }

  function Pow10(k: nat): nat { if k == 0 then 1 else 10 * Pow10(k - 1) }

  function Zeros(k: nat): (s: octets)
    ensures |s| == k && forall i :: 0 <= i < k ==> s[i] == ZERO
  {
    if k == 0 then [] else [ZERO] + Zeros(k - 1)
  }

  /** The decimal digits of a number, without leading zeros. */
  function Decimal(n: nat): (s: octets)
    ensures |s| >= 1 && AllDigits(s)
  {
    var last := ZERO + (n % 10) as byte;
    if n < 10 then [last] else Decimal(n / 10) + [last]
  }

  /** At least `w` characters, zeros going in after a minus sign. */
  function Padded(n: int, w: nat): octets
  {
    if n < 0 then [HYPHEN] + Zeros(if w > 1 + |Decimal(-n)| then w - 1 - |Decimal(-n)| else 0) + Decimal(-n)
    else Zeros(if w > |Decimal(n)| then w - |Decimal(n)| else 0) + Decimal(n)
  }

  function DigitsValue(s: octets): nat
    requires AllDigits(s)
  {
    if s == [] then 0 else 10 * DigitsValue(s[..|s| - 1]) + (s[|s| - 1] - ZERO) as int
  }

  /** What parsing text as an unsigned integer yields: a plus sign may lead. */
  function UnsignedOf(s: octets): Option<nat>
  {
    var digits := if s != [] && s[0] == PLUS then s[1..] else s;
    if digits == [] || !AllDigits(digits) then None else Some(DigitsValue(digits))
  }

  /** As a signed integer: a sign may lead. */
  function SignedOf(s: octets): Option<int>
  {
    if s != [] && s[0] == HYPHEN then
      if |s| == 1 || !AllDigits(s[1..]) then None
      else
        var n: int := DigitsValue(s[1..]);
        Some(-n)
    else
      match UnsignedOf(s)
      case None => None
      case Some(n) => Some(n)
  }

  // ---- Formatting.

  function FractionText(nanos: nat): octets
  {
    if nanos == 0 then []
    else if nanos % 1_000_000 == 0 then [POINT] + Padded(nanos / 1_000_000, 3)
    else if nanos % 1_000 == 0 then [POINT] + Padded(nanos / 1_000, 6)
    else [POINT] + Padded(nanos, 9)
  }

  function DateText(t: Date): octets
  {
    Padded(t.year, 4) + [HYPHEN] + Padded(t.month, 2) + [HYPHEN] + Padded(t.day, 2)
  }

  function ClockText(rem: nat): octets
  {
    Padded(rem / 3600, 2) + [COLON] + Padded(rem % 3600 / 60, 2) + [COLON] + Padded(rem % 60, 2)
  }

  function Format(secs: int, nanos: nat): octets
  {
    DateText(CivilFromDays(secs / DAY)) + [LETTER_T] + ClockText(secs % DAY) + FractionText(nanos) + [LETTER_Z]
  }

  method FormatRfc3339(secs: int, nanos: nat) returns (out: octets)
    ensures out == Format(secs, nanos)
  {
    hide CivilFromDays, Padded;
    var t, rem := CivilFromDays(secs / DAY), secs % DAY;
    out := DateText(t) + [LETTER_T] + ClockText(rem);
    if nanos != 0 {
      if nanos % 1_000_000 == 0 {
        out := out + ([POINT] + Padded(nanos / 1_000_000, 3));
      } else if nanos % 1_000 == 0 {
        out := out + ([POINT] + Padded(nanos / 1_000, 6));
      } else {
        out := out + ([POINT] + Padded(nanos, 9));
      }
    } else {
      assert out + [] == out;
    }
    out := out + [LETTER_Z];
  }

  // ---- Parsing.

  predicate IsSpace(b: byte) { b == 32 || 9 <= b <= 13 }

  function Trim(s: octets): (r: octets)
    ensures |r| <= |s|
    decreases |s|
  {
    if s == [] then []
    else if IsSpace(s[0]) then Trim(s[1..])
    else if IsSpace(s[|s| - 1]) then Trim(s[..|s| - 1])
    else s
  }

  /** The seconds up to the date that ten characters name. */
  function DateSeconds(s: octets): Option<int>
    requires |s| == 10
  {
    var y, mo, d := SignedOf(s[..4]), UnsignedOf(s[5..7]), UnsignedOf(s[8..10]);
    if y.None? || s[4] != HYPHEN || mo.None? || s[7] != HYPHEN || d.None? then None
    else if !(1 <= mo.value <= 12) || !(1 <= d.value <= 31) then None
    else Some(DaysFromCivil(Date(y.value, mo.value, d.value)) * DAY)
  }

  /** Hours, minutes and, if they are there, seconds; and what follows. */
  function ClockFrom(s: octets): Option<(int, octets)>
  {
    if |s| < 5 then None
    else
      var h, mi := SignedOf(s[..2]), SignedOf(s[3..5]);
      if h.None? || mi.None? || s[2] != COLON || h.value > 23 || mi.value > 59 then None
      else if |s| == 5 || s[5] != COLON then Some((h.value * 3600 + mi.value * 60, s[5..]))
      else if |s| < 8 then None
      else
        var sec := SignedOf(s[6..8]);
        if sec.None? || sec.value > 60 then None
        else Some((h.value * 3600 + mi.value * 60 + sec.value, s[8..]))
  }

  function LeadingDigits(s: octets): (r: octets)
    ensures |r| <= |s| && r == s[..|r|] && AllDigits(r)
    ensures |r| < |s| ==> !IsDigit(s[|r|])
  {
    if s == [] || !IsDigit(s[0]) then [] else [s[0]] + LeadingDigits(s[1..])
  }

  /** A fraction cut or filled to nine digits. */
  function NineDigits(digits: octets): (r: octets)
    requires AllDigits(digits)
    ensures |r| == 9 && AllDigits(r)
  {
    if |digits| >= 9 then digits[..9] else digits + Zeros(9 - |digits|)
  }

  function FractionFrom(s: octets): Option<(nat, octets)>
  {
    if s == [] || (s[0] != POINT && s[0] != COMMA) then Some((0, s))
    else
      var digits := LeadingDigits(s[1..]);
      if digits == [] then None else Some((DigitsValue(NineDigits(digits)), s[1 + |digits|..]))
  }

  /** The seconds a zone adds to reach UTC. */
  function ZoneFrom(s: octets): Option<int>
  {
    if s == [] || s[0] == LETTER_Z || s[0] == 122 then Some(0)
    else if s[0] != PLUS && s[0] != HYPHEN then None
    else if |s| < 3 then None
    else
      var oh := SignedOf(s[1..3]);
      var om := if |s| >= 6 then SignedOf(s[4..6]) else if |s| == 5 then SignedOf(s[3..5]) else Some(0);
      if oh.None? || om.None? then None
      else
        var offset := oh.value * 3600 + om.value * 60;
        Some(if s[0] == PLUS then -offset else offset)
  }

  function TimeFrom(secs: int, s: octets): Option<(int, nat)>
  {
    match ClockFrom(s)
    case None => None
    case Some((clock, rest)) =>
      match FractionFrom(rest)
      case None => None
      case Some((nanos, zone)) =>
        match ZoneFrom(zone)
        case None => None
        case Some(shift) => Some((secs + clock + shift, nanos))
  }

  function Parse(text: octets): Option<(int, nat)>
  {
    var s := Trim(text);
    if |s| < 10 then None
    else
      match DateSeconds(s[..10])
      case None => None
      case Some(secs) =>
        if |s| == 10 then Some((secs, 0))
        else if s[10] == LETTER_T || s[10] == 116 || s[10] == 32 then TimeFrom(secs, s[11..])
        else None
  }

  method ScanDigits(s: octets) returns (n: nat)
    ensures n == |LeadingDigits(s)|
  {
    n := 0;
    while n < |s| && IsDigit(s[n])
      invariant 0 <= n <= |s|
      invariant |LeadingDigits(s)| == n + |LeadingDigits(s[n..])|
    {
      assert s[n..][1..] == s[n + 1..];
      n := n + 1;
    }
  }

  /** Scales a fraction to nine digits: what is beyond them goes, and zeros
      are pushed until there are nine. */
  method ScaleFraction(digits: octets) returns (frac: octets)
    requires AllDigits(digits)
    ensures frac == NineDigits(digits)
  {
    frac := digits[..if |digits| < 9 then |digits| else 9];
    ghost var n := |frac|;
    assert frac == digits[..n] + Zeros(0);
    while |frac| < 9
      invariant n <= |frac| <= 9
      invariant frac == digits[..n] + Zeros(|frac| - n)
    {
      ZerosLast(|frac| - n);
      frac := frac + [ZERO];
    }
    assert digits[..n] == if |digits| < 9 then digits else digits[..9];
  }

  method ParseFraction(s: octets) returns (r: Option<(nat, octets)>)
    ensures r == FractionFrom(s)
  {
    hide DigitsValue, NineDigits;
    if s == [] || (s[0] != POINT && s[0] != COMMA) {
      return Some((0, s));
    }
    var n := ScanDigits(s[1..]);
    var digits := s[1..][..n];
    if digits == [] {
      return None;
    }
    var frac := ScaleFraction(digits);
    return Some((DigitsValue(frac), s[1 + n..]));
  }

  lemma {:induction false} ZerosLast(k: nat)
    ensures Zeros(k) + [ZERO] == Zeros(k + 1)
  {
  }

  method ParseIso8601(text: octets) returns (r: Option<(int, nat)>)
    ensures r == Parse(text)
  {
    hide Trim, DateSeconds, ClockFrom, FractionFrom, ZoneFrom;
    var s := Trim(text);
    if |s| < 10 { return None; }
    var date := DateSeconds(s[..10]);
    if date.None? { return None; }
    var secs, nanos := date.value, 0;
    if |s| == 10 { return Some((secs, 0)); }
    if s[10] != LETTER_T && s[10] != 116 && s[10] != 32 { return None; }
    var clock := ClockFrom(s[11..]);
    if clock.None? { return None; }
    secs := secs + clock.value.0;
    var rest := clock.value.1;
    var fraction := ParseFraction(rest);
    if fraction.None? { return None; }
    nanos, rest := fraction.value.0, fraction.value.1;
    var zone := ZoneFrom(rest);
    if zone.None? { return None; }
    secs := secs + zone.value;
    return Some((secs, nanos));
  }

  // ---- Numbers come back.

  lemma {:induction false} DecimalLength(n: nat, w: nat)
    requires w >= 1
    ensures |Decimal(n)| <= w <==> n < Pow10(w)
    decreases w
  {
    if n >= 10 && w > 1 {
      DecimalLength(n / 10, w - 1);
    } else if n >= 10 {
      assert Pow10(1) == 10;
    } else {
      Pow10AtLeast(w);
    }
  }

  lemma {:induction false} Pow10AtLeast(w: nat)
    requires w >= 1
    ensures Pow10(w) >= 10
  {
    if w > 1 { Pow10AtLeast(w - 1); }
  }

  lemma {:induction false} DecimalValue(n: nat)
    ensures DigitsValue(Decimal(n)) == n
  {
    if n >= 10 {
      DecimalValue(n / 10);
      assert Decimal(n)[..|Decimal(n)| - 1] == Decimal(n / 10);
    } else {
      assert Decimal(n)[..0] == [];
    }
  }

  lemma {:induction false} LeadingZeros(k: nat, s: octets)
    requires AllDigits(s)
    ensures AllDigits(Zeros(k) + s) && DigitsValue(Zeros(k) + s) == DigitsValue(s)
    decreases |s|, k
  {
    var t := Zeros(k) + s;
    if s != [] {
      assert t[..|t| - 1] == Zeros(k) + s[..|s| - 1];
      LeadingZeros(k, s[..|s| - 1]);
    } else if k > 0 {
      ZerosLast(k - 1);
      assert t[..k - 1] == Zeros(k - 1) + [];
      LeadingZeros(k - 1, []);
    }
  }

  /** A number that fits is padded to exactly the width and comes back. */
  lemma PaddedReads(n: nat, w: nat)
    requires 1 <= w && n < Pow10(w)
    ensures |Padded(n, w)| == w && AllDigits(Padded(n, w)) && DigitsValue(Padded(n, w)) == n
    ensures UnsignedOf(Padded(n, w)) == Some(n) && SignedOf(Padded(n, w)) == Some(n)
  {
    DecimalLength(n, w);
    DecimalValue(n);
    LeadingZeros(w - |Decimal(n)|, Decimal(n));
  }

  lemma Powers()
    ensures Pow10(2) == 100 && Pow10(3) == 1000 && Pow10(4) == 10_000
    ensures Pow10(6) == 1_000_000 && Pow10(9) == NANOS
  {
    assert Pow10(1) == 10 && Pow10(2) == 100 && Pow10(3) == 1000 && Pow10(4) == 10_000 && Pow10(5) == 100_000;
    assert Pow10(6) == 1_000_000 && Pow10(7) == 10_000_000 && Pow10(8) == 100_000_000;
  }

  predicate FourCharacterYear(y: int) { -999 <= y <= 9999 }

  lemma YearAfterZero(y: nat)
    ensures var s := Padded(y, 4);
            && |s| >= 4 && AllDigits(s) && (|s| == 4 <==> y <= 9999)
            && (y <= 9999 ==> SignedOf(s) == Some(y))
  {
    hide DigitsValue;
    Powers();
    DecimalLength(y, 4);
    if y <= 9999 { PaddedReads(y, 4); }
  }

  lemma YearBeforeZero(n: int)
    requires n > 0
    ensures var s := Padded(-n, 4);
            && |s| >= 4 && s[0] == HYPHEN && AllDigits(s[1..]) && (|s| == 4 <==> n <= 999)
            && (n <= 999 ==> SignedOf(s) == Some(-n))
  {
    hide DigitsValue;
    Powers();
    DecimalLength(n, 3);
    var s := Padded(-n, 4);
    if n <= 999 {
      PaddedReads(n, 3);
      assert s[1..] == Padded(n, 3);
    } else {
      assert s == [HYPHEN] + [] + Decimal(n);
      assert s[1..] == Decimal(n);
    }
  }

  /** A year takes four characters exactly from -999 to 9999, and then reads back. */
  lemma YearReads(y: int)
    ensures |Padded(y, 4)| >= 4
    ensures |Padded(y, 4)| == 4 <==> FourCharacterYear(y)
    ensures FourCharacterYear(y) ==> SignedOf(Padded(y, 4)) == Some(y)
    ensures !FourCharacterYear(y) ==> IsDigit(Padded(y, 4)[4])
    ensures !IsSpace(Padded(y, 4)[0])
  {
    hide Padded, SignedOf;
    if y >= 0 {
      YearAfterZero(y);
    } else {
      YearBeforeZero(-y);
      assert forall k :: 1 <= k < |Padded(y, 4)| ==> Padded(y, 4)[k] == Padded(y, 4)[1..][k - 1];
    }
  }

  // ---- Parts come back.

  lemma DateReads(t: Date)
    requires ValidDate(t) && FourCharacterYear(t.year)
    ensures |DateText(t)| == 10 && DateSeconds(DateText(t)) == Some(DaysFromCivil(t) * DAY)
  {
    hide Padded, SignedOf, UnsignedOf, DaysFromCivil, IsLeap;
    Powers();
    YearReads(t.year);
    PaddedReads(t.month, 2);
    PaddedReads(t.day, 2);
    var s, y, m, d := DateText(t), Padded(t.year, 4), Padded(t.month, 2), Padded(t.day, 2);
    assert s[..4] == y && s[5..7] == m && s[8..10] == d;
  }

  /** A year of five characters or more leaves a digit where the hyphen belongs. */
  lemma LongYearFails(t: Date, rest: octets)
    requires !FourCharacterYear(t.year)
    ensures var s := DateText(t) + rest; |s| >= 10 ==> DateSeconds(s[..10]) == None
  {
    hide Padded, SignedOf, UnsignedOf, DaysFromCivil;
    YearReads(t.year);
    var s := DateText(t) + rest;
    assert s[4] == Padded(t.year, 4)[4];
  }

  lemma ClockReads(rem: nat, rest: octets)
    requires rem < DAY
    ensures |ClockText(rem)| == 8 && ClockFrom(ClockText(rem) + rest) == Some((rem, rest))
  {
    hide Padded, SignedOf, UnsignedOf;
    Powers();
    var h, mi, sec := rem / 3600, rem % 3600 / 60, rem % 60;
    PaddedReads(h, 2);
    PaddedReads(mi, 2);
    PaddedReads(sec, 2);
    var s := ClockText(rem) + rest;
    assert s[..2] == Padded(h, 2) && s[3..5] == Padded(mi, 2) && s[6..8] == Padded(sec, 2) && s[8..] == rest;
    assert h * 3600 + mi * 60 + sec == rem;
  }

  lemma {:induction false} LeadingDigitsOf(digits: octets, rest: octets)
    requires AllDigits(digits) && (rest == [] || !IsDigit(rest[0]))
    ensures LeadingDigits(digits + rest) == digits
  {
    if digits != [] {
      LeadingDigitsOf(digits[1..], rest);
      assert (digits + rest)[1..] == digits[1..] + rest;
    } else {
      assert digits + rest == rest;
    }
  }

  lemma {:induction false} TrailingZeros(s: octets, k: nat)
    requires AllDigits(s)
    ensures AllDigits(s + Zeros(k)) && DigitsValue(s + Zeros(k)) == DigitsValue(s) * Pow10(k)
    decreases k
  {
    if k > 0 {
      TrailingZeros(s, k - 1);
      ZerosLast(k - 1);
      var t := s + Zeros(k);
      assert t[..|t| - 1] == s + Zeros(k - 1);
      assert 10 * (DigitsValue(s) * Pow10(k - 1)) == DigitsValue(s) * (10 * Pow10(k - 1));
    } else {
      assert s + Zeros(0) == s;
    }
  }

  lemma FractionPartReads(n: nat, w: nat, rest: octets)
    requires 1 <= w <= 9 && n < Pow10(w) && (rest == [] || !IsDigit(rest[0]))
    ensures FractionFrom([POINT] + Padded(n, w) + rest) == Some((n * Pow10(9 - w), rest))
  {
    hide Padded, DigitsValue, Pow10;
    PaddedReads(n, w);
    var digits := Padded(n, w);
    var s := [POINT] + digits + rest;
    assert s[1..] == digits + rest;
    LeadingDigitsOf(digits, rest);
    TrailingZeros(digits, 9 - w);
    assert s[1 + w..] == rest;
    assert NineDigits(digits) == digits + Zeros(9 - w);
  }

  lemma FractionReads(nanos: nat)
    requires nanos < NANOS
    ensures FractionFrom(FractionText(nanos) + [LETTER_Z]) == Some((nanos, [LETTER_Z]))
  {
    hide Padded;
    Powers();
    assert Pow10(0) == 1;
    if nanos == 0 {
      assert [] + [LETTER_Z] == [LETTER_Z];
    } else if nanos % 1_000_000 == 0 {
      FractionPartReads(nanos / 1_000_000, 3, [LETTER_Z]);
    } else if nanos % 1_000 == 0 {
      FractionPartReads(nanos / 1_000, 6, [LETTER_Z]);
    } else {
      FractionPartReads(nanos, 9, [LETTER_Z]);
    }
  }

  // ---- The text comes back.

  lemma {:induction false} DigitsBelow(s: octets)
    requires AllDigits(s)
    ensures DigitsValue(s) < Pow10(|s|)
  {
    if s != [] { DigitsBelow(s[..|s| - 1]); }
  }

  /** Whatever is read, the nanoseconds are below one second. */
  lemma NanosBelowSecond(text: octets)
    ensures Parse(text).Some? ==> Parse(text).value.1 < NANOS
  {
    hide Trim, DateSeconds, ClockFrom, ZoneFrom, DigitsValue;
    Powers();
    var s := Trim(text);
    if |s| > 10 && ClockFrom(s[11..]).Some? {
      var rest := ClockFrom(s[11..]).value.1;
      if rest != [] && FractionFrom(rest).Some? {
        DigitsBelow(NineDigits(LeadingDigits(rest[1..])));
      }
    }
  }

  lemma FormatTrimmed(secs: int, nanos: nat)
    ensures Trim(Format(secs, nanos)) == Format(secs, nanos)
  {
    hide CivilFromDays, ClockText, FractionText;
    var t := CivilFromDays(secs / DAY);
    YearReads(t.year);
    var s := Format(secs, nanos);
    assert s[0] == Padded(t.year, 4)[0];
    assert s[|s| - 1] == LETTER_Z;
  }

  lemma FormatReads(secs: int, nanos: nat)
    requires FourCharacterYear(CivilFromDays(secs / DAY).year) && nanos < NANOS
    ensures Parse(Format(secs, nanos)) == Some((secs, nanos))
  {
    hide CivilFromDays, DaysFromCivil, Trim, DateText, ClockText, FractionText, DateSeconds, ClockFrom, FractionFrom;
    var t, rem := CivilFromDays(secs / DAY), secs % DAY;
    DaysOfCivil(secs / DAY);
    DateReads(t);
    FormatTrimmed(secs, nanos);
    var tail := FractionText(nanos) + [LETTER_Z];
    ClockReads(rem, tail);
    FractionReads(nanos);
    var s := Format(secs, nanos);
    assert s == DateText(t) + [LETTER_T] + (ClockText(rem) + tail);
    assert s[..10] == DateText(t) && s[11..] == ClockText(rem) + tail && s[10] == LETTER_T;
    assert ZoneFrom([LETTER_Z]) == Some(0);
  }

  lemma FormatFails(secs: int, nanos: nat)
    requires !FourCharacterYear(CivilFromDays(secs / DAY).year)
    ensures Parse(Format(secs, nanos)) == None
  {
    hide CivilFromDays, Trim, DateText, ClockText, FractionText, DateSeconds;
    var t := CivilFromDays(secs / DAY);
    var rest := [LETTER_T] + ClockText(secs % DAY) + FractionText(nanos) + [LETTER_Z];
    FormatTrimmed(secs, nanos);
    assert Format(secs, nanos) == DateText(t) + rest;
    LongYearFails(t, rest);
  }

  /** A formatted time reads back as itself exactly when its year is from -999
      to 9999 and its nanoseconds are a fraction of a second. */
  lemma ParseOfFormat(secs: int, nanos: nat)
    ensures Parse(Format(secs, nanos)) == Some((secs, nanos)) <==>
              FourCharacterYear(CivilFromDays(secs / DAY).year) && nanos < NANOS
    ensures !FourCharacterYear(CivilFromDays(secs / DAY).year) ==> Parse(Format(secs, nanos)) == None
  {
    hide Parse, Format, CivilFromDays;
    if !FourCharacterYear(CivilFromDays(secs / DAY).year) {
      FormatFails(secs, nanos);
    } else if nanos < NANOS {
      FormatReads(secs, nanos);
    } else {
      NanosBelowSecond(Format(secs, nanos));
    }
  }

  /** The year 10000 begins with the first time that does not read back. */
  lemma YearTenThousandExample()
    ensures Parse(Format(253402300799, 0)) == Some((253402300799, 0)) && Parse(Format(253402300800, 0)) == None
  {
    hide Parse, Format, CivilFromDays, DaysFromCivil;
    TenThousandDays();
    CivilOfDays(Date(9999, 12, 31));
    CivilOfDays(Date(10000, 1, 1));
    ParseOfFormat(253402300799, 0);
    ParseOfFormat(253402300800, 0);
  }

  lemma TenThousandDays()
    ensures DaysFromCivil(Date(9999, 12, 31)) == 2932896 && DaysFromCivil(Date(10000, 1, 1)) == 2932897
  {
    assert TDiv(9999, 400) == 24 && TDiv(1379, 5) == 275 && TDiv(1532, 5) == 306;
  }
}
