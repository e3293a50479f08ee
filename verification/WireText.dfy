/** apps/api/internal/executionhttp/wire.go: how PostgreSQL numerics and times of day are written, and read back. */
module WireText {
  import opened Prelude
  import opened Decimal

  datatype Infinity = Finite | Positive | Negative

  // pgtype.Numeric; coefficient is None when there is none.
  datatype Numeric = Numeric(valid: bool, nan: bool, infinity: Infinity, coefficient: Option<int>, exp: int)

  function PointInserted(s: string, places: nat): (r: string)
    requires places > 0
    ensures r != []
  {
    if places >= |s| then "0." + Zeros(places - |s|) + s else s[..|s| - places] + "." + s[|s| - places..]
  }

  // The text of i * 10^exp.
  function DecimalText(i: int, exp: int): string
  {
    if exp == 0 then IntText(i)
    else
      var s := Digits(if i < 0 then -i else i);
      var t := if exp > 0 then s + Zeros(exp) else PointInserted(s, -exp);
      if i < 0 then "-" + t else t
  }

  // pgNumericString, which takes the sign off the printed integer and puts it back at the end.
  method PgNumericString(n: Numeric) returns (r: Option<string>)
    ensures !n.valid ==> r == None
    ensures n.valid && n.nan ==> r == Some("NaN")
    ensures n.valid && !n.nan && n.infinity.Positive? ==> r == Some("Infinity")
    ensures n.valid && !n.nan && n.infinity.Negative? ==> r == Some("-Infinity")
    ensures n.valid && !n.nan && n.infinity.Finite? ==>
      r == if n.coefficient.None? then None else Some(DecimalText(n.coefficient.value, n.exp))
  {
    if !n.valid {
      return None;
    }
    if n.nan {
      return Some("NaN");
    }
    match n.infinity {
      case Negative => return Some("-Infinity");
      case Positive => return Some("Infinity");
      case Finite =>
    }
    if n.coefficient.None? {
      return None;
    }
    var i := n.coefficient.value;
    if n.exp == 0 {
      return Some(IntText(i));
    }
    var s := IntText(i);
    assert i >= 0 ==> IsDigit(s[0]);
    var neg := s[0] == '-';
    if neg {
      s := s[1..];
    }
    if n.exp > 0 {
      s := s + Zeros(n.exp);
    } else {
      var exp := -n.exp;
      if exp >= |s| {
        s := "0." + Zeros(exp - |s|) + s;
      } else {
        var idx := |s| - exp;
        s := s[..idx] + "." + s[idx..];
      }
    }
    if neg {
      s := "-" + s;
    }
    return Some(s);
  }

  // ---- Reading a decimal back: its coefficient and exponent ----

  function Point(s: string): (n: nat)
    ensures n <= |s| && (n < |s| ==> s[n] == '.') && forall i :: 0 <= i < n ==> s[i] != '.'
  {
    if s == [] || s[0] == '.' then 0 else 1 + Point(s[1..])
  }

  datatype Number = Number(coefficient: int, exp: int)

  function ParseUnsigned(s: string): Option<Number>
  {
    var p := Point(s);
    if p == |s| then (if s != [] && AllDigits(s) then Some(Number(Value(s), 0)) else None)
    else if p > 0 && AllDigits(s[..p] + s[p + 1..]) then Some(Number(Value(s[..p] + s[p + 1..]), p + 1 - |s|))
    else None
  }

  function ParseDecimal(s: string): Option<Number>
  {
    if s != [] && s[0] == '-' then
      match ParseUnsigned(s[1..]) case None => None case Some(r) => Some(Number(-r.coefficient, r.exp))
    else ParseUnsigned(s)
  }

  lemma NoPoint(s: string)
    requires AllDigits(s) && s != []
    ensures ParseUnsigned(s) == Some(Number(Value(s), 0)) && s[0] != '-'
  {
    hide Value, Point;
    assert forall i :: 0 <= i < |s| ==> IsDigit(s[i]);
    assert Point(s) == |s|;
  }

  lemma {:induction false} PointBehind(a: string, b: string)
    requires AllDigits(a)
    ensures Point(a + "." + b) == |a|
  {
    if a != [] {
      PointBehind(a[1..], b);
      assert (a + "." + b)[1..] == a[1..] + "." + b && IsDigit(a[0]);
    }
  }

  lemma DigitsOfSum(a: string, b: string)
    ensures AllDigits(a + b) <==> AllDigits(a) && AllDigits(b)
  {
    if AllDigits(a + b) {
      forall i | 0 <= i < |a| ensures IsDigit(a[i]) {
        assert (a + b)[i] == a[i];
      }
      forall i | 0 <= i < |b| ensures IsDigit(b[i]) {
        assert (a + b)[|a| + i] == b[i];
      }
    }
  }

  lemma AroundPoint(a: string, b: string)
    ensures var s := a + "." + b;
      |s| == |a| + 1 + |b| && s[..|a|] == a && s[|a| + 1..] == b && (a != [] ==> s[0] == a[0])
  {
  }

  lemma OnePoint(a: string, b: string)
    requires AllDigits(a) && AllDigits(b) && a != []
    ensures AllDigits(a + b) && ParseUnsigned(a + "." + b) == Some(Number(Value(a + b), 0 - |b|)) && (a + "." + b)[0] != '-'
  {
    assert IsDigit(a[0]);
    hide Value, Point, AllDigits;
    DigitsOfSum(a, b);
    PointBehind(a, b);
    AroundPoint(a, b);
  }

  lemma OneZero()
    ensures Zeros(1) == "0" && AllDigits("0")
  {
    assert Zeros(0) == [];
  }

  // "0." and then the digits behind as many zeros as it takes.
  lemma LeadingPoint(s: string, zeros: nat)
    requires AllDigits(s)
    ensures ParseUnsigned("0." + Zeros(zeros) + s) == Some(Number(Value(s), 0 - zeros - |s|))
    ensures ("0." + Zeros(zeros) + s)[0] != '-'
  {
    hide Value, Zeros, ParseUnsigned, AllDigits, Pow10;
    var b := Zeros(zeros) + s;
    LeadingZeros(zeros, s);
    OneZero();
    LeadingZeros(1, b);
    OnePoint("0", b);
    assert "0." + Zeros(zeros) + s == "0" + "." + b;
  }

  lemma InnerPoint(s: string, idx: nat)
    requires AllDigits(s) && 0 < idx < |s|
    ensures ParseUnsigned(s[..idx] + "." + s[idx..]) == Some(Number(Value(s), idx - |s|))
    ensures (s[..idx] + "." + s[idx..])[0] != '-'
  {
    hide Value, ParseUnsigned, AllDigits;
    assert s[..idx] + s[idx..] == s;
    DigitsOfSum(s[..idx], s[idx..]);
    OnePoint(s[..idx], s[idx..]);
  }

  lemma PointRoundTrip(s: string, places: nat)
    requires AllDigits(s) && s != [] && places > 0
    ensures ParseUnsigned(PointInserted(s, places)) == Some(Number(Value(s), 0 - places)) && PointInserted(s, places)[0] != '-'
  {
    hide Value, ParseUnsigned, AllDigits, Zeros;
    if places >= |s| {
      LeadingPoint(s, places - |s|);
    } else {
      InnerPoint(s, |s| - places);
    }
  }

  lemma UnsignedRoundTrip(k: nat, exp: int)
    ensures ParseUnsigned(DecimalText(k, exp)) == Some(if exp <= 0 then Number(k, exp) else Number(k * Pow10(exp), 0))
    ensures DecimalText(k, exp) != [] && DecimalText(k, exp)[0] != '-'
  {
    hide Value, Zeros, ParseUnsigned, PointInserted, Digits, Pow10;
    var s := Digits(k);
    ValueOfDigits(k);
    if exp == 0 {
      NoPoint(s);
    } else if exp > 0 {
      ValueOfSum(s, Zeros(exp));
      ValueOfZeros(exp);
      NoPoint(s + Zeros(exp));
    } else {
      PointRoundTrip(s, -exp);
    }
  }

  lemma SignedText(i: int, exp: int)
    requires i < 0
    ensures DecimalText(i, exp) == "-" + DecimalText(-i, exp)
  {
    hide Zeros, PointInserted, Digits;
  }

  // A number with decimals, or a whole one, is read back as exactly the coefficient and exponent it was written from; a
  // number with trailing zeros implied as its full integer.
  lemma DecimalRoundTrip(i: int, exp: int)
    ensures ParseDecimal(DecimalText(i, exp)) == Some(if exp <= 0 then Number(i, exp) else Number(i * Pow10(exp), 0))
  {
    hide DecimalText, ParseUnsigned, Pow10;
    if i < 0 {
      UnsignedRoundTrip(-i, exp);
      SignedText(i, exp);
      assert ("-" + DecimalText(-i, exp))[1..] == DecimalText(-i, exp);
      if exp > 0 { assert -(-i * Pow10(exp)) == i * Pow10(exp); }
    } else {
      UnsignedRoundTrip(i, exp);
    }
  }

  // ---- Times of day ----

  const MICROS_PER_DAY: nat := 86_400_000_000

  function TimeText(us: nat): string
  {
    Padded(us / 3_600_000_000, 2) + ":" + Padded(us / 60_000_000 % 60, 2) + ":" + Padded(us / 1_000_000 % 60, 2)
    + "." + Padded(us % 1_000_000, 6)
  }

  // formatPGTime
  function FormatPGTime(us: int): Option<string>
  {
    if us < 0 || us > MICROS_PER_DAY then None else Some(TimeText(us))
  }

  // HH:MM:SS.ffffff
  function ParseTime(s: string): Option<nat>
  {
    if |s| != 15 || s[2] != ':' || s[5] != ':' || s[8] != '.' then None
    else if !AllDigits(s[..2]) || !AllDigits(s[3..5]) || !AllDigits(s[6..8]) || !AllDigits(s[9..]) then None
    else Some(((Value(s[..2]) * 60 + Value(s[3..5])) * 60 + Value(s[6..8])) * 1_000_000 + Value(s[9..]))
  }

  lemma PowersOfTen()
    ensures Pow10(2) == 100 && Pow10(6) == 1_000_000
  {
    assert Pow10(2) == 10 * Pow10(1) == 100 * Pow10(0);
    assert Pow10(6) == 10 * Pow10(5) == 100 * Pow10(4) == 1000 * Pow10(3) == 10_000 * Pow10(2);
  }

  lemma SplitTime(us: nat)
    ensures ((us / 3_600_000_000 * 60 + us / 60_000_000 % 60) * 60 + us / 1_000_000 % 60) * 1_000_000 + us % 1_000_000 == us
  {
    var s := us / 1_000_000;
    assert us / 60_000_000 == s / 60 && us / 3_600_000_000 == s / 60 / 60;
  }

  lemma TextRoundTrip(us: nat)
    requires us <= 86_400_000_000
    ensures ParseTime(TimeText(us)) == Some(us)
  {
    PowersOfTen();
    var (h, m, s, f) := (us / 3_600_000_000, us / 60_000_000 % 60, us / 1_000_000 % 60, us % 1_000_000);
    PaddedValue(h, 2);
    PaddedValue(m, 2);
    PaddedValue(s, 2);
    PaddedValue(f, 6);
    var t := TimeText(us);
    hide Padded, Value, Pow10;
    assert t[..2] == Padded(h, 2) && t[3..5] == Padded(m, 2) && t[6..8] == Padded(s, 2) && t[9..] == Padded(f, 6);
    SplitTime(us);
  }

  // Every time of the day, 24:00:00 included, and nothing else is written, and read back from its text.
  lemma TimeRoundTrip(us: int)
    ensures if 0 <= us <= 86_400_000_000 then FormatPGTime(us).Some? && ParseTime(FormatPGTime(us).value) == Some(us)
            else FormatPGTime(us).None?
  {
    hide TimeText, ParseTime;
    if 0 <= us <= 86_400_000_000 { TextRoundTrip(us); }
  }

  lemma TimesDiffer(us: int, vs: int)
    requires FormatPGTime(us).Some? && FormatPGTime(us) == FormatPGTime(vs)
    ensures us == vs
  {
    TimeRoundTrip(us);
    TimeRoundTrip(vs);
  }
}
