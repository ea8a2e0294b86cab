/** `String.currencyString` (Sources/CarsalesAPI/Extensions.swift): keep the ASCII digits of a
    string, read them as a bounded `Int`, and hand the number to a currency formatter.
    The locale-dependent `NumberFormatter` is the parameter `format`; like
    `NumberFormatter.string(from:)` it may answer nil. */
module Extensions {
  import opened Wrappers

  /** `Int.max` and `Int.min` on the 64-bit platforms the library runs on. */
  const IntMax: int := 0x7FFF_FFFF_FFFF_FFFF
  const IntMin: int := -0x8000_0000_0000_0000

  predicate IsDigit(c: char) {
    '0' <= c <= '9'
  }

  predicate AllDigits(s: string) {
    forall i | 0 <= i < |s| :: IsDigit(s[i])
  }

  function DigitValue(c: char): (v: nat)
    requires IsDigit(c)
    ensures v <= 9
  {
    c as int - '0' as int
  }

  function DigitChar(v: nat): (c: char)
    requires v <= 9
    ensures IsDigit(c) && DigitValue(c) == v
  {
    (v + '0' as int) as char
  }

  /** The number a string of decimal digits denotes, most significant digit first. */
  function Value(d: string): (n: nat)
    requires AllDigits(d)
    decreases |d|
  {
    if d == [] then 0 else Value(d[..|d| - 1]) * 10 + DigitValue(d[|d| - 1])
  }

  function Pow10(k: nat): (p: nat)
    ensures p >= 1
  {
    if k == 0 then 1 else 10 * Pow10(k - 1)
  }

  /** Decimal rendering of a non-negative number, without leading zeros. */
  function ShowNat(n: nat): (s: string)
    ensures |s| > 0 && AllDigits(s) && Value(s) == n
    ensures n > 0 ==> s[0] != '0'
    decreases n
  {
    if n < 10 then [DigitChar(n)]
    else
      var init := ShowNat(n / 10);
      var s := init + [DigitChar(n % 10)];
      assert s[..|s| - 1] == init;
      s
  }

  /** Swift's `String(_: Int)`. */
  function IntToString(n: int): (r: string)
    ensures n >= 0 ==> AllDigits(r) && Value(r) == n
    ensures n < 0 ==> |r| > 1 && r[0] == '-' && AllDigits(r[1..]) && Value(r[1..]) == -n
  {
    if n < 0 then "-" + ShowNat(-n) else ShowNat(n)
  }

  /** Swift's `Int(_: String)`: an optional sign, then one or more ASCII digits,
      and nil when the value does not fit in an `Int`. */
  function ParseInt(t: string): (r: Option<int>)
    ensures r.Some? ==> IntMin <= r.value <= IntMax
  {
    var signed := |t| > 0 && (t[0] == '+' || t[0] == '-');
    var digits := if signed then t[1..] else t;
    if digits == [] || !AllDigits(digits) then None
    else
      var magnitude: int := Value(digits);
      var v := if signed && t[0] == '-' then -magnitude else magnitude;
      if IntMin <= v <= IntMax then Some(v) else None
  }

  /** The digits of `s`, in order: what the fold at Extensions.swift:11-15 accumulates. */
  function Digits(s: string): (d: string)
    ensures AllDigits(d) && |d| <= |s|
    decreases |s|
  {
    if s == [] then []
    else
      var c := s[|s| - 1];
      Digits(s[..|s| - 1]) + (if IsDigit(c) then [c] else [])
  }

  /** One step of the fold: `Int(String(c))` succeeds exactly on an ASCII digit,
      and `String(number)` then gives that digit back. */
  lemma CharParse(c: char)
    ensures ParseInt([c]) == if IsDigit(c) then Some(DigitValue(c)) else None
    ensures IsDigit(c) ==> IntToString(DigitValue(c)) == [c]
  {
    if c == '+' || c == '-' {
      assert [c][1..] == [];
    } else if IsDigit(c) {
      assert [c][..0] == [];
      assert Value([c]) == DigitValue(c);
    }
  }

  /** The `reduce(into: "")` loop: append `String(number)` for every character that parses as an `Int`. */
  method ExtractDigits(s: string) returns (numericString: string)
    ensures numericString == Digits(s)
  {
    numericString := "";
    var i := 0;
    while i < |s|
      invariant 0 <= i <= |s|
      invariant numericString == Digits(s[..i])
    {
      var c := s[i];
      CharParse(c);
      match ParseInt([c]) {
        case Some(number) =>
          numericString := numericString + IntToString(number);
        case None =>
      }
      assert s[..i + 1][..i] == s[..i];
      i := i + 1;
    }
    assert s[..i] == s;
  }

  /** What `currencyString` returns: the formatter's rendering of the digits' value, or nil
      when `Int(numericString)` is nil. */
  function Currency(s: string, format: int -> Option<string>): (r: Option<string>)
    ensures r.Some? ==> Digits(s) != [] && Value(Digits(s)) <= IntMax && r == format(Value(Digits(s)))
    ensures Digits(s) == [] ==> r == None
  {
    ParseDigits(Digits(s));
    match ParseInt(Digits(s))
    case None => None
    case Some(numeric) => format(numeric)
  }

  /** `currencyString`, step by step as the source computes it. */
  method CurrencyString(s: string, format: int -> Option<string>) returns (r: Option<string>)
    ensures Digits(s) == [] ==> r == None
    ensures Digits(s) != [] && Value(Digits(s)) > IntMax ==> r == None
    ensures Digits(s) != [] && Value(Digits(s)) <= IntMax ==> r == format(Value(Digits(s)))
    ensures r == Currency(s, format)
  {
    var numericString := ExtractDigits(s);
    var numeric := ParseInt(numericString);
    ParseDigits(numericString);
    if numeric.None? {
      return None;
    }
    r := format(numeric.value);
  }

  /** On a digit-only string `Int(_:)` is the string's value, nil when empty or above `Int.max`. */
  lemma ParseDigits(d: string)
    requires AllDigits(d)
    ensures ParseInt(d) == if d == [] || Value(d) > IntMax then None else Some(Value(d))
  {
    if d != [] {
      assert IsDigit(d[0]);
    }
  }

  /** Both directions of when `currencyString` is nil, and what it is otherwise. */
  lemma CurrencyCases(s: string, format: int -> Option<string>)
    ensures Currency(s, format).None? <==>
      Digits(s) == [] || Value(Digits(s)) > IntMax || format(Value(Digits(s))).None?
    ensures Digits(s) != [] && Value(Digits(s)) <= IntMax ==> Currency(s, format) == format(Value(Digits(s)))
  {
    ParseDigits(Digits(s));
  }

  /** Digit extraction distributes over concatenation: every digit is kept, in its original order,
      and every other character dropped. */
  lemma {:induction false} DigitsAppend(s: string, t: string)
    ensures Digits(s + t) == Digits(s) + Digits(t)
    decreases |t|
  {
    if t == [] {
      assert s + t == s;
    } else {
      var n := |t| - 1;
      assert (s + t)[..|s + t| - 1] == s + t[..n];
      DigitsAppend(s, t[..n]);
    }
  }

  /** A digit-only input is returned unchanged. */
  lemma {:induction false} DigitsOfDigits(d: string)
    requires AllDigits(d)
    ensures Digits(d) == d
    decreases |d|
  {
    if d != [] {
      DigitsOfDigits(d[..|d| - 1]);
    }
  }

  /** Extraction is idempotent. */
  lemma DigitsIdempotent(s: string)
    ensures Digits(Digits(s)) == Digits(s)
  {
    DigitsOfDigits(Digits(s));
  }

  /** Each digit occurs in the extraction as often as in the input; no other character occurs. */
  lemma {:induction false} DigitsCount(s: string)
    ensures forall c :: multiset(Digits(s))[c] == if IsDigit(c) then multiset(s)[c] else 0
    decreases |s|
  {
    if s != [] {
      var n := |s| - 1;
      DigitsCount(s[..n]);
      assert s == s[..n] + [s[n]];
    }
  }

  /** Leading zeros do not change a value. */
  lemma {:induction false} LeadingZero(d: string)
    requires AllDigits(d)
    ensures AllDigits("0" + d) && Value("0" + d) == Value(d)
    decreases |d|
  {
    var z := "0" + d;
    assert forall i | 0 <= i < |z| :: IsDigit(z[i]);
    if d != [] {
      assert z[..|z| - 1] == "0" + d[..|d| - 1];
      LeadingZero(d[..|d| - 1]);
    }
  }

  /** So `currencyString` of "0…" + s equals that of s, as long as s has a digit. */
  lemma CurrencyIgnoresLeadingZero(s: string, format: int -> Option<string>)
    requires Digits(s) != []
    ensures Currency("0" + s, format) == Currency(s, format)
  {
    DigitsAppend("0", s);
    assert Digits("0") == "0" by {
      assert "0"[..0] == [];
    }
    LeadingZero(Digits(s));
    ParseDigits(Digits(s));
    ParseDigits(Digits("0" + s));
  }

  /** A string of k digits is below 10^k. */
  lemma {:induction false} ValueBound(d: string)
    requires AllDigits(d)
    ensures Value(d) < Pow10(|d|)
    decreases |d|
  {
    if d != [] {
      ValueBound(d[..|d| - 1]);
    }
  }

  /** With at most 18 digits `Int(_:)` cannot overflow, so only the formatter can make the result nil. */
  lemma ShortPricesNeverOverflow(s: string, format: int -> Option<string>)
    requires 0 < |Digits(s)| <= 18
    ensures Currency(s, format) == format(Value(Digits(s)))
  {
    var d := Digits(s);
    ValueBound(d);
    Pow10Monotone(|d|, 18);
    Pow10Of18();
    ParseDigits(d);
  }

  lemma {:induction false} Pow10Add(a: nat, b: nat)
    ensures Pow10(a + b) == Pow10(a) * Pow10(b)
    decreases b
  {
    if b > 0 {
      Pow10Add(a, b - 1);
    }
  }

  lemma Pow10Of18()
    ensures Pow10(18) == 1_000_000_000_000_000_000
  {
    assert Pow10(3) == 1000 by {
      assert Pow10(1) == 10;
      assert Pow10(2) == 100;
    }
    Pow10Add(3, 3);
    Pow10Add(6, 6);
    Pow10Add(12, 6);
  }

  lemma {:induction false} Pow10Monotone(j: nat, k: nat)
    requires j <= k
    ensures Pow10(j) <= Pow10(k)
    decreases k
  {
    if j < k {
      Pow10Monotone(j, k - 1);
    }
  }

  /** "$53,081" and "53081" are both formatted as the number 53081. */
  lemma CurrencyOfPriceText(format: int -> Option<string>)
    ensures Currency("$53,081", format) == format(53081)
    ensures Currency("53081", format) == format(53081)
  {
    DigitsOfPriceText();
    DigitsOfDigits("53081");
    ValueOfPriceDigits();
    ParseDigits("53081");
  }

  lemma DigitsOfPriceText()
    ensures Digits("$53,081") == "53081"
  {
    var a, b := "$53", ",081";
    assert a + b == "$53,081";
    DigitsAppend(a, b);
    assert Digits(a) == "53" by {
      assert "$" + "53" == a;
      DigitsAppend("$", "53");
      assert "$"[..0] == [];
      DigitsOfDigits("53");
    }
    assert Digits(b) == "081" by {
      assert "," + "081" == b;
      DigitsAppend(",", "081");
      assert ","[..0] == [];
      DigitsOfDigits("081");
    }
    assert "53" + "081" == "53081";
  }

  lemma ValueOfPriceDigits()
    ensures AllDigits("53081") && Value("53081") == 53081
  {
    assert "53081"[..4] == "5308" && "5308"[..3] == "530" && "530"[..2] == "53" && "53"[..1] == "5" && "5"[..0] == "";
  }

  /** A price with no digit at all, such as "POA" or "", has no currency string. */
  lemma CurrencyWithoutDigits(format: int -> Option<string>)
    ensures Currency("POA", format) == None
    ensures Currency("", format) == None
  {
    assert "POA"[..2] == "PO" && "PO"[..1] == "P" && "P"[..0] == "";
  }
}
