/** Decimal rendering of naturals and the parser for 64-bit unsigned integers. */
module Decimal {
  import opened Basics

  const U64_LIMIT: nat := 0x1_0000_0000_0000_0000

  predicate IsDigit(c: char) {
    '0' <= c <= '9'
  }

  predicate AllDigits(s: string) {
    forall i :: 0 <= i < |s| ==> IsDigit(s[i])
  }

  function Value(digits: string): nat
    requires AllDigits(digits)
  {
    if digits == "" then 0
    else 10 * Value(digits[..|digits| - 1]) + (digits[|digits| - 1] as nat - '0' as nat)
  }

  /** One optional plus sign, then at least one digit, and no overflow. */
  function ParseU64(s: string): Option<nat> {
    var digits := if s != "" && s[0] == '+' then s[1..] else s;
    if digits == "" || !AllDigits(digits) || U64_LIMIT <= Value(digits) then None
    else Some(Value(digits))
  }

  function Show(n: nat): (s: string)
    ensures s != "" && AllDigits(s)
  {
    if n < 10 then [('0' as nat + n) as char]
    else Show(n / 10) + [('0' as nat + n % 10) as char]
  }

  lemma {:induction false} ShowHasValue(n: nat)
    ensures Value(Show(n)) == n
  {
    if 10 <= n {
      ShowHasValue(n / 10);
      assert Show(n)[..|Show(n)| - 1] == Show(n / 10);
    } else {
      assert Show(n)[..0] == "";
    }
  }

  /** Rendering and parsing are inverse. */
  lemma ShowParses(n: nat)
    requires n < U64_LIMIT
    ensures ParseU64(Show(n)) == Some(n)
  {
    ShowHasValue(n);
    assert IsDigit(Show(n)[0]);
  }

  // ---------------------------------------------------------------------------------------
  // What rendering and parsing mean, in terms of the digits and their places.

  function Digit(c: char): nat {
    match c
    case '1' => 1
    case '2' => 2
    case '3' => 3
    case '4' => 4
    case '5' => 5
    case '6' => 6
    case '7' => 7
    case '8' => 8
    case '9' => 9
    case _ => 0
  }

  function Power(k: nat): nat {
    if k == 0 then 1 else 10 * Power(k - 1)
  }

  /** The sum of the digits times their powers of ten, the first digit having the highest one. */
  function PlaceValue(s: string): nat {
    if s == "" then 0 else Digit(s[0]) * Power(|s| - 1) + PlaceValue(s[1..])
  }

  lemma DigitChars(c: char)
    ensures IsDigit(c) <==> c in "0123456789"
    ensures IsDigit(c) ==> Digit(c) == c as nat - '0' as nat
  {
  }

  lemma {:induction false} PlaceSnoc(s: string, c: char)
    ensures PlaceValue(s + [c]) == 10 * PlaceValue(s) + Digit(c)
  {
    hide Digit;
    var all := s + [c];
    if s == "" {
      assert all[1..] == "" && Power(0) == 1;
    } else {
      assert all[1..] == s[1..] + [c] && all[0] == s[0];
      PlaceSnoc(s[1..], c);
      assert Power(|s|) == 10 * Power(|s| - 1);
      Tenfold(Digit(s[0]), Power(|s| - 1));
    }
  }

  lemma Tenfold(d: nat, p: nat)
    ensures d * (10 * p) == 10 * (d * p)
  {
  }

  lemma {:induction false} ValueIsPlaceValue(s: string)
    requires AllDigits(s)
    ensures PlaceValue(s) == Value(s)
  {
    if s != "" {
      var init, c := s[..|s| - 1], s[|s| - 1];
      assert s == init + [c];
      ValueIsPlaceValue(init);
      PlaceSnoc(init, c);
      DigitChars(c);
      hide PlaceValue, Digit;
    }
  }

  lemma {:induction false} NoLeadingZero(n: nat)
    ensures 0 < n ==> Show(n)[0] != '0'
    ensures 10 <= n ==> 1 < |Show(n)|
  {
    if 10 <= n {
      NoLeadingZero(n / 10);
    }
  }

  lemma {:induction false} Positive(s: string)
    requires AllDigits(s) && s != "" && s[0] != '0'
    ensures 0 < Value(s)
  {
    if 1 < |s| {
      Positive(s[..|s| - 1]);
    }
  }

  lemma {:induction false} OnlyShow(s: string)
    requires AllDigits(s) && s != "" && (1 < |s| ==> s[0] != '0')
    ensures Show(Value(s)) == s
  {
    var init, c := s[..|s| - 1], s[|s| - 1];
    assert s == init + [c];
    if 1 < |s| {
      OnlyShow(init);
      Positive(init);
    } else {
      assert init == "";
    }
  }

  /** A number is rendered as the only string of decimal digits without leading zeros that denotes it. */
  lemma ShowIff(n: nat, s: string)
    ensures s == Show(n) <==>
            s != "" && (forall i :: 0 <= i < |s| ==> s[i] in "0123456789") && (1 < |s| ==> s[0] != '0')
              && PlaceValue(s) == n
  {
    forall i | 0 <= i < |s| ensures IsDigit(s[i]) <==> s[i] in "0123456789" {
      DigitChars(s[i]);
    }
    if AllDigits(s) {
      ValueIsPlaceValue(s);
    }
    if s == Show(n) {
      ShowHasValue(n);
      NoLeadingZero(n);
    } else if s != "" && AllDigits(s) && (1 < |s| ==> s[0] != '0') && PlaceValue(s) == n {
      OnlyShow(s);
    }
  }

  /** The parser accepts an optional plus sign and at least one digit, leading zeros included, as long as
      the number fits 64 bits. */
  lemma ParsesIff(s: string, n: nat)
    ensures ParseU64(s) == Some(n) <==>
            var digits := if s != "" && s[0] == '+' then s[1..] else s;
            && digits != "" && (forall i :: 0 <= i < |digits| ==> digits[i] in "0123456789")
            && PlaceValue(digits) == n && n < 18446744073709551616
  {
    var digits := if s != "" && s[0] == '+' then s[1..] else s;
    forall i | 0 <= i < |digits| ensures IsDigit(digits[i]) <==> digits[i] in "0123456789" {
      DigitChars(digits[i]);
    }
    if AllDigits(digits) {
      ValueIsPlaceValue(digits);
    }
  }

  lemma ShowInjective(m: nat, n: nat)
    requires Show(m) == Show(n)
    ensures m == n
  {
    ShowHasValue(m);
    ShowHasValue(n);
  }
}
