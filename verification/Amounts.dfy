/** The two amount conversions of federator/src/lib/utils.ts. Hathor tokens have two
    decimals; an EVM amount loses its last `decimals - 2` digits, as text. */
module Amounts {
  import opened Wrappers

  type DigitString = s: string | forall i | 0 <= i < |s| :: '0' <= s[i] <= '9'

  datatype AmountError = NothingLeft | ZeroAmount

  function DigitValue(c: char): nat
    requires '0' <= c <= '9'
  {
    c as int - '0' as int
  }

  /** What `parseInt` reads from decimal digits. */
  function ParseInt(s: DigitString): nat {
    if s == "" then 0 else 10 * ParseInt(s[..|s| - 1]) + DigitValue(s[|s| - 1])
  }

  /** The canonical decimal text of n: no leading zeros. */
  function Decimal(n: nat): (s: DigitString)
    ensures s != ""
    ensures n > 0 ==> s[0] != '0'
    ensures ParseInt(s) == n
  {
    var last := [('0' as int + n % 10) as char];
    if n < 10 then last else
    var front := Decimal(n / 10);
    assert (front + last)[..|front|] == front;
    front + last
  }

  function Pow10(e: nat): (p: nat)
    ensures p >= 1
  {
    if e == 0 then 1 else 10 * Pow10(e - 1)
  }

  /** JavaScript's `s.substring(0, end)`: the bound is clamped to the text. */
  function Head(s: string, end: int): string {
    if end <= 0 then "" else if end >= |s| then s else s[..end]
  }

  function ConvertToHathorDecimals(originalQtd: DigitString, tokenDecimals: nat): Result<nat, AmountError> {
    var decimalDifference := tokenDecimals - 2;
    var result := Head(originalQtd, |originalQtd| - decimalDifference);
    if result == "" then
      Failure(NothingLeft)
    else
      var amount := ParseInt(result);
      if amount == 0 then Failure(ZeroAmount) else Success(amount)
  }

  const EVM_PRECISION: nat := 10_000_000_000_000_000

  function ConvertToEvmDecimals(originalQtd: int): int {
    originalQtd * EVM_PRECISION
  }

  /** How many units of the EVM token one unit of its Hathor twin stands for: the
      conversion drops digits only from the third decimal on. */
  function Scale(tokenDecimals: nat): (p: nat)
    ensures p >= 1
  {
    Pow10(if tokenDecimals < 2 then 0 else tokenDecimals - 2)
  }

  /** The quotient the conversion is meant to compute. */
  function Convertible(amount: nat, tokenDecimals: nat): nat {
    Quotient(amount, Scale(tokenDecimals))
  }

  function Quotient(a: nat, b: nat): nat
    requires b >= 1
  {
    a / b
  }

  lemma DivTen(a: nat, p: nat)
    requires p >= 1
    ensures (a / 10) / p == a / (10 * p)
  {
    var q := (a / 10) / p;
    var r := (a / 10) % p;
    assert a / 10 == p * q + r;
    var d := a % 10;
    assert a == 10 * (p * q + r) + d;
    assert a == (10 * p) * q + (10 * r + d);
    assert 0 <= 10 * r + d < 10 * p;
    DivUnique(a, 10 * p, q, 10 * r + d);
  }

  lemma DivUnique(a: nat, b: nat, q: nat, r: nat)
    requires b >= 1 && a == b * q + r && r < b
    ensures a / b == q
  {
    var q' := a / b;
    assert a == b * q' + a % b;
    MulGap(b, q', q);
    MulGap(b, q, q');
  }

  lemma {:induction false} MulGap(b: nat, x: nat, y: nat)
    ensures x < y ==> b * x + b <= b * y
    ensures x <= y ==> b * x <= b * y
    decreases y
  {
    if y > 0 {
      MulGap(b, x, y - 1);
      assert b * y == b * (y - 1) + b;
    }
  }

  /** Dropping the last k digits divides by 10^k. */
  lemma {:induction false} CutDivides(s: DigitString, k: nat)
    requires k <= |s|
    ensures ParseInt(s[..|s| - k]) == ParseInt(s) / Pow10(k)
  {
    if k == 0 {
      assert s[..|s|] == s;
    } else {
      var t := s[..|s| - 1];
      assert t[..|t| - (k - 1)] == s[..|s| - k];
      CutDivides(t, k - 1);
      assert ParseInt(t) == ParseInt(s) / 10;
      DivTen(ParseInt(s), Pow10(k - 1));
    }
  }

  /** A text of n digits denotes a number below 10^n. */
  lemma {:induction false} ShortIsSmall(s: DigitString)
    ensures ParseInt(s) < Pow10(|s|)
  {
    if s != "" {
      ShortIsSmall(s[..|s| - 1]);
    }
  }

  lemma {:induction false} Pow10Monotone(a: nat, b: nat)
    requires a <= b
    ensures Pow10(a) <= Pow10(b)
  {
    if a < b {
      Pow10Monotone(a, b - 1);
    }
  }

  lemma {:induction false} Pow10Adds(a: nat, b: nat)
    ensures Pow10(a + b) == Pow10(a) * Pow10(b)
  {
    if a == 0 {
    } else {
      Pow10Adds(a - 1, b);
      assert Pow10(a + b) == 10 * Pow10(a - 1 + b);
    }
  }

  /** Cutting digits is integer division, on every digit text (leading zeros or not) and for
      every number of decimals; it throws exactly when the quotient is zero. */
  lemma ConversionDivides(s: DigitString, decimals: nat)
    ensures Convertible(ParseInt(s), decimals) == 0 ==> ConvertToHathorDecimals(s, decimals).Failure?
    ensures Convertible(ParseInt(s), decimals) > 0 ==>
              ConvertToHathorDecimals(s, decimals) == Success(Convertible(ParseInt(s), decimals))
  {
    HeadDivides(s, decimals);
  }

  lemma HeadDivides(s: DigitString, decimals: nat)
    ensures ParseInt(Head(s, |s| - (decimals - 2))) == Convertible(ParseInt(s), decimals)
  {
    if decimals <= 2 {
      DivUnique(ParseInt(s), 1, ParseInt(s), 0);
    } else {
      var drop: nat := decimals - 2;
      if |s| <= drop {
        ShortIsSmall(s);
        Pow10Monotone(|s|, drop);
        DivUnique(ParseInt(s), Pow10(drop), 0, ParseInt(s));
      } else {
        CutDivides(s, drop);
      }
    }
  }

  /** The same on the canonical text of an amount, the form in which events carry it, with
      the two ways of throwing told apart: on canonical text the second never happens
      except for the amount zero. */
  lemma {:induction false} ConvertCanonical(n: nat, decimals: nat)
    ensures ConvertToHathorDecimals(Decimal(n), decimals).Success? <==> n >= Scale(decimals)
    ensures n >= Scale(decimals) ==>
              ConvertToHathorDecimals(Decimal(n), decimals) == Success(n / Scale(decimals))
    ensures ConvertToHathorDecimals(Decimal(n), decimals) == Failure(ZeroAmount) <==>
              n == 0 && decimals <= 2
  {
    var s := Decimal(n);
    HeadDivides(s, decimals);
    DivPositive(n, Scale(decimals));
    if decimals > 2 && |s| > decimals - 2 && n > 0 {
      LeadingDigitCounts(s, |s| - (decimals - 2));
    }
  }

  lemma DivPositive(a: nat, b: nat)
    requires b >= 1
    ensures a / b > 0 <==> a >= b
  {
    assert a == b * (a / b) + a % b;
    MulGap(b, 0, a / b);
  }

  lemma {:induction false} LeadingDigitCounts(s: DigitString, k: nat)
    requires 1 <= k <= |s| && s[0] != '0'
    ensures ParseInt(s[..k]) > 0
  {
    if k > 1 {
      assert s[..k][..k - 1] == s[..k - 1];
      LeadingDigitCounts(s, k - 1);
    }
  }

  /** What was converted never exceeds what was there, and misses less than one unit. */
  lemma ConversionLoss(amount: nat, decimals: nat)
    ensures var kept := Convertible(amount, decimals) * Scale(decimals);
            kept <= amount < kept + Scale(decimals)
  {
    assert amount == Scale(decimals) * Convertible(amount, decimals) + amount % Scale(decimals);
  }

  lemma PrecisionIsScale18()
    ensures Pow10(16) == EVM_PRECISION == Scale(18)
  {
    Pow10Adds(8, 8);
    assert Pow10(4) == 10_000;
    Pow10Adds(4, 4);
  }

  /** 10^16 hundredths brought to `decimals` decimals is one hundredth only for 18 of them. */
  lemma PrecisionOverScale(q: nat, decimals: nat)
    requires q > 0
    ensures q * EVM_PRECISION / Scale(decimals) == q <==> decimals == 18
  {
    PrecisionIsScale18();
    var scale := Scale(decimals);
    var e: nat := if decimals < 2 then 0 else decimals - 2;
    if decimals <= 18 {
      Pow10Adds(16 - e, e);
      MulRearrange(q, Pow10(16 - e), scale);
      DivUnique(q * EVM_PRECISION, scale, q * Pow10(16 - e), 0);
      if decimals < 18 {
        Pow10Monotone(1, 16 - e);
        MulGap(q, 1, Pow10(16 - e));
      }
    } else {
      Pow10Monotone(17, e);
      assert Pow10(17) == 10 * Pow10(16);
      var back := q * EVM_PRECISION / scale;
      ConversionLoss(q * EVM_PRECISION, decimals);
      MulGap(q, 10 * EVM_PRECISION, scale);
      MulGap(scale, q, back);
      MulRearrange(1, q, scale);
    }
  }

  lemma MulRearrange(a: nat, b: nat, c: nat)
    ensures a * (b * c) == c * (a * b)
  {
  }

  /** Hathor to EVM and back returns the amount exactly for tokens of 18 decimals: the way
      out always multiplies by 10^16, whatever the token. */
  lemma HathorRoundTrip(q: nat, decimals: nat)
    requires q > 0
    ensures ConvertToHathorDecimals(Decimal(ConvertToEvmDecimals(q)), decimals) == Success(q)
            <==> decimals == 18
  {
    ConvertCanonical(q * EVM_PRECISION, decimals);
    PrecisionOverScale(q, decimals);
    DivPositive(q * EVM_PRECISION, Scale(decimals));
  }

  /** EVM to Hathor to EVM, for 18 decimals: nothing is created and less than 10^16 is lost. */
  lemma EvmRoundTrip(n: nat)
    ensures match ConvertToHathorDecimals(Decimal(n), 18)
            case Success(q) => ConvertToEvmDecimals(q) <= n < ConvertToEvmDecimals(q) + EVM_PRECISION
            case Failure(_) => n < EVM_PRECISION
  {
    PrecisionIsScale18();
    ConvertCanonical(n, 18);
    ConversionLoss(n, 18);
  }
}
