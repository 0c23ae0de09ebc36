/** The unit in which a file size is shown. */
module FileSizes {
  const UNIT: int := 1024
  const MAX_INT64: int := 0x7FFF_FFFF_FFFF_FFFF
  const UNITS: string := "KMGTPE"

  /**
    Sizes below one unit, negative ones included, are shown in bytes; others as a
    quotient and the letter of its unit.
   */
  datatype Shown = Bytes(bytes: int) | Scaled(bytes: int, divisor: int, letter: char)

  function Power(e: nat): int {
    if e == 0 then 1 else UNIT * Power(e - 1)
  }

  /** Goes over the units while the quotient still holds one; no product leaves the range of 64 bits. */
  method FormatFileSize(bytes: int) returns (shown: Shown, ghost exponent: nat)
    requires -MAX_INT64 - 1 <= bytes <= MAX_INT64
    ensures bytes < 1024 ==> shown == Bytes(bytes)
    ensures bytes >= 1024 ==>
      && exponent < 6
      && shown == Scaled(bytes, Power(exponent + 1), "KMGTPE"[exponent])
      && shown.divisor <= bytes < 1024 * shown.divisor
      && shown.divisor <= 0x7FFF_FFFF_FFFF_FFFF
  {
    exponent := 0;
    if bytes < UNIT {
      return Bytes(bytes), 0;
    }
    var div, exp := UNIT, 0;
    var n := bytes / UNIT;
    while n >= UNIT
      invariant 0 <= exp && div == Power(exp + 1)
      invariant UNIT <= div && n * div <= bytes < (n + 1) * div
      invariant 1 <= n
      decreases n
    {
      NextUnit(bytes, div, n);
      div := div * UNIT;
      assert div <= MAX_INT64;
      exp := exp + 1;
      n := n / UNIT;
    }
    Rest(bytes, div, n);
    FewUnits(exp, div);
    exponent := exp;
    shown := Scaled(bytes, div, UNITS[exp]);
  }

  lemma Rest(bytes: int, div: int, n: int)
    requires 1 <= n < UNIT && 0 < div && n * div <= bytes < (n + 1) * div
    ensures div <= bytes < UNIT * div
  {
    Scale(1, n, div);
    Scale(n + 1, UNIT, div);
  }

  /** Dividing the quotient again is dividing by the product. */
  lemma NextUnit(bytes: int, div: int, n: int)
    requires UNIT <= n && 0 < div && n * div <= bytes < (n + 1) * div
    ensures (n / UNIT) * (div * UNIT) <= bytes < (n / UNIT + 1) * (div * UNIT)
    ensures div * UNIT <= bytes
  {
    var q := n / UNIT;
    assert q * UNIT <= n && n + 1 <= (q + 1) * UNIT;
    Scale(q * UNIT, n, div);
    Scale(n + 1, (q + 1) * UNIT, div);
    Scale(UNIT, n, div);
    assert q * (div * UNIT) == (q * UNIT) * div;
    assert (q + 1) * (div * UNIT) == ((q + 1) * UNIT) * div;
  }

  lemma Scale(x: int, y: int, div: int)
    requires x <= y && 0 < div
    ensures x * div <= y * div
  {
  }

  lemma {:induction false} PowerGrows(d: nat, e: nat)
    requires d <= e
    ensures 0 < Power(d) <= Power(e)
  {
    if d < e {
      PowerGrows(d, e - 1);
    } else if d > 0 {
      PowerGrows(d - 1, d - 1);
    }
  }

  lemma SevenUnits()
    ensures Power(7) > MAX_INT64
  {
    assert Power(2) == UNIT * UNIT && Power(4) == UNIT * UNIT * Power(2);
    assert Power(6) == UNIT * UNIT * Power(4) && Power(7) == UNIT * Power(6);
  }

  /** There are letters enough: seven units already exceed 64 bits. */
  lemma FewUnits(exp: nat, div: int)
    requires div == Power(exp + 1) && div <= MAX_INT64
    ensures exp < |UNITS|
  {
    SevenUnits();
    if exp >= 6 {
      PowerGrows(7, exp + 1);
    }
  }
}
