/// Money in integer cents, and raw item totals in 1/100000 units: a line total
/// has two decimals, a quantity three, so their product needs five.
module Money {

  /** Raw units per cent. */
  const UNIT := 1000

  /** Rounds raw units to cents, half to even, as a decimal quantize to 0.01 does. */
  function Quantize(raw: int): int {
    var cents, rest := raw / UNIT, raw % UNIT;
    if rest < 500 then cents
    else if rest > 500 then cents + 1
    else if cents % 2 == 0 then cents
    else cents + 1
  }

  predicate IsTie(raw: int) { raw % UNIT == 500 }

  predicate WholeCents(raw: int) { raw % UNIT == 0 }

  /** Quantize picks the nearest cent, and the even one of two equally near. */
  lemma QuantizeNearest(raw: int, cents: int)
    ensures -500 <= UNIT * Quantize(raw) - raw <= 500
    ensures IsTie(raw) <==> UNIT * Quantize(raw) - raw == 500 || UNIT * Quantize(raw) - raw == -500
    ensures IsTie(raw) ==> Quantize(raw) % 2 == 0
    ensures -500 < UNIT * cents - raw < 500 ==> Quantize(raw) == cents
  {}

  lemma QuantizeWhole(raw: int)
    ensures WholeCents(raw) <==> UNIT * Quantize(raw) == raw
  {}

  /** Shifting by whole cents shifts the rounding, except that an odd shift moves a tie to the other neighbour. */
  lemma QuantizeShift(raw: int, cents: int)
    ensures Quantize(raw + UNIT * cents) - (Quantize(raw) + cents) ==
            if !IsTie(raw) || cents % 2 == 0 then 0
            else if (raw / UNIT) % 2 == 0 then 1 else -1
  {
    assert (raw + UNIT * cents) / UNIT == raw / UNIT + cents;
    assert (raw + UNIT * cents) % UNIT == raw % UNIT;
  }
}
