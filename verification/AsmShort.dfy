/** The address fields of instructions: 15 bits, or 12 bits and a bit that adds 070000
    (cmd/libaout/shortaddr.c, cross/besm6/b.out.h). */
module AsmShort {
  const SHORTOFF: nat := 0x1000
  const SHORTSEG: nat := 0x7000
  const SEGBIT: nat := 0x4_0000
  const LONG: nat := 0x8000

  /** The address a short address field stands for. */
  function ShortGet(h: nat): nat {
    h % SHORTOFF + if h / SEGBIT % 2 == 1 then SHORTSEG else 0
  }

  predicate ShortFits(a: nat) {
    a < SHORTOFF || SHORTSEG <= a < LONG
  }

  function ShortPut(h: nat, addr: nat): nat {
    var a := addr % LONG;
    h / (2 * SEGBIT) * (2 * SEGBIT) + (if a >= SHORTSEG then SEGBIT else 0)
    + h % SEGBIT / SHORTOFF * SHORTOFF + a % SHORTOFF
  }

  /** A short field gives back every address that fits it, and putting one changes nothing but the
      offset and the segment bit. */
  lemma ShortRoundTrip(h: nat, a: nat)
    requires ShortFits(a)
    ensures ShortGet(ShortPut(h, a)) == a
    ensures ShortPut(h, a) / (2 * SEGBIT) == h / (2 * SEGBIT)
    ensures ShortPut(h, a) % SEGBIT / SHORTOFF == h % SEGBIT / SHORTOFF
  {
    var top, bit, mid := h / (2 * SEGBIT), (if a >= SHORTSEG then 1 else 0), h % SEGBIT / SHORTOFF;
    Fields(top, bit, mid, a % SHORTOFF);
  }

  lemma Fields(top: nat, bit: nat, mid: nat, low: nat)
    requires bit < 2 && mid < 64 && low < SHORTOFF
    ensures var h := top * (2 * SEGBIT) + bit * SEGBIT + mid * SHORTOFF + low;
      h % SHORTOFF == low && h / SEGBIT % 2 == bit && h / (2 * SEGBIT) == top && h % SEGBIT / SHORTOFF == mid
  {
    var h := top * (2 * SEGBIT) + bit * SEGBIT + mid * SHORTOFF + low;
    var rest := mid * SHORTOFF + low;
    assert h / SEGBIT == 2 * top + bit && h % SEGBIT == rest by { DivSeg(2 * top + bit, rest); }
    assert rest / SHORTOFF == mid;
  }

  lemma DivSeg(q: nat, r: nat)
    requires r < SEGBIT
    ensures (q * SEGBIT + r) / SEGBIT == q && (q * SEGBIT + r) % SEGBIT == r
  {
  }

  /** The address an instruction's field stands for. */
  function Address(h: nat, long: bool): nat {
    if long then h % LONG else ShortGet(h)
  }
}
