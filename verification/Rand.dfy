/** The pseudo-random generator of grind.c: the minimal standard generator
    x -> 16807 * x mod (2^31 - 1), computed by Schrage's method so that every
    intermediate value fits in a signed 64-bit long.
 */
module Rand {

  const MODULUS: int := 0x7fff_ffff
  const MULTIPLIER: int := 16807
  const INVERSE: int := 1407677000  // of MULTIPLIER, modulo MODULUS

  newtype Long = x: int | -0x8000_0000_0000_0000 <= x < 0x8000_0000_0000_0000
  newtype ULong = x: int | 0 <= x < 0x1_0000_0000_0000_0000
  newtype Int = x: int | -0x8000_0000 <= x < 0x8000_0000

  /** The field element, in [1, 2^31 - 2], that a context value stands for. */
  function Residue(s: nat): nat {
    s % (MODULUS - 1) + 1
  }

  /** One multiplication in the field of 2^31 - 1 elements, shifted down by one. */
  function Next(s: nat): int {
    MULTIPLIER * Residue(s) % MODULUS - 1
  }

  class Context {
    var value: ULong

    constructor ()
      ensures value == 1
    {
      value := 1;
    }
  }

  /** The arithmetic is done in 64-bit types: that it verifies says that no
      intermediate value overflows. */
  method DoRand(ctx: Context) returns (r: Int)
    modifies ctx
    ensures ctx.value as int == r as int == Next(old(ctx.value) as int)
    ensures 0 <= r <= 0x7fff_fffd
  {
    var x: Long := (ctx.value % 0x7fff_fffe) as Long + 1;
    var hi: Long := x / 127773;
    var lo: Long := x % 127773;
    Schrage(x as int, hi as int, lo as int);
    x := 16807 * lo - 2836 * hi;
    if x < 0 {
      x := x + 0x7fff_ffff;
    }
    x := x - 1;
    ctx.value := x as ULong;
    r := x as Int;
  }

  /** The folded difference is the product modulo 2^31 - 1, and is not zero. */
  lemma Schrage(x: int, hi: int, lo: int)
    requires 1 <= x < MODULUS
    requires x == 127773 * hi + lo && 0 <= lo < 127773
    ensures 0 <= hi <= 16807
    ensures var y := 16807 * lo - 2836 * hi;
            var z := if y < 0 then y + MODULUS else y;
            z == MULTIPLIER * x % MODULUS && 1 <= z < MODULUS
  {
    var y := 16807 * lo - 2836 * hi;
    var z := if y < 0 then y + MODULUS else y;
    NeverZero(hi, lo);
    ModUnique(MULTIPLIER * x, if y < 0 then hi - 1 else hi, z);
  }

  /** 16807 = 7^5 and 2836 are coprime (2836 * 5790 == 16807 * 977 + 1). */
  lemma NeverZero(hi: int, lo: int)
    requires 0 <= hi <= 16807 && 0 <= lo < 127773
    requires 1 <= 127773 * hi + lo < MODULUS
    ensures 16807 * lo != 2836 * hi
  {
  }

  lemma ModUnique(a: int, q: int, r: int)
    requires a == q * MODULUS + r && 0 <= r < MODULUS
    ensures a % MODULUS == r
  {
  }

  // Whole runs.

  function Pow(b: nat, k: nat): nat {
    if k == 0 then 1 else b * Pow(b, k - 1)
  }

  /** The context value after k calls of rand from the seed s. */
  function After(s: nat, k: nat): nat
    decreases k
  {
    if k == 0 then s else
      var p := After(s, k - 1);
      Schrage(Residue(p), Residue(p) / 127773, Residue(p) % 127773);
      Next(p)
  }

  lemma MulMod(a: int, b: int)
    ensures a * (b % MODULUS) % MODULUS == a * b % MODULUS
  {
    var q, r := b / MODULUS, b % MODULUS;
    var q', r' := a * r / MODULUS, a * r % MODULUS;
    assert a * b == a * (q * MODULUS + r) == (a * q) * MODULUS + a * r;
    ModUnique(a * b, a * q + q', r');
  }

  /** One call multiplies the residue by 16807 in the field. */
  lemma OneCall(s: nat, k: nat)
    requires k > 0
    ensures Residue(After(s, k)) == After(s, k) + 1 == MULTIPLIER * Residue(After(s, k - 1)) % MODULUS
    ensures 0 <= After(s, k) <= 0x7fff_fffd
  {
  }

  lemma Reassociate(a: int, e: int, x: int)
    ensures a * (e * x % MODULUS) % MODULUS == (a * e) * x % MODULUS
  {
    MulMod(a, e * x);
    assert a * (e * x) == (a * e) * x;
  }

  /** Closed form of a run: k calls multiply by 16807^k in the field. */
  lemma {:induction false} RunIsPower(s: nat, k: nat)
    ensures Residue(After(s, k)) == Pow(MULTIPLIER, k) * Residue(s) % MODULUS
    ensures k > 0 ==> After(s, k) + 1 == Pow(MULTIPLIER, k) * Residue(s) % MODULUS
    ensures k > 0 ==> 0 <= After(s, k) <= 0x7fff_fffd
    decreases k
  {
    if k > 0 {
      RunIsPower(s, k - 1);
      OneCall(s, k);
      Reassociate(MULTIPLIER, Pow(MULTIPLIER, k - 1), Residue(s));
    }
  }

  lemma UndoOneCall(e: int, p: int)
    ensures (INVERSE * e) * (MULTIPLIER * p % MODULUS) % MODULUS == e * p % MODULUS
  {
    MulMod(INVERSE * e, MULTIPLIER * p);
    assert (INVERSE * e) * (MULTIPLIER * p) == (INVERSE * MULTIPLIER) * (e * p);
    Cancel(e * p);
  }

  /** A run can be undone: the state after k calls determines the field
      element of the seed, so two runs of the generator never merge. */
  lemma {:induction false} RunIsReversible(s: nat, k: nat)
    ensures Pow(INVERSE, k) * Residue(After(s, k)) % MODULUS == Residue(s)
    decreases k
  {
    if k > 0 {
      RunIsReversible(s, k - 1);
      OneCall(s, k);
      UndoOneCall(Pow(INVERSE, k - 1), Residue(After(s, k - 1)));
    }
  }

  lemma Cancel(y: int)
    ensures (INVERSE * MULTIPLIER) * y % MODULUS == y % MODULUS
  {
  }

  lemma RunsNeverMerge(s: nat, t: nat, k: nat)
    requires After(s, k) == After(t, k)
    ensures Residue(s) == Residue(t)
  {
    RunIsReversible(s, k);
    RunIsReversible(t, k);
  }

  /** k calls of rand. */
  method Calls(ctx: Context, k: nat)
    modifies ctx
    ensures ctx.value as int == After(old(ctx.value) as int, k)
  {
    for i := 0 to k
      invariant ctx.value as int == After(old(ctx.value) as int, i)
    {
      var _ := DoRand(ctx);
    }
  }
}
