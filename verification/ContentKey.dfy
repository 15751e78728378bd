/** The hash that keys inline content, in 32-bit signed arithmetic.

    The loop shifts, adds and truncates; what it computes is a polynomial in 33 modulo
    2^32, with the seed weighing most. */
module ContentKey {

  const SEED := 5381
  const WORD := 0x1_0000_0000

  /** `x | 0`: the signed 32-bit number congruent to `x`. */
  function Int32(x: int): (r: int)
    ensures -0x8000_0000 <= r < 0x8000_0000 && r % WORD == x % WORD
  {
    var u := x % WORD;
    if u < 0x8000_0000 then u else u - WORD
  }

  /** `x >>> 0`. */
  function Uint32(x: int): int { x % WORD }

  /** `h << 5` on a signed 32-bit number. */
  function ShiftLeft5(h: int): int { Int32(h * 32) }

  function Pow33(n: nat): nat { if n == 0 then 1 else 33 * Pow33(n - 1) }

  /** The characters' codes as digits of base 33, the first one weighing most. */
  function Weighted(codes: seq<nat>): nat {
    if codes == [] then 0 else codes[0] * Pow33(|codes| - 1) + Weighted(codes[1..])
  }

  /** The polynomial in 33 with the seed as its leading coefficient. */
  function Polynomial(codes: seq<nat>): nat { SEED * Pow33(|codes|) + Weighted(codes) }

  lemma {:induction false} WeightedAppend(codes: seq<nat>, c: nat)
    ensures Weighted(codes + [c]) == 33 * Weighted(codes) + c
  {
    if codes == [] {
      assert ([c])[1..] == [];
      assert codes + [c] == [c];
    } else {
      assert (codes + [c])[1..] == codes[1..] + [c];
      WeightedAppend(codes[1..], c);
      var n := |codes|;
      assert Pow33(n) == 33 * Pow33(n - 1);
      assert codes[0] * (33 * Pow33(n - 1)) == 33 * (codes[0] * Pow33(n - 1));
    }
  }

  lemma PolynomialAppend(codes: seq<nat>, c: nat)
    ensures Polynomial(codes + [c]) == 33 * Polynomial(codes) + c
  {
    WeightedAppend(codes, c);
    assert SEED * (33 * Pow33(|codes|)) == 33 * (SEED * Pow33(|codes|));
  }

  /** Numbers that differ by a multiple of the word are congruent, and only those. */
  lemma Congruent(a: int, b: int) returns (k: int)
    requires a % WORD == b % WORD
    ensures a == b + k * WORD
  {
    k := a / WORD - b / WORD;
  }

  lemma Shifted(a: int, k: int)
    ensures (a + k * WORD) % WORD == a % WORD
  {
  }

  /** One turn of the loop multiplies by 33 and adds, modulo the word. */
  lemma TurnIsHorner(h: int, p: int, c: nat)
    requires h % WORD == p % WORD
    ensures Int32(ShiftLeft5(h) + h + c) % WORD == (33 * p + c) % WORD
  {
    var x := ShiftLeft5(h);
    hide Int32, ShiftLeft5;
    assert x % WORD == (h * 32) % WORD by { ShiftIs(h); }
    var k := Congruent(h, p);
    var j := Congruent(x, h * 32);
    Shifted(33 * p + c, 33 * k + j);
  }

  lemma ShiftIs(h: int)
    ensures ShiftLeft5(h) % WORD == (h * 32) % WORD
  {
  }

  /** The loop of the hash; `codes` are the UTF-16 code units of the text. */
  method Hash(codes: seq<nat>) returns (h: int)
    ensures Uint32(h) == Polynomial(codes) % WORD
    ensures -0x8000_0000 <= h < 0x8000_0000
  {
    h := SEED;
    var i := 0;
    while i < |codes|
      invariant i <= |codes| && -0x8000_0000 <= h < 0x8000_0000
      invariant h % WORD == Polynomial(codes[..i]) % WORD
    {
      assert codes[..i + 1] == codes[..i] + [codes[i]];
      TurnIsHorner(h, Polynomial(codes[..i]), codes[i]);
      PolynomialAppend(codes[..i], codes[i]);
      h := Int32(ShiftLeft5(h) + h + codes[i]);
      i := i + 1;
    }
    assert codes[..i] == codes;
  }

  /** The seed, the base and the width of the word. */
  lemma SeedIs(c: nat)
    ensures Polynomial([]) == 5381 && Polynomial([c]) == 177573 + c && WORD == 4294967296
  {
    PolynomialAppend([], c);
    assert [] + [c] == [c];
  }
}
