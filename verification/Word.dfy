/** The machine word `u64` as its 64 bits, most significant bit first. */
module Word {

  type Word = w: seq<bool> | |w| == 64 witness seq(64, _ => false)

  const ZERO: Word := seq(64, _ => false)

  function Or(x: Word, y: Word): Word {
    seq(64, i requires 0 <= i < 64 => x[i] || y[i])
  }

  function Xor(x: Word, y: Word): Word {
    seq(64, i requires 0 <= i < 64 => x[i] != y[i])
  }

  /** `x << n`, which panics in the source for n >= 64. */
  function ShiftLeft(x: Word, n: nat): Word
    requires n < 64
  {
    x[n..] + seq(n, _ => false)
  }

  /** `x >> n`, which panics in the source for n >= 64. */
  function ShiftRight(x: Word, n: nat): Word
    requires n < 64
  {
    seq(n, _ => false) + x[..64 - n]
  }

  /** Left rotation: bit `i` comes from `n` places to its right, wrapping around. */
  function Rotate(x: Word, n: nat): Word {
    seq(64, i requires 0 <= i < 64 => x[(i + n) % 64])
  }

  /** The source's `rotate`, made of the two shifts it uses. */
  function RotateByShifts(x: Word, n: nat): (r: Word)
    ensures r == Rotate(x, n)
  {
    var m := n % 64;
    RotateIs(x, n);
    if m == 0 then
      assert x[..0] == [] && x[0..] == x;
      x
    else
      var r := Or(ShiftLeft(x, m), ShiftRight(x, 64 - m));
      assert r == x[m..] + x[..m];
      r
  }

  lemma WrapAt(i: nat, n: nat)
    requires i < 64
    ensures (i + n) % 64 == if i + n % 64 < 64 then i + n % 64 else i + n % 64 - 64
  {
  }

  /** Rotating moves the leading bits to the end. */
  lemma RotateIs(x: Word, n: nat)
    ensures Rotate(x, n) == x[n % 64..] + x[..n % 64]
  {
    var m := n % 64;
    forall i | 0 <= i < 64 ensures Rotate(x, n)[i] == (x[m..] + x[..m])[i] {
      WrapAt(i, n);
    }
  }

  lemma WrapCompose(i: nat, m: nat, n: nat)
    ensures ((i + n) % 64 + m) % 64 == (i + (m + n)) % 64
  {
  }

  /** Rotations compose by adding their amounts, wrapping at 64. */
  lemma RotateCompose(x: Word, m: nat, n: nat)
    ensures Rotate(Rotate(x, m), n) == Rotate(x, m + n)
  {
    forall i | 0 <= i < 64
      ensures Rotate(Rotate(x, m), n)[i] == Rotate(x, m + n)[i]
    {
      WrapCompose(i, m, n);
    }
  }

  lemma RotateXor(x: Word, y: Word, n: nat)
    ensures Rotate(Xor(x, y), n) == Xor(Rotate(x, n), Rotate(y, n))
  {
    assert Rotate(Xor(x, y), n) == Xor(Rotate(x, n), Rotate(y, n));
  }

  lemma RotateZero(n: nat)
    ensures Rotate(ZERO, n) == ZERO
  {
    assert Rotate(ZERO, n) == ZERO;
  }

  lemma RotateByZero(x: Word)
    ensures Rotate(x, 0) == x
  {
    assert Rotate(x, 0) == x;
  }

  lemma XorSwap(x: Word, y: Word, z: Word)
    ensures Xor(Xor(x, y), z) == Xor(Xor(x, z), y)
  {
    assert Xor(Xor(x, y), z) == Xor(Xor(x, z), y);
  }

  lemma XorCancel(x: Word)
    ensures Xor(x, x) == ZERO
    ensures Xor(ZERO, x) == x
  {
    assert Xor(x, x) == ZERO;
    assert Xor(ZERO, x) == x;
  }

  lemma XorInjective(x: Word, y: Word, z: Word)
    ensures Xor(x, y) == Xor(x, z) <==> y == z
  {
    if Xor(x, y) == Xor(x, z) {
      forall i | 0 <= i < 64 ensures y[i] == z[i] {
        assert Xor(x, y)[i] == Xor(x, z)[i];
      }
      assert y == z;
    }
  }

  // ---------- Words as numbers ----------

  function Value(x: seq<bool>): nat {
    if x == [] then 0 else 2 * Value(x[..|x| - 1]) + if x[|x| - 1] then 1 else 0
  }

  /** Rotating by one doubles the number and brings the bit that is shifted out back in. */
  lemma RotateDoubles(x: Word)
    ensures Value(Rotate(x, 1)) == 2 * Value(x[1..]) + if x[0] then 1 else 0
  {
    RotateIs(x, 1);
    assert Rotate(x, 1) == x[1..] + [x[0]];
    assert (x[1..] + [x[0]])[..63] == x[1..];
  }
}
