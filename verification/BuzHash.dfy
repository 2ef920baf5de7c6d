/** The cyclic-polynomial rolling hash of src/utils/hash.rs. */
module BuzHash {
  import opened Common
  import opened Word

  /** The 256-entry substitution table: any word for each byte. */
  type Table = Byte -> Word

  /** The exclusive or, over a window, of the table entries rotated by their distance
      from the end of a full window. */
  function WindowHash(table: Table, windowSize: nat, w: Bytes): Word
    requires |w| <= windowSize
  {
    if w == [] then ZERO
    else
      var n := |w| - 1;
      Xor(WindowHash(table, windowSize, w[..n]), Rotate(table(w[n]), windowSize - (1 + n)))
  }

  /** What `compute` returns: the hash of at most `windowSize` leading bytes. */
  function Weak(table: Table, windowSize: nat, data: Bytes): Word {
    WindowHash(table, windowSize, if |data| <= windowSize then data else data[..windowSize])
  }

  /** One step of `roll` on the hash value alone. */
  function RollHash(table: Table, windowSize: nat, hash: Word, bye: Byte, newByte: Byte): Word {
    Xor(Xor(Rotate(hash, 1), Rotate(table(bye), windowSize)), table(newByte))
  }

  /** The hash after computing on the first full window of `data` and rolling `k` times. */
  function Rolled(table: Table, windowSize: nat, data: Bytes, k: nat): Word
    requires windowSize + k <= |data|
  {
    if k == 0 then Weak(table, windowSize, data[..windowSize])
    else
      RollHash(table, windowSize, Rolled(table, windowSize, data, k - 1),
               data[k - 1], data[windowSize + k - 1])
  }

  class BuzHash {
    const table: Table
    const windowSize: nat
    var window: Bytes
    var hash: Word
    /** Bytes hashed by `Compute` plus the number of calls of `Roll`. */
    ghost var work: nat

    constructor (table: Table, windowSize: nat)
      ensures this.table == table && this.windowSize == windowSize
      ensures window == [] && hash == ZERO && work == 0
    {
      this.table := table;
      this.windowSize := windowSize;
      window, hash, work := [], ZERO, 0;
    }

    /** The window is full and the stored hash is that of the window. */
    ghost predicate Fresh()
      reads this
    {
      |window| == windowSize && hash == WindowHash(table, windowSize, window)
    }

    method Compute(data: Bytes) returns (h: Word)
      modifies this
      ensures window == if |data| <= windowSize then data else data[..windowSize]
      ensures h == hash == Weak(table, windowSize, data)
      ensures |data| <= windowSize ==> h == Rotate(Horner(table, data), windowSize - |data|)
      ensures |data| >= windowSize ==> Fresh()
      ensures work == old(work) + |window|
    {
      hide WindowHash, Horner, Rotate;
      window := [];
      var i := 0;
      while i < |data| && i < windowSize
        invariant i <= |data| && i <= windowSize
        invariant window == data[..i]
        invariant work == old(work)
      {
        window := window + [data[i]];
        i := i + 1;
      }
      assert window == if |data| <= windowSize then data else data[..windowSize];
      work := work + |window|;
      if |data| <= windowSize { WeakIsHorner(table, windowSize, data); }
      h := Hash();
    }

    method Hash() returns (h: Word)
      requires |window| <= windowSize
      modifies this`hash
      ensures h == hash == WindowHash(table, windowSize, window)
    {
      hide Xor, Rotate, RotateByShifts;
      var acc := ZERO;
      var n := 0;
      while n < |window|
        invariant n <= |window|
        invariant acc == WindowHash(table, windowSize, window[..n])
      {
        assert window[..n + 1][..n] == window[..n];
        acc := Xor(acc, RotateByShifts(table(window[n]), windowSize - (1 + n)));
        n := n + 1;
      }
      assert window[..n] == window;
      hash := acc;
      h := hash;
    }

    /** Slides the window by one byte. On a full window whose hash is fresh it leaves
        exactly what recomputing would. */
    method Roll(newByte: Byte) returns (h: Word)
      requires window != []
      modifies this
      ensures window == old(window)[1..] + [newByte]
      ensures h == hash == RollHash(table, windowSize, old(hash), old(window)[0], newByte)
      ensures old(Fresh()) ==> Fresh()
      ensures work == old(work) + 1
    {
      if |window| == windowSize {
        RollIsRecompute(table, windowSize, window, newByte);
      }
      var bye := window[0];
      window := window[1..] + [newByte];
      hash := RotateByShifts(hash, 1);
      hash := Xor(hash, RotateByShifts(table(bye), windowSize));
      hash := Xor(hash, table(newByte));
      work := work + 1;
      h := hash;
    }
  }

  // ---------- The hash as a polynomial ----------

  /** Horner's form of the cyclic polynomial: no window size, no positions. */
  function Horner(table: Table, w: Bytes): Word {
    if w == [] then ZERO
    else Xor(Rotate(Horner(table, w[..|w| - 1]), 1), table(w[|w| - 1]))
  }

  lemma {:induction false} WindowHashIsHorner(table: Table, windowSize: nat, w: Bytes)
    requires |w| <= windowSize
    ensures WindowHash(table, windowSize, w) == Rotate(Horner(table, w), windowSize - |w|)
    decreases |w|
  {
    hide Xor, Rotate;
    if w == [] {
      RotateZero(windowSize);
    } else {
      var init, x, k := w[..|w| - 1], table(w[|w| - 1]), windowSize - |w|;
      WindowHashIsHorner(table, windowSize, init);
      RotateXor(Rotate(Horner(table, init), 1), x, k);
      RotateCompose(Horner(table, init), 1, k);
    }
  }

  /** What is computed on data no longer than the window, short last blocks included: the
      polynomial, rotated by what the window lacks. */
  lemma WeakIsHorner(table: Table, windowSize: nat, data: Bytes)
    requires |data| <= windowSize
    ensures Weak(table, windowSize, data) == Rotate(Horner(table, data), windowSize - |data|)
  {
    WindowHashIsHorner(table, windowSize, data);
  }

  /** Of longer data only the leading bytes of one window count. */
  lemma WeakIsLeading(table: Table, windowSize: nat, data: Bytes)
    requires |data| > windowSize
    ensures Weak(table, windowSize, data) == Horner(table, data[..windowSize])
  {
    WindowHashIsHorner(table, windowSize, data[..windowSize]);
    RotateByZero(Horner(table, data[..windowSize]));
  }

  /** Dropping the oldest byte removes exactly its own, rotated, contribution. */
  lemma {:induction false} HornerDropFirst(table: Table, w: Bytes)
    requires w != []
    ensures Horner(table, w[1..]) == Xor(Horner(table, w), Rotate(table(w[0]), |w| - 1))
    decreases |w|
  {
    hide Xor, Rotate;
    var a, x := table(w[0]), table(w[|w| - 1]);
    if |w| == 1 {
      assert Horner(table, w[..0]) == ZERO;
      RotateZero(1);
      RotateByZero(a);
      XorCancel(a);
    } else {
      var init := w[..|w| - 1];
      HornerDropFirst(table, init);
      assert w[1..][..|w| - 2] == init[1..];
      RotateXor(Horner(table, init), Rotate(a, |w| - 2), 1);
      RotateCompose(a, |w| - 2, 1);
      XorSwap(Rotate(Horner(table, init), 1), Rotate(a, |w| - 1), x);
    }
  }

  /** Rolling a window that need not be full agrees with recomputing exactly when the
      table entry of the new byte is unchanged by the missing rotation. */
  lemma RollExact(table: Table, windowSize: nat, w: Bytes, newByte: Byte)
    requires 0 < |w| <= windowSize
    ensures RollHash(table, windowSize, WindowHash(table, windowSize, w), w[0], newByte)
         == WindowHash(table, windowSize, w[1..] + [newByte])
       <==> Rotate(table(newByte), windowSize - |w|) == table(newByte)
  {
    hide Xor, Rotate;
    var k, a, b, next := windowSize - |w|, table(w[0]), table(newByte), w[1..] + [newByte];
    var h, core := Horner(table, w), Xor(Rotate(Horner(table, w), k + 1), Rotate(a, windowSize));
    assert next[..|w| - 1] == w[1..];
    WindowHashIsHorner(table, windowSize, next);
    HornerDropFirst(table, w);
    RotateXor(Rotate(Horner(table, w[1..]), 1), b, k);
    RotateCompose(Horner(table, w[1..]), 1, k);
    RotateXor(h, Rotate(a, |w| - 1), k + 1);
    RotateCompose(a, |w| - 1, k + 1);
    assert WindowHash(table, windowSize, next) == Xor(core, Rotate(b, k));
    WindowHashIsHorner(table, windowSize, w);
    RotateCompose(h, k, 1);
    XorInjective(core, b, Rotate(b, k));
  }

  /** On a full window, rolling is recomputing. */
  lemma RollIsRecompute(table: Table, windowSize: nat, w: Bytes, newByte: Byte)
    requires |w| == windowSize > 0
    ensures RollHash(table, windowSize, WindowHash(table, windowSize, w), w[0], newByte)
         == WindowHash(table, windowSize, w[1..] + [newByte])
  {
    RollExact(table, windowSize, w, newByte);
  }

  /** After any number of rolls over any stream the hash is that of the last window. */
  lemma {:induction false} RollingIsRecomputing(table: Table, windowSize: nat, data: Bytes, k: nat)
    requires 0 < windowSize && windowSize + k <= |data|
    ensures Rolled(table, windowSize, data, k) == Weak(table, windowSize, data[k..k + windowSize])
  {
    hide WindowHash, Xor, Rotate;
    if k > 0 {
      RollingIsRecomputing(table, windowSize, data, k - 1);
      var w := data[k - 1..k - 1 + windowSize];
      RollIsRecompute(table, windowSize, w, data[k - 1 + windowSize]);
      assert w[1..] + [data[k - 1 + windowSize]] == data[k..k + windowSize];
    }
  }
}
