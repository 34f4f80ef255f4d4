// Bit fields of the 32-bit device registers: read, modify, write
// (modules/rt/dxrt_drv_dsp_v3.c, dsp_reg_write_mask and dsp_reg_read_mask).
module MaskedRegister {

  // A register value, bit 0 first.
  type Word = b: seq<bool> | |b| == 32 witness seq(32, _ => false)

  // A shift distance; the C shifts are defined below 32 only.
  type Shift = k: nat | k < 32

  function And(a: Word, b: Word): Word {
    seq(32, i requires 0 <= i < 32 => a[i] && b[i])
  }

  function Or(a: Word, b: Word): Word {
    seq(32, i requires 0 <= i < 32 => a[i] || b[i])
  }

  function Not(a: Word): Word {
    seq(32, i requires 0 <= i < 32 => !a[i])
  }

  function ShiftLeft(a: Word, k: Shift): Word {
    seq(32, i requires 0 <= i < 32 => i >= k && a[i - k])
  }

  function ShiftRight(a: Word, k: Shift): Word {
    seq(32, i requires 0 <= i < 32 => i + k < 32 && a[i + k])
  }

  function Insert(word: Word, val: Word, mask: Word, k: Shift): Word {
    Or(And(word, Not(mask)), And(ShiftLeft(val, k), mask))
  }

  function Extract(word: Word, mask: Word, k: Shift): Word {
    ShiftRight(And(word, mask), k)
  }

  // Every set bit of the value lands on a bit of the mask.
  predicate FitsField(val: Word, mask: Word, k: Shift) {
    forall i :: 0 <= i < 32 && val[i] ==> i + k < 32 && mask[i + k]
  }

  class RegisterBlock {
    const words: array<Word>

    constructor (n: nat)
      ensures words.Length == n && fresh(words)
    {
      words := new Word[n](_ => seq(32, _ => false));
    }

    method WriteMask(i: nat, val: Word, mask: Word, k: Shift)
      requires i < words.Length
      modifies words
      ensures words[i] == Insert(old(words[i]), val, mask, k)
      ensures forall b :: 0 <= b < 32 && !mask[b] ==> words[i][b] == old(words[i])[b]
      ensures forall b :: 0 <= b < 32 && mask[b] ==> words[i][b] == (b >= k && val[b - k])
      ensures forall j :: 0 <= j < words.Length && j != i ==> words[j] == old(words[j])
    {
      var word := words[i];
      word := And(word, Not(mask));
      word := Or(word, And(ShiftLeft(val, k), mask));
      words[i] := word;
    }

    method ReadMask(i: nat, mask: Word, k: Shift) returns (r: Word)
      requires i < words.Length
      ensures r == Extract(words[i], mask, k)
      ensures forall b :: 0 <= b < 32 ==> r[b] == (b + k < 32 && mask[b + k] && words[i][b + k])
    {
      var word := words[i];
      r := ShiftRight(And(word, mask), k);
    }
  }

  // A masked read of the field just written returns the value exactly when it fits the field.
  lemma ReadBackExactly(word: Word, val: Word, mask: Word, k: Shift)
    ensures Extract(Insert(word, val, mask, k), mask, k) == val <==> FitsField(val, mask, k)
  {
    var r := Extract(Insert(word, val, mask, k), mask, k);
    forall i | 0 <= i < 32
      ensures r[i] == (i + k < 32 && mask[i + k] && val[i])
    {
    }
    if FitsField(val, mask, k) {
      assert r == val;
    } else {
      var i :| 0 <= i < 32 && val[i] && !(i + k < 32 && mask[i + k]);
      assert r[i] != val[i];
    }
  }

  // Writes to disjoint fields commute and do not disturb each other's reads.
  lemma DisjointFieldsCommute(word: Word, v: Word, m: Word, j: Shift, w: Word, n: Word, k: Shift)
    requires forall i :: 0 <= i < 32 ==> !(m[i] && n[i])
    ensures Insert(Insert(word, v, m, j), w, n, k) == Insert(Insert(word, w, n, k), v, m, j)
    ensures Extract(Insert(word, v, m, j), n, k) == Extract(word, n, k)
  {
    assert Insert(Insert(word, v, m, j), w, n, k) == Insert(Insert(word, w, n, k), v, m, j);
    assert Extract(Insert(word, v, m, j), n, k) == Extract(word, n, k);
  }
}
