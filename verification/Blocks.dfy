/** Disk blocks as byte sequences, with the words and bits the file system stores in them. */
module Blocks {
  import opened Basics

  const BSIZE: nat := 1024
  const WORDS: nat := 256

  type Block = b: seq<Byte> | |b| == BSIZE witness seq(BSIZE, _ => 0)

  function Zeros(): (b: Block)
    ensures forall i :: 0 <= i < BSIZE ==> b[i] == 0
  {
    seq(BSIZE, _ => 0)
  }

  // ---- Little-endian 32-bit words ----

  /** The number whose little-endian base-256 digits are s[i .. i+n]. */
  function Digits(s: seq<Byte>, i: nat, n: nat): (d: nat)
    requires i + n <= |s|
    decreases n
  {
    if n == 0 then 0 else s[i] as int + 256 * Digits(s, i + 1, n - 1)
  }

  function Base(n: nat): nat {
    if n == 0 then 1 else 256 * Base(n - 1)
  }

  lemma {:induction false} DigitsBound(s: seq<Byte>, i: nat, n: nat)
    requires i + n <= |s|
    ensures Digits(s, i, n) < Base(n)
    decreases n
  {
    if n > 0 { DigitsBound(s, i + 1, n - 1); }
  }

  function Word(b: Block, i: nat): Uint
    requires i < WORDS
  {
    DigitsBound(b, 4 * i, 4);
    Digits(b, 4 * i, 4)
  }

  lemma ZeroWord(i: nat)
    requires i < WORDS
    ensures Word(Zeros(), i) == 0
  {
    assert Digits(Zeros(), 4 * i + 2, 2) == 0;
  }

  function SetWord(b: Block, i: nat, w: Uint): (r: Block)
    requires i < WORDS
  {
    b[..4 * i] + [w % 256, w / 256 % 256, w / 256 / 256 % 256, w / 256 / 256 / 256] + b[4 * i + 4..]
  }

  lemma {:induction false} DigitsFrame(s: seq<Byte>, t: seq<Byte>, i: nat, n: nat)
    requires i + n <= |s| == |t| && forall k :: i <= k < i + n ==> s[k] == t[k]
    ensures Digits(s, i, n) == Digits(t, i, n)
    decreases n
  {
    if n > 0 { DigitsFrame(s, t, i + 1, n - 1); }
  }

  /** Storing a word changes that word's four bytes and nothing else. */
  lemma SetWordOne(b: Block, i: nat, w: Uint, j: nat)
    requires i < WORDS && j < WORDS
    ensures Word(SetWord(b, i, w), j) == if j == i then w else Word(b, j)
  {
    var r := SetWord(b, i, w);
    if j == i {
      var x := w / 256;
      var y := x / 256;
      assert Digits(r, 4 * i + 4, 0) == 0;
      assert Digits(r, 4 * i + 3, 1) == y / 256;
      assert Digits(r, 4 * i + 2, 2) == y % 256 + 256 * (y / 256) == y;
      assert Digits(r, 4 * i + 1, 3) == x % 256 + 256 * y == x;
    } else {
      DigitsFrame(b, r, 4 * j, 4);
    }
  }

  // ---- Bits ----

  /** Bit k of x: x & (1 << k). */
  predicate Bit(x: nat, k: nat)
    decreases k
  {
    if k == 0 then x % 2 == 1 else Bit(x / 2, k - 1)
  }

  /** x | (1 << k) or x & ~(1 << k). */
  function WithBit(x: nat, k: nat, v: bool): nat
    decreases k
  {
    if k == 0 then x - x % 2 + (if v then 1 else 0) else 2 * WithBit(x / 2, k - 1, v) + x % 2
  }

  lemma {:induction false} WithBitOne(x: nat, k: nat, v: bool, j: nat)
    ensures Bit(WithBit(x, k, v), j) == if j == k then v else Bit(x, j)
    decreases k
  {
    var r := WithBit(x, k, v);
    if k > 0 {
      assert r / 2 == WithBit(x / 2, k - 1, v) && r % 2 == x % 2;
      if j > 0 { WithBitOne(x / 2, k - 1, v, j - 1); }
    } else {
      assert r / 2 == x / 2;
    }
  }

  lemma {:induction false} WithBitRange(x: nat, k: nat, v: bool, n: nat)
    requires k < n && x < Power(n)
    ensures WithBit(x, k, v) < Power(n)
    decreases k
  {
    var half := Power(n - 1);
    assert Power(n) == 2 * half;
    if k > 0 {
      assert x / 2 < half;
      WithBitRange(x / 2, k - 1, v, n - 1);
    }
  }

  function Power(n: nat): nat {
    if n == 0 then 1 else 2 * Power(n - 1)
  }

  /** Setting or clearing one of a byte's eight bits. */
  function ByteWithBit(x: Byte, k: nat, v: bool): Byte
    requires k < 8
  {
    WithBitRange(x, k, v, 8);
    WithBit(x, k, v)
  }
}
