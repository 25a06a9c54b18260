/** The 32-bit FNV-1a hash a stall's square is derived from. */
module Fnv {

  /** One UTF-16 code unit, as `charCodeAt` gives it. */
  type CodeUnit = c: nat | c < 0x10000

  const WORD: nat := 0x1_0000_0000
  type Word = w: nat | w < WORD

  const OFFSET: Word := 0x811c9dc5
  const PRIME: nat := 0x01000193
  /** The inverse of the prime modulo 2^32: their product is `LAPS` words and one. */
  const INVERSE: nat := 0x359c449b
  const LAPS: nat := 3513497

  function Xor(a: nat, b: nat): nat
    decreases a + b
  {
    if a == 0 then b else if b == 0 then a else 2 * Xor(a / 2, b / 2) + (a + b) % 2
  }

  function Pow2(k: nat): nat {
    if k == 0 then 1 else 2 * Pow2(k - 1)
  }

  lemma {:induction false} XorBound(a: nat, b: nat, k: nat)
    requires a < Pow2(k) && b < Pow2(k)
    ensures Xor(a, b) < Pow2(k)
  {
    if a != 0 && b != 0 {
      XorBound(a / 2, b / 2, k - 1);
    }
  }

  lemma {:induction false} Pow2Octet(k: nat)
    ensures Pow2(k + 8) == 0x100 * Pow2(k)
  {
    assert Pow2(k + 2) == 4 * Pow2(k);
    assert Pow2(k + 4) == 4 * Pow2(k + 2);
    assert Pow2(k + 6) == 4 * Pow2(k + 4);
    assert Pow2(k + 8) == 4 * Pow2(k + 6);
  }

  lemma WordIsPow2()
    ensures Pow2(32) == WORD
  {
    Pow2Octet(0);
    Pow2Octet(8);
    Pow2Octet(16);
    Pow2Octet(24);
  }

  /** Bit by bit it is the exclusive or. */
  lemma {:induction false} XorBitwise(a: nat, b: nat, k: nat)
    ensures Bit(Xor(a, b), k) == (Bit(a, k) + Bit(b, k)) % 2
    decreases k
  {
    XorBits(a, b);
    Halves(Xor(a, b), Xor(a / 2, b / 2), a + b);
    if k > 0 {
      XorBitwise(a / 2, b / 2, k - 1);
    }
  }

  lemma {:induction false} Halves(x: nat, half: nat, n: nat)
    requires x == 2 * half + n % 2
    ensures x / 2 == half && x % 2 == n % 2
  {
  }

  /** The bit of value 2 to the `k`. */
  function Bit(n: nat, k: nat): nat
    decreases k
  {
    if k == 0 then n % 2 else Bit(n / 2, k - 1)
  }

  /** Mixes in a character by exclusive or, then multiplies by the prime within a word. */
  function Step(h: Word, c: CodeUnit): Word {
    Xor(h, c) * PRIME % WORD
  }

  function HashFrom(h: Word, text: seq<CodeUnit>): Word
    decreases |text|
  {
    if text == [] then h else HashFrom(Step(h, text[0]), text[1..])
  }

  function Hash(text: seq<CodeUnit>): Word {
    HashFrom(OFFSET, text)
  }

  method HashFingerprint(fingerprint: seq<CodeUnit>) returns (h: Word)
    ensures h == Hash(fingerprint)
  {
    h := OFFSET;
    for i := 0 to |fingerprint|
      invariant HashFrom(h, fingerprint[i..]) == Hash(fingerprint)
    {
      assert fingerprint[i..][1..] == fingerprint[i + 1..];
      var mixed := Xor(h, fingerprint[i]);
      h := mixed * PRIME % WORD;
    }
  }

  /** The last bit of an exclusive or, and the rest of it. */
  lemma {:induction false} XorBits(a: nat, b: nat)
    ensures Xor(a, b) == 2 * Xor(a / 2, b / 2) + (a + b) % 2
  {
  }

  lemma SameBit(a: nat, b: nat, y: nat)
    requires (a + y) % 2 == (b + y) % 2 && a / 2 == b / 2
    ensures a == b
  {
  }

  lemma {:induction false} XorCancelsRight(a: nat, b: nat, y: nat)
    requires Xor(a, y) == Xor(b, y)
    ensures a == b
    decreases y
  {
    if y != 0 {
      XorBits(a, y);
      XorBits(b, y);
      var p, q := Xor(a / 2, y / 2), Xor(b / 2, y / 2);
      assert p == q;
      XorCancelsRight(a / 2, b / 2, y / 2);
      SameBit(a, b, y);
    }
  }

  lemma {:induction false} XorCommutes(a: nat, b: nat)
    ensures Xor(a, b) == Xor(b, a)
    decreases a + b
  {
    if a != 0 && b != 0 { XorCommutes(a / 2, b / 2); }
  }

  /** The prime is odd, so multiplying by it modulo 2^32 loses nothing. */
  lemma TimesPrimeInjective(x: Word, y: Word)
    requires x * PRIME % WORD == y * PRIME % WORD
    ensures x == y
  {
    var q := x * PRIME / WORD - y * PRIME / WORD;
    var d: int := x - y;
    assert d * PRIME == q * WORD;
    assert d == WORD * (q * INVERSE - d * LAPS);
  }

  /** A step loses nothing: neither of the state it starts from nor of the character it takes in. */
  lemma StepInjective(g: Word, h: Word, a: CodeUnit, b: CodeUnit)
    requires Step(g, a) == Step(h, b)
    ensures g == h <==> a == b
  {
    WordIsPow2();
    XorBound(g, a, 32);
    XorBound(h, b, 32);
    TimesPrimeInjective(Xor(g, a), Xor(h, b));
    if a == b {
      XorCancelsRight(g, h, a);
    }
    if g == h {
      XorCommutes(g, a);
      XorCommutes(g, b);
      XorCancelsRight(a, b, g);
    }
  }

  lemma {:induction false} HashFromInjective(g: Word, h: Word, text: seq<CodeUnit>)
    requires HashFrom(g, text) == HashFrom(h, text)
    ensures g == h
    decreases |text|
  {
    if text != [] {
      HashFromInjective(Step(g, text[0]), Step(h, text[0]), text[1..]);
      StepInjective(g, h, text[0], text[0]);
    }
  }

  lemma {:induction false} HashFromConcat(h: Word, u: seq<CodeUnit>, v: seq<CodeUnit>)
    ensures HashFrom(h, u + v) == HashFrom(HashFrom(h, u), v)
    decreases |u|
  {
    if u == [] {
      assert u + v == v;
    } else {
      assert (u + v)[1..] == u[1..] + v;
      HashFromConcat(Step(h, u[0]), u[1..], v);
    }
  }

  lemma {:induction false} HashAround(u: seq<CodeUnit>, c: CodeUnit, v: seq<CodeUnit>)
    ensures Hash(u + [c] + v) == HashFrom(Step(HashFrom(OFFSET, u), c), v)
  {
    HashFromConcat(OFFSET, u + [c], v);
    HashFromConcat(OFFSET, u, [c]);
    assert [c][1..] == [];
  }

  /** Two fingerprints that differ in exactly one character never hash alike, wherever that character stands. */
  lemma OneCharacterTellsApart(u: seq<CodeUnit>, a: CodeUnit, b: CodeUnit, v: seq<CodeUnit>)
    ensures Hash(u + [a] + v) == Hash(u + [b] + v) <==> a == b
  {
    var h := HashFrom(OFFSET, u);
    HashAround(u, a, v);
    HashAround(u, b, v);
    if Hash(u + [a] + v) == Hash(u + [b] + v) {
      HashFromInjective(Step(h, a), Step(h, b), v);
      StepInjective(h, h, a, b);
    }
  }
}
