/** Three stalls on a grid of two by two: fingerprints "1", "3" and "5". */
module StallExamples {
  import opened Fnv
  import opened Residues
  import opened StallPlacement

  // ---- their hashes

  lemma XorStep(x: nat, r: nat, c: nat)
    ensures Xor(2 * x + r % 2, c) == 2 * Xor(x, c / 2) + (r + c) % 2
  {
    XorBits(2 * x + r % 2, c);
    Doubled(x, r, c);
  }

  lemma Doubled(x: nat, r: nat, c: nat)
    ensures (2 * x + r % 2) / 2 == x && (2 * x + r % 2 + c) % 2 == (r + c) % 2
  {
  }

  lemma Scaled(p: nat, q: nat) returns (pq: nat)
    ensures pq == p * q && 2 * p * q == 2 * pq
  {
    pq := p * q;
  }

  /** A small number changes only the low bits. */
  lemma {:induction false} XorLow(q: nat, r: nat, c: nat, k: nat)
    requires r < Pow2(k) && c < Pow2(k)
    ensures Pow2(k) * q >= 0 && Xor(Pow2(k) * q + r, c) == Pow2(k) * q + Xor(r, c)
  {
    if k > 0 {
      var high: nat := Scaled(Pow2(k - 1), q);
      XorLow(q, r / 2, c / 2, k - 1);
      XorStep(high + r / 2, r, c);
      XorBits(r, c);
      assert Pow2(k) * q + r == 2 * (high + r / 2) + r % 2;
    }
  }

  lemma {:induction false} XorSeven(h: nat, q: nat, r: nat, c: nat)
    requires h == 128 * q + r && r < 128 && c < 128
    ensures Xor(h, c) == h - r + Xor(r, c)
  {
    assert Pow2(7) == 128;
    XorLow(q, r, c, 7);
  }

  lemma {:induction false} XorUp(a: nat, b: nat, half: nat, x: nat)
    requires Xor(a / 2, b / 2) == half && x == 2 * half + (a + b) % 2
    ensures Xor(a, b) == x
  {
    XorBits(a, b);
  }

  lemma {:induction false} LowBits(a: nat, b: nat)
    requires a == 69 && (b == '1' as nat || b == '3' as nat || b == '5' as nat)
    ensures Xor(a, b) == if b == '1' as nat then 116 else if b == '3' as nat then 118 else 112
  {
    var a1: nat, b1: nat := a / 2, b / 2;
    var a2: nat, b2: nat := a1 / 2, b1 / 2;
    var a3: nat, b3: nat := a2 / 2, b2 / 2;
    var a4: nat, b4: nat := a3 / 2, b3 / 2;
    var a5: nat, b5: nat := a4 / 2, b4 / 2;
    assert a5 == 2 && b5 == 1;
    XorUp(a5, b5, 1, 3);
    XorUp(a4, b4, 3, 7);
    XorUp(a3, b3, 7, 14);
    XorUp(a2, b2, 14, if b == '5' as nat then 28 else 29);
    XorUp(a1, b1, if b == '5' as nat then 28 else 29, if b == '5' as nat then 56 else if b == '3' as nat then 59 else 58);
    XorUp(a, b, if b == '5' as nat then 56 else if b == '3' as nat then 59 else 58,
          if b == '1' as nat then 116 else if b == '3' as nat then 118 else 112);
  }

  lemma {:induction false} HashOfOne(c: CodeUnit, low: nat, w: nat)
    requires c < 128 && low == Xor(69, c) && (OFFSET - 69 + low) * PRIME % WORD == w
    ensures Hash([c]) == w
  {
    XorSeven(OFFSET, 16922939, 69, c);
    var text: seq<CodeUnit> := [c];
    assert text[1..] == [];
    assert HashFrom(OFFSET, text) == HashFrom(Step(OFFSET, c), text[1..]);
  }

  predicate IsDigit(f: Fingerprint, digit: char) {
    |f| == 1 && f[0] == digit as nat
  }

  lemma HashOfDigit(f: Fingerprint)
    requires IsDigit(f, '1') || IsDigit(f, '3') || IsDigit(f, '5')
    ensures Hash(f) == if IsDigit(f, '1') then 873244444 else if IsDigit(f, '3') then 906799682 else 806133968
  {
    LowBits(69, f[0]);
    assert f == [f[0]];
    HashOfOne(f[0], if IsDigit(f, '1') then 116 else if IsDigit(f, '3') then 118 else 112,
              if IsDigit(f, '1') then 873244444 else if IsDigit(f, '3') then 906799682 else 806133968);
  }

  /** Home cell and stride on four cells. */
  lemma Starts(one: Fingerprint, three: Fingerprint, five: Fingerprint)
    requires IsDigit(one, '1') && IsDigit(three, '3') && IsDigit(five, '5')
    ensures Home(one, 4) == 0 && Home(three, 4) == 2 && Home(five, 4) == 0 && Stride(five, 4) == 2
  {
    HashOfDigit(one);
    HashOfDigit(three);
    HashOfDigit(five);
  }

  // ---- their squares

  lemma AtHome(f: Fingerprint, n: nat, taken: set<nat>)
    requires n > 0 && Home(f, n) !in taken
    ensures Spot(f, n, taken) == Home(f, n)
  {
    assert Visit(Home(f, n), Stride(f, n), n, 0) == Home(f, n) % n;
    Lands(Home(f, n), Home(f, n), 0, n);
  }

  /** "5" can stand on 0 and 2 only: on 2 if just 0 is taken, at home if both are. */
  lemma FiveStands(five: Fingerprint)
    requires Home(five, 4) == 0 && Stride(five, 4) == 2
    ensures Spot(five, 4, {0}) == 2 && Spot(five, 4, {0, 2}) == 0
  {
    assert Gcd(2, 4) == Gcd(4, 2) == Gcd(2, 0) == 2;
    assert forall c :: c in ClassOf(0, 2, 4) <==> c == 0 || c == 2;
    assert Reach(five, 4) == {0, 2};
    SpotExactly(five, 4, {0});
    SpotExactly(five, 4, {0, 2});
  }

  lemma {:induction false} ThreeSquares(a: Fingerprint, b: Fingerprint, c: Fingerprint, n: nat)
    requires n > 0
    ensures var x := Spot(a, n, {}); var y := Spot(b, n, {x}); var z := Spot(c, n, {x, y});
      Squares([a, b, c], n, {}) == [x, y, z]
  {
    var prints: seq<Fingerprint> := [a, b, c];
    var x := Spot(a, n, {});
    var y := Spot(b, n, {x});
    assert prints[1..] == [b, c] && prints[1..][1..] == [c] && |prints[1..][1..][1..]| == 0;
    assert {} + {x} == {x} && {x} + {y} == {x, y};
    assert Squares(prints, n, {}) == [x] + Squares(prints[1..], n, {x});
    assert Squares(prints[1..], n, {x}) == [y] + Squares(prints[1..][1..], n, {x, y});
  }

  lemma {:induction false} TwoSquares(a: Fingerprint, b: Fingerprint, n: nat)
    requires n > 0
    ensures var x := Spot(a, n, {});
      Squares([a, b], n, {}) == [x, Spot(b, n, {x})]
  {
    var prints: seq<Fingerprint> := [a, b];
    var x := Spot(a, n, {});
    assert prints[1..] == [b] && |prints[1..][1..]| == 0;
    assert {} + {x} == {x};
    assert Squares(prints, n, {}) == [x] + Squares(prints[1..], n, {x});
  }

  /** Two of the three share square 0, while squares 1 and 3 stand free. */
  lemma SharingOnARoomyGrid(one: Fingerprint, three: Fingerprint, five: Fingerprint)
    requires IsDigit(one, '1') && IsDigit(three, '3') && IsDigit(five, '5')
    ensures Squares([one, three, five], 4, {}) == [0, 2, 0]
  {
    Starts(one, three, five);
    AtHome(one, 4, {});
    AtHome(three, 4, {0});
    FiveStands(five);
    ThreeSquares(one, three, five, 4);
  }

  /**
   Two newcomers that take a square somebody behind them held. Without "1" stall
   "5" holds square 0, which "1" takes, and "5" is thrown back on it: nobody
   moves. Without "3" it holds square 2, which "3" takes, and it moves to 0.
   */
  lemma NewcomersOnATakenSquare(one: Fingerprint, three: Fingerprint, five: Fingerprint)
    requires IsDigit(one, '1') && IsDigit(three, '3') && IsDigit(five, '5')
    ensures Squares([three, five], 4, {}) == [2, 0]
    ensures Squares([one, five], 4, {}) == [0, 2]
    ensures Squares([one, three, five], 4, {}) == [0, 2, 0]
  {
    SharingOnARoomyGrid(one, three, five);
    Starts(one, three, five);
    AtHome(one, 4, {});
    AtHome(three, 4, {});
    AtHome(five, 4, {2});
    FiveStands(five);
    TwoSquares(three, five, 4);
    TwoSquares(one, five, 4);
  }
}
