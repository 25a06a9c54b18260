/** Stepping around a circle of `n` cells by a fixed stride: exactly one residue class is visited. */
module Residues {

  function Gcd(a: nat, b: nat): nat
    decreases b
  {
    if b == 0 then a else Gcd(b, a % b)
  }

  /** The gcd divides both numbers, and is an integer combination of them. */
  lemma {:induction false} Bezout(a: nat, b: nat) returns (p: nat, q: nat, u: int, v: int)
    requires a > 0 || b > 0
    ensures Gcd(a, b) > 0
    ensures a == Gcd(a, b) * p && b == Gcd(a, b) * q
    ensures u * a + v * b == Gcd(a, b)
    decreases b
  {
    if b == 0 {
      p, q, u, v := 1, 0, 1, 0;
    } else {
      var d, r := Euclid(a, b);
      var p', q', u', v' := Bezout(b, r);
      p, q := d * p' + q', p';
      u, v := v', u' - v' * d;
      BezoutStep(d, b, r, Gcd(b, r), p', q', u', v');
    }
  }

  lemma Euclid(a: nat, b: nat) returns (d: nat, r: nat)
    requires b > 0
    ensures a == d * b + r && r < b && Gcd(a, b) == Gcd(b, r)
  {
    d, r := a / b, a % b;
  }

  lemma BezoutStep(d: int, b: int, r: int, g: int, p: int, q: int, u: int, v: int)
    requires b == g * p && r == g * q && u * b + v * r == g
    ensures d * b + r == g * (d * p + q)
    ensures v * (d * b + r) + (u - v * d) * b == g
  {
    Distribute(d * p, q, g);
    Associate(d, p, g);
    Distribute(d * b, r, v);
    Distribute(u, 0 - v * d, b);
    Associate(v, d, b);
  }

  lemma Distribute(a: int, b: int, c: int)
    ensures (a + b) * c == a * c + b * c && c * (a + b) == c * a + c * b
  {
  }

  lemma Associate(a: int, b: int, c: int)
    ensures a * b * c == a * (b * c) == b * (a * c) && (0 - a * b) * c == 0 - a * (b * c)
  {
  }

  lemma Outgrows(d: int, n: int)
    requires n > 0
    ensures d >= 1 ==> d * n >= n
    ensures d <= -1 ==> d * n <= -n
  {
  }

  /** Adding a multiple of the modulus changes no remainder. */
  lemma ModShift(a: int, k: int, n: int)
    requires n > 0
    ensures (a + k * n) % n == a % n
  {
    var x, y := a + k * n, a;
    var d := x / n - y / n - k;
    assert x == x / n * n + x % n && y == y / n * n + y % n;
    assert (x / n - y / n - k) * n == x / n * n - y / n * n - k * n;
    assert d * n == y % n - x % n;
    Outgrows(d, n);
  }

  /** The cell a probe stands on after `i` steps. */
  function Visit(home: nat, stride: nat, n: nat, i: nat): nat
    requires n > 0
  {
    (home + i * stride) % n
  }

  lemma VisitNext(home: nat, stride: nat, n: nat, i: nat)
    requires n > 0
    ensures (Visit(home, stride, n, i) + stride) % n == Visit(home, stride, n, i + 1)
  {
    var laps, at := Remainder(home + i * stride, n);
    Distribute(i, 1, stride);
    Distribute(laps, 0 - laps, n);
    ModShift(home + (i + 1) * stride, 0 - laps, n);
  }

  /** After `n` steps the probe is home again. */
  lemma VisitRound(home: nat, stride: nat, n: nat)
    requires n > 0
    ensures Visit(home, stride, n, n) == home % n
  {
    ModShift(home, stride, n);
    assert n * stride == stride * n;
  }

  /** Every cell visited lies in the home cell's residue class modulo the gcd. */
  lemma {:induction false} VisitInClass(home: nat, stride: nat, n: nat, i: nat)
    requires n > 0
    ensures Gcd(stride, n) > 0 && Visit(home, stride, n, i) < n
    ensures Visit(home, stride, n, i) % Gcd(stride, n) == home % Gcd(stride, n)
  {
    var p, q, u, v := Bezout(stride, n);
    var laps, at := Remainder(home + i * stride, n);
    Displacement(home, i, stride, laps, n, Gcd(stride, n), p, q);
    ModShift(home, i * p - laps * q, Gcd(stride, n));
  }

  lemma Remainder(x: int, n: nat) returns (laps: int, at: nat)
    requires n > 0
    ensures x == laps * n + at && at < n && x % n == at
  {
    laps, at := x / n, x % n;
  }

  lemma Displacement(home: int, i: int, stride: int, laps: int, n: int, g: int, p: int, q: int)
    requires stride == g * p && n == g * q
    ensures home + i * stride - laps * n == home + (i * p - laps * q) * g
  {
    Associate(i, p, g);
    Associate(laps, q, g);
    Distribute(i * p, 0 - laps * q, g);
  }

  /** And every cell of the class is visited, within `n` steps. */
  lemma ClassIsVisited(home: nat, stride: nat, n: nat, c: nat) returns (i: nat)
    requires c < n && Gcd(stride, n) > 0
    requires c % Gcd(stride, n) == home % Gcd(stride, n)
    ensures i < n && Visit(home, stride, n, i) == c
  {
    var p, q, u, v := Bezout(stride, n);
    var t := Apart(c, home, Gcd(stride, n));
    var laps, at := Remainder(t * u, n);
    i := at;
    Arrival(home, c, stride, n, Gcd(stride, n), u, v, t, laps, i);
    Lands(home + i * stride, c, 0 - t * v - laps * stride, n);
  }

  lemma Apart(c: nat, d: nat, g: nat) returns (t: int)
    requires g > 0 && c % g == d % g
    ensures c - d == t * g
  {
    var x, r := Remainder(c, g);
    var y, q := Remainder(d, g);
    t := x - y;
    Distribute(x, 0 - y, g);
  }

  lemma Lands(x: int, c: nat, k: int, n: nat)
    requires c < n && x == c + k * n
    ensures x % n == c
  {
    ModShift(c, k, n);
  }

  lemma Arrival(home: int, c: int, s: int, n: int, g: int, u: int, v: int, t: int, laps: int, i: int)
    requires u * s + v * n == g && c - home == t * g && t * u == laps * n + i
    ensures home + i * s == c + (0 - t * v - laps * s) * n
  {
    Distribute(u * s, v * n, t);
    Associate(t, u, s);
    Associate(t, v, n);
    Distribute(laps * n, i, s);
    Associate(laps, n, s);
    Associate(laps, s, n);
    Distribute(0 - t * v, 0 - laps * s, n);
  }

  /** The cells of one residue class. */
  function ClassOf(r: nat, g: nat, n: nat): set<nat>
    requires g > 0
  {
    set c: nat | c < n && c % g == r % g
  }

  /** The cells a probe visits in `n` steps are exactly those of its home's residue class. */
  lemma {:induction false} OrbitIsClass(home: nat, stride: nat, n: nat)
    requires home < n
    ensures Gcd(stride, n) > 0
    ensures forall i: nat :: Visit(home, stride, n, i) in ClassOf(home, Gcd(stride, n), n)
    ensures forall c :: c in ClassOf(home, Gcd(stride, n), n) ==> exists i :: 0 <= i < n && Visit(home, stride, n, i) == c
    ensures Visit(home, stride, n, n) == home
  {
    VisitInClass(home, stride, n, 0);
    forall i: nat ensures Visit(home, stride, n, i) in ClassOf(home, Gcd(stride, n), n) {
      VisitInClass(home, stride, n, i);
    }
    forall c | c in ClassOf(home, Gcd(stride, n), n) ensures exists i :: 0 <= i < n && Visit(home, stride, n, i) == c {
      var i := ClassIsVisited(home, stride, n, c);
    }
    VisitRound(home, stride, n);
    Lands(home, home, 0, n);
  }

  /** The first `k` cells of the class of `r`, spelled out. */
  function Ladder(r: nat, g: nat, k: nat): (s: set<nat>)
    ensures forall c :: c in s ==> exists j: nat :: j < k && c == r + j * g
  {
    if k == 0 then {} else Ladder(r, g, k - 1) + {r + (k - 1) * g}
  }

  lemma {:induction false} LadderSize(r: nat, g: nat, k: nat)
    requires g > 0
    ensures |Ladder(r, g, k)| == k
  {
    if k > 0 {
      LadderSize(r, g, k - 1);
      forall j: nat | j < k - 1 ensures r + j * g != r + (k - 1) * g {
        Below(j, k - 1, g);
      }
    }
  }

  lemma Below(j: int, k: int, g: int)
    requires j < k && g > 0
    ensures j * g + g <= k * g
  {
    Distribute(k - j - 1, j + 1, g);
    Distribute(j, 1, g);
    assert (k - j - 1) * g >= 0;
  }

  /** A residue class modulo g has at least k cells if k multiples of g fit in n. */
  lemma ClassSize(home: nat, g: nat, n: nat, k: nat)
    requires g > 0 && k * g <= n
    ensures |ClassOf(home, g, n)| >= k
  {
    var _, r := Remainder(home, g);
    LadderSize(r, g, k);
    forall c | c in Ladder(r, g, k) ensures c in ClassOf(home, g, n) {
      var j: nat :| j < k && c == r + j * g;
      Rung(home, r, g, n, k, j);
    }
    SubsetSize(Ladder(r, g, k), ClassOf(home, g, n));
  }

  lemma Rung(home: nat, r: nat, g: nat, n: nat, k: nat, j: nat)
    requires g > 0 && k * g <= n && j < k && r < g && r == home % g
    ensures r + j * g in ClassOf(home, g, n)
  {
    var jg := j * g;
    Below(j, k, g);
    Lands(r + jg, r, j, g);
    InClass(r + jg, home, g, n);
  }

  lemma InClass(c: nat, home: nat, g: nat, n: nat)
    requires g > 0 && c < n && c % g == home % g
    ensures c in ClassOf(home, g, n)
  {
  }

  lemma {:induction false} SubsetSize<T>(a: set<T>, b: set<T>)
    requires a <= b
    ensures |a| <= |b|
  {
    if a != {} {
      var x :| x in a;
      SubsetSize(a - {x}, b - {x});
    }
  }
}
