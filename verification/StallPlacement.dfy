/** Where a stall stands: open addressing on a grid, with a stride of the stall's own. */
module StallPlacement {
  import opened Fnv
  import opened Residues
  import opened Texts

  type Fingerprint = seq<CodeUnit>
  datatype Stall = Stall(fingerprint: Fingerprint, name: string)

  /** `Nowhere` is a stall whose coordinates are not numbers: the grid has no cells. */
  datatype Placed = Placed(item: Stall, col: nat, row: nat) | Nowhere(item: Stall)

  function Home(f: Fingerprint, n: nat): nat
    requires n > 0
  {
    Hash(f) % n
  }

  /** One more than the hash's upper three bytes, reduced so that it stays below the number of cells where there is more than one. */
  function Stride(f: Fingerprint, n: nat): nat
    requires n > 0
  {
    1 + Hash(f) / 0x100 % (if n == 1 then 1 else n - 1)
  }

  /** `r` is what `x` leaves over `laps` times `n`. */
  predicate Remains(x: nat, n: nat, laps: nat, r: nat) {
    x == laps * n + r && r < n
  }

  /** Where a fingerprint's walk starts: its hash, as a remainder by the number of cells. */
  lemma {:induction false} HomeExactly(f: Fingerprint, n: nat)
    requires n > 0
    ensures exists laps: nat :: Remains(Hash(f), n, laps, Home(f, n))
  {
    var laps, home := Remainder(Hash(f), n);
    assert Remains(Hash(f), n, laps, Home(f, n));
  }

  /** The hash is `upper` and a low byte; the stride is one more than what `upper` leaves over the cells but one. */
  predicate StridesBy(hash: nat, n: nat, stride: nat, upper: nat, low: nat, rounds: nat)
    requires n > 1 && stride > 0
  {
    Remains(hash, 256, upper, low) && Remains(upper, n - 1, rounds, stride - 1)
  }

  /** And how far it steps: never a whole round, and just one cell where there is but one. */
  lemma {:induction false} StrideExactly(f: Fingerprint, n: nat)
    requires n > 0
    ensures n == 1 ==> Stride(f, n) == 1
    ensures n > 1 ==> Stride(f, n) < n
    ensures n > 1 ==> exists upper: nat, low: nat, rounds: nat :: StridesBy(Hash(f), n, Stride(f, n), upper, low, rounds)
  {
    if n > 1 {
      StridesAre(Hash(f), n, Stride(f, n));
    }
  }

  lemma {:induction false} StridesAre(hash: nat, n: nat, stride: nat)
    requires n > 1 && stride == 1 + hash / 0x100 % (n - 1)
    ensures stride < n
    ensures exists upper: nat, low: nat, rounds: nat :: StridesBy(hash, n, stride, upper, low, rounds)
  {
    var upper, low := Remainder(hash, 256);
    var rounds, rest := Remainder(upper, n - 1);
    assert StridesBy(hash, n, stride, upper, low, rounds);
  }

  /** The cells this fingerprint can ever stand on. */
  function Reach(f: Fingerprint, n: nat): set<nat>
    requires n > 0
  {
    StrideGcd(f, n);
    ClassOf(Home(f, n), Gcd(Stride(f, n), n), n)
  }

  lemma {:induction false} StrideGcd(f: Fingerprint, n: nat)
    requires n > 0
    ensures Gcd(Stride(f, n), n) > 0
  {
    var p, q, u, v := Bezout(Stride(f, n), n);
  }

  // ---- one probe

  function ProbeFrom(home: nat, stride: nat, n: nat, taken: set<nat>, i: nat): nat
    requires 0 < n && i <= n
    decreases n - i
  {
    var cell := Visit(home, stride, n, i);
    if i < n && cell in taken then ProbeFrom(home, stride, n, taken, i + 1) else cell
  }

  function Spot(f: Fingerprint, n: nat, taken: set<nat>): nat
    requires n > 0
  {
    ProbeFrom(Home(f, n), Stride(f, n), n, taken, 0)
  }

  method Walk(home: nat, stride: nat, n: nat, taken: set<nat>) returns (cell: nat)
    requires home < n
    ensures cell == ProbeFrom(home, stride, n, taken, 0) && cell < n
  {
    OrbitIsClass(home, stride, n);
    cell := home;
    var i := 0;
    Lands(home, home, 0, n);
    while i < n && cell in taken
      invariant i <= n && cell < n
      invariant cell == Visit(home, stride, n, i)
      invariant ProbeFrom(home, stride, n, taken, i) == ProbeFrom(home, stride, n, taken, 0)
    {
      VisitNext(home, stride, n, i);
      cell := (cell + stride) % n;
      i := i + 1;
    }
  }

  method Probe(f: Fingerprint, n: nat, taken: set<nat>) returns (cell: nat)
    requires n > 0
    ensures cell == Spot(f, n, taken) && cell < n
  {
    var h := HashFingerprint(f);
    cell := Walk(h % n, 1 + h / 0x100 % (if n == 1 then 1 else n - 1), n, taken);
  }

  lemma {:induction false} ProbeStops(home: nat, stride: nat, n: nat, taken: set<nat>, i: nat) returns (k: nat)
    requires 0 < n && i <= n
    ensures i <= k <= n && ProbeFrom(home, stride, n, taken, i) == Visit(home, stride, n, k)
    ensures forall j :: i <= j < k ==> Visit(home, stride, n, j) in taken
    ensures k < n ==> ProbeFrom(home, stride, n, taken, i) !in taken
    decreases n - i
  {
    if i < n && Visit(home, stride, n, i) in taken {
      k := ProbeStops(home, stride, n, taken, i + 1);
    } else {
      k := i;
    }
  }

  /**
   The probe finds a free cell exactly when its residue class has one, and then
   it is the first free one in visiting order; when the class is full it falls
   back to the home cell, taken as it is.
   */
  lemma SpotExactly(f: Fingerprint, n: nat, taken: set<nat>)
    requires n > 0
    ensures Spot(f, n, taken) in Reach(f, n)
    ensures Spot(f, n, taken) in taken <==> Reach(f, n) <= taken
    ensures Reach(f, n) <= taken ==> Spot(f, n, taken) == Home(f, n)
    ensures Spot(f, n, taken) !in taken ==>
      exists k :: 0 <= k < n && Spot(f, n, taken) == Visit(Home(f, n), Stride(f, n), n, k)
        && forall j :: 0 <= j < k ==> Visit(Home(f, n), Stride(f, n), n, j) in taken
  {
    WalkExactly(Home(f, n), Stride(f, n), n, taken);
  }

  lemma {:induction false} WalkExactly(home: nat, stride: nat, n: nat, taken: set<nat>)
    requires home < n && stride > 0
    ensures Gcd(stride, n) > 0
    ensures var cell := ProbeFrom(home, stride, n, taken, 0); var cells := ClassOf(home, Gcd(stride, n), n);
      && cell in cells
      && (cell in taken <==> cells <= taken)
      && (cells <= taken ==> cell == home)
      && (cell !in taken ==>
            exists k :: 0 <= k < n && cell == Visit(home, stride, n, k) && forall j :: 0 <= j < k ==> Visit(home, stride, n, j) in taken)
  {
    OrbitIsClass(home, stride, n);
    var k := ProbeStops(home, stride, n, taken, 0);
    var cells := ClassOf(home, Gcd(stride, n), n);
    if k == n {
      forall c | c in cells ensures c in taken {
        var i :| 0 <= i < n && Visit(home, stride, n, i) == c;
      }
    }
  }

  // ---- a whole roster

  /** The squares of fingerprints placed in this order on a grid where `taken` is taken. */
  function Squares(prints: seq<Fingerprint>, n: nat, taken: set<nat>): (squares: seq<nat>)
    requires n > 0
    ensures |squares| == |prints|
  {
    if prints == [] then []
    else
      var cell := Spot(prints[0], n, taken);
      [cell] + Squares(prints[1..], n, taken + {cell})
  }

  function ByPrint(): Stall -> Text {
    (s: Stall) => s.fingerprint
  }

  function Prints(stalls: seq<Stall>): (prints: seq<Fingerprint>)
    ensures |prints| == |stalls|
  {
    seq(|stalls|, i requires 0 <= i < |stalls| => stalls[i].fingerprint)
  }

  /** The squares of a roster, whatever order it came in. */
  function Map(stalls: seq<Stall>, n: nat): seq<nat>
    requires n > 0
  {
    Squares(Prints(Sort(stalls, ByPrint())), n, {})
  }

  method PlaceStalls(stalls: seq<Stall>, cols: nat, rows: nat) returns (placed: seq<Placed>)
    ensures |placed| == |stalls| == |Sort(stalls, ByPrint())|
    ensures cols * rows > 0 ==> |Map(stalls, cols * rows)| == |placed|
    ensures forall k :: 0 <= k < |placed| ==>
      if cols * rows > 0
      then StandsAt(placed[k], Sort(stalls, ByPrint())[k], Map(stalls, cols * rows)[k], cols, rows)
      else placed[k] == Nowhere(Sort(stalls, ByPrint())[k])
  {
    var sorted := Sort(stalls, ByPrint());
    SortSorts(stalls, ByPrint());
    assert |multiset(sorted)| == |multiset(stalls)|;
    var cells := cols * rows;
    if cells > 0 {
      placed := PlaceSorted(sorted, cols, rows, cells);
    } else {
      placed := seq(|sorted|, k requires 0 <= k < |sorted| => Nowhere(sorted[k]));
    }
  }

  method PlaceSorted(sorted: seq<Stall>, cols: nat, rows: nat, n: nat) returns (placed: seq<Placed>)
    requires cols > 0 && n == cols * rows > 0
    ensures |placed| == |sorted|
    ensures forall k :: 0 <= k < |placed| ==> StandsAt(placed[k], sorted[k], Squares(Prints(sorted), n, {})[k], cols, rows)
  {
    var taken: set<nat> := {};
    placed := [];
    ghost var prints := Prints(sorted);
    ghost var done: seq<nat> := [];
    assert prints[0..] == prints;
    for k := 0 to |sorted|
      invariant |placed| == |done| == k
      invariant done + Squares(prints[k..], n, taken) == Squares(prints, n, {})
      invariant forall i :: 0 <= i < k ==> StandsAt(placed[i], sorted[i], done[i], cols, rows)
    {
      var cell := Probe(sorted[k].fingerprint, n, taken);
      var here := OnGrid(sorted[k], cell, cols, rows, n);
      NextSquare(prints, k, n, taken, done);
      placed := placed + [here];
      done := done + [cell];
      taken := taken + {cell};
    }
    assert done == Squares(prints, n, {});
  }

  method OnGrid(item: Stall, cell: nat, cols: nat, rows: nat, n: nat) returns (here: Placed)
    requires cols > 0 && cell < n == cols * rows
    ensures StandsAt(here, item, cell, cols, rows)
  {
    GridCell(cell, cols, rows);
    here := Placed(item, cell % cols, cell / cols);
  }

  /** The item, at the column and row of the cell. */
  predicate StandsAt(p: Placed, item: Stall, cell: nat, cols: nat, rows: nat) {
    p.Placed? && p.item == item && p.col < cols && p.row < rows && p.row * cols + p.col == cell
  }

  lemma {:induction false} NextSquare(prints: seq<Fingerprint>, k: nat, n: nat, taken: set<nat>, done: seq<nat>)
    requires n > 0 && k < |prints|
    ensures var cell := Spot(prints[k], n, taken);
            done + Squares(prints[k..], n, taken) == (done + [cell]) + Squares(prints[k + 1..], n, taken + {cell})
  {
    assert prints[k..][0] == prints[k] && prints[k..][1..] == prints[k + 1..];
  }

  lemma GridCell(cell: nat, cols: nat, rows: nat)
    requires cell < cols * rows && cols > 0
    ensures cell % cols < cols && cell / cols < rows && cell / cols * cols + cell % cols == cell
  {
    var row, col := Remainder(cell, cols);
    if row >= rows {
      Distribute(row - rows, rows, cols);
    }
  }

  // ---- distinctness

  function Range(s: seq<nat>): set<nat> {
    set c | c in s
  }

  /** What the k-th square is, in terms of those before it. */
  lemma {:induction false} SquareAt(prints: seq<Fingerprint>, n: nat, taken: set<nat>, k: nat)
    requires n > 0 && k < |prints|
    ensures Squares(prints, n, taken)[k] == Spot(prints[k], n, taken + Range(Squares(prints, n, taken)[..k]))
    decreases k
  {
    var squares := Squares(prints, n, taken);
    if k == 0 {
      assert taken + Range(squares[..0]) == taken;
    } else {
      SquareAt(prints[1..], n, taken + {squares[0]}, k - 1);
      assert squares[..k] == [squares[0]] + squares[1..][..k - 1];
      assert taken + Range(squares[..k]) == taken + {squares[0]} + Range(squares[1..][..k - 1]);
    }
  }

  /** A stall shares a square exactly when every cell it can reach was taken before its turn. */
  lemma {:induction false} SharesExactlyWhenFull(prints: seq<Fingerprint>, n: nat, k: nat)
    requires n > 0 && k < |prints|
    ensures var squares := Squares(prints, n, {});
            squares[k] in squares[..k] <==> Reach(prints[k], n) <= Range(squares[..k])
  {
    var squares := Squares(prints, n, {});
    SquareAt(prints, n, {}, k);
    assert {} + Range(squares[..k]) == Range(squares[..k]);
    SpotExactly(prints[k], n, Range(squares[..k]));
  }

  lemma {:induction false} RangeSize(s: seq<nat>)
    ensures |Range(s)| <= |s|
  {
    if s != [] {
      RangeSize(s[1..]);
      assert Range(s) == {s[0]} + Range(s[1..]);
    }
  }

  /** If nobody's stride folds the grid too small for the roster, no two stalls share a square. */
  lemma {:induction false} RoomForAllMeansDistinct(prints: seq<Fingerprint>, n: nat)
    requires n > 0
    requires forall k :: 0 <= k < |prints| ==> |prints| * Gcd(Stride(prints[k], n), n) <= n
    ensures forall j, k :: 0 <= j < k < |prints| ==> Squares(prints, n, {})[j] != Squares(prints, n, {})[k]
  {
    var squares := Squares(prints, n, {});
    forall j, k | 0 <= j < k < |prints| ensures squares[j] != squares[k] {
      StrideGcd(prints[k], n);
      ClassSize(Home(prints[k], n), Gcd(Stride(prints[k], n), n), n, |prints|);
      RangeSize(squares[..k]);
      if Reach(prints[k], n) <= Range(squares[..k]) {
        SubsetSize(Reach(prints[k], n), Range(squares[..k]));
      }
      SharesExactlyWhenFull(prints, n, k);
      assert squares[j] == squares[..k][j];
    }
  }

  // ---- order independence

  ghost predicate DistinctPrints(stalls: seq<Stall>) {
    forall x, y :: x in stalls && y in stalls && x.fingerprint == y.fingerprint ==> x == y
  }

  /** The same stalls give the same map, whatever order the roster lists them in. */
  lemma {:induction false} RosterOrderIsIrrelevant(a: seq<Stall>, b: seq<Stall>, n: nat)
    requires n > 0 && multiset(a) == multiset(b) && DistinctPrints(a)
    ensures Sort(a, ByPrint()) == Sort(b, ByPrint()) && Map(a, n) == Map(b, n)
  {
    SortIgnoresOrder(a, b, ByPrint());
  }

  // ---- a stall arriving

  /** Taking one more cell `c` moves a probe exactly when it stood on `c` and is not thrown back on it. */
  lemma OneMoreTaken(f: Fingerprint, n: nat, taken: set<nat>, c: nat)
    requires n > 0 && c !in taken
    ensures Spot(f, n, taken + {c}) == Spot(f, n, taken) <==>
            (Spot(f, n, taken) == c ==> Home(f, n) == c && Reach(f, n) <= taken + {c})
  {
    var before, after := Spot(f, n, taken), Spot(f, n, taken + {c});
    SpotExactly(f, n, taken);
    SpotExactly(f, n, taken + {c});
    if before != c {
      ProbePasses(Home(f, n), Stride(f, n), n, taken, c, 0);
    }
  }

  lemma {:induction false} ProbePasses(home: nat, stride: nat, n: nat, taken: set<nat>, c: nat, i: nat)
    requires 0 < n && i <= n && ProbeFrom(home, stride, n, taken, i) != c
    ensures ProbeFrom(home, stride, n, taken + {c}, i) == ProbeFrom(home, stride, n, taken, i)
    decreases n - i
  {
    if i < n && Visit(home, stride, n, i) in taken {
      ProbePasses(home, stride, n, taken, c, i + 1);
    }
  }

  /** Whether a newcomer's cell `c` leaves stalls placed after it where they were: the first to want `c` must be thrown back on it. */
  ghost predicate Undisturbed(prints: seq<Fingerprint>, n: nat, taken: set<nat>, c: nat)
    requires n > 0
  {
    var squares := Squares(prints, n, taken);
    forall k :: 0 <= k < |prints| && squares[k] == c && c !in squares[..k] ==>
      Home(prints[k], n) == c && Reach(prints[k], n) <= taken + Range(squares[..k]) + {c}
  }

  lemma {:induction false} OneMoreTakenAll(prints: seq<Fingerprint>, n: nat, taken: set<nat>, c: nat)
    requires n > 0 && c !in taken
    ensures Squares(prints, n, taken + {c}) == Squares(prints, n, taken) <==> Undisturbed(prints, n, taken, c)
  {
    if prints != [] {
      var s := Squares(prints, n, taken);
      var t := Squares(prints, n, taken + {c});
      OneMoreTaken(prints[0], n, taken, c);
      assert taken + Range(s[..0]) + {c} == taken + {c};
      if s[0] == c {
        assert taken + {c} + {c} == taken + {c};
        assert forall k :: 0 < k < |s| ==> s[..k][0] == c;
        assert t[0] == s[0] ==> t == s;
        assert t == s <==> t[0] == s[0];
      } else {
        var more := taken + {s[0]};
        OneMoreTakenAll(prints[1..], n, more, c);
        UndisturbedTail(prints, n, taken, c);
        assert taken + {c} + {s[0]} == more + {c};
        assert t == [t[0]] + t[1..] && s == [s[0]] + s[1..];
      }
    }
  }

  lemma {:induction false} UndisturbedTail(prints: seq<Fingerprint>, n: nat, taken: set<nat>, c: nat)
    requires n > 0 && prints != [] && Squares(prints, n, taken)[0] != c
    ensures Undisturbed(prints, n, taken, c) <==> Undisturbed(prints[1..], n, taken + {Squares(prints, n, taken)[0]}, c)
  {
    var s := Squares(prints, n, taken);
    forall k | 0 < k < |prints|
      ensures s[k] == s[1..][k - 1]
      ensures c in s[..k] <==> c in s[1..][..k - 1]
      ensures taken + Range(s[..k]) + {c} == taken + {s[0]} + Range(s[1..][..k - 1]) + {c}
    {
      assert s[..k] == [s[0]] + s[1..][..k - 1];
    }
    if Undisturbed(prints, n, taken, c) {
      forall j | 0 <= j < |prints| - 1 && s[1..][j] == c && c !in s[1..][..j]
        ensures Home(prints[1..][j], n) == c && Reach(prints[1..][j], n) <= taken + {s[0]} + Range(s[1..][..j]) + {c}
      {
        assert s[j + 1] == c && prints[j + 1] == prints[1..][j];
      }
    }
    if Undisturbed(prints[1..], n, taken + {s[0]}, c) {
      forall k | 0 <= k < |prints| && s[k] == c && c !in s[..k]
        ensures Home(prints[k], n) == c && Reach(prints[k], n) <= taken + Range(s[..k]) + {c}
      {
        assert s[1..][k - 1] == c && prints[k] == prints[1..][k - 1];
      }
    }
  }

  lemma {:induction false} SquaresConcat(a: seq<Fingerprint>, b: seq<Fingerprint>, n: nat, taken: set<nat>)
    requires n > 0
    ensures var first := Squares(a, n, taken);
            Squares(a + b, n, taken) == first + Squares(b, n, taken + Range(first))
  {
    var first := Squares(a, n, taken);
    if a == [] {
      assert a + b == b && taken + Range(first) == taken;
    } else {
      assert (a + b)[1..] == a[1..] + b;
      SquaresConcat(a[1..], b, n, taken + {first[0]});
      assert taken + Range(first) == taken + {first[0]} + Range(first[1..]);
    }
  }

  /**
   A stall `x` arriving between `a` and `b` in fingerprint order leaves every
   other stall where it was if and only if x itself found no free cell, or the
   first later stall to hold x's square without x is thrown back on it anyway.
   In particular nobody moves if no later stall holds that square without x.
   */
  lemma {:induction false} ArrivalMovesExactly(a: seq<Fingerprint>, x: Fingerprint, b: seq<Fingerprint>, n: nat)
    requires n > 0
    ensures var without := Squares(a + b, n, {}); var joined := Squares(a + [x] + b, n, {});
            var c := joined[|a|];
            && joined[..|a|] == without[..|a|]
            && (joined[|a| + 1..] == without[|a|..] <==>
                  c in without[..|a|] || Undisturbed(b, n, Range(without[..|a|]), c))
            && (c !in without[|a|..] ==> joined[|a| + 1..] == without[|a|..])
  {
    var taken := Range(Squares(a, n, {}));
    var c := Spot(x, n, taken);
    ArrivalSplits(a, x, b, n);
    if c in taken {
      assert taken + {c} == taken;
    } else {
      OneMoreTakenAll(b, n, taken, c);
    }
  }

  /** The squares with and without `x`: the same in front, then hers, then those of the rest with hers taken. */
  lemma {:induction false} ArrivalSplits(a: seq<Fingerprint>, x: Fingerprint, b: seq<Fingerprint>, n: nat)
    requires n > 0
    ensures var first := Squares(a, n, {}); var c := Spot(x, n, Range(first));
      var without, joined := Squares(a + b, n, {}), Squares(a + [x] + b, n, {});
      && without[..|a|] == first && without[|a|..] == Squares(b, n, Range(first))
      && joined[..|a|] == first && joined[|a|] == c && joined[|a| + 1..] == Squares(b, n, Range(first) + {c})
  {
    var first := Squares(a, n, {});
    assert {} + Range(first) == Range(first);
    SquaresConcat(a, b, n, {});
    SquaresConcat(a, [x] + b, n, {});
    assert a + [x] + b == a + ([x] + b);
    assert ([x] + b)[0] == x && ([x] + b)[1..] == b;
    var c := Spot(x, n, Range(first));
    assert Squares(a + [x] + b, n, {}) == first + ([c] + Squares(b, n, Range(first) + {c}));
  }

  lemma {:induction false} InsertSplits(x: Stall, s: seq<Stall>) returns (k: nat)
    ensures k <= |s| && Insert(x, s, ByPrint()) == s[..k] + [x] + s[k..]
  {
    if s == [] || LexLe(x.fingerprint, s[0].fingerprint) {
      k := 0;
    } else {
      var j := InsertSplits(x, s[1..]);
      k := j + 1;
      assert s[..k] == [s[0]] + s[1..][..j];
    }
  }

  /**
   The same for rosters in any order: a stall joining one is inserted into the
   sorted list, leaves those before it alone, and leaves those behind it where
   they were if and only if it found no free cell or nobody minds its square.
   */
  lemma ArrivalOnTheMap(stalls: seq<Stall>, x: Stall, joinedRoster: seq<Stall>, n: nat) returns (k: nat)
    requires n > 0 && multiset(joinedRoster) == multiset(stalls) + multiset{x} && DistinctPrints(joinedRoster)
    ensures k <= |Sort(stalls, ByPrint())| == |Map(stalls, n)|
    ensures var s := Sort(stalls, ByPrint());
            Sort(joinedRoster, ByPrint()) == s[..k] + [x] + s[k..]
    ensures |Map(joinedRoster, n)| == |Map(stalls, n)| + 1
    ensures Map(joinedRoster, n)[..k] == Map(stalls, n)[..k]
    ensures Map(joinedRoster, n)[k + 1..] == Map(stalls, n)[k..] <==>
      || Map(joinedRoster, n)[k] in Map(stalls, n)[..k]
      || Undisturbed(Prints(Sort(stalls, ByPrint())[k..]), n, Range(Map(stalls, n)[..k]), Map(joinedRoster, n)[k])
    ensures Map(joinedRoster, n)[k] !in Map(stalls, n)[k..] ==> Map(joinedRoster, n)[k + 1..] == Map(stalls, n)[k..]
  {
    var s := Sort(stalls, ByPrint());
    SortedJoined(stalls, x, joinedRoster);
    k := InsertSplits(x, s);
    var a, b := Prints(s[..k]), Prints(s[k..]);
    assert Prints(s[..k] + [x] + s[k..]) == a + [x.fingerprint] + b;
    assert Prints(s) == a + b;
    ArrivalMovesExactly(a, x.fingerprint, b, n);
  }

  lemma {:induction false} SortedJoined(stalls: seq<Stall>, x: Stall, joinedRoster: seq<Stall>)
    requires multiset(joinedRoster) == multiset(stalls) + multiset{x} && DistinctPrints(joinedRoster)
    ensures Sort(joinedRoster, ByPrint()) == Insert(x, Sort(stalls, ByPrint()), ByPrint())
  {
    var s := Sort(stalls, ByPrint());
    SortSorts(stalls, ByPrint());
    SortSorts(joinedRoster, ByPrint());
    InsertSorted(x, s, ByPrint());
    forall y | y in Sort(joinedRoster, ByPrint()) ensures y in joinedRoster {
      assert y in multiset(joinedRoster);
    }
    SortedUnique(Sort(joinedRoster, ByPrint()), Insert(x, s, ByPrint()), ByPrint());
  }
}
