/** Text as code numbers: splitting and joining at a separator, the lexicographic order, and sorting by it. */
module Texts {

  /** A character or byte is its number. */
  type Text = seq<nat>

  // ---- joining and splitting

  function Join<T>(parts: seq<seq<T>>, sep: T): seq<T> {
    if parts == [] then []
    else if |parts| == 1 then parts[0]
    else parts[0] + [sep] + Join(parts[1..], sep)
  }

  function Split<T(==)>(s: seq<T>, sep: T): (parts: seq<seq<T>>)
    ensures parts != []
  {
    if s == [] then [[]]
    else if s[0] == sep then [[]] + Split(s[1..], sep)
    else Lengthened(s[0], Split(s[1..], sep))
  }

  /** `parts` with `c` in front of the first. */
  function Lengthened<T>(c: T, parts: seq<seq<T>>): seq<seq<T>>
    requires parts != []
  {
    [[c] + parts[0]] + parts[1..]
  }

  ghost predicate Free<T>(s: seq<T>, sep: T) {
    sep !in s
  }

  lemma {:induction false} SplitWhole<T>(s: seq<T>, sep: T)
    requires Free(s, sep)
    ensures Split(s, sep) == [s]
  {
    if s != [] {
      SplitWhole(s[1..], sep);
      assert [s[0]] + s[1..] == s;
    }
  }

  lemma {:induction false} SplitConcat<T>(a: seq<T>, sep: T, b: seq<T>)
    ensures Split(a + [sep] + b, sep) == Split(a, sep) + Split(b, sep)
  {
    if a == [] {
      assert a + [sep] + b == [sep] + b;
    } else {
      SplitConcat(a[1..], sep, b);
      var whole := a + [sep] + b;
      assert whole[1..] == a[1..] + [sep] + b && whole[0] == a[0];
      var p, q := Split(a[1..], sep), Split(b, sep);
      if a[0] == sep {
        assert [[]] + (p + q) == ([[]] + p) + q;
      } else {
        assert Lengthened(a[0], p + q) == Lengthened(a[0], p) + q;
      }
    }
  }

  /** Splitting undoes joining, for any non-empty list of separator-free parts. */
  lemma {:induction false} SplitJoin<T>(parts: seq<seq<T>>, sep: T)
    requires parts != [] && forall p :: p in parts ==> Free(p, sep)
    ensures Split(Join(parts, sep), sep) == parts
  {
    SplitWhole(parts[0], sep);
    if |parts| == 1 {
      assert parts == [parts[0]];
    } else {
      SplitConcat(parts[0], sep, Join(parts[1..], sep));
      SplitJoin(parts[1..], sep);
      assert parts == [parts[0]] + parts[1..];
    }
  }

  /** Joining undoes splitting, for any text at all. */
  lemma {:induction false} JoinSplit<T>(s: seq<T>, sep: T)
    ensures Join(Split(s, sep), sep) == s
  {
    if s != [] {
      var rest := Split(s[1..], sep);
      JoinSplit(s[1..], sep);
      if s[0] == sep {
        assert ([[]] + rest)[1..] == rest;
      } else {
        var parts := [[s[0]] + rest[0]] + rest[1..];
        assert parts[1..] == rest[1..];
        if |rest| == 1 {
          assert parts == [[s[0]] + rest[0]];
        } else {
          assert Join(parts, sep) == [s[0]] + (rest[0] + [sep] + Join(rest[1..], sep));
        }
      }
    }
  }

  lemma {:induction false} SplitFree<T>(s: seq<T>, sep: T)
    ensures forall p :: p in Split(s, sep) ==> Free(p, sep)
  {
    if s != [] {
      var rest := Split(s[1..], sep);
      SplitFree(s[1..], sep);
      assert rest[0] in rest;
      forall p | p in Split(s, sep) ensures Free(p, sep) {
        assert p in rest || p == [] || p == [s[0]] + rest[0];
      }
    }
  }

  lemma {:induction false} JoinConcat<T>(a: seq<seq<T>>, b: seq<seq<T>>, sep: T)
    requires a != [] && b != []
    ensures Join(a + b, sep) == Join(a, sep) + [sep] + Join(b, sep)
  {
    assert (a + b)[1..] == a[1..] + b;
    if |a| > 1 {
      JoinConcat(a[1..], b, sep);
    }
  }

  /** Joining some of the parts first makes no difference. */
  lemma {:induction false} JoinMiddle<T>(front: seq<seq<T>>, middle: seq<seq<T>>, back: seq<seq<T>>, sep: T)
    requires front != [] && middle != [] && back != []
    ensures Join(front + ([Join(middle, sep)] + back), sep) == Join(front + (middle + back), sep)
  {
    JoinConcat([Join(middle, sep)], back, sep);
    JoinConcat(middle, back, sep);
    JoinConcat(front, [Join(middle, sep)] + back, sep);
    JoinConcat(front, middle + back, sep);
  }

  // ---- order

  predicate LexLe(a: Text, b: Text) {
    a == [] || (b != [] && (a[0] < b[0] || (a[0] == b[0] && LexLe(a[1..], b[1..]))))
  }

  /** The order of a dictionary: a text comes before its own extensions, and else the first difference decides. */
  lemma {:induction false} LexExactly(a: Text, b: Text)
    ensures LexLe(a, b) <==> a <= b || exists k :: DiffersAt(a, b, k) && a[k] < b[k]
  {
    if a != [] && b != [] && a[0] == b[0] {
      LexExactly(a[1..], b[1..]);
      assert a == [a[0]] + a[1..] && b == [b[0]] + b[1..];
      assert a <= b <==> a[1..] <= b[1..];
      forall k | DiffersAt(a[1..], b[1..], k) ensures DiffersAt(a, b, k + 1) {
        assert a[..k + 1] == [a[0]] + a[1..][..k] && b[..k + 1] == [b[0]] + b[1..][..k];
      }
      forall k | DiffersAt(a, b, k) ensures k > 0 && DiffersAt(a[1..], b[1..], k - 1) {
        assert a[1..][..k - 1] == a[..k][1..] && b[1..][..k - 1] == b[..k][1..];
      }
    } else if a != [] && b != [] {
      assert DiffersAt(a, b, 0);
      forall k | DiffersAt(a, b, k) ensures k > 0 ==> a[0] == b[0] {
        SameUpTo(a, b, k);
      }
    }
  }

  /** `k` is the first place where the two texts differ. */
  ghost predicate DiffersAt(a: Text, b: Text, k: int) {
    0 <= k < |a| && k < |b| && a[..k] == b[..k] && a[k] != b[k]
  }

  lemma SameUpTo(a: Text, b: Text, k: int)
    requires DiffersAt(a, b, k)
    ensures k > 0 ==> a[0] == b[0]
  {
    if k > 0 {
      assert a[..k][0] == b[..k][0];
    }
  }

  lemma {:induction false} LexReflexive(a: Text)
    ensures LexLe(a, a)
  {
    if a != [] { LexReflexive(a[1..]); }
  }

  lemma {:induction false} LexTotal(a: Text, b: Text)
    ensures LexLe(a, b) || LexLe(b, a)
  {
    if a != [] && b != [] { LexTotal(a[1..], b[1..]); }
  }

  lemma {:induction false} LexAntisymmetric(a: Text, b: Text)
    requires LexLe(a, b) && LexLe(b, a)
    ensures a == b
  {
    if a != [] {
      LexAntisymmetric(a[1..], b[1..]);
      assert a == [a[0]] + a[1..] && b == [b[0]] + b[1..];
    }
  }

  lemma {:induction false} LexTransitive(a: Text, b: Text, c: Text)
    requires LexLe(a, b) && LexLe(b, c)
    ensures LexLe(a, c)
  {
    if a != [] && a[0] == b[0] == c[0] { LexTransitive(a[1..], b[1..], c[1..]); }
  }

  // ---- sorting by a key

  ghost predicate Sorted<T>(s: seq<T>, key: T -> Text) {
    forall i, j :: 0 <= i < j < |s| ==> LexLe(key(s[i]), key(s[j]))
  }

  /** Puts `x` before the first element whose key is not smaller. */
  function Insert<T>(x: T, s: seq<T>, key: T -> Text): seq<T> {
    if s == [] || LexLe(key(x), key(s[0])) then [x] + s else [s[0]] + Insert(x, s[1..], key)
  }

  /** A stable sort: elements with equal keys keep their order. */
  function Sort<T>(s: seq<T>, key: T -> Text): seq<T> {
    if s == [] then [] else Insert(s[0], Sort(s[1..], key), key)
  }

  lemma {:induction false} InsertSorted<T>(x: T, s: seq<T>, key: T -> Text)
    requires Sorted(s, key)
    ensures Sorted(Insert(x, s, key), key) && multiset(Insert(x, s, key)) == multiset(s) + multiset{x}
  {
    if s == [] {
    } else if LexLe(key(x), key(s[0])) {
      forall j | 0 <= j < |s| ensures LexLe(key(x), key(s[j])) {
        LexReflexive(key(s[0]));
        LexTransitive(key(x), key(s[0]), key(s[j]));
      }
    } else {
      LexTotal(key(x), key(s[0]));
      InsertSorted(x, s[1..], key);
      var rest := Insert(x, s[1..], key);
      assert s == [s[0]] + s[1..];
      forall y | y in rest ensures LexLe(key(s[0]), key(y)) {
        assert y in multiset(rest);
        assert y == x || y in s[1..];
      }
    }
  }

  lemma {:induction false} SortSorts<T>(s: seq<T>, key: T -> Text)
    ensures Sorted(Sort(s, key), key) && multiset(Sort(s, key)) == multiset(s)
  {
    if s != [] {
      SortSorts(s[1..], key);
      InsertSorted(s[0], Sort(s[1..], key), key);
      assert s == [s[0]] + s[1..];
    }
  }

  lemma SortedHead<T>(s: seq<T>, key: T -> Text, x: T)
    requires Sorted(s, key) && x in s
    ensures LexLe(key(s[0]), key(x))
  {
    LexReflexive(key(x));
  }

  lemma SameRest<T>(a: seq<T>, b: seq<T>)
    requires a != [] && b != [] && a[0] == b[0] && multiset(a) == multiset(b)
    ensures multiset(a[1..]) == multiset(b[1..]) && a == [a[0]] + a[1..] && b == [a[0]] + b[1..]
  {
    assert a == [a[0]] + a[1..] && b == [a[0]] + b[1..];
    assert multiset(a[1..]) == multiset(a) - multiset{a[0]};
    assert multiset(b[1..]) == multiset(b) - multiset{a[0]};
  }

  /** With a key that tells the elements apart there is only one sorted arrangement of them. */
  lemma {:induction false} SortedUnique<T>(a: seq<T>, b: seq<T>, key: T -> Text)
    requires Sorted(a, key) && Sorted(b, key) && multiset(a) == multiset(b)
    requires forall x, y :: x in a && y in a && key(x) == key(y) ==> x == y
    ensures a == b
  {
    if a == [] {
      assert |multiset(b)| == 0;
    } else {
      assert a[0] in multiset(b) && b != [] && b[0] in multiset(a);
      SortedHead(a, key, b[0]);
      SortedHead(b, key, a[0]);
      LexAntisymmetric(key(a[0]), key(b[0]));
      SameRest(a, b);
      SortedUnique(a[1..], b[1..], key);
    }
  }

  /** Hence a sort gives the same list for every order of the same elements. */
  lemma {:induction false} SortIgnoresOrder<T>(a: seq<T>, b: seq<T>, key: T -> Text)
    requires multiset(a) == multiset(b)
    requires forall x, y :: x in a && y in a && key(x) == key(y) ==> x == y
    ensures Sort(a, key) == Sort(b, key)
  {
    SortSorts(a, key);
    SortSorts(b, key);
    forall x | x in Sort(a, key) ensures x in a {
      assert x in multiset(a);
    }
    SortedUnique(Sort(a, key), Sort(b, key), key);
  }
}
