/**
 Sorting ask ids byte-wise and sorting them by code point give the same list,
 because UTF-8 keeps the order. So a signer that works on code points and one
 that works on bytes hash the same bytes.
 */
module Utf8 {
  import opened Texts
  import opened AskIds

  type CodePoint = c: nat | c < 0x110000

  function Bytes(c: CodePoint): (b: Text)
    ensures b != []
  {
    if c < 0x80 then [c]
    else if c < 0x800 then [0xC0 + c / 0x40, 0x80 + c % 0x40]
    else if c < 0x10000 then [0xE0 + c / 0x1000, 0x80 + c / 0x40 % 0x40, 0x80 + c % 0x40]
    else [0xF0 + c / 0x40000, 0x80 + c / 0x1000 % 0x40, 0x80 + c / 0x40 % 0x40, 0x80 + c % 0x40]
  }

  function Encode(s: seq<CodePoint>): Text {
    if s == [] then [] else Bytes(s[0]) + Encode(s[1..])
  }

  /** What lies below 2^18 determines the trailing three digits in base 64, and their order. */
  lemma Digits(c: nat)
    ensures c == c / 0x1000 * 0x1000 + c / 0x40 % 0x40 * 0x40 + c % 0x40
    ensures c / 0x1000 == c / 0x40000 * 0x40 + c / 0x1000 % 0x40
    ensures c / 0x40 == c / 0x1000 * 0x40 + c / 0x40 % 0x40
  {
  }

  ghost predicate Trailing(b: nat) {
    0x80 <= b <= 0xBF
  }

  /** The table of section 3 of RFC 3629: how many bytes, their leading bits, and the number their other bits make up. */
  lemma BytesAreUtf8(c: CodePoint)
    ensures var b := Bytes(c);
      && (c <= 0x7F ==> b == [c])
      && (0x80 <= c <= 0x7FF ==> |b| == 2 && 0xC0 <= b[0] <= 0xDF && Trailing(b[1]) && c == (b[0] - 0xC0) * 64 + (b[1] - 0x80))
      && (0x800 <= c <= 0xFFFF ==>
            && |b| == 3 && 0xE0 <= b[0] <= 0xEF && Trailing(b[1]) && Trailing(b[2])
            && c == (b[0] - 0xE0) * 4096 + (b[1] - 0x80) * 64 + (b[2] - 0x80))
      && (0x10000 <= c ==>
            && |b| == 4 && 0xF0 <= b[0] <= 0xF7 && Trailing(b[1]) && Trailing(b[2]) && Trailing(b[3])
            && c == (b[0] - 0xF0) * 262144 + (b[1] - 0x80) * 4096 + (b[2] - 0x80) * 64 + (b[3] - 0x80))
  {
    Digits(c);
  }

  /** Where the encodings of two different code points first differ, the smaller point has the smaller byte. */
  lemma FirstDifference(c: CodePoint, d: CodePoint) returns (k: nat)
    requires c < d
    ensures k < |Bytes(c)| && k < |Bytes(d)| && Bytes(c)[..k] == Bytes(d)[..k] && Bytes(c)[k] < Bytes(d)[k]
  {
    BytesAreUtf8(c);
    BytesAreUtf8(d);
    var b, e := Bytes(c), Bytes(d);
    k := if b[0] != e[0] then 0 else if b[1] != e[1] then 1 else if b[2] != e[2] then 2 else 3;
  }

  lemma {:induction false} LexByDifference(a: Text, b: Text, k: nat)
    requires k < |a| && k < |b| && a[..k] == b[..k] && a[k] < b[k]
    ensures LexLe(a, b) && !LexLe(b, a)
    decreases k
  {
    if k > 0 {
      assert a[0] == a[..k][0] == b[..k][0] == b[0];
      assert a[1..][..k - 1] == a[..k][1..] == b[..k][1..] == b[1..][..k - 1];
      LexByDifference(a[1..], b[1..], k - 1);
    }
  }

  lemma {:induction false} LexSamePrefix(p: Text, a: Text, b: Text)
    ensures LexLe(p + a, p + b) == LexLe(a, b)
  {
    if p == [] {
      assert p + a == a && p + b == b;
    } else {
      assert (p + a)[1..] == p[1..] + a && (p + b)[1..] == p[1..] + b;
      LexSamePrefix(p[1..], a, b);
    }
  }

  /** UTF-8 keeps and reflects the order. */
  lemma {:induction false} EncodeKeepsOrder(a: seq<CodePoint>, b: seq<CodePoint>)
    ensures LexLe(Encode(a), Encode(b)) <==> LexLe(a, b)
  {
    if a != [] && b != [] {
      if a[0] == b[0] {
        LexSamePrefix(Bytes(a[0]), Encode(a[1..]), Encode(b[1..]));
        EncodeKeepsOrder(a[1..], b[1..]);
      } else if a[0] < b[0] {
        var k := FirstDifference(a[0], b[0]);
        assert Encode(a)[..k] == Bytes(a[0])[..k] == Encode(b)[..k];
        LexByDifference(Encode(a), Encode(b), k);
      } else {
        var k := FirstDifference(b[0], a[0]);
        assert Encode(a)[..k] == Bytes(a[0])[..k] == Encode(b)[..k];
        LexByDifference(Encode(b), Encode(a), k);
      }
    }
  }

  lemma {:induction false} EncodeInjective(a: seq<CodePoint>, b: seq<CodePoint>)
    requires Encode(a) == Encode(b)
    ensures a == b
  {
    LexReflexive(Encode(a));
    EncodeKeepsOrder(a, b);
    EncodeKeepsOrder(b, a);
    LexAntisymmetric(a, b);
  }

  lemma {:induction false} EncodeConcat(a: seq<CodePoint>, b: seq<CodePoint>)
    ensures Encode(a + b) == Encode(a) + Encode(b)
  {
    if a == [] {
      assert a + b == b;
    } else {
      assert (a + b)[1..] == a[1..] + b;
      EncodeConcat(a[1..], b);
    }
  }

  function EncodeAll(ids: seq<seq<CodePoint>>): (bytes: seq<Text>)
    ensures |bytes| == |ids|
  {
    seq(|ids|, i requires 0 <= i < |ids| => Encode(ids[i]))
  }

  /** The canonical form a signer computes that sorts and joins ids as code points. */
  function PointsKey(): seq<CodePoint> -> Text {
    (s: seq<CodePoint>) => s
  }

  function CanonicalPoints(ids: seq<seq<CodePoint>>): seq<CodePoint> {
    Join(Sort(ids, PointsKey()), 0)
  }

  lemma {:induction false} SortCommutes(ids: seq<seq<CodePoint>>)
    ensures Sort(EncodeAll(ids), Itself()) == EncodeAll(Sort(ids, PointsKey()))
  {
    if ids != [] {
      assert EncodeAll(ids)[1..] == EncodeAll(ids[1..]);
      SortCommutes(ids[1..]);
      InsertCommutes(ids[0], Sort(ids[1..], PointsKey()));
    }
  }

  lemma {:induction false} InsertCommutes(x: seq<CodePoint>, s: seq<seq<CodePoint>>)
    ensures Insert(Encode(x), EncodeAll(s), Itself()) == EncodeAll(Insert(x, s, PointsKey()))
  {
    if s != [] {
      EncodeKeepsOrder(x, s[0]);
      assert EncodeAll(s)[1..] == EncodeAll(s[1..]);
      if LexLe(x, s[0]) {
        assert EncodeAll([x] + s) == [Encode(x)] + EncodeAll(s);
      } else {
        InsertCommutes(x, s[1..]);
        var rest := Insert(x, s[1..], PointsKey());
        assert EncodeAll([s[0]] + rest) == [Encode(s[0])] + EncodeAll(rest);
      }
    }
  }

  lemma {:induction false} JoinCommutes(ids: seq<seq<CodePoint>>)
    ensures Join(EncodeAll(ids), NUL) == Encode(Join(ids, 0))
  {
    if |ids| > 1 {
      assert EncodeAll(ids)[1..] == EncodeAll(ids[1..]);
      JoinCommutes(ids[1..]);
      EncodeConcat(ids[0] + [0], Join(ids[1..], 0));
      EncodeConcat(ids[0], [0]);
    }
  }

  /** The two signers agree on every list of ids. */
  lemma BytesAndPointsAgree(ids: seq<seq<CodePoint>>)
    ensures Canonical(EncodeAll(ids)) == Encode(CanonicalPoints(ids))
  {
    SortCommutes(ids);
    JoinCommutes(Sort(ids, PointsKey()));
  }
}
