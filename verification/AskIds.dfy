/** The canonical bytes of a set of ask ids: sorted, then joined with a NUL (`resolvePayload`, before the hash). */
module AskIds {
  import opened Texts

  const NUL: nat := 0

  function Itself(): Text -> Text {
    (t: Text) => t
  }

  function Canonical(ids: seq<Text>): Text {
    Join(Sort(ids, Itself()), NUL)
  }

  /** Sorts in place: element `i` sinks to its place among the sorted ones before it. */
  method SortStrings(a: array<Text>)
    modifies a
    ensures Sorted(a[..], Itself()) && multiset(a[..]) == multiset(old(a[..]))
  {
    for i := 0 to a.Length
      invariant multiset(a[..]) == multiset(old(a[..]))
      invariant Sorted(a[..i], Itself())
    {
      Sink(a, i);
    }
    assert a[..a.Length] == a[..];
  }

  method Sink(a: array<Text>, i: nat)
    requires i < a.Length && Sorted(a[..i], Itself())
    modifies a
    ensures Sorted(a[..i + 1], Itself()) && multiset(a[..]) == multiset(old(a[..]))
  {
    var j: nat := i;
    while j > 0 && !LexLe(a[j - 1], a[j])
      invariant j <= i && SortedBut(a[..], i, j)
      invariant multiset(a[..]) == multiset(old(a[..]))
    {
      SwapSinks(a[..], i, j);
      a[j - 1], a[j] := a[j], a[j - 1];
      j := j - 1;
    }
    SunkIsSorted(a[..], i, j);
  }

  /** The first `i + 1` are sorted, but that the one at `j` may belong further down. */
  ghost predicate SortedBut(s: seq<Text>, i: nat, j: nat) {
    i < |s| && forall p, q :: 0 <= p < q <= i && q != j ==> LexLe(s[p], s[q])
  }

  lemma SwapSinks(s: seq<Text>, i: nat, j: nat)
    requires 0 < j <= i && SortedBut(s, i, j) && !LexLe(s[j - 1], s[j])
    ensures var t := s[j - 1 := s[j]][j := s[j - 1]]; SortedBut(t, i, j - 1) && multiset(t) == multiset(s)
  {
    LexTotal(s[j - 1], s[j]);
  }

  lemma SunkIsSorted(s: seq<Text>, i: nat, j: nat)
    requires j <= i && SortedBut(s, i, j) && (j > 0 ==> LexLe(s[j - 1], s[j]))
    ensures Sorted(s[..i + 1], Itself())
  {
    forall p | 0 <= p < j ensures LexLe(s[p], s[j]) {
      if p < j - 1 {
        LexTransitive(s[p], s[j - 1], s[j]);
      }
    }
  }

  /** The caller's slice is copied and the copy sorted, so the method needs leave to change nothing. */
  method ResolvePreimage(askIDs: array<Text>) returns (bytes: Text)
    ensures bytes == Canonical(askIDs[..])
  {
    var sorted := new Text[askIDs.Length](i requires 0 <= i < askIDs.Length reads askIDs => askIDs[i]);
    assert sorted[..] == askIDs[..];
    SortStrings(sorted);
    SortSorts(askIDs[..], Itself());
    SortedUnique(sorted[..], Sort(askIDs[..], Itself()), Itself());
    bytes := JoinAll(sorted);
  }

  method JoinAll(ids: array<Text>) returns (bytes: Text)
    ensures bytes == Join(ids[..], NUL)
  {
    bytes := [];
    for i := 0 to ids.Length
      invariant bytes == Join(ids[..i], NUL)
    {
      JoinSnoc(ids[..i], ids[i]);
      assert ids[..i + 1] == ids[..i] + [ids[i]];
      bytes := if i == 0 then ids[i] else bytes + [NUL] + ids[i];
    }
    assert ids[..ids.Length] == ids[..];
  }

  lemma {:induction false} JoinSnoc(parts: seq<Text>, last: Text)
    ensures Join(parts + [last], NUL) == if parts == [] then last else Join(parts, NUL) + [NUL] + last
  {
    if |parts| > 1 {
      JoinSnoc(parts[1..], last);
      assert (parts + [last])[1..] == parts[1..] + [last];
    } else if |parts| == 1 {
      assert (parts + [last])[1..] == [last];
    }
  }

  /** The order the ids arrived in does not matter. */
  lemma CanonicalIgnoresOrder(a: seq<Text>, b: seq<Text>)
    requires multiset(a) == multiset(b)
    ensures Canonical(a) == Canonical(b)
  {
    SortIgnoresOrder(a, b, Itself());
  }

  ghost predicate AllFree(ids: seq<Text>) {
    forall id :: id in ids ==> Free(id, NUL)
  }

  lemma {:induction false} SortedFree(ids: seq<Text>)
    requires AllFree(ids)
    ensures AllFree(Sort(ids, Itself())) && |Sort(ids, Itself())| == |ids|
  {
    SortSorts(ids, Itself());
    assert |multiset(Sort(ids, Itself()))| == |multiset(ids)|;
    forall id | id in Sort(ids, Itself()) ensures Free(id, NUL) {
      assert id in multiset(ids);
    }
  }

  /** Splitting the bytes at NUL gives the sorted ids back. */
  lemma {:induction false} SplitGivesSorted(ids: seq<Text>)
    requires AllFree(ids) && ids != []
    ensures Split(Canonical(ids), NUL) == Sort(ids, Itself())
  {
    SortedFree(ids);
    SplitJoin(Sort(ids, Itself()), NUL);
  }

  /**
   For NUL-free ids, equal bytes mean equal multisets, with one exception: no
   ids at all, and one empty id, are the same empty bytes.
   */
  lemma EqualBytesExactly(a: seq<Text>, b: seq<Text>)
    requires AllFree(a) && AllFree(b)
    ensures Canonical(a) == Canonical(b) <==>
            multiset(a) == multiset(b) || (a == [] && b == [[]]) || (a == [[]] && b == [])
  {
    if multiset(a) == multiset(b) {
      CanonicalIgnoresOrder(a, b);
    } else if a != [] && b != [] {
      SplitGivesSorted(a);
      SplitGivesSorted(b);
      SortSorts(a, Itself());
      SortSorts(b, Itself());
    } else if a == [] && b != [] {
      EmptyBytes(b);
    } else if b == [] && a != [] {
      EmptyBytes(a);
    }
  }

  lemma EmptyBytes(ids: seq<Text>)
    requires AllFree(ids) && ids != []
    ensures Canonical(ids) == [] <==> ids == [[]]
  {
    if Canonical(ids) == [] {
      SplitGivesSorted(ids);
      SortSorts(ids, Itself());
      OneElement(ids, []);
    }
    if ids == [[]] {
      SortedSingle(ids);
    }
  }

  lemma OneElement(ids: seq<Text>, id: Text)
    requires multiset(ids) == multiset([id])
    ensures ids == [id]
  {
    assert |ids| == |multiset(ids)| == 1;
    assert ids[0] in multiset(ids);
  }

  lemma {:induction false} SortedSingle(ids: seq<Text>)
    requires |ids| == 1
    ensures Sort(ids, Itself()) == ids
  {
    assert ids == [ids[0]] && ids[1..] == [];
  }

  /** The NUL-free pieces the ids of a list consist of, in the order of the ids; no ids count as one empty piece. */
  function Pieces(sorted: seq<Text>): seq<Text>
    decreases |sorted|
  {
    if sorted == [] then [[]]
    else if |sorted| == 1 then Split(sorted[0], NUL)
    else Split(sorted[0], NUL) + Pieces(sorted[1..])
  }

  lemma {:induction false} SplitGivesPieces(sorted: seq<Text>)
    ensures Split(Join(sorted, NUL), NUL) == Pieces(sorted)
    decreases |sorted|
  {
    if |sorted| > 1 {
      SplitConcat(sorted[0], NUL, Join(sorted[1..], NUL));
      SplitGivesPieces(sorted[1..]);
    }
  }

  /** For ids of any kind: equal bytes mean equal pieces, of the ids sorted and cut at every NUL. */
  lemma {:induction false} EqualBytesMeanEqualPieces(a: seq<Text>, b: seq<Text>)
    ensures Canonical(a) == Canonical(b) <==> Pieces(Sort(a, Itself())) == Pieces(Sort(b, Itself()))
  {
    SplitGivesPieces(Sort(a, Itself()));
    SplitGivesPieces(Sort(b, Itself()));
    JoinSplit(Canonical(a), NUL);
    JoinSplit(Canonical(b), NUL);
  }

  /** Without NUL-freedom the bytes do not determine the ids. */
  lemma NulInAnIdIsAmbiguous()
    ensures Canonical([[NUL]]) == Canonical([[], []]) && multiset([[NUL]]) != multiset([[], []])
  {
    var a: seq<Text>, b: seq<Text> := [[NUL]], [[], []];
    var none: Text := [];
    assert Sort(b[1..], Itself()) == [none];
    assert Sort(b, Itself()) == b;
    assert Sort(a, Itself()) == a;
    assert multiset(a)[none] == 0 && multiset(b)[none] == 2;
  }
}
