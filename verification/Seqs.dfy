/** Options and the sequence projections the protocol models share. */
module Seqs {

  datatype Option<+T> = None | Some(value: T)

  /** The values `f` picks out of `s`, in order. */
  function Pick<T, U>(s: seq<T>, f: T -> Option<U>): seq<U> {
    if s == [] then []
    else (match f(s[0]) case None => [] case Some(u) => [u]) + Pick(s[1..], f)
  }

  lemma {:induction false} PickConcat<T, U>(a: seq<T>, b: seq<T>, f: T -> Option<U>)
    ensures Pick(a + b, f) == Pick(a, f) + Pick(b, f)
  {
    if a == [] {
      assert a + b == b;
    } else {
      assert (a + b)[1..] == a[1..] + b;
      PickConcat(a[1..], b, f);
    }
  }

  lemma {:induction false} PickHead<T, U>(s: seq<T>, f: T -> Option<U>)
    requires s != []
    ensures Pick(s, f) == (match f(s[0]) case None => [] case Some(u) => [u]) + Pick(s[1..], f)
  {
  }

  /** Moving the head of one queue to the back of another. */
  lemma {:induction false} PickMove<T, U>(a: seq<T>, b: seq<T>, f: T -> Option<U>)
    requires b != []
    ensures Pick(a + [b[0]], f) + Pick(b[1..], f) == Pick(a, f) + Pick(b, f)
  {
    var front, picked, rest := Pick(a, f), Pick([b[0]], f), Pick(b[1..], f);
    PickConcat(a, [b[0]], f);
    PickOne(b[0], f);
    assert (front + picked) + rest == front + (picked + rest);
  }

  lemma PickOne<T, U>(x: T, f: T -> Option<U>)
    ensures Pick([x], f) == match f(x) case None => [] case Some(u) => [u]
  {
    assert [x][1..] == [];
  }

  lemma {:induction false} PickSnoc<T, U>(s: seq<T>, x: T, f: T -> Option<U>)
    ensures Pick(s + [x], f) == Pick(s, f) + (match f(x) case None => [] case Some(u) => [u])
  {
    PickConcat(s, [x], f);
    PickOne(x, f);
  }

  lemma {:induction false} PickNothing<T, U>(s: seq<T>, f: T -> Option<U>)
    requires forall x :: x in s ==> f(x) == None
    ensures Pick(s, f) == []
  {
    if s != [] {
      PickNothing(s[1..], f);
    }
  }

  ghost predicate NoDuplicates<T>(s: seq<T>) {
    forall i, j :: 0 <= i < j < |s| ==> s[i] != s[j]
  }

  lemma ConsDistinct<T>(x: T, s: seq<T>)
    ensures NoDuplicates([x] + s) <==> x !in s && NoDuplicates(s)
  {
    var all := [x] + s;
    if NoDuplicates(all) {
      forall i, j | 0 <= i < j < |s| ensures s[i] != s[j] { assert all[i + 1] != all[j + 1]; }
      forall i | 0 <= i < |s| ensures s[i] != x { assert all[0] != all[i + 1]; }
    }
  }

  // ---- what happened in a run

  /** Step `k` of a run is a `what`, in the state it is taken in; `after` gives the state a run leaves. */
  ghost predicate At<S, T>(after: seq<T> -> S, steps: seq<T>, what: (S, T) -> bool, k: nat) {
    k < |steps| && what(after(steps[..k]), steps[k])
  }

  /** From step `start` on there was a `made`, and no `undone` after it. */
  ghost predicate Since<S, T>(after: seq<T> -> S, steps: seq<T>, start: nat, made: (S, T) -> bool, undone: (S, T) -> bool) {
    exists k: nat :: Holding(after, steps, start, made, undone, k)
  }

  ghost predicate Holding<S, T>(after: seq<T> -> S, steps: seq<T>, start: nat, made: (S, T) -> bool, undone: (S, T) -> bool, k: nat) {
    start <= k && At(after, steps, made, k) && forall l: nat :: k < l ==> !At(after, steps, undone, l)
  }

  lemma AtSnoc<S, T>(after: seq<T> -> S, steps: seq<T>, step: T, what: (S, T) -> bool, k: nat)
    ensures At(after, steps + [step], what, k) <==>
      if k == |steps| then what(after(steps), step) else At(after, steps, what, k)
  {
    if k <= |steps| {
      assert (steps + [step])[..k] == steps[..k];
      assert steps[..|steps|] == steps;
    }
  }

  /** One more step makes it anew, or undoes it, or leaves it as it was. */
  lemma SinceSnoc<S, T>(after: seq<T> -> S, steps: seq<T>, step: T, start: nat, made: (S, T) -> bool, undone: (S, T) -> bool)
    ensures Since(after, steps + [step], start, made, undone) <==>
      || (start <= |steps| && made(after(steps), step))
      || (Since(after, steps, start, made, undone) && !undone(after(steps), step))
  {
    var more := steps + [step];
    forall k: nat ensures Holding(after, more, start, made, undone, k) <==>
      if k == |steps| then start <= k && made(after(steps), step)
      else Holding(after, steps, start, made, undone, k) && !undone(after(steps), step)
    {
      HoldingSnoc(after, steps, step, start, made, undone, k);
    }
    assert Holding(after, more, start, made, undone, |steps|) <==> start <= |steps| && made(after(steps), step);
  }

  lemma HoldingSnoc<S, T>(after: seq<T> -> S, steps: seq<T>, step: T, start: nat, made: (S, T) -> bool, undone: (S, T) -> bool, k: nat)
    ensures Holding(after, steps + [step], start, made, undone, k) <==>
      if k == |steps| then start <= k && made(after(steps), step)
      else Holding(after, steps, start, made, undone, k) && !undone(after(steps), step)
  {
    var more := steps + [step];
    AtSnoc(after, steps, step, made, k);
    forall l: nat ensures At(after, more, undone, l) <==> if l == |steps| then undone(after(steps), step) else At(after, steps, undone, l) {
      AtSnoc(after, steps, step, undone, l);
    }
    if k < |steps| {
      assert (forall l: nat :: k < l ==> !At(after, more, undone, l)) <==>
             (forall l: nat :: k < l ==> !At(after, steps, undone, l)) && !undone(after(steps), step) by {
        assert At(after, more, undone, |steps|) <==> undone(after(steps), step);
        assert !At(after, steps, undone, |steps|);
      }
    }
  }

  /** The same, told step by step. */
  predicate Lasts<S, T>(after: seq<T> -> S, steps: seq<T>, start: nat, made: (S, T) -> bool, undone: (S, T) -> bool) {
    steps != [] &&
    var prefix, last := steps[..|steps| - 1], steps[|steps| - 1];
    || (start <= |prefix| && made(after(prefix), last))
    || (Lasts(after, prefix, start, made, undone) && !undone(after(prefix), last))
  }

  lemma {:induction false} LastsIsSince<S, T>(after: seq<T> -> S, steps: seq<T>, start: nat, made: (S, T) -> bool, undone: (S, T) -> bool)
    ensures Lasts(after, steps, start, made, undone) <==> Since(after, steps, start, made, undone)
  {
    if steps != [] {
      var prefix, last := steps[..|steps| - 1], steps[|steps| - 1];
      assert prefix + [last] == steps;
      LastsIsSince(after, prefix, start, made, undone);
      SinceSnoc(after, prefix, last, start, made, undone);
    }
  }

  lemma {:induction false} LastsSnoc<S, T>(after: seq<T> -> S, prefix: seq<T>, last: T, start: nat, made: (S, T) -> bool, undone: (S, T) -> bool)
    ensures Lasts(after, prefix + [last], start, made, undone) <==>
      || (start <= |prefix| && made(after(prefix), last))
      || (Lasts(after, prefix, start, made, undone) && !undone(after(prefix), last))
  {
    assert (prefix + [last])[..|prefix|] == prefix;
  }

  ghost predicate Later<S, T>(after: seq<T> -> S, steps: seq<T>, what: (S, T) -> bool, k: nat) {
    exists t: nat :: k < t && At(after, steps, what, t)
  }

  /** From step `start` on there was a `made`, no `undone` after it, but a `later`. */
  ghost predicate FollowedBy<S, T>(after: seq<T> -> S, steps: seq<T>, start: nat,
                                   made: (S, T) -> bool, undone: (S, T) -> bool, later: (S, T) -> bool) {
    exists k: nat :: Holding(after, steps, start, made, undone, k) && Later(after, steps, later, k)
  }

  /** If `made` undoes itself, what was made last and stands is followed by a `later` exactly when no `made` followed that. */
  lemma LastIsFollowed<S, T>(after: seq<T> -> S, steps: seq<T>, start: nat,
                             made: (S, T) -> bool, undone: (S, T) -> bool, later: (S, T) -> bool)
    requires Since(after, steps, start, made, undone)
    requires forall l: nat :: At(after, steps, made, l) ==> At(after, steps, undone, l) && !At(after, steps, later, l)
    ensures Since(after, steps, start, later, made) <==> FollowedBy(after, steps, start, made, undone, later)
  {
    if Since(after, steps, start, later, made) {
      var k: nat :| Holding(after, steps, start, made, undone, k);
      var t: nat :| Holding(after, steps, start, later, made, t);
      assert k < t && Later(after, steps, later, k);
    }
    if FollowedBy(after, steps, start, made, undone, later) {
      var k: nat :| Holding(after, steps, start, made, undone, k) && Later(after, steps, later, k);
      var t: nat :| k < t && At(after, steps, later, t);
      assert Holding(after, steps, start, later, made, t);
    }
  }

  /** The last step that was a `what`. */
  function LastAt<S, T>(after: seq<T> -> S, steps: seq<T>, what: (S, T) -> bool): (k: Option<nat>)
    ensures k.Some? ==> k.value < |steps|
  {
    if steps == [] then None
    else
      var prefix, last := steps[..|steps| - 1], steps[|steps| - 1];
      if what(after(prefix), last) then Some(|prefix|) else LastAt(after, prefix, what)
  }

  lemma {:induction false} LastAtSnoc<S, T>(after: seq<T> -> S, prefix: seq<T>, last: T, what: (S, T) -> bool)
    ensures LastAt(after, prefix + [last], what) == if what(after(prefix), last) then Some(|prefix|) else LastAt(after, prefix, what)
  {
    assert (prefix + [last])[..|prefix|] == prefix;
  }

  /** It was one, and none came after it. */
  lemma {:induction false} LastAtIsLast<S, T>(after: seq<T> -> S, steps: seq<T>, what: (S, T) -> bool)
    ensures match LastAt(after, steps, what)
      case Some(k) => Holding(after, steps, 0, what, what, k)
      case None => forall k: nat :: !At(after, steps, what, k)
  {
    if steps != [] {
      var prefix, last := steps[..|steps| - 1], steps[|steps| - 1];
      assert prefix + [last] == steps;
      LastAtIsLast(after, prefix, what);
      forall k: nat ensures At(after, steps, what, k) <==> if k == |prefix| then what(after(prefix), last) else At(after, prefix, what, k) {
        AtSnoc(after, prefix, last, what, k);
      }
    }
  }

  /** If any `made` outlasts the `undone`s, the last one does. */
  lemma LastOutlasts<S, T>(after: seq<T> -> S, steps: seq<T>, made: (S, T) -> bool, undone: (S, T) -> bool, m: nat)
    requires Holding(after, steps, 0, made, made, m)
    ensures Since(after, steps, 0, made, undone) <==> !Later(after, steps, undone, m)
  {
    if Since(after, steps, 0, made, undone) {
      var k: nat :| Holding(after, steps, 0, made, undone, k);
      assert k <= m;
    }
    if !Later(after, steps, undone, m) {
      assert Holding(after, steps, 0, made, undone, m);
    }
  }

  lemma {:induction false} LaterExactly<S, T>(after: seq<T> -> S, steps: seq<T>, what: (S, T) -> bool, m: nat)
    requires !At(after, steps, what, m)
    ensures !Later(after, steps, what, m) <==> LastAt(after, steps, what) == None || LastAt(after, steps, what).value < m
  {
    LastAtIsLast(after, steps, what);
    if Later(after, steps, what, m) {
      var t: nat :| m < t && At(after, steps, what, t);
      assert LastAt(after, steps, what).Some? && t <= LastAt(after, steps, what).value;
    }
  }

  lemma AtPrefix<S, T>(after: seq<T> -> S, steps: seq<T>, what: (S, T) -> bool, m: nat, k: nat)
    requires m <= |steps|
    ensures At(after, steps[..m], what, k) <==> k < m && At(after, steps, what, k)
  {
    if k < m {
      assert steps[..m][..k] == steps[..k];
    }
  }

  /** The last of a run is the last of its beginning if it lies there, and only then. */
  lemma {:induction false} LastBefore<S, T>(after: seq<T> -> S, steps: seq<T>, what: (S, T) -> bool, m: nat)
    requires m <= |steps|
    ensures LastAt(after, steps[..m], what) == LastAt(after, steps, what) <==>
      LastAt(after, steps, what) == None || LastAt(after, steps, what).value < m
  {
    LastAtIsLast(after, steps, what);
    LastAtIsLast(after, steps[..m], what);
    forall k: nat ensures At(after, steps[..m], what, k) <==> k < m && At(after, steps, what, k) {
      AtPrefix(after, steps, what, m, k);
    }
  }
}
