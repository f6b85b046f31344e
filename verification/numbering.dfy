/**
 * First-seen deduplication and the dense 1-based numbering that the normalisers give to the
 * branches and products they meet: a dictionary from value to number, grown by one entry
 * each time a new value turns up.
 */
module Numbering {

  predicate Distinct<T(==)>(xs: seq<T>) {
    forall i, j :: 0 <= i < j < |xs| ==> xs[i] != xs[j]
  }

  /** The values of `xs`, each once, in the order they are first met. */
  function Dedup<T(==)>(xs: seq<T>): seq<T> {
    if |xs| == 0 then []
    else
      var r := Dedup(xs[..|xs| - 1]);
      if xs[|xs| - 1] in r then r else r + [xs[|xs| - 1]]
  }

  /** The first index of `x` in `xs`. */
  function Position<T(==)>(xs: seq<T>, x: T): (p: nat)
    requires x in xs
    ensures p < |xs| && xs[p] == x && x !in xs[..p]
  {
    if xs[0] == x then 0
    else
      var p := 1 + Position(xs[1..], x);
      assert xs[..p] == [xs[0]] + xs[1..][..p - 1];
      p
  }

  /** `m` gives the values of `order` the numbers 1, 2, ... in that order, and holds nothing else. */
  ghost predicate Numbered<T(!new)>(m: map<T, nat>, order: seq<T>) {
    && (forall x :: x in m <==> x in order)
    && (forall k :: 0 <= k < |order| ==> m[order[k]] == k + 1)
  }

  // ---------------------------------------------------------------- lemmas

  /** Deduplication keeps each value once and loses none. */
  lemma {:induction false} DedupSpec<T>(xs: seq<T>)
    ensures Distinct(Dedup(xs))
    ensures forall x :: x in Dedup(xs) <==> x in xs
  {
    if |xs| > 0 {
      var init, x := xs[..|xs| - 1], xs[|xs| - 1];
      DedupSpec(init);
      assert xs == init + [x];
    }
  }

  /** One more value met: an old one leaves numbering and order alone; a new one is numbered
      after all the others and appended to the order. */
  lemma NumberedStep<T(!new)>(m: map<T, nat>, xs: seq<T>, x: T)
    requires Numbered(m, Dedup(xs))
    ensures x in m ==> Dedup(xs + [x]) == Dedup(xs) && Numbered(m, Dedup(xs + [x]))
    ensures x !in m ==>
      Dedup(xs + [x]) == Dedup(xs) + [x] && Numbered(m[x := |Dedup(xs)| + 1], Dedup(xs + [x]))
  {
    assert (xs + [x])[..|xs|] == xs;
    DedupSpec(xs);
    if x !in m {
      var order := Dedup(xs) + [x];
      var m' := m[x := |Dedup(xs)| + 1];
      forall k | 0 <= k < |order| ensures m'[order[k]] == k + 1 {
        if k < |Dedup(xs)| {
          assert order[k] == Dedup(xs)[k] && order[k] != x;
        }
      }
    }
  }

  /** Under a numbering, a value's number is one more than its place in the order. */
  lemma NumberedPosition<T(!new)>(m: map<T, nat>, order: seq<T>, x: T)
    requires Numbered(m, order) && Distinct(order) && x in order
    ensures x in m && m[x] == Position(order, x) + 1
  {
  }

  /** Meeting more values only appends to the order, so a number once given never changes. */
  lemma {:induction false} DedupPrefix<T(!new)>(xs: seq<T>, n: nat)
    requires n <= |xs|
    ensures |Dedup(xs[..n])| <= |Dedup(xs)| && Dedup(xs)[..|Dedup(xs[..n])|] == Dedup(xs[..n])
  {
    if n < |xs| {
      var init := xs[..|xs| - 1];
      assert init[..n] == xs[..n];
      DedupPrefix(init, n);
      assert xs == init + [xs[|xs| - 1]];
    } else {
      assert xs[..n] == xs;
    }
  }

  /** First-seen order: a value met first before another is numbered before it. */
  lemma DedupOrder<T(!new)>(xs: seq<T>, i: nat, j: nat)
    requires i < j < |xs| && xs[i] !in xs[..i] && xs[j] !in xs[..j]
    ensures xs[i] in Dedup(xs) && xs[j] in Dedup(xs) && Position(Dedup(xs), xs[i]) < Position(Dedup(xs), xs[j])
  {
    DedupSpec(xs);
    var before := Dedup(xs[..j]);
    DedupPrefix(xs, j);
    DedupSpec(xs[..j]);
    assert xs[i] in xs[..j];
    var p := Position(before, xs[i]);
    assert Dedup(xs)[p] == xs[i];
    assert xs[j] !in before;
  }
}
