/**
 * The JavaScript array operations the notification stores rely on:
 * `indexOf`, and `Array.from(new Set(xs))`, which drops every repeated
 * element after its first occurrence and keeps the rest in order.
 */
module JsArray {

  predicate NoDuplicates(xs: seq<string>) {
    forall i, j :: 0 <= i < j < |xs| ==> xs[i] != xs[j]
  }

  /** `xs.indexOf(x)` for an `x` that occurs: the position of its first occurrence. */
  function IndexOf(xs: seq<string>, x: string): (k: nat)
    requires x in xs
    ensures k < |xs| && xs[k] == x && x !in xs[..k]
  {
    if xs[0] == x then 0
    else
      var k := IndexOf(xs[1..], x);
      assert xs[..k + 1] == [xs[0]] + xs[1..][..k];
      k + 1
  }

  /** A first occurrence in a prefix stays the first occurrence in any extension. */
  lemma IndexOfAppend(a: seq<string>, b: seq<string>, x: string)
    requires x in a
    ensures IndexOf(a + b, x) == IndexOf(a, x)
  {
    var k, m := IndexOf(a + b, x), IndexOf(a, x);
    assert forall p :: 0 <= p < |a| ==> (a + b)[p] == a[p];
    assert forall p :: 0 <= p < m ==> a[..m][p] == a[p];
    assert forall p :: 0 <= p < k ==> (a + b)[..k][p] == (a + b)[p];
  }

  /** An element new to `a` is first found where it is appended. */
  lemma IndexOfNew(a: seq<string>, x: string)
    requires x !in a
    ensures IndexOf(a + [x], x) == |a|
  {
    var k := IndexOf(a + [x], x);
    assert forall p :: 0 <= p < |a| ==> (a + [x])[p] == a[p];
  }

  /**
   * `Array.from(new Set(xs))`: a `Set` keeps insertion order and ignores an
   * element it already holds.
   */
  function Dedup(xs: seq<string>): (r: seq<string>)
    ensures forall x :: x in r <==> x in xs
    ensures NoDuplicates(r)
    decreases |xs|
  {
    if xs == [] then []
    else
      var init, last := xs[..|xs| - 1], xs[|xs| - 1];
      assert xs == init + [last];
      var seen := Dedup(init);
      if last in seen then seen else seen + [last]
  }

  /** The elements come out in the order of their first occurrences in `xs`. */
  lemma {:induction false} DedupOrder(xs: seq<string>)
    ensures forall i, j :: 0 <= i < j < |Dedup(xs)| ==> IndexOf(xs, Dedup(xs)[i]) < IndexOf(xs, Dedup(xs)[j])
    decreases |xs|
  {
    if xs != [] {
      var init, last := xs[..|xs| - 1], xs[|xs| - 1];
      assert xs == init + [last];
      DedupOrder(init);
      var seen, r := Dedup(init), Dedup(xs);
      forall i, j | 0 <= i < j < |r|
        ensures IndexOf(xs, r[i]) < IndexOf(xs, r[j])
      {
        assert i < |seen| && r[i] == seen[i] && r[i] in init;
        IndexOfAppend(init, [last], r[i]);
        if j < |seen| {
          assert r[j] == seen[j];
          IndexOfAppend(init, [last], r[j]);
          assert IndexOf(init, seen[i]) < IndexOf(init, seen[j]);
        } else {
          assert r == seen + [last] && r[j] == last;
          IndexOfNew(init, last);
          assert IndexOf(init, r[i]) < |init|;
        }
      }
    }
  }

  /** A list that already has no repeats passes through unchanged. */
  lemma {:induction false} DedupDistinct(xs: seq<string>)
    requires NoDuplicates(xs)
    ensures Dedup(xs) == xs
    decreases |xs|
  {
    if xs != [] {
      var init, last := xs[..|xs| - 1], xs[|xs| - 1];
      assert xs == init + [last];
      DedupDistinct(init);
      forall k | 0 <= k < |init|
        ensures init[k] != last
      {
        assert init[k] == xs[k];
      }
    }
  }

  /** Appending elements that are all already present changes nothing. */
  lemma {:induction false} DedupAbsorb(a: seq<string>, b: seq<string>)
    requires forall x :: x in b ==> x in a
    ensures Dedup(a + b) == Dedup(a)
    decreases |b|
  {
    if b == [] {
      assert a + b == a;
    } else {
      var init := b[..|b| - 1];
      assert a + b == (a + init) + [b[|b| - 1]];
      assert (a + b)[..|a + b| - 1] == a + init;
      assert forall x :: x in init ==> x in b;
      DedupAbsorb(a, init);
    }
  }

  /** What `Dedup(a)` produces is the start of what `Dedup(a + b)` produces. */
  lemma {:induction false} DedupPrefix(a: seq<string>, b: seq<string>)
    ensures |Dedup(a)| <= |Dedup(a + b)| && Dedup(a + b)[..|Dedup(a)|] == Dedup(a)
    decreases |b|
  {
    if b == [] {
      assert a + b == a;
    } else {
      var init := b[..|b| - 1];
      assert (a + b)[..|a + b| - 1] == a + init;
      DedupPrefix(a, init);
    }
  }
}
