/** Small facts about sequences used across the model. */
module Sequences {

  predicate Distinct<T(==)>(xs: seq<T>) {
    forall i, j :: 0 <= i < j < |xs| ==> xs[i] != xs[j]
  }

  /** Position of the first occurrence of `x`, or `|xs|` when there is none. */
  function IndexOf<T(==)>(xs: seq<T>, x: T): (k: nat)
    ensures k <= |xs|
    ensures k < |xs| ==> xs[k] == x
    ensures forall i :: 0 <= i < k ==> xs[i] != x
    decreases |xs|
  {
    if |xs| == 0 then 0
    else if xs[0] == x then 0
    else 1 + IndexOf(xs[1..], x)
  }

  /** In a duplicate-free sequence an element's position is its index. */
  lemma IndexOfDistinct<T>(xs: seq<T>, i: nat)
    requires Distinct(xs) && i < |xs|
    ensures IndexOf(xs, xs[i]) == i
  {
  }

  /** `xs` listed in the order of `order`: each element occurs in `order`, and
      positions in `order` strictly increase along `xs`. */
  predicate InOrderOf<T(==)>(xs: seq<T>, order: seq<T>) {
    (forall i :: 0 <= i < |xs| ==> IndexOf(order, xs[i]) < |order|)
    && (forall i, j :: 0 <= i < j < |xs| ==> IndexOf(order, xs[i]) < IndexOf(order, xs[j]))
  }

  /** A sequence in the order of another holds no element twice. */
  lemma InOrderOfDistinct<T>(xs: seq<T>, order: seq<T>)
    requires InOrderOf(xs, order)
    ensures Distinct(xs)
  {
  }

  /**
   * The elements of `xs` whose flag in `keep` is set, in their order: the
   * result of a chain of `if flag: out.append(x)` statements.
   */
  function Select<T(==)>(xs: seq<T>, keep: seq<bool>): (r: seq<T>)
    requires |keep| == |xs|
    ensures |r| <= |xs|
    ensures forall i :: 0 <= i < |xs| && keep[i] ==> xs[i] in r
    ensures forall x :: x in r ==> exists i :: 0 <= i < |xs| && keep[i] && xs[i] == x
    ensures r == [] <==> forall i :: 0 <= i < |xs| ==> !keep[i]
    decreases |xs|
  {
    if |xs| == 0 then []
    else
      var rest := Select(xs[1..], keep[1..]);
      assert forall i :: 1 <= i < |xs| ==> xs[i] == xs[1..][i - 1] && keep[i] == keep[1..][i - 1];
      if keep[0] then [xs[0]] + rest else rest
  }

  /** Selecting from a duplicate-free sequence keeps its order. */
  lemma {:induction false} SelectInOrder<T>(xs: seq<T>, keep: seq<bool>)
    requires |keep| == |xs| && Distinct(xs)
    ensures InOrderOf(Select(xs, keep), xs)
    decreases |xs|
  {
    if |xs| > 0 {
      var tail := xs[1..];
      var rest := Select(tail, keep[1..]);
      SelectInOrder(tail, keep[1..]);
      SelectFromTail(xs, keep);
      var r := Select(xs, keep);
      if keep[0] {
        assert r == [xs[0]] + rest;
        ConsInOrder(xs, rest);
      } else {
        assert r == rest;
        forall i | 0 <= i < |r|
          ensures IndexOf(xs, r[i]) == 1 + IndexOf(tail, r[i])
        {
          assert r[i] in rest;
        }
      }
    }
  }

  /** What is selected from the tail sits one place later in `xs`. */
  lemma SelectFromTail<T>(xs: seq<T>, keep: seq<bool>)
    requires |keep| == |xs| && Distinct(xs) && |xs| > 0
    ensures forall x :: x in Select(xs[1..], keep[1..]) ==> x != xs[0] && IndexOf(xs, x) == 1 + IndexOf(xs[1..], x)
  {
    var tail := xs[1..];
    forall x | x in Select(tail, keep[1..])
      ensures x != xs[0] && IndexOf(xs, x) == 1 + IndexOf(tail, x)
    {
      var i :| 0 <= i < |tail| && keep[1..][i] && tail[i] == x;
      assert xs[i + 1] == x;
    }
  }

  /** Putting the first element of `xs` in front of a list in the order of
      the tail keeps the order. */
  lemma ConsInOrder<T>(xs: seq<T>, rest: seq<T>)
    requires |xs| > 0 && InOrderOf(rest, xs[1..])
    requires forall x :: x in rest ==> x != xs[0] && IndexOf(xs, x) == 1 + IndexOf(xs[1..], x)
    ensures InOrderOf([xs[0]] + rest, xs)
  {
    var r := [xs[0]] + rest;
    assert IndexOf(xs, xs[0]) == 0;
    forall i | 0 < i < |r|
      ensures IndexOf(xs, r[i]) == 1 + IndexOf(xs[1..], rest[i - 1])
    {
      assert r[i] == rest[i - 1] && rest[i - 1] in rest;
    }
  }

  /** Over a duplicate-free sequence, an element is selected exactly when its flag is set. */
  lemma SelectMembership<T>(xs: seq<T>, keep: seq<bool>)
    requires |keep| == |xs| && Distinct(xs)
    ensures forall k :: 0 <= k < |xs| ==> (xs[k] in Select(xs, keep) <==> keep[k])
  {
    forall k | 0 <= k < |xs| && xs[k] in Select(xs, keep)
      ensures keep[k]
    {
      var i :| 0 <= i < |xs| && keep[i] && xs[i] == xs[k];
      assert i == k;
    }
  }

  /** The images under `f` of the elements that satisfy `p`, in order: a loop
      that appends `f(x)` for each `x` it does not skip. */
  function Keep<A, B>(xs: seq<A>, p: A -> bool, f: A -> B): (r: seq<B>)
    ensures |r| <= |xs|
    decreases |xs|
  {
    if |xs| == 0 then []
    else if p(xs[0]) then [f(xs[0])] + Keep(xs[1..], p, f)
    else Keep(xs[1..], p, f)
  }

  /** Every element that is not skipped contributes its image. */
  lemma {:induction false} KeepHas<A, B>(xs: seq<A>, p: A -> bool, f: A -> B, i: nat)
    requires i < |xs| && p(xs[i])
    ensures f(xs[i]) in Keep(xs, p, f)
    decreases i
  {
    if i > 0 {
      assert xs[1..][i - 1] == xs[i];
      KeepHas(xs[1..], p, f, i - 1);
    }
  }

  /** Every kept value is the image of an element that is not skipped: the
      first such element. */
  function KeepSource<A, B(==)>(xs: seq<A>, p: A -> bool, f: A -> B, y: B): (i: nat)
    requires y in Keep(xs, p, f)
    ensures i < |xs| && p(xs[i]) && f(xs[i]) == y
    decreases |xs|
  {
    if p(xs[0]) && f(xs[0]) == y then 0
    else
      var k := KeepSource(xs[1..], p, f, y);
      assert xs[1 + k] == xs[1..][k];
      1 + k
  }

  /** An image is kept exactly when it is the image of an element that passes. */
  lemma KeepExactly<A, B>(xs: seq<A>, p: A -> bool, f: A -> B)
    ensures forall i :: 0 <= i < |xs| && p(xs[i]) ==> f(xs[i]) in Keep(xs, p, f)
    ensures forall y :: y in Keep(xs, p, f) ==> exists i :: 0 <= i < |xs| && p(xs[i]) && f(xs[i]) == y
  {
    forall i | 0 <= i < |xs| && p(xs[i]) ensures f(xs[i]) in Keep(xs, p, f) {
      KeepHas(xs, p, f, i);
    }
    forall y | y in Keep(xs, p, f) ensures exists i :: 0 <= i < |xs| && p(xs[i]) && f(xs[i]) == y {
      var i := KeepSource(xs, p, f, y);
    }
  }

  /** Keeping works element by element, so the result follows the input's order. */
  lemma {:induction false} KeepAppend<A, B>(xs: seq<A>, ys: seq<A>, p: A -> bool, f: A -> B)
    ensures Keep(xs + ys, p, f) == Keep(xs, p, f) + Keep(ys, p, f)
    decreases |xs|
  {
    if |xs| > 0 {
      assert (xs + ys)[1..] == xs[1..] + ys;
      KeepAppend(xs[1..], ys, p, f);
    } else {
      assert xs + ys == ys;
    }
  }

  /** Nothing is kept from a run none of whose elements passes. */
  lemma {:induction false} KeepNone<A, B>(xs: seq<A>, p: A -> bool, f: A -> B)
    requires forall i :: 0 <= i < |xs| ==> !p(xs[i])
    ensures Keep(xs, p, f) == []
    decreases |xs|
  {
    if |xs| > 0 {
      KeepNone(xs[1..], p, f);
    }
  }

  /** The head, then a run of `k` rejected elements, then the rest. */
  lemma KeepAfterRun<A, B>(xs: seq<A>, p: A -> bool, f: A -> B, k: nat)
    requires 1 + k <= |xs|
    requires forall i :: 1 <= i < 1 + k ==> !p(xs[i])
    ensures Keep(xs, p, f) == (if p(xs[0]) then [f(xs[0])] else []) + Keep(xs[1 + k..], p, f)
  {
    assert xs[1..] == xs[1..1 + k] + xs[1 + k..];
    KeepAppend(xs[1..1 + k], xs[1 + k..], p, f);
    KeepNone(xs[1..1 + k], p, f);
  }

  /**
   * A loop that appends `f(x)` for every `x` satisfying `p` and breaks at the
   * first `x` satisfying `stop` once something has been collected.
   */
  function ScanUntil<A, B>(xs: seq<A>, p: A -> bool, f: A -> B, stop: A -> bool, acc: seq<B>): (r: seq<B>)
    decreases |xs|
  {
    if |xs| == 0 then acc
    else
      var acc' := acc + (if p(xs[0]) then [f(xs[0])] else []);
      if stop(xs[0]) && acc' != [] then acc' else ScanUntil(xs[1..], p, f, stop, acc')
  }

  lemma ScanUntilStep<A, B>(xs: seq<A>, p: A -> bool, f: A -> B, stop: A -> bool, acc: seq<B>)
    requires |xs| > 0
    ensures var acc' := acc + (if p(xs[0]) then [f(xs[0])] else []);
            ScanUntil(xs, p, f, stop, acc) == if stop(xs[0]) && acc' != [] then acc' else ScanUntil(xs[1..], p, f, stop, acc')
  {
  }

  /** The loop breaks at `xs[i]`: it stops there and something was collected before it. */
  predicate BreaksAt<A, B>(xs: seq<A>, p: A -> bool, f: A -> B, stop: A -> bool, acc: seq<B>, i: nat)
    requires i < |xs|
  {
    stop(xs[i]) && acc + Keep(xs[..i], p, f) != []
  }

  /** The first position at or after `i` where the loop breaks, or `|xs|`. */
  function BreakFrom<A, B>(xs: seq<A>, p: A -> bool, f: A -> B, stop: A -> bool, acc: seq<B>, i: nat): (e: nat)
    requires i <= |xs|
    ensures i <= e <= |xs|
    ensures e < |xs| ==> BreaksAt(xs, p, f, stop, acc, e)
    ensures forall j :: i <= j < e ==> !BreaksAt(xs, p, f, stop, acc, j)
    decreases |xs| - i
  {
    if i == |xs| || BreaksAt(xs, p, f, stop, acc, i) then i else BreakFrom(xs, p, f, stop, acc, i + 1)
  }

  function Break<A, B>(xs: seq<A>, p: A -> bool, f: A -> B, stop: A -> bool, acc: seq<B>): (e: nat)
    ensures e <= |xs|
    ensures e < |xs| ==> BreaksAt(xs, p, f, stop, acc, e)
    ensures forall j :: 0 <= j < e ==> !BreaksAt(xs, p, f, stop, acc, j)
  {
    BreakFrom(xs, p, f, stop, acc, 0)
  }

  lemma BreakUnique<A, B>(xs: seq<A>, p: A -> bool, f: A -> B, stop: A -> bool, acc: seq<B>, e: nat)
    requires e <= |xs|
    requires e < |xs| ==> BreaksAt(xs, p, f, stop, acc, e)
    requires forall j :: 0 <= j < e ==> !BreaksAt(xs, p, f, stop, acc, j)
    ensures Break(xs, p, f, stop, acc) == e
  {
  }

  lemma KeepPrefixShift<A, B>(xs: seq<A>, p: A -> bool, f: A -> B, j: nat)
    requires 1 <= j <= |xs|
    ensures Keep(xs[..j], p, f) == (if p(xs[0]) then [f(xs[0])] else []) + Keep(xs[1..][..j - 1], p, f)
  {
    assert xs[..j] == [xs[0]] + xs[1..][..j - 1];
    KeepAppend([xs[0]], xs[1..][..j - 1], p, f);
  }

  lemma BreaksAtShift<A, B>(xs: seq<A>, p: A -> bool, f: A -> B, stop: A -> bool, acc: seq<B>, j: nat)
    requires 1 <= j < |xs|
    ensures BreaksAt(xs, p, f, stop, acc, j) <==>
              BreaksAt(xs[1..], p, f, stop, acc + (if p(xs[0]) then [f(xs[0])] else []), j - 1)
  {
    var add := if p(xs[0]) then [f(xs[0])] else [];
    KeepPrefixShift(xs, p, f, j);
    assert xs[j] == xs[1..][j - 1];
    assert acc + Keep(xs[..j], p, f) == (acc + add) + Keep(xs[1..][..j - 1], p, f);
  }

  /**
   * When no stopping element is itself collected, the loop collects exactly
   * the images of the elements before the one it breaks at, in order.
   */
  lemma {:induction false} ScanUntilKeeps<A, B>(xs: seq<A>, p: A -> bool, f: A -> B, stop: A -> bool, acc: seq<B>)
    requires forall i :: 0 <= i < |xs| && stop(xs[i]) ==> !p(xs[i])
    ensures ScanUntil(xs, p, f, stop, acc) == acc + Keep(xs[..Break(xs, p, f, stop, acc)], p, f)
    decreases |xs|
  {
    if |xs| > 0 {
      var add := if p(xs[0]) then [f(xs[0])] else [];
      if stop(xs[0]) && acc + add != [] {
        assert xs[..0] == [];
        BreakUnique(xs, p, f, stop, acc, 0);
      } else {
        assert forall i :: 1 <= i < |xs| ==> xs[i] == xs[1..][i - 1];
        ScanUntilKeeps(xs[1..], p, f, stop, acc + add);
        var e' := Break(xs[1..], p, f, stop, acc + add);
        assert xs[..0] == [];
        forall j | 1 <= j < 1 + e'
          ensures !BreaksAt(xs, p, f, stop, acc, j)
        {
          BreaksAtShift(xs, p, f, stop, acc, j);
        }
        if 1 + e' < |xs| {
          BreaksAtShift(xs, p, f, stop, acc, 1 + e');
        }
        BreakUnique(xs, p, f, stop, acc, 1 + e');
        KeepPrefixShift(xs, p, f, 1 + e');
        assert (acc + add) + Keep(xs[1..][..e'], p, f) == acc + (add + Keep(xs[1..][..e'], p, f));
      }
    }
  }

  /** The first occurrence of each element, in order. */
  function Dedup<T(==,!new)>(xs: seq<T>): (r: seq<T>)
    ensures forall i, j :: 0 <= i < j < |r| ==> r[i] != r[j]
    ensures forall x :: x in r <==> x in xs
    decreases |xs|
  {
    if |xs| == 0 then []
    else
      var rest := Dedup(xs[..|xs| - 1]);
      assert forall x :: x in xs <==> x in xs[..|xs| - 1] || x == xs[|xs| - 1];
      if xs[|xs| - 1] in rest then rest else rest + [xs[|xs| - 1]]
  }

  /** Removing the element at `a` takes exactly that element out of the multiset. */
  lemma RemoveMultiset<T>(s: seq<T>, a: nat)
    requires a < |s|
    ensures multiset(s[..a] + s[a + 1..]) + multiset{s[a]} == multiset(s)
  {
    assert s == s[..a] + [s[a]] + s[a + 1..];
  }

  /** Inserting `x` at `i` adds exactly `x` to the multiset. */
  lemma InsertMultiset<T>(s: seq<T>, i: nat, x: T)
    requires i <= |s|
    ensures multiset(s[..i] + [x] + s[i..]) == multiset(s) + multiset{x}
  {
    assert s == s[..i] + s[i..];
  }
}
