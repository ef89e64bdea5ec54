/** Stock definitions shared by the model: an option type, sums over sequences and
    concatenation of a sequence of sequences. */
module Prelude {

  datatype Option<+T> = None | Some(value: T)

  /** Sum of a weight over the elements of a sequence. */
  function Sum<T>(xs: seq<T>, weight: T -> int): int {
    if xs == [] then 0 else weight(xs[0]) + Sum(xs[1..], weight)
  }

  /** Replacing one element changes the sum by the difference of the two weights. */
  lemma {:induction false} SumUpdate<T>(xs: seq<T>, i: nat, x: T, weight: T -> int)
    requires i < |xs|
    ensures Sum(xs[i := x], weight) == Sum(xs, weight) - weight(xs[i]) + weight(x)
  {
    if i == 0 {
      assert xs[0 := x][1..] == xs[1..];
    } else {
      assert xs[i := x][1..] == xs[1..][i - 1 := x];
      SumUpdate(xs[1..], i - 1, x, weight);
    }
  }

  lemma {:induction false} SumSnoc<T>(xs: seq<T>, x: T, weight: T -> int)
    ensures Sum(xs + [x], weight) == Sum(xs, weight) + weight(x)
  {
    if xs == [] {
      assert [] + [x] == [x] && [x][1..] == [];
    } else {
      assert (xs + [x])[1..] == xs[1..] + [x];
      SumSnoc(xs[1..], x, weight);
    }
  }

  /** A sum of bounded weights lies between the two bounds times the length. */
  lemma {:induction false} SumBounds<T>(xs: seq<T>, weight: T -> int, low: int, high: int)
    requires forall x :: x in xs ==> low <= weight(x) <= high
    ensures low * |xs| <= Sum(xs, weight) <= high * |xs|
  {
    if xs != [] {
      var n := |xs| - 1;
      SumBounds(xs[1..], weight, low, high);
      assert low * (n + 1) == low * n + low && high * (n + 1) == high * n + high;
    }
  }

  lemma Units<T>(a: seq<T>)
    ensures [] + a == a && a + [] == a
  {
  }

  lemma SnocSplit<T>(a: seq<T>)
    requires a != []
    ensures a[..|a| - 1] + [a[|a| - 1]] == a
  {
  }

  lemma Assoc<T>(a: seq<T>, b: seq<T>, c: seq<T>)
    ensures (a + b) + c == a + (b + c)
  {
  }

  /** Concatenation of all elements, first to last. */
  function Concat<T>(xss: seq<seq<T>>): seq<T> {
    if xss == [] then [] else xss[0] + Concat(xss[1..])
  }

  lemma {:induction false} ConcatSnoc<T>(xss: seq<seq<T>>, xs: seq<T>)
    ensures Concat(xss + [xs]) == Concat(xss) + xs
  {
    if xss == [] {
      assert [] + [xs] == [xs];
      assert [xs][1..] == [];
    } else {
      assert (xss + [xs])[1..] == xss[1..] + [xs];
      ConcatSnoc(xss[1..], xs);
    }
  }

  lemma {:induction false} ConcatAppend<T>(xss: seq<seq<T>>, yss: seq<seq<T>>)
    ensures Concat(xss + yss) == Concat(xss) + Concat(yss)
  {
    if xss == [] {
      assert [] + yss == yss;
    } else {
      assert (xss + yss)[1..] == xss[1..] + yss;
      ConcatAppend(xss[1..], yss);
    }
  }

  /** `at` lists, in increasing order, exactly the positions of the elements that satisfy `p`. */
  ghost predicate Picks<T>(at: seq<nat>, xs: seq<T>, p: T -> bool) {
    && (forall j, k :: 0 <= j < k < |at| ==> at[j] < at[k])
    && (forall j :: 0 <= j < |at| ==> at[j] < |xs| && p(xs[at[j]]))
    && (forall i :: 0 <= i < |xs| && p(xs[i]) ==> i in at)
  }

  lemma PicksSnoc<T>(at: seq<nat>, xs: seq<T>, p: T -> bool, x: T)
    requires Picks(at, xs, p)
    ensures Picks(if p(x) then at + [|xs|] else at, xs + [x], p)
  {
    var all, at' := xs + [x], if p(x) then at + [|xs|] else at;
    forall i | 0 <= i < |all| && p(all[i]) ensures i in at' {
      if i < |xs| {
        assert all[i] == xs[i] && i in at;
      } else {
        assert at'[|at|] == i;
      }
    }
  }

  /** `out` has one element for each element of `xs` that satisfies `p`, in order, and related to
      it; `at` are the positions. */
  ghost predicate Tracks<A, B>(out: seq<A>, xs: seq<B>, p: B -> bool, rel: (A, B) -> bool, at: seq<nat>) {
    && Picks(at, xs, p) && |at| == |out|
    && forall j :: 0 <= j < |at| ==> at[j] < |xs| && rel(out[j], xs[at[j]])
  }

  lemma TracksSnoc<A, B>(out: seq<A>, xs: seq<B>, p: B -> bool, rel: (A, B) -> bool, at: seq<nat>, x: B, more: seq<A>)
    requires Tracks(out, xs, p, rel, at)
    requires |more| == (if p(x) then 1 else 0) && (p(x) ==> rel(more[0], x))
    ensures Tracks(out + more, xs + [x], p, rel, if p(x) then at + [|xs|] else at)
  {
    PicksSnoc(at, xs, p, x);
    var all, at', out' := xs + [x], if p(x) then at + [|xs|] else at, out + more;
    forall j | 0 <= j < |at'| ensures at'[j] < |all| && rel(out'[j], all[at'[j]]) {
      if j < |at| {
        assert out'[j] == out[j] && all[at'[j]] == xs[at[j]];
      } else {
        assert out'[j] == more[0] && all[at'[j]] == x;
      }
    }
  }

  /** The same with a relation to the position. */
  ghost predicate TracksAt<A, B>(out: seq<A>, xs: seq<B>, p: B -> bool, rel: (A, nat) -> bool, at: seq<nat>) {
    && Picks(at, xs, p) && |at| == |out|
    && forall j :: 0 <= j < |at| ==> rel(out[j], at[j])
  }

  lemma TracksAtSnoc<A, B>(out: seq<A>, xs: seq<B>, p: B -> bool, rel: (A, nat) -> bool, at: seq<nat>, x: B, more: seq<A>)
    requires TracksAt(out, xs, p, rel, at)
    requires |more| == (if p(x) then 1 else 0) && (p(x) ==> rel(more[0], |xs|))
    ensures TracksAt(out + more, xs + [x], p, rel, if p(x) then at + [|xs|] else at)
  {
    PicksSnoc(at, xs, p, x);
    var at', out' := if p(x) then at + [|xs|] else at, out + more;
    forall j | 0 <= j < |at'| ensures rel(out'[j], at'[j]) {
      if j < |at| {
        assert out'[j] == out[j];
      } else {
        assert out'[j] == more[0];
      }
    }
  }

  /** `value` is what the last element that says something says, or `initial` if none does. */
  ghost predicate Latest<E, T>(xs: seq<E>, says: E -> Option<T>, initial: T, value: T) {
    || (value == initial && forall k :: 0 <= k < |xs| ==> says(xs[k]).None?)
    || exists k :: 0 <= k < |xs| && says(xs[k]) == Some(value) && forall j :: k < j < |xs| ==> says(xs[j]).None?
  }

  lemma LatestSnoc<E, T>(xs: seq<E>, x: E, says: E -> Option<T>, initial: T, value: T)
    requires Latest(xs, says, initial, value)
    ensures Latest(xs + [x], says, initial, if says(x).Some? then says(x).value else value)
  {
    var all, n := xs + [x], |xs|;
    assert all[n] == x && forall k :: 0 <= k < n ==> all[k] == xs[k];
    if says(x).None? && exists k :: 0 <= k < n && says(xs[k]).Some? {
      var k :| 0 <= k < n && says(xs[k]) == Some(value) && forall j :: k < j < n ==> says(xs[j]).None?;
      assert says(all[k]) == Some(value);
    }
  }

  lemma LatestOfNone<E, T>(says: E -> Option<T>, initial: T)
    ensures Latest([], says, initial, initial)
  {
  }
}
