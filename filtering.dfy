/**
 * The shape shared by every list the pipeline builds: walk a sequence in
 * order, compute a value per element, keep it or skip the element
 * (`[g(x) for x in xs if keep(x)]`, or a loop that conditionally appends).
 */
module Filtering {
  import opened Wrappers

  /** What one element contributes: its value when `f` keeps it, nothing otherwise. */
  function Kept<B>(o: Option<B>): seq<B>
  {
    if o.Some? then [o.value] else []
  }

  /** The values `f` yields for the elements of `s` it keeps, in the order of `s`. */
  function FilterMap<A, B>(s: seq<A>, f: A -> Option<B>): (r: seq<B>)
    ensures |r| <= |s|
    decreases |s|
  {
    if s == [] then [] else FilterMap(s[..|s| - 1], f) + Kept(f(s[|s| - 1]))
  }

  /** Appending one element extends the result by that element's contribution: the loop step. */
  lemma FilterMapSnoc<A, B>(s: seq<A>, x: A, f: A -> Option<B>)
    ensures FilterMap(s + [x], f) == FilterMap(s, f) + Kept(f(x))
  {
    assert (s + [x])[..|s|] == s;
  }

  /** Growing a prefix of `s` by one element: the step of a loop over `s`. */
  lemma FilterMapPrefix<A, B>(s: seq<A>, i: nat, f: A -> Option<B>)
    requires i < |s|
    ensures FilterMap(s[..i + 1], f) == FilterMap(s[..i], f) + Kept(f(s[i]))
  {
    assert s[..i + 1] == s[..i] + [s[i]];
    FilterMapSnoc(s[..i], s[i], f);
  }

  /** The loop's last prefix is the whole sequence. */
  lemma FilterMapWhole<A, B>(s: seq<A>, f: A -> Option<B>)
    ensures FilterMap(s[..|s|], f) == FilterMap(s, f)
  {
    assert s[..|s|] == s;
  }

  /** The result on a three-element sequence, element by element. */
  lemma FilterMapThree<A, B>(x: A, y: A, z: A, f: A -> Option<B>)
    ensures FilterMap([x, y, z], f) == Kept(f(x)) + Kept(f(y)) + Kept(f(z))
  {
    assert [x, y, z][..2] == [x, y];
    FilterMapTwo(x, y, f);
  }

  /** The result on a two-element sequence, element by element. */
  lemma FilterMapTwo<A, B>(x: A, y: A, f: A -> Option<B>)
    ensures FilterMap([x, y], f) == Kept(f(x)) + Kept(f(y))
  {
    assert [x, y][..1] == [x];
    assert [x][..0] == [];
  }

  /** The number of elements of `s` that satisfy `p`. */
  function Count<A>(s: seq<A>, p: A -> bool): nat
    decreases |s|
  {
    if s == [] then 0 else Count(s[..|s| - 1], p) + (if p(s[|s| - 1]) then 1 else 0)
  }

  /** One value is kept per element of which `p` holds, when `p` says exactly which ones `f` keeps. */
  lemma {:induction false} FilterMapCount<A, B>(s: seq<A>, f: A -> Option<B>, p: A -> bool)
    requires forall x :: f(x).Some? <==> p(x)
    ensures |FilterMap(s, f)| == Count(s, p)
    decreases |s|
  {
    if s != [] {
      FilterMapCount(s[..|s| - 1], f, p);
    }
  }

  /** Every element is counted when `p` holds of all of them. */
  lemma {:induction false} CountAll<A>(s: seq<A>, p: A -> bool)
    requires forall k :: 0 <= k < |s| ==> p(s[k])
    ensures Count(s, p) == |s|
    decreases |s|
  {
    if s != [] {
      CountAll(s[..|s| - 1], p);
    }
  }

  /**
   * Where each kept value comes from: the index in `s` of the element that
   * produced it. The indices increase: the order of `s` is kept.
   */
  function Origins<A, B>(s: seq<A>, f: A -> Option<B>): (idx: seq<nat>)
    ensures |idx| == |FilterMap(s, f)|
    ensures forall k :: 0 <= k < |idx| ==> idx[k] < |s| && f(s[idx[k]]) == Some(FilterMap(s, f)[k])
    ensures forall k, l :: 0 <= k < l < |idx| ==> idx[k] < idx[l]
    decreases |s|
  {
    if s == [] then []
    else
      var init := s[..|s| - 1];
      var prev := Origins(init, f);
      assert forall k :: 0 <= k < |prev| ==> s[prev[k]] == init[prev[k]];
      if f(s[|s| - 1]).Some? then prev + [|s| - 1] else prev
  }

  /** The indices miss no element that `f` keeps. */
  lemma {:induction false} OriginsComplete<A, B>(s: seq<A>, f: A -> Option<B>, j: nat)
    requires j < |s| && f(s[j]).Some?
    ensures j in Origins(s, f)
    decreases |s|
  {
    var n := |s| - 1;
    var prev := Origins(s[..n], f);
    if j < n {
      assert s[..n][j] == s[j];
      OriginsComplete(s[..n], f, j);
      assert Origins(s, f)[..|prev|] == prev;
    } else {
      assert Origins(s, f) == prev + [n];
    }
  }

  /** The step of a two-stage filter: `f`, then `g` on what `f` keeps. */
  function Then<A, B, C>(f: A -> Option<B>, g: B -> Option<C>, x: A): Option<C>
  {
    if f(x).Some? then g(f(x).value) else None
  }

  /** Filtering twice is filtering once with the composed step. */
  lemma {:induction false} FilterMapThen<A, B, C>(s: seq<A>, f: A -> Option<B>, g: B -> Option<C>)
    ensures FilterMap(FilterMap(s, f), g) == FilterMap(s, x => Then(f, g, x))
    decreases |s|
  {
    if s != [] {
      var n := |s| - 1;
      FilterMapThen(s[..n], f, g);
      var mid := FilterMap(s[..n], f);
      if f(s[n]).Some? {
        FilterMapSnoc(mid, f(s[n]).value, g);
      } else {
        assert FilterMap(s, f) == mid;
      }
    }
  }

  /** Where each value of a two-stage filter comes from in the original sequence; the indices increase. */
  function Origins2<A, B, C>(s: seq<A>, f: A -> Option<B>, g: B -> Option<C>): (idx: seq<nat>)
    ensures |idx| == |FilterMap(FilterMap(s, f), g)|
    ensures forall k :: 0 <= k < |idx| ==>
              idx[k] < |s| && f(s[idx[k]]).Some? && g(f(s[idx[k]]).value) == Some(FilterMap(FilterMap(s, f), g)[k])
    ensures forall k, l :: 0 <= k < l < |idx| ==> idx[k] < idx[l]
  {
    FilterMapThen(s, f, g);
    Origins(s, x => Then(f, g, x))
  }

  /** Two sequences whose elements yield the same values, position by position, yield the same result. */
  lemma {:induction false} FilterMapCongruent<A1, A2, B>(s: seq<A1>, f: A1 -> Option<B>, t: seq<A2>, g: A2 -> Option<B>)
    requires |s| == |t|
    requires forall k :: 0 <= k < |s| ==> f(s[k]) == g(t[k])
    ensures FilterMap(s, f) == FilterMap(t, g)
    decreases |s|
  {
    if s != [] {
      var n := |s| - 1;
      assert forall k :: 0 <= k < n ==> s[..n][k] == s[k] && t[..n][k] == t[k];
      FilterMapCongruent(s[..n], f, t[..n], g);
    }
  }

  /** Nothing is kept exactly when `f` rejects every element. */
  lemma FilterMapEmptyIff<A, B>(s: seq<A>, f: A -> Option<B>)
    ensures FilterMap(s, f) == [] <==> forall k :: 0 <= k < |s| ==> f(s[k]).None?
  {
    var idx := Origins(s, f);
    forall k | 0 <= k < |s| && f(s[k]).Some? ensures k in idx {
      OriginsComplete(s, f, k);
    }
    if FilterMap(s, f) != [] {
      assert f(s[idx[0]]).Some?;
    }
  }

  /** When `f` keeps every element as it is, the result is `s` itself. */
  lemma {:induction false} FilterMapKeepsAll<A>(s: seq<A>, f: A -> Option<A>)
    requires forall k :: 0 <= k < |s| ==> f(s[k]) == Some(s[k])
    ensures FilterMap(s, f) == s
    decreases |s|
  {
    if s != [] {
      var n := |s| - 1;
      var init := s[..n];
      assert forall k :: 0 <= k < n ==> init[k] == s[k];
      FilterMapKeepsAll(init, f);
      assert Kept(f(s[n])) == [s[n]];
      assert init + [s[n]] == s;
    }
  }
}
