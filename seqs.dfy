/** Sequence combinators for the `filter`/`map`/`push` loops of the source: every
    definition peels the last element, so that a loop that has handled `xs[..i]` and
    then handles `xs[i]` matches the definition step by step. */
module Seqs {
  import opened Options

  /** Keeps `f(x).value` for every `x` for which `f` gives a value, in order. */
  function FilterMap<A, B>(xs: seq<A>, f: A -> Option<B>): (r: seq<B>)
    ensures |r| <= |xs|
  {
    if xs == [] then []
    else
      var init := FilterMap(xs[..|xs| - 1], f);
      match f(xs[|xs| - 1])
      case Some(y) => init + [y]
      case None => init
  }

  /** The first `i + 1` elements are the first `i` and then the next one. */
  lemma TakeNext<T>(xs: seq<T>, i: nat)
    requires i < |xs|
    ensures xs[..i + 1] == xs[..i] + [xs[i]]
  {
  }

  /** One more element that `f` maps to a value: FilterMap grows by that value. */
  lemma FilterMapKeep<A, B>(xs: seq<A>, f: A -> Option<B>, i: nat, y: B)
    requires i < |xs| && f(xs[i]) == Some(y)
    ensures FilterMap(xs[..i + 1], f) == FilterMap(xs[..i], f) + [y]
  {
    assert xs[..i + 1][..i] == xs[..i];
  }

  /** One more element that `f` maps to nothing: FilterMap stays as it is. */
  lemma FilterMapSkip<A, B>(xs: seq<A>, f: A -> Option<B>, i: nat)
    requires i < |xs| && f(xs[i]).None?
    ensures FilterMap(xs[..i + 1], f) == FilterMap(xs[..i], f)
  {
    assert xs[..i + 1][..i] == xs[..i];
  }

  /** The positions of `xs` that FilterMap keeps. */
  function Kept<A, B>(xs: seq<A>, f: A -> Option<B>): seq<nat>
  {
    if xs == [] then []
    else
      var init := Kept(xs[..|xs| - 1], f);
      if f(xs[|xs| - 1]).Some? then init + [|xs| - 1] else init
  }

  /** FilterMap keeps exactly the elements that `f` maps to a value, each turned into
      that value, and it keeps them in their input order. */
  lemma {:induction false} FilterMapOrigins<A, B>(xs: seq<A>, f: A -> Option<B>)
    ensures |Kept(xs, f)| == |FilterMap(xs, f)|
    ensures forall j :: 0 <= j < |Kept(xs, f)| ==>
      Kept(xs, f)[j] < |xs| && f(xs[Kept(xs, f)[j]]) == Some(FilterMap(xs, f)[j])
    ensures forall j, k :: 0 <= j < k < |Kept(xs, f)| ==> Kept(xs, f)[j] < Kept(xs, f)[k]
    ensures forall i :: 0 <= i < |xs| ==> (f(xs[i]).Some? <==> i in Kept(xs, f))
  {
    if xs != [] {
      var init := xs[..|xs| - 1];
      FilterMapOrigins(init, f);
      assert forall i :: 0 <= i < |init| ==> xs[i] == init[i];
    }
  }

  /** Every kept value comes from an element of the input. */
  lemma FilterMapFrom<A, B>(xs: seq<A>, f: A -> Option<B>, y: B)
    requires y in FilterMap(xs, f)
    ensures exists i :: 0 <= i < |xs| && f(xs[i]) == Some(y)
  {
    FilterMapOrigins(xs, f);
    var j :| 0 <= j < |FilterMap(xs, f)| && FilterMap(xs, f)[j] == y;
    assert f(xs[Kept(xs, f)[j]]) == Some(y);
  }

  /** Every element that `f` maps to a value contributes that value. */
  lemma FilterMapTo<A, B>(xs: seq<A>, f: A -> Option<B>, i: nat)
    requires i < |xs| && f(xs[i]).Some?
    ensures f(xs[i]).value in FilterMap(xs, f)
  {
    FilterMapOrigins(xs, f);
    var j :| 0 <= j < |Kept(xs, f)| && Kept(xs, f)[j] == i;
    assert FilterMap(xs, f)[j] == f(xs[i]).value;
  }

  lemma {:induction false} FilterMapAppend<A, B>(xs: seq<A>, ys: seq<A>, f: A -> Option<B>)
    ensures FilterMap(xs + ys, f) == FilterMap(xs, f) + FilterMap(ys, f)
    decreases |ys|
  {
    if ys == [] {
      assert xs + ys == xs;
    } else {
      var ys' := ys[..|ys| - 1];
      assert (xs + ys)[..|xs + ys| - 1] == xs + ys';
      FilterMapAppend(xs, ys', f);
    }
  }

  /** The elements of `xs` whose flag is `want`. */
  function Select<A>(xs: seq<A>, flags: seq<bool>, want: bool): (r: seq<A>)
    requires |flags| == |xs|
    ensures |r| <= |xs|
  {
    if xs == [] then []
    else
      var init := Select(xs[..|xs| - 1], flags[..|flags| - 1], want);
      if flags[|flags| - 1] == want then init + [xs[|xs| - 1]] else init
  }

  /** One more element and its flag: Select grows by that element iff its flag is the
      one selected. */
  lemma SelectStep<A>(xs: seq<A>, flags: seq<bool>, b: bool, i: nat, want: bool)
    requires i < |xs| && |flags| == i
    ensures Select(xs[..i + 1], flags + [b], want)
      == Select(xs[..i], flags, want) + (if b == want then [xs[i]] else [])
  {
    assert xs[..i + 1][..i] == xs[..i];
    assert (flags + [b])[..i] == flags;
  }

  /** Every selected element is an element of `xs` whose flag is `want`. */
  lemma {:induction false} SelectFrom<A>(xs: seq<A>, flags: seq<bool>, want: bool, j: nat)
    requires |flags| == |xs| && j < |Select(xs, flags, want)|
    ensures exists i :: 0 <= i < |xs| && flags[i] == want && xs[i] == Select(xs, flags, want)[j]
  {
    var n := |xs| - 1;
    var init := Select(xs[..n], flags[..n], want);
    if j < |init| {
      SelectFrom(xs[..n], flags[..n], want, j);
      var i :| 0 <= i < n && flags[..n][i] == want && xs[..n][i] == init[j];
      assert flags[i] == want && xs[i] == Select(xs, flags, want)[j];
    } else {
      assert flags[n] == want && xs[n] == Select(xs, flags, want)[j];
    }
  }

  /** Every element whose flag is `want` is selected. */
  lemma {:induction false} SelectTo<A>(xs: seq<A>, flags: seq<bool>, want: bool, i: nat)
    requires |flags| == |xs| && i < |xs| && flags[i] == want
    ensures exists j :: 0 <= j < |Select(xs, flags, want)| && Select(xs, flags, want)[j] == xs[i]
  {
    var n := |xs| - 1;
    if i < n {
      SelectTo(xs[..n], flags[..n], want, i);
      var j :| 0 <= j < |Select(xs[..n], flags[..n], want)| && Select(xs[..n], flags[..n], want)[j] == xs[..n][i];
      assert Select(xs, flags, want)[j] == xs[i];
    } else {
      assert Select(xs, flags, want)[|Select(xs, flags, want)| - 1] == xs[i];
    }
  }

  /** Splitting by a flag loses nothing: the two halves together are as long as the whole. */
  lemma {:induction false} SelectPartition<A>(xs: seq<A>, flags: seq<bool>)
    requires |flags| == |xs|
    ensures |Select(xs, flags, true)| + |Select(xs, flags, false)| == |xs|
  {
    if xs != [] {
      SelectPartition(xs[..|xs| - 1], flags[..|flags| - 1]);
    }
  }

  function Reverse<A>(xs: seq<A>): (r: seq<A>)
    ensures |r| == |xs|
  {
    if xs == [] then [] else [xs[|xs| - 1]] + Reverse(xs[..|xs| - 1])
  }

  lemma {:induction false} ReverseAt<A>(xs: seq<A>, k: nat)
    requires k < |xs|
    ensures Reverse(xs)[k] == xs[|xs| - 1 - k]
  {
    if k > 0 {
      ReverseAt(xs[..|xs| - 1], k - 1);
    }
  }
}
