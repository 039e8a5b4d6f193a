/**
 * A batch processed element by element in input order, where each element
 * is either turned into a value or skipped: the values, the positions they
 * came from, and the numbered variant in which every kept value is given the
 * next number in sequence.
 */
module Batches {
  import opened Wrappers

  /** The values `f` gives for the elements it accepts, in input order. */
  function FilterMap<A, B>(f: A -> Option<B>, xs: seq<A>): (r: seq<B>)
    ensures |r| <= |xs|
  {
    if xs == [] then []
    else
      var prev := FilterMap(f, xs[..|xs| - 1]);
      match f(xs[|xs| - 1])
      case Some(y) => prev + [y]
      case None => prev
  }

  /** The positions of the elements `f` accepts. */
  function Kept<A, B>(f: A -> Option<B>, xs: seq<A>): seq<nat>
  {
    if xs == [] then []
    else
      var prev := Kept(f, xs[..|xs| - 1]);
      if f(xs[|xs| - 1]).Some? then prev + [|xs| - 1] else prev
  }

  /** Processing one more element appends its value, if it has one. */
  lemma FilterMapSnoc<A, B>(f: A -> Option<B>, xs: seq<A>, i: nat)
    requires i < |xs|
    ensures FilterMap(f, xs[..i + 1]) == FilterMap(f, xs[..i]) + (if f(xs[i]).Some? then [f(xs[i]).value] else [])
  {
    assert xs[..i + 1][..i] == xs[..i];
    assert xs[..i + 1][i] == xs[i];
  }

  /**
   * Value k is the value of element `Kept[k]`; these positions increase
   * strictly; a position is kept exactly when `f` accepts its element.
   */
  lemma {:induction false} KeptSpec<A, B>(f: A -> Option<B>, xs: seq<A>)
    ensures |Kept(f, xs)| == |FilterMap(f, xs)|
    ensures forall k :: 0 <= k < |Kept(f, xs)| ==>
              Kept(f, xs)[k] < |xs| && f(xs[Kept(f, xs)[k]]) == Some(FilterMap(f, xs)[k])
    ensures forall k, l :: 0 <= k < l < |Kept(f, xs)| ==> Kept(f, xs)[k] < Kept(f, xs)[l]
    ensures forall j :: 0 <= j < |xs| ==> (f(xs[j]).Some? <==> j in Kept(f, xs))
  {
    if xs != [] {
      var n := |xs| - 1;
      var init := xs[..n];
      KeptSpec(f, init);
      assert forall j :: 0 <= j < n ==> init[j] == xs[j];
    }
  }

  /** When `f` accepts every element, value j is the value of element j. */
  lemma {:induction false} FilterMapComplete<A, B>(f: A -> Option<B>, xs: seq<A>)
    requires forall j :: 0 <= j < |xs| ==> f(xs[j]).Some?
    ensures |FilterMap(f, xs)| == |xs|
    ensures forall j :: 0 <= j < |xs| ==> FilterMap(f, xs)[j] == f(xs[j]).value
  {
    if xs != [] {
      var n := |xs| - 1;
      var init := xs[..n];
      assert forall j :: 0 <= j < n ==> init[j] == xs[j];
      FilterMapComplete(f, init);
    }
  }

  /** The values `f` gives for the elements it accepts, the k-th offered number `first + k`. */
  function Numbered<A, B>(f: (A, nat) -> Option<B>, xs: seq<A>, first: nat): (r: seq<B>)
    ensures |r| <= |xs|
  {
    if xs == [] then []
    else
      var prev := Numbered(f, xs[..|xs| - 1], first);
      match f(xs[|xs| - 1], first + |prev|)
      case Some(y) => prev + [y]
      case None => prev
  }

  /** Processing one more element offers it the next number and appends its value, if any. */
  lemma NumberedSnoc<A, B>(f: (A, nat) -> Option<B>, xs: seq<A>, first: nat, i: nat)
    requires i < |xs|
    ensures var prev := Numbered(f, xs[..i], first);
            Numbered(f, xs[..i + 1], first)
            == prev + (if f(xs[i], first + |prev|).Some? then [f(xs[i], first + |prev|).value] else [])
  {
    assert xs[..i + 1][..i] == xs[..i];
    assert xs[..i + 1][i] == xs[i];
  }

  /** Whether `f` accepts or refuses an element whatever number it is offered. */
  ghost predicate NumberBlind<A(!new), B>(f: (A, nat) -> Option<B>)
  {
    forall x, m, n :: f(x, m).Some? == f(x, n).Some?
  }

  /** The positions of the elements `f` accepts. */
  function NumberedKept<A, B>(f: (A, nat) -> Option<B>, xs: seq<A>): seq<nat>
  {
    if xs == [] then []
    else
      var prev := NumberedKept(f, xs[..|xs| - 1]);
      if f(xs[|xs| - 1], 0).Some? then prev + [|xs| - 1] else prev
  }

  /**
   * For a number-blind `f`: value k is what element `NumberedKept[k]` gives
   * for number `first + k`; these positions increase strictly; a position is
   * kept exactly when `f` accepts its element.
   */
  lemma {:induction false} NumberedSpec<A(!new), B>(f: (A, nat) -> Option<B>, xs: seq<A>, first: nat)
    requires NumberBlind(f)
    ensures |NumberedKept(f, xs)| == |Numbered(f, xs, first)|
    ensures forall k :: 0 <= k < |NumberedKept(f, xs)| ==>
              NumberedKept(f, xs)[k] < |xs| && f(xs[NumberedKept(f, xs)[k]], first + k) == Some(Numbered(f, xs, first)[k])
    ensures forall k, l :: 0 <= k < l < |NumberedKept(f, xs)| ==> NumberedKept(f, xs)[k] < NumberedKept(f, xs)[l]
    ensures forall j :: 0 <= j < |xs| ==> (f(xs[j], 0).Some? <==> j in NumberedKept(f, xs))
  {
    if xs != [] {
      var n := |xs| - 1;
      var init := xs[..n];
      NumberedSpec(f, init, first);
      assert forall j :: 0 <= j < n ==> init[j] == xs[j];
      assert f(xs[n], 0).Some? == f(xs[n], first + |Numbered(f, init, first)|).Some?;
    }
  }

  /** When a number-blind `f` accepts every element, value j is what element j gives for number `first + j`. */
  lemma {:induction false} NumberedComplete<A(!new), B>(f: (A, nat) -> Option<B>, xs: seq<A>, first: nat)
    requires NumberBlind(f)
    requires forall j :: 0 <= j < |xs| ==> f(xs[j], 0).Some?
    ensures |Numbered(f, xs, first)| == |xs|
    ensures forall j :: 0 <= j < |xs| ==> f(xs[j], first + j) == Some(Numbered(f, xs, first)[j])
  {
    if xs != [] {
      var n := |xs| - 1;
      var init := xs[..n];
      assert forall j :: 0 <= j < n ==> init[j] == xs[j];
      NumberedComplete(f, init, first);
      assert f(xs[n], 0).Some? == f(xs[n], first + n).Some?;
    }
  }
}
