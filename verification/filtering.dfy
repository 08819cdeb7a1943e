/** Order-preserving filter-and-map over sequences, the shape of a Python loop
    that appends one item for some of the elements it visits. */
module Filtering {
  import opened Wrappers

  /** The items `f` yields, in the order of the elements that yield them. */
  function Collect<T, U>(f: T -> Option<U>, xs: seq<T>): (r: seq<U>)
    ensures |r| <= |xs|
  {
    if xs == [] then []
    else (if f(xs[0]).Some? then [f(xs[0]).value] else []) + Collect(f, xs[1..])
  }

  /** Every position moved one element further on. */
  function Shift(p: seq<nat>): (r: seq<nat>)
    ensures |r| == |p|
    ensures forall k :: 0 <= k < |p| ==> r[k] == p[k] + 1
  {
    if p == [] then [] else [p[0] + 1] + Shift(p[1..])
  }

  /** The positions of the elements `f` maps to a value. */
  function Positions<T, U>(f: T -> Option<U>, xs: seq<T>): seq<nat>
  {
    if xs == [] then []
    else (if f(xs[0]).Some? then [0] else []) + Shift(Positions(f, xs[1..]))
  }

  /** Item `k` of `Collect` is the value of the element at position `k`. */
  lemma {:induction false} PositionsSound<T, U>(f: T -> Option<U>, xs: seq<T>)
    ensures |Positions(f, xs)| == |Collect(f, xs)|
    ensures forall k :: 0 <= k < |Positions(f, xs)| ==>
              var p := Positions(f, xs)[k];
              p < |xs| && f(xs[p]).Some? && Collect(f, xs)[k] == f(xs[p]).value
  {
    if xs != [] {
      var rest := xs[1..];
      PositionsSound(f, rest);
      var pos, tailPos := Positions(f, xs), Positions(f, rest);
      var r, tail := Collect(f, xs), Collect(f, rest);
      var h := if f(xs[0]).Some? then 1 else 0;
      forall k | 0 <= k < |pos|
        ensures pos[k] < |xs| && f(xs[pos[k]]).Some? && r[k] == f(xs[pos[k]]).value
      {
        if k >= h {
          assert pos[k] == tailPos[k - h] + 1;
          assert xs[pos[k]] == rest[tailPos[k - h]];
          assert r[k] == tail[k - h];
        }
      }
    }
  }

  /** The positions are strictly increasing. */
  lemma {:induction false} PositionsIncreasing<T, U>(f: T -> Option<U>, xs: seq<T>)
    ensures forall k :: 0 <= k < |Positions(f, xs)| - 1 ==> Positions(f, xs)[k] < Positions(f, xs)[k + 1]
  {
    if xs != [] {
      var rest := xs[1..];
      PositionsIncreasing(f, rest);
      var pos, tailPos := Positions(f, xs), Positions(f, rest);
      var h := if f(xs[0]).Some? then 1 else 0;
      forall k | 0 <= k < |pos| - 1
        ensures pos[k] < pos[k + 1]
      {
        assert pos[k + 1] == tailPos[k + 1 - h] + 1;
        if k >= h {
          assert pos[k] == tailPos[k - h] + 1;
        }
      }
    }
  }

  /** Every element `f` maps to a value has its position listed. */
  lemma {:induction false} PositionsComplete<T, U>(f: T -> Option<U>, xs: seq<T>)
    ensures forall i :: 0 <= i < |xs| && f(xs[i]).Some? ==> i in Positions(f, xs)
  {
    if xs != [] {
      var rest := xs[1..];
      PositionsComplete(f, rest);
      var pos, tailPos := Positions(f, xs), Positions(f, rest);
      var h := if f(xs[0]).Some? then 1 else 0;
      forall i | 0 <= i < |xs| && f(xs[i]).Some?
        ensures i in pos
      {
        if i > 0 {
          assert rest[i - 1] == xs[i];
          var k :| 0 <= k < |tailPos| && tailPos[k] == i - 1;
          assert pos[h + k] == i;
        } else {
          assert pos[0] == 0;
        }
      }
    }
  }

  /** `Collect` keeps exactly the elements `f` maps to a value, in order:
      `pos` lists, strictly increasing, the position each item comes from, and
      lists every element that yields a value. */
  lemma CollectInOrder<T, U>(f: T -> Option<U>, xs: seq<T>) returns (pos: seq<nat>)
    ensures |pos| == |Collect(f, xs)|
    ensures forall k :: 0 <= k < |pos| ==>
              pos[k] < |xs| && f(xs[pos[k]]).Some? && Collect(f, xs)[k] == f(xs[pos[k]]).value
    ensures forall k :: 0 <= k < |pos| - 1 ==> pos[k] < pos[k + 1]
    ensures forall i :: 0 <= i < |xs| && f(xs[i]).Some? ==> i in pos
  {
    pos := Positions(f, xs);
    PositionsSound(f, xs);
    PositionsIncreasing(f, xs);
    PositionsComplete(f, xs);
  }
}
