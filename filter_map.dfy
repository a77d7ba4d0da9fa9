/** Order-preserving filter-map over a sequence: every element is either
    dropped or mapped to exactly one output element, and the outputs keep the
    order of the inputs they come from. The element step is a parameter, so
    the facts here hold whatever the step inspects. */
module FilterMaps {
  import opened Wrappers

  /** What one element contributes to the output: its image, or nothing. */
  function Keep<A, B>(x: A, f: A -> Option<B>): seq<B>
  {
    match f(x)
    case Some(y) => [y]
    case None => []
  }

  /** The images of the kept elements of `xs`, in order. Defined from the
      back, as a loop that appends to its output builds it. */
  function FilterMap<A, B>(xs: seq<A>, f: A -> Option<B>): (ys: seq<B>)
    ensures |ys| <= |xs|
    decreases |xs|
  {
    if xs == [] then []
    else FilterMap(xs[..|xs| - 1], f) + Keep(xs[|xs| - 1], f)
  }

  /** The positions of the kept elements of `xs`, in increasing order: each
      kept element once and nothing else. */
  function KeptIndices<A, B>(xs: seq<A>, f: A -> Option<B>): (ix: seq<nat>)
    ensures forall j :: 0 <= j < |ix| ==> ix[j] < |xs| && f(xs[ix[j]]).Some?
    ensures forall j, k :: 0 <= j < k < |ix| ==> ix[j] < ix[k]
    ensures forall i :: 0 <= i < |xs| && f(xs[i]).Some? ==> i in ix
    decreases |xs|
  {
    if xs == [] then []
    else
      var n := |xs| - 1;
      KeptIndices(xs[..n], f) + (if f(xs[n]).Some? then [n] else [])
  }

  /** The j-th output is the image of the j-th kept element, and there is one
      output per kept element. */
  lemma {:induction false} FilterMapOfKept<A, B>(xs: seq<A>, f: A -> Option<B>)
    ensures |FilterMap(xs, f)| == |KeptIndices(xs, f)|
    ensures forall j :: 0 <= j < |KeptIndices(xs, f)| ==>
              f(xs[KeptIndices(xs, f)[j]]) == Some(FilterMap(xs, f)[j])
    decreases |xs|
  {
    if xs != [] {
      var n := |xs| - 1;
      var front := xs[..n];
      FilterMapOfKept(front, f);
      var ixFront, ysFront := KeptIndices(front, f), FilterMap(front, f);
      var ix, ys := KeptIndices(xs, f), FilterMap(xs, f);
      assert ix == ixFront + (if f(xs[n]).Some? then [n] else []);
      assert ys == ysFront + Keep(xs[n], f);
      forall j | 0 <= j < |ix|
        ensures f(xs[ix[j]]) == Some(ys[j])
      {
        if j < |ixFront| {
          assert ix[j] == ixFront[j] && ys[j] == ysFront[j];
          assert xs[ixFront[j]] == front[ixFront[j]];
        }
      }
    }
  }

  /** Filter-map distributes over concatenation: no element's outcome depends
      on another element. */
  lemma {:induction false} FilterMapAppend<A, B>(a: seq<A>, b: seq<A>, f: A -> Option<B>)
    ensures FilterMap(a + b, f) == FilterMap(a, f) + FilterMap(b, f)
    decreases |b|
  {
    if b == [] {
      assert a + b == a;
    } else {
      var n := |b| - 1;
      var ab := a + b;
      assert ab[..|ab| - 1] == a + b[..n];
      assert ab[|ab| - 1] == b[n];
      calc {
        FilterMap(ab, f);
        FilterMap(a + b[..n], f) + Keep(b[n], f);
        { FilterMapAppend(a, b[..n], f); }
        FilterMap(a, f) + FilterMap(b[..n], f) + Keep(b[n], f);
        FilterMap(a, f) + FilterMap(b, f);
      }
    }
  }

  /** When every element is kept, the output maps the input position by
      position. */
  lemma {:induction false} FilterMapAllKept<A, B>(xs: seq<A>, f: A -> Option<B>)
    requires forall i :: 0 <= i < |xs| ==> f(xs[i]).Some?
    ensures |FilterMap(xs, f)| == |xs|
    ensures forall i :: 0 <= i < |xs| ==> Some(FilterMap(xs, f)[i]) == f(xs[i])
    decreases |xs|
  {
    if xs != [] {
      var n := |xs| - 1;
      var front := xs[..n];
      assert forall i :: 0 <= i < |front| ==> front[i] == xs[i];
      FilterMapAllKept(front, f);
      var ys := FilterMap(xs, f);
      assert ys == FilterMap(front, f) + [f(xs[n]).value];
      forall i | 0 <= i < |xs|
        ensures Some(ys[i]) == f(xs[i])
      {
        if i < n {
          assert ys[i] == FilterMap(front, f)[i];
        }
      }
    }
  }
}
