/** Sequences of sequences laid end to end (Python's `extend` loops, JavaScript's `flat()`). */
module Sequences {

  /** The sequences of `xss` laid end to end, in order. */
  function Concat<T>(xss: seq<seq<T>>): (r: seq<T>)
    decreases |xss|
  {
    if |xss| == 0 then [] else Concat(xss[..|xss| - 1]) + xss[|xss| - 1]
  }

  /** Appending one sequence appends its elements. */
  lemma ConcatAppend<T>(xss: seq<seq<T>>, xs: seq<T>)
    ensures Concat(xss + [xs]) == Concat(xss) + xs
  {
    assert (xss + [xs])[..|xss|] == xss;
  }

  /** Appending an element to the last sequence appends it to the whole. */
  lemma ConcatExtend<T>(front: seq<seq<T>>, last: seq<T>, x: T)
    ensures Concat(front + [last + [x]]) == Concat(front + [last]) + [x]
  {
    ConcatAppend(front, last + [x]);
    ConcatAppend(front, last);
  }

  /** Concatenation distributes over `+`. */
  lemma {:induction false} ConcatConcat<T>(xss: seq<seq<T>>, yss: seq<seq<T>>)
    ensures Concat(xss + yss) == Concat(xss) + Concat(yss)
    decreases |yss|
  {
    if |yss| == 0 {
      assert xss + yss == xss;
    } else {
      var init := yss[..|yss| - 1];
      var last := yss[|yss| - 1];
      assert xss + yss == (xss + init) + [last];
      assert yss == init + [last];
      ConcatAppend(xss + init, last);
      ConcatAppend(init, last);
      ConcatConcat(xss, init);
    }
  }

  /** `xs.map(f)`. */
  function Map<A, B>(f: A -> B, xs: seq<A>): (ys: seq<B>)
    ensures |ys| == |xs| && forall i :: 0 <= i < |xs| ==> ys[i] == f(xs[i])
  {
    seq(|xs|, i requires 0 <= i < |xs| => f(xs[i]))
  }

  /** Regrouping of a header `b + c` and a body `d + e + f` spliced between `a` and `g`. */
  lemma SpliceRegroup<T>(a: seq<T>, b: seq<T>, c: seq<T>, d: seq<T>, e: seq<T>, f: seq<T>, g: seq<T>)
    ensures a + (b + c) + (d + e + f) + g == a + b + c + d + e + f + g
  {
    assert a + (b + c) == a + b + c;
    assert a + b + c + (d + e + f) == a + b + c + d + e + f;
  }

  /** Regrouping a chain of `+` from the right to the left. */
  lemma AppendRegroup<T>(a: seq<T>, b: seq<T>, c: seq<T>, d: seq<T>, e: seq<T>)
    ensures a + (b + ((c + d) + e)) == a + b + c + d + e
  {
    assert (c + d) + e == c + (d + e);
    assert b + (c + (d + e)) == b + c + d + e;
  }

  /** Mapping distributes over `+`. */
  lemma MapAppend<A, B>(f: A -> B, xs: seq<A>, ys: seq<A>)
    ensures Map(f, xs + ys) == Map(f, xs) + Map(f, ys)
  {
  }

  /** Flattening a mapped sequence with a first element puts that element's image first. */
  lemma ConcatMapCons<A, B>(f: A -> seq<B>, x: A, xs: seq<A>)
    ensures Concat(Map(f, [x] + xs)) == f(x) + Concat(Map(f, xs))
  {
    MapAppend(f, [x], xs);
    assert Map(f, [x]) == [] + [f(x)];
    ConcatConcat(Map(f, [x]), Map(f, xs));
    ConcatAppend([], f(x));
  }

  /** Flattening the image of one element gives that image. */
  lemma ConcatMapSingle<A, B>(f: A -> seq<B>, x: A)
    ensures Concat(Map(f, [x])) == f(x)
  {
    assert Map(f, [x]) == [] + [f(x)];
    ConcatAppend([], f(x));
  }

  /** An element is in the flattened image exactly when it is in the image of some element. */
  lemma {:induction false} ConcatMapMembers<A, B>(f: A -> seq<B>, xs: seq<A>, y: B)
    ensures y in Concat(Map(f, xs)) <==> exists j :: 0 <= j < |xs| && y in f(xs[j])
    decreases |xs|
  {
    if |xs| > 0 {
      var rest := xs[1..];
      assert xs == [xs[0]] + rest;
      ConcatMapCons(f, xs[0], rest);
      ConcatMapMembers(f, rest, y);
      if y in Concat(Map(f, rest)) {
        var j :| 0 <= j < |rest| && y in f(rest[j]);
        assert xs[j + 1] == rest[j];
      }
      if exists j :: 0 <= j < |xs| && y in f(xs[j]) {
        var j :| 0 <= j < |xs| && y in f(xs[j]);
        if j > 0 {
          assert rest[j - 1] == xs[j];
        }
      }
    }
  }

  /** An element that maps to nothing can be dropped before flattening. */
  lemma ConcatMapSkip<A, B>(f: A -> seq<B>, xs: seq<A>, x: A, ys: seq<A>)
    requires f(x) == []
    ensures Concat(Map(f, xs + [x] + ys)) == Concat(Map(f, xs + ys))
  {
    MapAppend(f, xs + [x], ys);
    MapAppend(f, xs, [x]);
    MapAppend(f, xs, ys);
    ConcatConcat(Map(f, xs + [x]), Map(f, ys));
    ConcatAppend(Map(f, xs), []);
    assert Map(f, [x]) == [[]];
    ConcatConcat(Map(f, xs), Map(f, ys));
  }
}
