/** Sequence helpers shared by the modules. */
module Seqs {

  /** The elements of s that satisfy p, in order: a `where` clause, a list
      comprehension with a condition, a loop appending what passes a test. */
  function Filter<T>(s: seq<T>, p: T -> bool): (r: seq<T>)
    ensures |r| <= |s|
    ensures forall k :: 0 <= k < |r| ==> r[k] in s && p(r[k])
    ensures forall k :: 0 <= k < |s| && p(s[k]) ==> s[k] in r
    decreases |s|
  {
    if |s| == 0 then []
    else
      assert s == s[..|s| - 1] + [s[|s| - 1]];
      Filter(s[..|s| - 1], p) + (if p(s[|s| - 1]) then [s[|s| - 1]] else [])
  }

  /** The empty sequence is a unit of concatenation on both sides. */
  lemma AppendEmpty<T>(s: seq<T>)
    ensures s + [] == s && [] + s == s
  {
  }

  /** Three pieces of which at most one is non-empty concatenate to that one. */
  lemma OnlyOneOfThree<T>(x: seq<T>, y: seq<T>, z: seq<T>)
    ensures y == [] && z == [] ==> x + y + z == x
    ensures x == [] && z == [] ==> x + y + z == y
    ensures x == [] && y == [] ==> x + y + z == z
  {
    AppendEmpty(x);
    AppendEmpty(y);
    AppendEmpty(z);
  }

  /** Four pieces of which at most one is non-empty concatenate to that one. */
  lemma OnlyOneOfFour<T>(w: seq<T>, x: seq<T>, y: seq<T>, z: seq<T>)
    ensures x == [] && y == [] && z == [] ==> w + x + y + z == w
    ensures w == [] && y == [] && z == [] ==> w + x + y + z == x
    ensures w == [] && x == [] && z == [] ==> w + x + y + z == y
    ensures w == [] && x == [] && y == [] ==> w + x + y + z == z
  {
    AppendEmpty(w);
    AppendEmpty(x);
    AppendEmpty(y);
    AppendEmpty(z);
  }

  lemma FilterAppend<T>(s: seq<T>, x: T, p: T -> bool)
    ensures Filter(s + [x], p) == Filter(s, p) + (if p(x) then [x] else [])
  {
    assert (s + [x])[..|s|] == s;
  }

  lemma FilterEmpty<T>(s: seq<T>, p: T -> bool)
    requires forall k :: 0 <= k < |s| ==> !p(s[k])
    ensures Filter(s, p) == []
  {
  }

  /** Filtering seen from the front: the head is kept when it passes. */
  lemma {:induction false} FilterHead<T>(s: seq<T>, p: T -> bool)
    requires |s| > 0
    ensures Filter(s, p) == (if p(s[0]) then [s[0]] else []) + Filter(s[1..], p)
    decreases |s|
  {
    if |s| > 1 {
      var init, x := s[..|s| - 1], s[|s| - 1];
      FilterHead(init, p);
      assert init[0] == s[0];
      assert init[1..] + [x] == s[1..];
      FilterAppend(init[1..], x, p);
    } else {
      assert s[1..] == [];
    }
  }

  /** Dropping what fails p and then keeping what passes q, where q implies
      p, is keeping what passes q. */
  lemma {:induction false} FilterFilter<T>(s: seq<T>, p: T -> bool, q: T -> bool)
    requires forall x :: q(x) ==> p(x)
    ensures Filter(Filter(s, p), q) == Filter(s, q)
    decreases |s|
  {
    if |s| > 0 {
      var init, x := s[..|s| - 1], s[|s| - 1];
      FilterFilter(init, p, q);
      assert Filter(s, q) == Filter(init, q) + (if q(x) then [x] else []);
      if p(x) {
        assert Filter(s, p) == Filter(init, p) + [x];
        FilterAppend(Filter(init, p), x, q);
      } else {
        assert Filter(s, p) == Filter(init, p);
      }
    }
  }

  /** Two elements that both satisfy p are both kept. */
  lemma {:induction false} FilterTwo<T>(s: seq<T>, p: T -> bool, i: int, j: int)
    requires 0 <= i < j < |s| && p(s[i]) && p(s[j])
    ensures |Filter(s, p)| >= 2
    decreases |s|
  {
    var init := s[..|s| - 1];
    if j < |s| - 1 {
      FilterTwo(init, p, i, j);
    } else {
      assert s[i] in init;
      assert s[i] in Filter(init, p);
    }
  }

  /** How many of the values are true. */
  function CountTrue(bs: seq<bool>): (r: nat)
    ensures r <= |bs|
    decreases |bs|
  {
    if bs == [] then 0 else CountTrue(bs[..|bs| - 1]) + (if bs[|bs| - 1] then 1 else 0)
  }

  predicate OnlyTrueAt(bs: seq<bool>, i: int)
  {
    0 <= i < |bs| && bs[i] && forall j :: 0 <= j < |bs| && j != i ==> !bs[j]
  }

  /** One true value is exactly one position set and every other clear. */
  lemma {:induction false} CountOne(bs: seq<bool>)
    ensures CountTrue(bs) == 1 <==> exists i :: OnlyTrueAt(bs, i)
    ensures CountTrue(bs) == 0 <==> forall j :: 0 <= j < |bs| ==> !bs[j]
    decreases |bs|
  {
    if bs != [] {
      var init := bs[..|bs| - 1];
      var n := |bs| - 1;
      CountOne(init);
      if CountTrue(bs) == 1 {
        if bs[n] {
          assert OnlyTrueAt(bs, n);
        } else {
          var i :| OnlyTrueAt(init, i);
          assert OnlyTrueAt(bs, i);
        }
      }
      if i :| OnlyTrueAt(bs, i) {
        if i == n {
          assert forall j :: 0 <= j < |init| ==> !init[j];
        } else {
          assert OnlyTrueAt(init, i);
        }
      }
    }
  }

  /** The `true_count` loop over the action options of a command line. */
  method CountTruthy(flags: seq<bool>) returns (trueCount: nat)
    ensures trueCount == CountTrue(flags)
  {
    trueCount := 0;
    for k := 0 to |flags|
      invariant trueCount == CountTrue(flags[..k])
    {
      assert flags[..k + 1][..k] == flags[..k];
      if flags[k] {
        trueCount := trueCount + 1;
      }
    }
    assert flags[..|flags|] == flags;
  }
}
