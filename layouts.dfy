/**
 * The layouts the sweep visits (HopSim.__getPossibleTSVLayout): every
 * 4-tuple of pattern names, chiplet 1's name varying slowest.
 */
module Layouts {
  /**
   * The layouts that extend `pre` by d more names from `names`, in the
   * order of d nested loops over `names`.
   */
  function Block(names: seq<string>, pre: seq<string>, d: nat): seq<seq<string>>
    decreases d, |names| + 1
  {
    if d == 0 then [pre] else Row(names, pre, d, |names|)
  }

  /** The part of Block(names, pre, d) whose next name is one of names[..j]. */
  function Row(names: seq<string>, pre: seq<string>, d: nat, j: nat): seq<seq<string>>
    requires d > 0 && j <= |names|
    decreases d, j
  {
    if j == 0 then [] else Row(names, pre, d, j - 1) + Block(names, pre + [names[j - 1]], d - 1)
  }

  /** One more turn of the loop at depth d appends one more block. */
  lemma RowSnoc(names: seq<string>, pre: seq<string>, d: nat, j: nat)
    requires d > 0 && j < |names|
    ensures Row(names, pre, d, j + 1) == Row(names, pre, d, j) + Block(names, pre + [names[j]], d - 1)
  {
  }

  /** A finished loop at depth d is the whole block. */
  lemma RowDone(names: seq<string>, pre: seq<string>, d: nat)
    requires d > 0
    ensures Block(names, pre, d) == Row(names, pre, d, |names|)
  {
  }

  lemma Leaf(names: seq<string>, pre: seq<string>)
    ensures Block(names, pre, 0) == [pre]
  {
  }

  /**
   * The two innermost loops of __getPossibleTSVLayout: append every
   * extension of the two names chosen so far by a third and a fourth name.
   */
  method AppendTail(names: seq<string>, pre2: seq<string>, acc: seq<seq<string>>) returns (r: seq<seq<string>>)
    ensures r == acc + Block(names, pre2, 2)
  {
    r := acc;
    for i3 := 0 to |names|
      invariant r == acc + Row(names, pre2, 2, i3)
    {
      var pre3 := pre2 + [names[i3]];
      ghost var done3 := r;
      for i4 := 0 to |names|
        invariant r == done3 + Row(names, pre3, 1, i4)
      {
        var tsvLayout := pre3 + [names[i4]];
        r := r + [tsvLayout];
        RowSnoc(names, pre3, 1, i4);
        Leaf(names, tsvLayout);
      }
      RowDone(names, pre3, 1);
      RowSnoc(names, pre2, 2, i3);
    }
    RowDone(names, pre2, 2);
  }

  /** The list __getPossibleTSVLayout returns. */
  function AllLayouts(names: seq<string>): seq<seq<string>>
  {
    Block(names, [], 4)
  }

  function Pow(b: nat, e: nat): nat
  {
    if e == 0 then 1 else b * Pow(b, e - 1)
  }

  lemma {:induction false} BlockSize(names: seq<string>, pre: seq<string>, d: nat)
    ensures |Block(names, pre, d)| == Pow(|names|, d)
    decreases d, |names| + 1
  {
    if d > 0 {
      RowSize(names, pre, d, |names|);
    }
  }

  lemma {:induction false} RowSize(names: seq<string>, pre: seq<string>, d: nat, j: nat)
    requires d > 0 && j <= |names|
    ensures |Row(names, pre, d, j)| == j * Pow(|names|, d - 1)
    decreases d, j
  {
    if j > 0 {
      var p := Pow(|names|, d - 1);
      RowSize(names, pre, d, j - 1);
      BlockSize(names, pre + [names[j - 1]], d - 1);
      assert |Row(names, pre, d, j)| == (j - 1) * p + p;
      assert (j - 1) * p + p == j * p;
    }
  }

  /** A layout is `pre` followed by d names, each taken from `names`. */
  predicate Extends(names: seq<string>, pre: seq<string>, d: nat, l: seq<string>)
  {
    && |l| == |pre| + d
    && l[..|pre|] == pre
    && forall k :: |pre| <= k < |l| ==> l[k] in names
  }

  lemma {:induction false} BlockMembers(names: seq<string>, pre: seq<string>, d: nat, l: seq<string>)
    ensures l in Block(names, pre, d) <==> Extends(names, pre, d, l)
    decreases d, |names| + 1
  {
    if d == 0 {
      if Extends(names, pre, d, l) {
        assert l == l[..|pre|];
      }
    } else {
      RowMembers(names, pre, d, |names|, l);
      assert names[..|names|] == names;
      if Extends(names, pre, d, l) {
        var j :| 0 <= j < |names| && names[j] == l[|pre|];
        assert l[..|pre| + 1] == pre + [names[j]];
        assert Extends(names, pre + [names[j]], d - 1, l);
      }
    }
  }

  lemma {:induction false} RowMembers(names: seq<string>, pre: seq<string>, d: nat, j: nat, l: seq<string>)
    requires d > 0 && j <= |names|
    ensures l in Row(names, pre, d, j) <==> Extends(names, pre, d, l) && l[|pre|] in names[..j]
    decreases d, j
  {
    if j > 0 {
      RowMembers(names, pre, d, j - 1, l);
      var pre' := pre + [names[j - 1]];
      BlockMembers(names, pre', d - 1, l);
      assert names[..j] == names[..j - 1] + [names[j - 1]];
      if Extends(names, pre', d - 1, l) {
        assert l[..|pre|] == l[..|pre'|][..|pre|];
      }
      if Extends(names, pre, d, l) && l[|pre|] == names[j - 1] {
        assert l[..|pre'|] == l[..|pre|] + [l[|pre|]];
      }
    }
  }

  /** The sweep visits |names|^4 layouts. */
  lemma AllLayoutsCount(names: seq<string>)
    ensures |AllLayouts(names)| == |names| * |names| * |names| * |names|
  {
    BlockSize(names, [], 4);
    var n := |names|;
    assert Pow(n, 2) == n * n by {
      assert Pow(n, 1) == n * Pow(n, 0);
    }
    assert Pow(n, 4) == n * n * n * n by {
      assert Pow(n, 3) == n * Pow(n, 2);
      assert Pow(n, 4) == n * Pow(n, 3);
    }
  }

  /** The sweep visits exactly the 4-tuples of configured names. */
  lemma AllLayoutsMembers(names: seq<string>, l: seq<string>)
    ensures l in AllLayouts(names) <==> |l| == 4 && forall k :: 0 <= k < 4 ==> l[k] in names
  {
    BlockMembers(names, [], 4, l);
  }
}
