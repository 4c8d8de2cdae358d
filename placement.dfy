/**
 * TSV placement tables and the pure pieces of HopSim.__place: which local
 * displacements each pattern gives a chiplet, where the four chiplets start,
 * how the `isolated` pattern draws its sites, and which grid coordinates and
 * how many TSVs a layout yields.
 */
module Placement {
  import opened Grid

  const BORDER: string := "border"
  const BUNDLE: string := "bundle"
  const SHIELDED: string := "shielded"
  const ISOLATED: string := "isolated"

  /** The four pattern names __place matches on; any other name falls to its `case _`. */
  predicate Recognised(pattern: string)
  {
    pattern == BORDER || pattern == BUNDLE || pattern == SHIELDED || pattern == ISOLATED
  }

  /** 1D id at which each of the four chiplets starts. */
  function ChipletOffsets(isSquare: bool): seq<int>
  {
    if isSquare then [8, 12, 64, 68] else [8, 32, 72, 96]
  }

  /** Largest displacement `isolated` may draw. */
  function MaxIsolatedDisp(isSquare: bool): int
  {
    if isSquare then 28 else 24
  }

  /** Number of distinct displacements `isolated` draws. */
  function IsolatedCount(isSquare: bool): nat
  {
    if isSquare then 7 else 6
  }

  /**
   * The displacement list a chiplet gets for `pattern`. `isolated` is the
   * list already drawn (or just drawn) for this grid shape; an unrecognised
   * name gives the empty list.
   */
  function Displacements(pattern: string, isSquare: bool, isolated: seq<int>): seq<int>
  {
    if pattern == BORDER then (if isSquare then SQUARE_BORDER else LIST_BORDER)
    else if pattern == BUNDLE then (if isSquare then SQUARE_BUNDLE else LIST_BUNDLE)
    else if pattern == SHIELDED then (if isSquare then SQUARE_SHIELDED else LIST_SHIELDED)
    else if pattern == ISOLATED then isolated
    else []
  }

  const SQUARE_BORDER: seq<int> := [0, 1, 2, 3, 8, 11, 16, 19, 24, 27, 32, 35, 40, 43, 48, 49, 50, 51]
  const LIST_BORDER: seq<int> := [0, 1, 2, 3, 4, 5, 6, 7, 8, 15, 16, 17, 18, 19, 20, 21, 22, 23]
  const SQUARE_BUNDLE: seq<int> := [9, 10, 17, 18, 25, 26, 33, 34, 41, 42]
  const LIST_BUNDLE: seq<int> := [9, 10, 11, 12, 13, 14]
  const SQUARE_SHIELDED: seq<int> := [9, 10, 25, 26, 41, 42]
  const LIST_SHIELDED: seq<int> := [9, 10, 13, 14]

  predicate Increasing(s: seq<int>)
  {
    forall i :: 0 < i < |s| ==> s[i - 1] < s[i]
  }

  predicate Distinct(s: seq<int>)
  {
    forall i, j :: 0 <= i < j < |s| ==> s[i] != s[j]
  }

  lemma IncreasingIsDistinct(s: seq<int>)
    requires Increasing(s)
    ensures Distinct(s)
  {
    forall i, j | 0 <= i < j < |s|
      ensures s[i] < s[j]
    {
      var k := i + 1;
      while k < j
        invariant i < k <= j && s[i] < s[k]
      {
        k := k + 1;
      }
    }
  }

  /**
   * Inside one chiplet's block: on the square floorplan a chiplet is 4
   * columns by 7 rows of an 8-wide grid, on the other 3 full rows of 8.
   */
  predicate InChipletBlock(isSquare: bool, d: int)
  {
    if isSquare then 0 <= d && d % 8 < 4 && d / 8 < 7 else 0 <= d < 24
  }

  /**
   * The fixed tables: their sizes, no displacement twice, and (for an
   * 8-column grid) every displacement inside the chiplet's own block.
   */
  lemma FixedTables(pattern: string, isSquare: bool, isolated: seq<int>)
    requires pattern in {BORDER, BUNDLE, SHIELDED}
    ensures var ds := Displacements(pattern, isSquare, isolated);
      && |ds| == (if pattern == BORDER then 18
                  else if pattern == BUNDLE then (if isSquare then 10 else 6)
                  else (if isSquare then 6 else 4))
      && Distinct(ds)
      && forall k :: 0 <= k < |ds| ==> InChipletBlock(isSquare, ds[k])
  {
    var ds := Displacements(pattern, isSquare, isolated);
    if pattern == BORDER {
      if isSquare {
        assert ds == SQUARE_BORDER;
        SquareBorderPlaced();
      } else {
        assert ds == LIST_BORDER;
        ListBorderPlaced();
      }
    } else if pattern == BUNDLE {
      if isSquare {
        assert ds == SQUARE_BUNDLE;
        PlacedSound(SQUARE_BUNDLE, true);
      } else {
        assert ds == LIST_BUNDLE;
        PlacedSound(LIST_BUNDLE, false);
      }
    } else {
      if isSquare {
        assert ds == SQUARE_SHIELDED;
        PlacedSound(SQUARE_SHIELDED, true);
      } else {
        assert ds == LIST_SHIELDED;
        PlacedSound(LIST_SHIELDED, false);
      }
    }
    TableFacts(ds, isSquare);
  }

  /** A table in increasing order whose every entry lies in the chiplet's block. */
  predicate WellPlaced(ds: seq<int>, isSquare: bool)
  {
    && Increasing(ds)
    && forall d :: d in ds ==> InChipletBlock(isSquare, d)
  }

  /** WellPlaced checked entry by entry, from index i on. */
  predicate PlacedFrom(ds: seq<int>, isSquare: bool, i: nat)
    decreases |ds| - i
  {
    i >= |ds| ||
      (InChipletBlock(isSquare, ds[i]) && (i == 0 || ds[i - 1] < ds[i]) && PlacedFrom(ds, isSquare, i + 1))
  }

  lemma {:induction false} PlacedFromSound(ds: seq<int>, isSquare: bool, i: nat)
    requires PlacedFrom(ds, isSquare, i)
    ensures forall k :: i <= k < |ds| ==> InChipletBlock(isSquare, ds[k]) && (k == 0 || ds[k - 1] < ds[k])
    decreases |ds| - i
  {
    if i < |ds| {
      PlacedFromSound(ds, isSquare, i + 1);
    }
  }

  lemma PlacedSound(ds: seq<int>, isSquare: bool)
    requires PlacedFrom(ds, isSquare, 0)
    ensures WellPlaced(ds, isSquare)
  {
    PlacedFromSound(ds, isSquare, 0);
  }

  lemma SquareBorderPlaced()
    ensures WellPlaced(SQUARE_BORDER, true)
  {
    assert PlacedFrom(SQUARE_BORDER, true, 12);
    assert PlacedFrom(SQUARE_BORDER, true, 6);
    PlacedSound(SQUARE_BORDER, true);
  }

  lemma ListBorderPlaced()
    ensures WellPlaced(LIST_BORDER, false)
  {
    assert PlacedFrom(LIST_BORDER, false, 12);
    assert PlacedFrom(LIST_BORDER, false, 6);
    PlacedSound(LIST_BORDER, false);
  }

  lemma TableFacts(ds: seq<int>, isSquare: bool)
    requires WellPlaced(ds, isSquare)
    ensures Distinct(ds)
    ensures forall k :: 0 <= k < |ds| ==> InChipletBlock(isSquare, ds[k])
  {
    IncreasingIsDistinct(ds);
  }

  /**
   * The values of `s` in order of first appearance: what the rejection loop
   * of the `isolated` case keeps from a stream of random draws.
   */
  function Dedup(s: seq<int>): (r: seq<int>)
    ensures Distinct(r)
    ensures forall v :: v in r <==> v in s
    ensures |r| <= |s|
  {
    if s == [] then []
    else
      var p := Dedup(s[..|s| - 1]);
      if s[|s| - 1] in p then p else p + [s[|s| - 1]]
  }

  /** One more draw is kept exactly when it is new. */
  lemma DedupSnoc(s: seq<int>, x: int)
    ensures Dedup(s + [x]) == if x in Dedup(s) then Dedup(s) else Dedup(s) + [x]
  {
    assert (s + [x])[..|s|] == s;
  }

  /** The same step stated on the prefixes of one sequence of draws. */
  lemma DedupStep(draws: seq<int>, i: nat)
    requires i < |draws|
    ensures Dedup(draws[..i + 1])
      == if draws[i] in Dedup(draws[..i]) then Dedup(draws[..i]) else Dedup(draws[..i]) + [draws[i]]
  {
    assert draws[..i + 1] == draws[..i] + [draws[i]];
    DedupSnoc(draws[..i], draws[i]);
  }

  /** Drawing more never changes what was kept from earlier draws. */
  lemma {:induction false} DedupPrefix(s: seq<int>, t: seq<int>)
    ensures Dedup(s) <= Dedup(s + t)
    decreases |t|
  {
    if t == [] {
      assert s + t == s;
    } else {
      var t' := t[..|t| - 1];
      DedupPrefix(s, t');
      assert (s + t)[..|s + t| - 1] == s + t';
    }
  }

  /** What the first i draws keep is the start of what all the draws keep. */
  lemma DedupTake(draws: seq<int>, i: nat)
    requires i <= |draws|
    ensures Dedup(draws[..i]) <= Dedup(draws)
    ensures Dedup(draws[..i]) == Dedup(draws)[..|Dedup(draws[..i])|]
  {
    var kept, rest := draws[..i], draws[i..];
    assert kept + rest == draws;
    DedupPrefix(kept, rest);
  }

  /** The random source behaves as `random.randint(0, max)`: draws stay in range and enough are distinct. */
  predicate DrawsSuffice(draws: seq<int>, isSquare: bool)
  {
    && (forall k :: 0 <= k < |draws| ==> 0 <= draws[k] <= MaxIsolatedDisp(isSquare))
    && IsolatedCount(isSquare) <= |Dedup(draws)|
  }

  /** The list `isolated` keeps from a stream of draws: its first `count` distinct values. */
  function IsolatedDraw(draws: seq<int>, isSquare: bool): seq<int>
  {
    var d := Dedup(draws);
    if IsolatedCount(isSquare) <= |d| then d[..IsolatedCount(isSquare)] else d
  }

  /**
   * The rejection-sampling loop of the `isolated` case (sim.py:104-108,
   * 118-122): draw until `count` distinct values are kept, ignoring repeats.
   * `draws` is the sequence of values random.randint returns.
   */
  method SampleDistinct(draws: seq<int>, count: nat) returns (tsvDispList: seq<int>)
    requires count <= |Dedup(draws)|
    ensures tsvDispList == Dedup(draws)[..count]
  {
    tsvDispList := [];
    var i := 0;
    while |tsvDispList| < count
      invariant 0 <= i <= |draws|
      invariant tsvDispList == Dedup(draws[..i])
      invariant |tsvDispList| <= count
      invariant i == |draws| ==> tsvDispList == Dedup(draws)
      invariant |tsvDispList| <= i
      decreases |draws| - i
    {
      var tsvDisp := draws[i];
      DedupStep(draws, i);
      if tsvDisp !in tsvDispList {
        tsvDispList := tsvDispList + [tsvDisp];
      }
      i := i + 1;
    }
    DedupTake(draws, i);
  }

  /**
   * What the memoised `isolated` list is: exactly 7 (square) or 6 pairwise
   * distinct displacements, each in 0 .. 28 (square) or 0 .. 24.
   */
  lemma IsolatedDrawShape(draws: seq<int>, isSquare: bool)
    requires DrawsSuffice(draws, isSquare)
    ensures var ds := IsolatedDraw(draws, isSquare);
      && |ds| == IsolatedCount(isSquare)
      && Distinct(ds)
      && forall k :: 0 <= k < |ds| ==> 0 <= ds[k] <= MaxIsolatedDisp(isSquare)
  {
    var d := Dedup(draws);
    var ds := IsolatedDraw(draws, isSquare);
    forall k | 0 <= k < |ds|
      ensures 0 <= ds[k] <= MaxIsolatedDisp(isSquare)
    {
      assert ds[k] in d;
      var j :| 0 <= j < |draws| && draws[j] == ds[k];
    }
  }

  /**
   * The displacement lists of the chiplets of a layout, in chiplet order:
   * an `isolated` chiplet gets the drawn list, an unrecognised one gets
   * nothing, and every other chiplet gets its fixed table whatever was drawn.
   */
  function ChipletLists(layout: seq<string>, isSquare: bool, isolated: seq<int>): (r: seq<seq<int>>)
    ensures |r| == |layout|
    ensures forall c :: 0 <= c < |layout| && layout[c] == ISOLATED ==> r[c] == isolated
    ensures forall c :: 0 <= c < |layout| && !Recognised(layout[c]) ==> r[c] == []
    ensures forall c :: 0 <= c < |layout| && layout[c] != ISOLATED ==> r[c] == Displacements(layout[c], isSquare, [])
  {
    seq(|layout|, c requires 0 <= c < |layout| => Displacements(layout[c], isSquare, isolated))
  }

  /** Without an `isolated` chiplet the lists do not depend on what was drawn. */
  lemma ChipletListsIgnoreIsolated(layout: seq<string>, isSquare: bool, drawn: seq<int>, other: seq<int>)
    requires ISOLATED !in layout
    ensures ChipletLists(layout, isSquare, drawn) == ChipletLists(layout, isSquare, other)
  {
    var a := ChipletLists(layout, isSquare, drawn);
    var b := ChipletLists(layout, isSquare, other);
    forall c | 0 <= c < |layout|
      ensures a[c] == b[c]
    {
      assert layout[c] != ISOLATED;
    }
  }

  /** Extending a layout prefix by one chiplet extends each per-prefix summary by that chiplet. */
  lemma PrefixStep(layout: seq<string>, isSquare: bool, isolated: seq<int>, n: nat)
    requires n < |layout|
    ensures ChipletLists(layout[..n + 1], isSquare, isolated)
      == ChipletLists(layout[..n], isSquare, isolated) + [Displacements(layout[n], isSquare, isolated)]
    ensures AllRecognised(layout[..n + 1]) <==> AllRecognised(layout[..n]) && Recognised(layout[n])
    ensures ISOLATED in layout[..n + 1] <==> ISOLATED in layout[..n] || layout[n] == ISOLATED
  {
    assert layout[..n + 1] == layout[..n] + [layout[n]];
  }

  /**
   * The coordinates of one chiplet's sites: each is an on-grid column whose
   * __get1DIndex is base + the displacement, in displacement order.
   */
  function Translate(numX: int, base: int, disps: seq<int>): (r: seq<Coord>)
    requires numX > 0
    ensures |r| == |disps|
    ensures forall k :: 0 <= k < |disps| ==> 0 <= r[k].0 < numX && To1D(numX, r[k]) == base + disps[k]
  {
    seq(|disps|, k requires 0 <= k < |disps| => To2D(numX, base + disps[k]))
  }

  /** The sites of the first c chiplets, chiplet by chiplet. */
  function SitesUpTo(numX: int, offsets: seq<int>, lists: seq<seq<int>>, c: nat): seq<Coord>
    requires numX > 0 && c <= |offsets| && c <= |lists|
  {
    if c == 0 then [] else SitesUpTo(numX, offsets, lists, c - 1) + Translate(numX, offsets[c - 1], lists[c - 1])
  }

  /**
   * The nested loop of sim.py:134-136: for each chiplet with an offset, append
   * the coordinates of offset + displacement, displacement by displacement.
   */
  method CollectSites(numX: int, offsets: seq<int>, lists: seq<seq<int>>) returns (sites: seq<Coord>)
    requires numX > 0 && |offsets| <= |lists|
    ensures sites == SitesUpTo(numX, offsets, lists, |offsets|)
  {
    sites := [];
    for c := 0 to |offsets|
      invariant sites == SitesUpTo(numX, offsets, lists, c)
    {
      var disps := lists[c];
      for k := 0 to |disps|
        invariant sites == SitesUpTo(numX, offsets, lists, c) + Translate(numX, offsets[c], disps[..k])
      {
        assert disps[..k + 1] == disps[..k] + [disps[k]];
        sites := sites + [To2D(numX, offsets[c] + disps[k])];
      }
      assert disps[..|disps|] == disps;
    }
  }

  predicate AllRecognised(layout: seq<string>)
  {
    forall c :: 0 <= c < |layout| ==> Recognised(layout[c])
  }

  /**
   * The TSV coordinates __place leaves in tsvIndexList for a 4-chiplet
   * layout: every chiplet's sites when all four names are recognised, and
   * nothing at all otherwise (the `case _` empties chipletOffsetList).
   */
  function Sites(numX: int, isSquare: bool, layout: seq<string>, isolated: seq<int>): seq<Coord>
    requires numX > 0 && |layout| == 4
  {
    if AllRecognised(layout) then
      SitesUpTo(numX, ChipletOffsets(isSquare), ChipletLists(layout, isSquare, isolated), 4)
    else []
  }

  /** What the chiplet loop of __place leaves behind determines the sites and their number. */
  lemma FromTable(numX: int, isSquare: bool, layout: seq<string>, isolated: seq<int>, offsets: seq<int>, lists: seq<seq<int>>)
    requires numX > 0 && |layout| == 4
    requires lists == ChipletLists(layout, isSquare, isolated)
    requires offsets == if AllRecognised(layout) then ChipletOffsets(isSquare) else []
    ensures |offsets| <= |lists|
    ensures SitesUpTo(numX, offsets, lists, |offsets|) == Sites(numX, isSquare, layout, isolated)
    ensures |lists[0]| + |lists[1]| + |lists[2]| + |lists[3]| == TotalTSV(isSquare, layout, isolated)
  {
  }

  /** numTotalTSV: the summed lengths of the four displacement lists. */
  function TotalTSV(isSquare: bool, layout: seq<string>, isolated: seq<int>): nat
    requires |layout| == 4
  {
    var lists := ChipletLists(layout, isSquare, isolated);
    |lists[0]| + |lists[1]| + |lists[2]| + |lists[3]|
  }

  lemma {:induction false} SitesUpToLength(numX: int, offsets: seq<int>, lists: seq<seq<int>>, c: nat)
    requires numX > 0 && c <= |offsets| && c <= |lists|
    ensures |SitesUpTo(numX, offsets, lists, c)| == SumLengths(lists, c)
  {
    if c > 0 {
      SitesUpToLength(numX, offsets, lists, c - 1);
    }
  }

  function SumLengths(lists: seq<seq<int>>, c: nat): nat
    requires c <= |lists|
  {
    if c == 0 then 0 else SumLengths(lists, c - 1) + |lists[c - 1]|
  }

  /**
   * numTotalTSV against tsvIndexList: with every name recognised there are
   * exactly numTotalTSV sites; one unrecognised name leaves no site at all
   * while numTotalTSV still counts the other chiplets' lists.
   */
  lemma SitesCount(numX: int, isSquare: bool, layout: seq<string>, isolated: seq<int>)
    requires numX > 0 && |layout| == 4
    ensures AllRecognised(layout) ==> |Sites(numX, isSquare, layout, isolated)| == TotalTSV(isSquare, layout, isolated)
    ensures !AllRecognised(layout) ==> Sites(numX, isSquare, layout, isolated) == []
  {
    var lists := ChipletLists(layout, isSquare, isolated);
    SitesUpToLength(numX, ChipletOffsets(isSquare), lists, 4);
    assert SumLengths(lists, 1) == |lists[0]|;
    assert SumLengths(lists, 2) == |lists[0]| + |lists[1]|;
    assert SumLengths(lists, 3) == SumLengths(lists, 2) + |lists[2]|;
    assert SumLengths(lists, 4) == SumLengths(lists, 3) + |lists[3]|;
  }

  /**
   * When __place divides by zero: with a non-empty `isolated` list, the
   * total is zero exactly when no chiplet's name is recognised.
   */
  lemma TotalTSVZero(isSquare: bool, layout: seq<string>, isolated: seq<int>)
    requires |layout| == 4 && isolated != []
    ensures TotalTSV(isSquare, layout, isolated) == 0 <==> forall c :: 0 <= c < 4 ==> !Recognised(layout[c])
  {
    var lists := ChipletLists(layout, isSquare, isolated);
    if TotalTSV(isSquare, layout, isolated) == 0 {
      forall c | 0 <= c < 4
        ensures !Recognised(layout[c])
      {
        assert lists[c] == [];
      }
    }
  }

  /** All-`border` on the square floorplan gives 4 x 18 = 72 TSVs. */
  lemma AllBorderSquare(isolated: seq<int>)
    ensures TotalTSV(true, [BORDER, BORDER, BORDER, BORDER], isolated) == 72
  {
  }
}
