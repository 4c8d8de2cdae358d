/**
 * Node classification (HopSim.__getChipletNo and the labels
 * __setNodeType writes): each grid node gets a kind and a chiplet number
 * from its row, its column and the TSV coordinates of the current layout.
 */
module Classification {
  import opened Grid
  import opened Placement

  datatype NodeKind = Normal | Tsv | MemCtrl

  /** The label of one node: its kind and the chiplet it belongs to (-1 for none). */
  datatype NodeType = NodeType(kind: NodeKind, chipletNo: int)

  /**
   * Chiplet number of (x, y): -1 on the rows listed as belonging to no
   * chiplet, else two chiplets per 8-row band split at column 4 (square
   * floorplan) or one chiplet per 4 rows (the other floorplan).
   */
  function ChipletNo(isSquare: bool, numY: int, x: int, y: int): int
  {
    if isSquare then
      if y == 0 || y == numY then -1 else (y / 8) * 2 + x / 4
    else
      if y == 0 || y == 7 || y == 8 || y == numY then -1 else y / 4
  }

  /** Kind of (x, y): the edge-row test comes first, then membership in tsvIndexList. */
  function KindAt(numY: int, tsvIndexList: seq<Coord>, x: int, y: int): NodeKind
  {
    if y == 0 || y == numY then MemCtrl
    else if (x, y) in tsvIndexList then Tsv
    else Normal
  }

  function TypeAt(isSquare: bool, numY: int, tsvIndexList: seq<Coord>, c: Coord): NodeType
  {
    NodeType(KindAt(numY, tsvIndexList, c.0, c.1), ChipletNo(isSquare, numY, c.0, c.1))
  }

  /**
   * On the grid's rows the `y == numY` test never fires: a node is MEMCTRL
   * exactly on row 0, TSV exactly when it is off row 0 and listed in
   * tsvIndexList, and NORMAL otherwise.
   */
  lemma KindOnGrid(numY: int, tsvIndexList: seq<Coord>, x: int, y: int)
    requires 0 <= y < numY
    ensures KindAt(numY, tsvIndexList, x, y) == MemCtrl <==> y == 0
    ensures KindAt(numY, tsvIndexList, x, y) == Tsv <==> y != 0 && (x, y) in tsvIndexList
    ensures KindAt(numY, tsvIndexList, x, y) == Normal <==> y != 0 && (x, y) !in tsvIndexList
  {
  }

  /** On the grid's rows, the chiplet number is -1 exactly on row 0 (and rows 7, 8 off the square floorplan). */
  lemma ChipletOnGrid(isSquare: bool, numY: int, x: int, y: int)
    requires 0 <= x && 0 <= y < numY
    ensures ChipletNo(isSquare, numY, x, y) == -1 <==> (y == 0 || (!isSquare && (y == 7 || y == 8)))
  {
  }

  /** The labels of the node ids in `ids`. */
  function LabelsOf(isSquare: bool, numX: int, numY: int, tsvIndexList: seq<Coord>, ids: set<int>): map<int, NodeType>
    requires numX > 0
  {
    map id | id in ids :: TypeAt(isSquare, numY, tsvIndexList, To2D(numX, id))
  }

  /** The label of every node id of the numX x numY grid. */
  function Labels(isSquare: bool, numX: int, numY: int, tsvIndexList: seq<Coord>): map<int, NodeType>
    requires numX > 0
  {
    map id | 0 <= id < numX * numY :: TypeAt(isSquare, numY, tsvIndexList, To2D(numX, id))
  }

  /** Labelling one more id is a single map update. */
  lemma LabelsOfStep(isSquare: bool, numX: int, numY: int, tsvIndexList: seq<Coord>, m: map<int, NodeType>, ids: set<int>, id: int)
    requires numX > 0
    ensures m + LabelsOf(isSquare, numX, numY, tsvIndexList, ids + {id})
      == (m + LabelsOf(isSquare, numX, numY, tsvIndexList, ids))[id := TypeAt(isSquare, numY, tsvIndexList, To2D(numX, id))]
  {
  }

  /** The ids of the grid's MEMCTRL nodes. */
  ghost function MemCtrlNodes(numX: int, numY: int, tsvIndexList: seq<Coord>): set<int>
  {
    set x, y | 0 <= x < numX && 0 <= y < numY && KindAt(numY, tsvIndexList, x, y) == MemCtrl :: To1D(numX, (x, y))
  }

  /** The ids 0 .. n-1. */
  function Ids(n: nat): (r: set<int>)
    ensures forall i :: i in r <==> 0 <= i < n
  {
    if n == 0 then {} else Ids(n - 1) + {n - 1}
  }

  lemma {:induction false} IdsSize(n: nat)
    ensures |Ids(n)| == n
  {
    if n > 0 {
      IdsSize(n - 1);
    }
  }

  /**
   * There are exactly numX MEMCTRL nodes (row 0 only), although the
   * probabilities and the final division use numTotalMemCtrl = 2 * numX.
   */
  lemma MemCtrlCount(numX: nat, numY: int, tsvIndexList: seq<Coord>)
    requires numY > 0
    ensures |MemCtrlNodes(numX, numY, tsvIndexList)| == numX
  {
    var nodes := MemCtrlNodes(numX, numY, tsvIndexList);
    assert nodes == Ids(numX) by {
      forall i | 0 <= i < numX
        ensures i in nodes
      {
        assert To1D(numX, (i, 0)) == i;
      }
    }
    IdsSize(numX);
  }

  /**
   * On the 8 x 16 grid the floorplans are drawn for, a displacement inside
   * a chiplet's block lands, from that chiplet's offset, on a node off row
   * 0 that is classified with that chiplet's number.
   */
  lemma BlockSiteInOwnChiplet(isSquare: bool, c: int, d: int)
    requires 0 <= c < 4 && InChipletBlock(isSquare, d)
    ensures var site := To2D(8, ChipletOffsets(isSquare)[c] + d);
      && 1 <= site.1 < 16
      && ChipletNo(isSquare, 16, site.0, site.1) == c
  {
    if isSquare {
      SquareSiteInChiplet(c, d);
    } else {
      ListSiteInChiplet(c, d);
    }
  }

  /** Square floorplan: chiplet c's block starts at column 4 * (c % 2), row 1 + 7 * (c / 2). */
  lemma SquareSiteInChiplet(c: int, d: int)
    requires 0 <= c < 4 && InChipletBlock(true, d)
    ensures var site := To2D(8, ChipletOffsets(true)[c] + d);
      && 1 <= site.1 < 16
      && ChipletNo(true, 16, site.0, site.1) == c
  {
    var cx, cy := if c % 2 == 0 then 0 else 4, if c < 2 then 1 else 8;
    var dx, dy := d % 8, d / 8;
    assert ChipletOffsets(true)[c] == cy * 8 + cx;
    assert d == dy * 8 + dx;
    var site := To2D(8, ChipletOffsets(true)[c] + d);
    DivModUnique(8, site.1, site.0, cy + dy, cx + dx);
    assert (cy + dy) / 8 == c / 2;
    assert (cx + dx) / 4 == c % 2;
  }

  /** Other floorplan: chiplet c's block is the three full rows from row 1, 4, 9 or 12. */
  lemma ListSiteInChiplet(c: int, d: int)
    requires 0 <= c < 4 && InChipletBlock(false, d)
    ensures var site := To2D(8, ChipletOffsets(false)[c] + d);
      && 1 <= site.1 < 16
      && ChipletNo(false, 16, site.0, site.1) == c
  {
    var cy := ChipletOffsets(false)[c] / 8;
    assert ChipletOffsets(false)[c] == cy * 8;
    var dx, dy := d % 8, d / 8;
    assert d == dy * 8 + dx;
    var site := To2D(8, ChipletOffsets(false)[c] + d);
    DivModUnique(8, site.1, site.0, cy + dy, dx);
    assert (cy + dy) / 4 == c;
  }


  /** Every site of a fixed pattern on the 8 x 16 grid is a TSV node of its own chiplet. */
  lemma FixedSitesInOwnChiplet(isSquare: bool, pattern: string, c: int, k: int)
    requires pattern in {BORDER, BUNDLE, SHIELDED} && 0 <= c < 4
    requires 0 <= k < |Displacements(pattern, isSquare, [])|
    ensures var site := To2D(8, ChipletOffsets(isSquare)[c] + Displacements(pattern, isSquare, [])[k]);
      && 1 <= site.1 < 16
      && ChipletNo(isSquare, 16, site.0, site.1) == c
  {
    FixedTables(pattern, isSquare, []);
    BlockSiteInOwnChiplet(isSquare, c, Displacements(pattern, isSquare, [])[k]);
  }

  /**
   * `isolated` displacements are drawn from 0 .. 28, wider than a square
   * chiplet's 4 columns: displacement 4 from chiplet 0 lands on a node of
   * chiplet 1.
   */
  lemma IsolatedMayLeaveChiplet()
    ensures 4 <= MaxIsolatedDisp(true)
    ensures var site := To2D(8, ChipletOffsets(true)[0] + 4);
      ChipletNo(true, 16, site.0, site.1) == 1
  {
  }

  /** The ids of the grid nodes a columns-outer, rows-inner loop has visited before (x, y). */
  ghost function LabelledIds(numX: int, numY: int, x: int, y: int): set<int>
  {
    set a, b | 0 <= a < numX && 0 <= b < numY && (a < x || (a == x && b < y)) :: To1D(numX, (a, b))
  }

  lemma LabelledStep(numX: int, numY: int, x: int, y: int)
    requires 0 <= x < numX && 0 <= y < numY
    ensures LabelledIds(numX, numY, x, y + 1) == LabelledIds(numX, numY, x, y) + {To1D(numX, (x, y))}
  {
    var lhs := LabelledIds(numX, numY, x, y + 1);
    var rhs := LabelledIds(numX, numY, x, y) + {To1D(numX, (x, y))};
    forall id | id in lhs
      ensures id in rhs
    {
      var a, b :| 0 <= a < numX && 0 <= b < numY && (a < x || (a == x && b < y + 1)) && id == To1D(numX, (a, b));
      if !(a == x && b == y) {
        assert id in LabelledIds(numX, numY, x, y);
      }
    }
  }

  lemma LabelledNextColumn(numX: int, numY: int, x: int)
    ensures LabelledIds(numX, numY, x, numY) == LabelledIds(numX, numY, x + 1, 0)
  {
  }

  lemma LabelledAll(numX: int, numY: int)
    requires numX > 0
    ensures forall id :: id in LabelledIds(numX, numY, numX, 0) <==> 0 <= id < numX * numY
  {
    forall id
      ensures id in LabelledIds(numX, numY, numX, 0) <==> 0 <= id < numX * numY
    {
      InGridRange(numX, numY, id);
      if 0 <= id < numX * numY {
        var c := To2D(numX, id);
        assert To1D(numX, c) == id;
        assert id in LabelledIds(numX, numY, numX, 0);
      }
      if id in LabelledIds(numX, numY, numX, 0) {
        var a, b :| 0 <= a < numX && 0 <= b < numY && id == To1D(numX, (a, b));
        RoundTrip2D(numX, (a, b));
        InGridRange(numX, numY, id);
      }
    }
  }

  /** Once the loops have visited every grid node, the labels written are the labels of the grid. */
  lemma LabelsOfGrid(isSquare: bool, numX: int, numY: int, tsvIndexList: seq<Coord>)
    requires numX > 0
    ensures LabelsOf(isSquare, numX, numY, tsvIndexList, LabelledIds(numX, numY, numX, 0))
      == Labels(isSquare, numX, numY, tsvIndexList)
  {
    LabelledAll(numX, numY);
  }
}
