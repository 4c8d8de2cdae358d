/**
 * The edge rules of HopSim's topology builders. Every builder loop visits
 * the grid in a fixed order and, for each source node, links it both ways
 * to a small set of destination nodes; a LinkRule names one such loop.
 * The functions here say which destinations each rule picks and which
 * arcs a loop has produced once it has visited a prefix of its sources;
 * the lemmas say what the resulting edge sets are.
 */
module Links {
  import opened Grid

  /** A directed pair of node ids; the graph keeps both directions of every edge. */
  type Arc = (int, int)

  datatype LinkRule =
    | Down          // mesh vertical links: (x, y) to (x, y + 1)
    | Right         // mesh and dbutterfly horizontal links: (x, y) to (x + 1, y)
    | Shuffle       // dbutterfly and bdonut vertical links: row shuffle into column x + 1
    | FoldedRow     // ftorus and bdonut horizontal links: skip-2 with fold-back
    | FoldedColumn  // ftorus vertical links: skip-2 with fold-back

  /**
   * Size of the aligned block of rows a shuffle link from column x stays in:
   * 2, 4, 8 or 16 for the column bands {0,6}, {1,5}, {2,4}, {3}; 0 means
   * the column gets no shuffle link.
   */
  function ShuffleSpan(x: int): int
  {
    if x == 0 || x == 6 then 2
    else if x == 1 || x == 5 then 4
    else if x == 2 || x == 4 then 8
    else if x == 3 then 16
    else 0
  }

  /**
   * Destination row of the shuffle link from (x, y): the four formulas of
   * the builders, (y // k) * k + (y + k / 2) % k for k = 2, 4, 8, 16.
   */
  function ShuffleRow(x: int, y: int): int
    requires ShuffleSpan(x) > 0
  {
    var k := ShuffleSpan(x);
    (y / k) * k + (y + k / 2) % k
  }

  /**
   * The shuffle flips one bit of the row: with span k it moves y by k / 2
   * (1, 2, 4 or 8) inside y's aligned block of k rows, so applying it twice
   * gives y back.
   */
  lemma ShuffleFlipsBit(x: int, y: int)
    requires ShuffleSpan(x) > 0
    ensures var k := ShuffleSpan(x);
      && ShuffleRow(x, y) == (if y % k < k / 2 then y + k / 2 else y - k / 2)
      && ShuffleRow(x, y) / k == y / k
      && ShuffleRow(x, ShuffleRow(x, y)) == y
  {
    FlipInBlock(y, ShuffleSpan(x));
  }

  /** (y / k) * k + (y + k / 2) % k flips the k / 2 bit of y, for an even block size k. */
  lemma {:induction false} FlipInBlock(y: int, k: int)
    requires k > 0 && k % 2 == 0
    ensures var z := (y / k) * k + (y + k / 2) % k;
      && z == (if y % k < k / 2 then y + k / 2 else y - k / 2)
      && z / k == y / k
      && (z / k) * k + (z + k / 2) % k == y
  {
    var h := k / 2;
    var q, r := y / k, y % k;
    assert k == h + h;
    assert (q + 1) * k == q * k + k;
    var z := q * k + (y + h) % k;
    if r < h {
      DivModUnique(k, (y + h) / k, (y + h) % k, q, r + h);
      assert z == y + h;
      DivModUnique(k, z / k, z % k, q, r + h);
      DivModUnique(k, (z + h) / k, (z + h) % k, q + 1, r);
    } else {
      DivModUnique(k, (y + h) / k, (y + h) % k, q + 1, r - h);
      assert z == y - h;
      DivModUnique(k, z / k, z % k, q, r - h);
      DivModUnique(k, (z + h) / k, (z + h) % k, q, r);
    }
  }

  /** On a grid whose height is a multiple of 16 every shuffle destination is a row of the grid. */
  lemma ShuffleInRange(x: int, y: int, numY: int)
    requires ShuffleSpan(x) > 0 && numY % 16 == 0 && 0 <= y < numY
    ensures 0 <= ShuffleRow(x, y) < numY
  {
    var k := ShuffleSpan(x);
    FlipInBlock(y, k);
    SpanDividesSixteen(x, numY);
    BlockEndInRange(y, k, numY);
  }

  /** Multiplying by a positive number keeps order. */
  lemma {:induction false} MulMonotone(a: int, b: int, k: int)
    requires a <= b && k > 0
    ensures a * k <= b * k
    decreases b - a
  {
    if a < b {
      MulMonotone(a + 1, b, k);
      assert (a + 1) * k == a * k + k;
    }
  }

  lemma SpanDividesSixteen(x: int, numY: int)
    requires ShuffleSpan(x) > 0 && numY % 16 == 0
    ensures numY % ShuffleSpan(x) == 0
  {
    var m := numY / 16;
    assert numY == 16 * m;
  }

  /** The aligned block of k rows holding y ends inside any height that k divides. */
  lemma BlockEndInRange(y: int, k: int, numY: int)
    requires k > 0 && numY % k == 0 && 0 <= y < numY
    ensures 0 <= (y / k) * k && (y / k) * k + k <= numY
  {
    var q, p := y / k, numY / k;
    assert numY == p * k;
    assert q * k <= y;
    if q >= p {
      MulMonotone(p, q, k);
      assert false;
    }
    MulMonotone(0, q, k);
    MulMonotone(q + 1, p, k);
    assert (q + 1) * k == q * k + k;
  }

  /**
   * Skip-2-with-fold destinations of index i on an axis of n nodes: i + 2,
   * and also 1 for i = 0, except that n - 2 links to n - 1 instead;
   * destinations at or past n are dropped.
   */
  function FoldTargets(n: int, i: int): set<int>
  {
    var candidates := if i == n - 2 then {n - 1} else if i == 0 then {2, 1} else {i + 2};
    set t | t in candidates && t < n
  }

  /** Folded links stay on the axis and join indices 1 or 2 apart. */
  lemma FoldTargetsBounds(n: int, i: int, t: int)
    requires 0 <= i && t in FoldTargets(n, i)
    ensures i < t < n && t - i <= 2
  {
  }

  /** Two indices of an axis joined by a folded link, in either direction. */
  predicate FoldLinked(n: int, a: int, b: int)
  {
    b in FoldTargets(n, a) || a in FoldTargets(n, b)
  }

  /**
   * Place of index i on the ring the folded links form: 0, then the odd
   * indices upwards, then the even indices downwards.
   */
  function RingPos(n: int, i: int): int
  {
    if i == 0 then 0 else if i % 2 == 1 then (i + 1) / 2 else n - i / 2
  }

  /** Neighbouring places on a cycle of n places. */
  predicate CycleNext(n: int, p: int, q: int)
  {
    p == q + 1 || q == p + 1 || (p == 0 && q == n - 1) || (q == 0 && p == n - 1)
  }

  /** RingPos numbers the n indices of an axis 0 .. n - 1 without repeats. */
  lemma RingPosBijective(n: int, a: int, b: int)
    requires n >= 3 && 0 <= a < n && 0 <= b < n
    ensures 0 <= RingPos(n, a) < n
    ensures RingPos(n, a) == RingPos(n, b) ==> a == b
  {
  }

  /**
   * For n >= 3 the folded links of an axis form a single ring through all n
   * indices: two indices are linked exactly when their ring places are
   * neighbours, so every index has exactly two neighbours.
   */
  lemma FoldRing(n: int, a: int, b: int)
    requires n >= 3 && 0 <= a < n && 0 <= b < n
    ensures FoldLinked(n, a, b) <==> CycleNext(n, RingPos(n, a), RingPos(n, b))
  {
  }

  /** Destinations the rule links the source (x, y) to, after the builder's range checks. */
  function Targets(rule: LinkRule, numX: int, numY: int, x: int, y: int): set<Coord>
  {
    match rule
    case Down => if y + 1 < numY then {(x, y + 1)} else {}
    case Right => if x + 1 < numX then {(x + 1, y)} else {}
    case Shuffle => if ShuffleSpan(x) > 0 then {(x + 1, ShuffleRow(x, y))} else {}
    case FoldedRow => set t | t in FoldTargets(numX, x) :: (t, y)
    case FoldedColumn => set t | t in FoldTargets(numY, y) :: (x, t)
  }

  /** Length of the outer `product` range of the rule's loop. */
  function OuterLen(rule: LinkRule, numX: int, numY: int): int
  {
    match rule
    case Down => numX
    case Shuffle => numX - 1
    case _ => numY
  }

  /** Length of the inner `product` range of the rule's loop. */
  function InnerLen(rule: LinkRule, numX: int, numY: int): int
  {
    match rule
    case Down => numY
    case Shuffle => numY
    case _ => numX
  }

  /** The source node at outer position a, inner position b: columns outermost for Down and Shuffle, rows otherwise. */
  function Source(rule: LinkRule, a: int, b: int): Coord
  {
    match rule
    case Down => (a, b)
    case Shuffle => (a, b)
    case _ => (b, a)
  }

  /** Arcs from one source to each of its destinations. */
  ghost function FanOut(numX: int, src: Coord, dsts: set<Coord>): set<Arc>
  {
    set t | t in dsts :: (To1D(numX, src), To1D(numX, t))
  }

  /** Arcs produced by the rule's loop before it reaches outer position i, inner position j. */
  ghost function Arcs(rule: LinkRule, numX: int, numY: int, i: int, j: int): set<Arc>
  {
    set a, b, t |
      && 0 <= a < OuterLen(rule, numX, numY)
      && 0 <= b < InnerLen(rule, numX, numY)
      && (a < i || (a == i && b < j))
      && t in Targets(rule, numX, numY, Source(rule, a, b).0, Source(rule, a, b).1)
      :: (To1D(numX, Source(rule, a, b)), To1D(numX, t))
  }

  /** An arc set together with every arc reversed. */
  ghost function Sym(arcs: set<Arc>): set<Arc>
  {
    arcs + set p | p in arcs :: (p.1, p.0)
  }

  /** The node ids an arc set touches. */
  ghost function Ends(arcs: set<Arc>): set<int>
  {
    (set p | p in arcs :: p.0) + (set p | p in arcs :: p.1)
  }

  /** Linking the arcs of F after those of A leaves the graph linked by A + F. */
  lemma LinkMore(edges0: set<Arc>, nodes0: set<int>, a: set<Arc>, f: set<Arc>)
    ensures (edges0 + Sym(a)) + Sym(f) == edges0 + Sym(a + f)
    ensures (nodes0 + Ends(Sym(a))) + Ends(Sym(f)) == nodes0 + Ends(Sym(a + f))
  {
    SymUnion(a, f);
    SymUnion(Sym(a), Sym(f));
  }

  lemma FanOutAdd(numX: int, src: Coord, dsts: set<Coord>, t: Coord)
    ensures FanOut(numX, src, dsts + {t}) == FanOut(numX, src, dsts) + {(To1D(numX, src), To1D(numX, t))}
  {
  }

  lemma SymUnion(e: set<Arc>, f: set<Arc>)
    ensures Sym(e + f) == Sym(e) + Sym(f)
    ensures Ends(e + f) == Ends(e) + Ends(f)
  {
  }

  lemma ArcsStart(rule: LinkRule, numX: int, numY: int)
    ensures Arcs(rule, numX, numY, 0, 0) == {}
  {
  }

  /** Arcs produced on outer position i before inner position j. */
  ghost function LineArcs(rule: LinkRule, numX: int, numY: int, i: int, j: int): set<Arc>
  {
    set b, t |
      && 0 <= b < InnerLen(rule, numX, numY)
      && b < j
      && t in Targets(rule, numX, numY, Source(rule, i, b).0, Source(rule, i, b).1)
      :: (To1D(numX, Source(rule, i, b)), To1D(numX, t))
  }

  lemma LineStart(rule: LinkRule, numX: int, numY: int, i: int)
    ensures LineArcs(rule, numX, numY, i, 0) == {}
  {
  }

  /** Visiting one more source adds exactly that source's fan-out. */
  lemma LineStep(rule: LinkRule, numX: int, numY: int, i: int, j: int)
    requires 0 <= j < InnerLen(rule, numX, numY)
    ensures var s := Source(rule, i, j);
      LineArcs(rule, numX, numY, i, j + 1)
      == LineArcs(rule, numX, numY, i, j) + FanOut(numX, s, Targets(rule, numX, numY, s.0, s.1))
  {
    var s := Source(rule, i, j);
    var lhs := LineArcs(rule, numX, numY, i, j + 1);
    var rhs := LineArcs(rule, numX, numY, i, j) + FanOut(numX, s, Targets(rule, numX, numY, s.0, s.1));
    forall p | p in lhs
      ensures p in rhs
    {
      var b, t :|
        && 0 <= b < InnerLen(rule, numX, numY)
        && b < j + 1
        && t in Targets(rule, numX, numY, Source(rule, i, b).0, Source(rule, i, b).1)
        && p == (To1D(numX, Source(rule, i, b)), To1D(numX, t));
      if b == j {
        assert p in FanOut(numX, s, Targets(rule, numX, numY, s.0, s.1));
      } else {
        assert p in LineArcs(rule, numX, numY, i, j);
      }
    }
    forall p | p in rhs
      ensures p in lhs
    {
      if p !in LineArcs(rule, numX, numY, i, j) {
        var t :| t in Targets(rule, numX, numY, s.0, s.1) && p == (To1D(numX, s), To1D(numX, t));
        assert p in lhs;
      }
    }
  }

  /** Finishing outer position i adds that whole line's arcs. */
  lemma ArcsNextLine(rule: LinkRule, numX: int, numY: int, i: int)
    requires 0 <= i < OuterLen(rule, numX, numY)
    ensures Arcs(rule, numX, numY, i + 1, 0)
      == Arcs(rule, numX, numY, i, 0) + LineArcs(rule, numX, numY, i, InnerLen(rule, numX, numY))
  {
    NextLineWithin(rule, numX, numY, i);
    NextLineCovers(rule, numX, numY, i);
  }

  lemma NextLineWithin(rule: LinkRule, numX: int, numY: int, i: int)
    requires 0 <= i < OuterLen(rule, numX, numY)
    ensures Arcs(rule, numX, numY, i + 1, 0)
      <= Arcs(rule, numX, numY, i, 0) + LineArcs(rule, numX, numY, i, InnerLen(rule, numX, numY))
  {
    forall p | p in Arcs(rule, numX, numY, i + 1, 0)
      ensures p in Arcs(rule, numX, numY, i, 0) + LineArcs(rule, numX, numY, i, InnerLen(rule, numX, numY))
    {
      var a, b, t :|
        && 0 <= a < OuterLen(rule, numX, numY)
        && 0 <= b < InnerLen(rule, numX, numY)
        && a < i + 1
        && t in Targets(rule, numX, numY, Source(rule, a, b).0, Source(rule, a, b).1)
        && p == (To1D(numX, Source(rule, a, b)), To1D(numX, t));
      if a == i {
        assert p in LineArcs(rule, numX, numY, i, InnerLen(rule, numX, numY));
      } else {
        assert p in Arcs(rule, numX, numY, i, 0);
      }
    }
  }

  lemma NextLineCovers(rule: LinkRule, numX: int, numY: int, i: int)
    requires 0 <= i < OuterLen(rule, numX, numY)
    ensures Arcs(rule, numX, numY, i, 0) + LineArcs(rule, numX, numY, i, InnerLen(rule, numX, numY))
      <= Arcs(rule, numX, numY, i + 1, 0)
  {
    forall p | p in LineArcs(rule, numX, numY, i, InnerLen(rule, numX, numY))
      ensures p in Arcs(rule, numX, numY, i + 1, 0)
    {
      var b, t :|
        && 0 <= b < InnerLen(rule, numX, numY)
        && t in Targets(rule, numX, numY, Source(rule, i, b).0, Source(rule, i, b).1)
        && p == (To1D(numX, Source(rule, i, b)), To1D(numX, t));
    }
  }

  /** The arcs of the first i outer positions, line by line. */
  ghost function Lines(rule: LinkRule, numX: int, numY: int, i: nat): set<Arc>
  {
    if i == 0 then {} else Lines(rule, numX, numY, i - 1) + LineArcs(rule, numX, numY, i - 1, InnerLen(rule, numX, numY))
  }

  lemma {:induction false} LinesAreArcs(rule: LinkRule, numX: int, numY: int, i: nat)
    requires i <= OuterLen(rule, numX, numY)
    ensures Lines(rule, numX, numY, i) == Arcs(rule, numX, numY, i, 0)
  {
    if i == 0 {
      ArcsStart(rule, numX, numY);
    } else {
      LinesAreArcs(rule, numX, numY, i - 1);
      ArcsNextLine(rule, numX, numY, i - 1);
    }
  }

  /** All arcs the rule's loop produces, both directions. */
  ghost function RuleEdges(rule: LinkRule, numX: int, numY: int): set<Arc>
  {
    Sym(Arcs(rule, numX, numY, OuterLen(rule, numX, numY), 0))
  }

  /**
   * The edges each topology name adds (HopSim.__setTopolgy): cmesh and any
   * unrecognised name add none; bdonut reuses ftorus's horizontal rule and
   * dbutterfly's vertical shuffle.
   */
  ghost function TopologyEdges(topology: string, numX: int, numY: int): set<Arc>
  {
    if topology == "mesh" then RuleEdges(Down, numX, numY) + RuleEdges(Right, numX, numY)
    else if topology == "dbutterfly" then RuleEdges(Right, numX, numY) + RuleEdges(Shuffle, numX, numY)
    else if topology == "ftorus" then RuleEdges(FoldedRow, numX, numY) + RuleEdges(FoldedColumn, numX, numY)
    else if topology == "bdonut" then RuleEdges(FoldedRow, numX, numY) + RuleEdges(Shuffle, numX, numY)
    else {}
  }

  /** Sources the rule's loop visits: every grid node, except that the shuffle loop stops before the last column. */
  predicate Visits(rule: LinkRule, numX: int, numY: int, s: Coord)
  {
    0 <= s.0 < (if rule == Shuffle then numX - 1 else numX) && 0 <= s.1 < numY
  }

  /** The rule's loop links s to t. */
  predicate IsArc(rule: LinkRule, numX: int, numY: int, s: Coord, t: Coord)
  {
    Visits(rule, numX, numY, s) && t in Targets(rule, numX, numY, s.0, s.1)
  }

  /** Every destination is in a column of the grid (only a shuffle row can leave it). */
  lemma TargetColumn(rule: LinkRule, numX: int, numY: int, s: Coord, t: Coord)
    requires IsArc(rule, numX, numY, s, t)
    ensures 0 <= t.0 < numX
  {
    if rule == FoldedRow {
      var t' :| t' in FoldTargets(numX, s.0) && t == (t', s.1);
      FoldTargetsBounds(numX, s.0, t');
    }
  }

  /** The loop position that visits s. */
  lemma VisitedAt(rule: LinkRule, numX: int, numY: int, s: Coord) returns (a: int, b: int)
    requires Visits(rule, numX, numY, s)
    ensures 0 <= a < OuterLen(rule, numX, numY) && 0 <= b < InnerLen(rule, numX, numY)
    ensures Source(rule, a, b) == s
  {
    if rule == Down || rule == Shuffle {
      a, b := s.0, s.1;
    } else {
      a, b := s.1, s.0;
    }
  }

  /** Every edge a rule produces joins a visited source and one of its destinations. */
  lemma EdgeWitness(rule: LinkRule, numX: int, numY: int, p: Arc) returns (s: Coord, t: Coord)
    requires p in RuleEdges(rule, numX, numY)
    ensures IsArc(rule, numX, numY, s, t)
    ensures p == (To1D(numX, s), To1D(numX, t)) || p == (To1D(numX, t), To1D(numX, s))
  {
    var arcs := Arcs(rule, numX, numY, OuterLen(rule, numX, numY), 0);
    var q := if p in arcs then p else (p.1, p.0);
    assert q in arcs;
    var a, b, t' :|
      && 0 <= a < OuterLen(rule, numX, numY)
      && 0 <= b < InnerLen(rule, numX, numY)
      && t' in Targets(rule, numX, numY, Source(rule, a, b).0, Source(rule, a, b).1)
      && q == (To1D(numX, Source(rule, a, b)), To1D(numX, t'));
    s, t := Source(rule, a, b), t';
  }

  /**
   * Between two nodes whose columns are in the grid, a rule's edge set
   * holds exactly the pairs the rule's loop links, in either direction.
   */
  lemma RuleEdgesIff(rule: LinkRule, numX: int, numY: int, c: Coord, d: Coord)
    requires 0 <= c.0 < numX && 0 <= d.0 < numX
    ensures (To1D(numX, c), To1D(numX, d)) in RuleEdges(rule, numX, numY)
        <==> IsArc(rule, numX, numY, c, d) || IsArc(rule, numX, numY, d, c)
  {
    var arcs := Arcs(rule, numX, numY, OuterLen(rule, numX, numY), 0);
    var p := (To1D(numX, c), To1D(numX, d));
    if p in RuleEdges(rule, numX, numY) {
      var s, t := EdgeWitness(rule, numX, numY, p);
      TargetColumn(rule, numX, numY, s, t);
      if p == (To1D(numX, s), To1D(numX, t)) {
        IdInjective(numX, c, s);
        IdInjective(numX, d, t);
      } else {
        IdInjective(numX, c, t);
        IdInjective(numX, d, s);
      }
    }
    if IsArc(rule, numX, numY, c, d) {
      var a, b := VisitedAt(rule, numX, numY, c);
      assert p in arcs;
    }
    if IsArc(rule, numX, numY, d, c) {
      var a, b := VisitedAt(rule, numX, numY, d);
      assert (p.1, p.0) in arcs;
    }
  }

  /** Grid neighbours: one step apart in exactly one coordinate. */
  predicate UnitApart(c: Coord, d: Coord)
  {
    || (c.0 == d.0 && (d.1 == c.1 + 1 || c.1 == d.1 + 1))
    || (c.1 == d.1 && (d.0 == c.0 + 1 || c.0 == d.0 + 1))
  }

  /** mesh joins two grid nodes exactly when they are grid neighbours. */
  lemma MeshAdjacency(numX: int, numY: int, c: Coord, d: Coord)
    requires InGrid(numX, numY, c) && InGrid(numX, numY, d)
    ensures (To1D(numX, c), To1D(numX, d)) in TopologyEdges("mesh", numX, numY) <==> UnitApart(c, d)
  {
    RuleEdgesIff(Down, numX, numY, c, d);
    RuleEdgesIff(Right, numX, numY, c, d);
    DownArc(numX, numY, c, d);
    DownArc(numX, numY, d, c);
    RightArc(numX, numY, c, d);
    RightArc(numX, numY, d, c);
  }

  lemma DownArc(numX: int, numY: int, c: Coord, d: Coord)
    requires InGrid(numX, numY, c) && InGrid(numX, numY, d)
    ensures IsArc(Down, numX, numY, c, d) <==> c.0 == d.0 && d.1 == c.1 + 1
  {
  }

  lemma RightArc(numX: int, numY: int, c: Coord, d: Coord)
    requires InGrid(numX, numY, c) && InGrid(numX, numY, d)
    ensures IsArc(Right, numX, numY, c, d) <==> c.1 == d.1 && d.0 == c.0 + 1
  {
  }

  /** Every mesh edge joins two grid nodes. */
  lemma MeshEdgesInGrid(numX: int, numY: int, p: Arc)
    requires numX > 0 && p in TopologyEdges("mesh", numX, numY)
    ensures InGrid(numX, numY, To2D(numX, p.0)) && InGrid(numX, numY, To2D(numX, p.1))
  {
    var rule := if p in RuleEdges(Down, numX, numY) then Down else Right;
    var s, t := EdgeWitness(rule, numX, numY, p);
    TargetColumn(rule, numX, numY, s, t);
    RoundTrip2D(numX, s);
    RoundTrip2D(numX, t);
  }

  /** On a mesh of at least 2 x 2 nodes, node 0 is linked to node 1 and node numX and nothing else. */
  lemma MeshCorner(numX: int, numY: int, v: int)
    requires numX >= 2 && numY >= 2
    ensures (0, v) in TopologyEdges("mesh", numX, numY) <==> v == 1 || v == numX
  {
    if (0, v) in TopologyEdges("mesh", numX, numY) {
      CornerLinksOnlyNeighbours(numX, numY, v);
    }
    if v == 1 || v == numX {
      CornerLinksNeighbours(numX, numY, v);
    }
  }

  lemma CornerLinksOnlyNeighbours(numX: int, numY: int, v: int)
    requires numX >= 2 && numY >= 2 && (0, v) in TopologyEdges("mesh", numX, numY)
    ensures v == 1 || v == numX
  {
    MeshEdgesInGrid(numX, numY, (0, v));
    MeshAdjacencyIds(numX, numY, 0, v);
    RoundTrip2D(numX, (0, 0));
    var d := To2D(numX, v);
    assert d.1 * numX + d.0 == v;
    if d == (1, 0) {
      assert v == 0 * numX + 1;
    } else {
      assert d == (0, 1);
      assert v == 1 * numX + 0;
    }
  }

  /** MeshAdjacency stated on node ids. */
  lemma MeshAdjacencyIds(numX: int, numY: int, u: int, w: int)
    requires numX > 0 && InGrid(numX, numY, To2D(numX, u)) && InGrid(numX, numY, To2D(numX, w))
    ensures (u, w) in TopologyEdges("mesh", numX, numY) <==> UnitApart(To2D(numX, u), To2D(numX, w))
  {
    RoundTrip1D(numX, u);
    RoundTrip1D(numX, w);
    MeshAdjacency(numX, numY, To2D(numX, u), To2D(numX, w));
  }

  lemma CornerLinksNeighbours(numX: int, numY: int, v: int)
    requires numX >= 2 && numY >= 2 && (v == 1 || v == numX)
    ensures (0, v) in TopologyEdges("mesh", numX, numY)
  {
    var d: Coord := if v == 1 then (1, 0) else (0, 1);
    assert (To1D(numX, (0, 0)), To1D(numX, d)) == (0, v);
    MeshAdjacency(numX, numY, (0, 0), d);
  }

  /**
   * ftorus joins two grid nodes exactly when they share a row and are
   * folded-linked along it, or share a column and are folded-linked along it.
   */
  lemma FTorusAdjacency(numX: int, numY: int, c: Coord, d: Coord)
    requires InGrid(numX, numY, c) && InGrid(numX, numY, d)
    ensures (To1D(numX, c), To1D(numX, d)) in TopologyEdges("ftorus", numX, numY)
        <==> (c.1 == d.1 && FoldLinked(numX, c.0, d.0)) || (c.0 == d.0 && FoldLinked(numY, c.1, d.1))
  {
    RuleEdgesIff(FoldedRow, numX, numY, c, d);
    RuleEdgesIff(FoldedColumn, numX, numY, c, d);
    if IsArc(FoldedColumn, numX, numY, c, d) {
      FoldTargetsBounds(numY, c.1, d.1);
    }
    if IsArc(FoldedColumn, numX, numY, d, c) {
      FoldTargetsBounds(numY, d.1, c.1);
    }
  }

  /** The shuffle link from s, as the dbutterfly and bdonut vertical loops add it. */
  predicate ShuffleLink(numX: int, numY: int, s: Coord, t: Coord)
  {
    && 0 <= s.0 < numX - 1 && 0 <= s.1 < numY && ShuffleSpan(s.0) > 0
    && t == (s.0 + 1, ShuffleRow(s.0, s.1))
  }

  /**
   * dbutterfly joins two grid nodes exactly when they are horizontal
   * neighbours or one is the other's shuffle destination.
   */
  lemma DButterflyAdjacency(numX: int, numY: int, c: Coord, d: Coord)
    requires InGrid(numX, numY, c) && InGrid(numX, numY, d)
    ensures (To1D(numX, c), To1D(numX, d)) in TopologyEdges("dbutterfly", numX, numY)
        <==> || (c.1 == d.1 && (d.0 == c.0 + 1 || c.0 == d.0 + 1))
             || ShuffleLink(numX, numY, c, d) || ShuffleLink(numX, numY, d, c)
  {
    RuleEdgesIff(Right, numX, numY, c, d);
    RuleEdgesIff(Shuffle, numX, numY, c, d);
    RightArc(numX, numY, c, d);
    RightArc(numX, numY, d, c);
    ShuffleArc(numX, numY, c, d);
    ShuffleArc(numX, numY, d, c);
  }

  lemma ShuffleArc(numX: int, numY: int, c: Coord, d: Coord)
    ensures IsArc(Shuffle, numX, numY, c, d) <==> ShuffleLink(numX, numY, c, d)
  {
  }

  /**
   * On a grid whose height is a multiple of 16, every dbutterfly and bdonut
   * shuffle edge joins two grid nodes.
   */
  lemma ShuffleEdgesInGrid(numX: int, numY: int, p: Arc)
    requires numX > 0 && numY % 16 == 0 && p in RuleEdges(Shuffle, numX, numY)
    ensures InGrid(numX, numY, To2D(numX, p.0)) && InGrid(numX, numY, To2D(numX, p.1))
  {
    var s, t := EdgeWitness(Shuffle, numX, numY, p);
    ShuffleInRange(s.0, s.1, numY);
    RoundTrip2D(numX, s);
    RoundTrip2D(numX, t);
  }

  /**
   * Otherwise a shuffle edge can leave the grid: on an 8 x 12 grid the
   * dbutterfly link from (3, 4) goes to row 12, node 100 of a 96-node grid.
   */
  lemma ShuffleLeavesGrid()
    ensures (To1D(8, (3, 4)), 100) in TopologyEdges("dbutterfly", 8, 12)
    ensures !InGrid(8, 12, To2D(8, 100))
  {
    assert ShuffleRow(3, 4) == 12;
    assert IsArc(Shuffle, 8, 12, (3, 4), (4, 12));
    RuleEdgesIff(Shuffle, 8, 12, (3, 4), (4, 12));
  }

  /**
   * bdonut's edges within a row are exactly ftorus's: its shuffle links
   * always change row, and ftorus's other links stay in a column.
   */
  lemma BDonutRowsAreFTorusRows(numX: int, numY: int, c: Coord, d: Coord)
    requires InGrid(numX, numY, c) && InGrid(numX, numY, d) && c.1 == d.1
    ensures (To1D(numX, c), To1D(numX, d)) in TopologyEdges("bdonut", numX, numY)
        <==> (To1D(numX, c), To1D(numX, d)) in TopologyEdges("ftorus", numX, numY)
  {
    RuleEdgesIff(FoldedRow, numX, numY, c, d);
    RuleEdgesIff(FoldedColumn, numX, numY, c, d);
    RuleEdgesIff(Shuffle, numX, numY, c, d);
    NoRowArc(FoldedColumn, numX, numY, c, d);
    NoRowArc(FoldedColumn, numX, numY, d, c);
    NoRowArc(Shuffle, numX, numY, c, d);
    NoRowArc(Shuffle, numX, numY, d, c);
  }

  /** Folded column links and shuffle links always change row. */
  lemma NoRowArc(rule: LinkRule, numX: int, numY: int, c: Coord, d: Coord)
    requires rule == FoldedColumn || rule == Shuffle
    requires 0 <= c.1 && c.1 == d.1
    ensures !IsArc(rule, numX, numY, c, d)
  {
    if IsArc(rule, numX, numY, c, d) {
      if rule == Shuffle {
        ShuffleFlipsBit(c.0, c.1);
      } else {
        var t :| t in FoldTargets(numY, c.1) && d == (c.0, t);
        FoldTargetsBounds(numY, c.1, t);
      }
    }
  }

}
