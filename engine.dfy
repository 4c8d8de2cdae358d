/**
 * The simulator object (class HopSim): the interconnect graph, the node
 * labels, the TSV placement and the traffic probabilities, updated in
 * place by the steps of one sweep iteration.
 */
module Engine {
  import opened Wrappers
  import opened Grid
  import opened Placement
  import opened Links
  import opened Classification
  import opened HopCount
  import opened Layouts

  /** Why one sweep iteration produced no average: no TSV was placed, or some pair is unconnected. */
  datatype TrialError = ZeroTsv | Unreachable

  /** The `isolated` list a placement uses: the memoised one if any, else the first distinct draws. */
  function IsolatedList(memo: Option<seq<int>>, draws: seq<int>, isSquare: bool): seq<int>
  {
    if memo.Some? then memo.value else IsolatedDraw(draws, isSquare)
  }

  /** The result of one sweep iteration once the TSVs are placed: the average, or Unreachable. */
  function Outcome(avg: HopSum): Result<real, TrialError>
  {
    if avg.NoPath? then Err(Unreachable) else Ok(avg.value)
  }

  class HopSim {
    const numXDimNodes: int
    const numYDimNodes: int
    const numTotalNodes: int
    const numTotalMemCtrl: int
    const topologyList: seq<string>
    const tsvPatternTypeList: seq<string>

    /** The graph: its node ids and its links, each stored in both directions. */
    var nodes: set<int>
    var edges: set<Arc>
    /** The 'type' attribute of each labelled node. */
    var nodeType: map<int, NodeType>

    var tsvIndexList: seq<Coord>
    var numTotalTSV: nat
    var probCoreToCore: real
    var probCoreToMemCtrl: real
    var probMemCtrlToCore: real

    /** The `isolated` displacements, drawn once per floorplan and then reused. */
    var tsvDispListSquare: Option<seq<int>>
    var tsvDispListNotSquare: Option<seq<int>>

    /** The grid dimensions and the counts derived from them. */
    predicate Dimensions()
    {
      && numXDimNodes > 0 && numYDimNodes >= 0
      && numTotalNodes == numXDimNodes * numYDimNodes && numTotalNodes >= 0
      && numTotalMemCtrl == 2 * numXDimNodes
    }

    constructor (numX: int, numY: int, topologies: seq<string>, patterns: seq<string>)
      requires numX > 0 && numY >= 0
      ensures Dimensions()
      ensures numXDimNodes == numX && numYDimNodes == numY
      ensures topologyList == topologies && tsvPatternTypeList == patterns
      ensures nodes == {} && edges == {} && nodeType == map[]
      ensures tsvIndexList == [] && numTotalTSV == 0
      ensures tsvDispListSquare == None && tsvDispListNotSquare == None
    {
      numXDimNodes := numX;
      numYDimNodes := numY;
      numTotalNodes := numX * numY;
      numTotalMemCtrl := 2 * numX;
      topologyList := topologies;
      tsvPatternTypeList := patterns;
      nodes := {};
      edges := {};
      nodeType := map[];
      tsvIndexList := [];
      numTotalTSV := 0;
      probCoreToCore := 0.0;
      probCoreToMemCtrl := 0.0;
      probMemCtrlToCore := 0.0;
      tsvDispListSquare := None;
      tsvDispListNotSquare := None;
    }

    /** icn.clear(): no nodes, no links, no labels. */
    method Clear()
      modifies this`nodes, this`edges, this`nodeType
      ensures nodes == {} && edges == {} && nodeType == map[]
    {
      nodes := {};
      edges := {};
      nodeType := map[];
    }

    /** add_edge(u, v) followed by add_edge(v, u): both ends become nodes. */
    method AddEdge(u: int, v: int)
      modifies this`nodes, this`edges
      ensures edges == old(edges) + Sym({(u, v)})
      ensures nodes == old(nodes) + Ends(Sym({(u, v)}))
    {
      edges := edges + {(u, v), (v, u)};
      nodes := nodes + {u, v};
      assert Sym({(u, v)}) == {(u, v), (v, u)};
    }

    /** Links `src` with every coordinate of `dsts`, in both directions. */
    method LinkFrom(src: Coord, dsts: set<Coord>)
      modifies this`nodes, this`edges
      ensures edges == old(edges) + Sym(FanOut(numXDimNodes, src, dsts))
      ensures nodes == old(nodes) + Ends(Sym(FanOut(numXDimNodes, src, dsts)))
    {
      var rest := dsts;
      ghost var done: set<Coord> := {};
      while rest != {}
        invariant done + rest == dsts
        invariant edges == old(edges) + Sym(FanOut(numXDimNodes, src, done))
        invariant nodes == old(nodes) + Ends(Sym(FanOut(numXDimNodes, src, done)))
        decreases rest
      {
        var t :| t in rest;
        AddEdge(To1D(numXDimNodes, src), To1D(numXDimNodes, t));
        FanOutAdd(numXDimNodes, src, done, t);
        LinkMore(old(edges), old(nodes), FanOut(numXDimNodes, src, done), {(To1D(numXDimNodes, src), To1D(numXDimNodes, t))});
        done := done + {t};
        rest := rest - {t};
      }
    }

    /**
     * The nested loop every topology builder runs: visit the sources of
     * `rule` in its loop order and link each to the destinations the rule
     * picks for it.
     */
    method LinkGrid(rule: LinkRule)
      requires Dimensions()
      modifies this`nodes, this`edges
      ensures edges == old(edges) + RuleEdges(rule, numXDimNodes, numYDimNodes)
      ensures nodes == old(nodes) + Ends(RuleEdges(rule, numXDimNodes, numYDimNodes))
    {
      ghost var edges0, nodes0 := edges, nodes;
      var outer := OuterLen(rule, numXDimNodes, numYDimNodes);
      for a := 0 to outer
        invariant edges == edges0 + Sym(Lines(rule, numXDimNodes, numYDimNodes, a))
        invariant nodes == nodes0 + Ends(Sym(Lines(rule, numXDimNodes, numYDimNodes, a)))
      {
        LinkLine(rule, a);
        LinkMore(edges0, nodes0, Lines(rule, numXDimNodes, numYDimNodes, a),
          LineArcs(rule, numXDimNodes, numYDimNodes, a, InnerLen(rule, numXDimNodes, numYDimNodes)));
      }
      LinesAreArcs(rule, numXDimNodes, numYDimNodes, outer);
    }

    /** The inner loop of a topology builder: every source of line a in turn. */
    method LinkLine(rule: LinkRule, a: int)
      requires Dimensions()
      modifies this`nodes, this`edges
      ensures edges == old(edges) + Sym(LineArcs(rule, numXDimNodes, numYDimNodes, a, InnerLen(rule, numXDimNodes, numYDimNodes)))
      ensures nodes == old(nodes) + Ends(Sym(LineArcs(rule, numXDimNodes, numYDimNodes, a, InnerLen(rule, numXDimNodes, numYDimNodes))))
    {
      ghost var edges0, nodes0 := edges, nodes;
      var inner := InnerLen(rule, numXDimNodes, numYDimNodes);
      LineStart(rule, numXDimNodes, numYDimNodes, a);
      for b := 0 to inner
        invariant edges == edges0 + Sym(LineArcs(rule, numXDimNodes, numYDimNodes, a, b))
        invariant nodes == nodes0 + Ends(Sym(LineArcs(rule, numXDimNodes, numYDimNodes, a, b)))
      {
        var s := Source(rule, a, b);
        var targets := Targets(rule, numXDimNodes, numYDimNodes, s.0, s.1);
        LinkFrom(s, targets);
        LineStep(rule, numXDimNodes, numYDimNodes, a, b);
        LinkMore(edges0, nodes0, LineArcs(rule, numXDimNodes, numYDimNodes, a, b), FanOut(numXDimNodes, s, targets));
      }
    }

    /** Vertical links down each column, then horizontal links along each row. */
    method SetMesh()
      requires Dimensions()
      modifies this`nodes, this`edges
      ensures edges == old(edges) + TopologyEdges("mesh", numXDimNodes, numYDimNodes)
      ensures nodes == old(nodes) + Ends(TopologyEdges("mesh", numXDimNodes, numYDimNodes))
    {
      LinkGrid(Down);
      LinkGrid(Right);
      SymUnion(RuleEdges(Down, numXDimNodes, numYDimNodes), RuleEdges(Right, numXDimNodes, numYDimNodes));
    }

    /** The concentrated mesh is not built: the graph keeps only its nodes. */
    method SetCMesh()
      ensures TopologyEdges("cmesh", numXDimNodes, numYDimNodes) == {}
    {
    }

    /** Horizontal links along each row, then the butterfly links between adjacent columns. */
    method SetDButterfly()
      requires Dimensions()
      modifies this`nodes, this`edges
      ensures edges == old(edges) + TopologyEdges("dbutterfly", numXDimNodes, numYDimNodes)
      ensures nodes == old(nodes) + Ends(TopologyEdges("dbutterfly", numXDimNodes, numYDimNodes))
    {
      LinkGrid(Right);
      LinkGrid(Shuffle);
      SymUnion(RuleEdges(Right, numXDimNodes, numYDimNodes), RuleEdges(Shuffle, numXDimNodes, numYDimNodes));
    }

    /** Folded rings along each row, then along each column. */
    method SetFTorus()
      requires Dimensions()
      modifies this`nodes, this`edges
      ensures edges == old(edges) + TopologyEdges("ftorus", numXDimNodes, numYDimNodes)
      ensures nodes == old(nodes) + Ends(TopologyEdges("ftorus", numXDimNodes, numYDimNodes))
    {
      LinkGrid(FoldedRow);
      LinkGrid(FoldedColumn);
      SymUnion(RuleEdges(FoldedRow, numXDimNodes, numYDimNodes), RuleEdges(FoldedColumn, numXDimNodes, numYDimNodes));
    }

    /** Folded rings along each row, then the butterfly links between adjacent columns. */
    method SetBDonut()
      requires Dimensions()
      modifies this`nodes, this`edges
      ensures edges == old(edges) + TopologyEdges("bdonut", numXDimNodes, numYDimNodes)
      ensures nodes == old(nodes) + Ends(TopologyEdges("bdonut", numXDimNodes, numYDimNodes))
    {
      LinkGrid(FoldedRow);
      LinkGrid(Shuffle);
      SymUnion(RuleEdges(FoldedRow, numXDimNodes, numYDimNodes), RuleEdges(Shuffle, numXDimNodes, numYDimNodes));
    }

    /**
     * Labels every grid node, columns outer and rows inner: its kind from
     * its row and tsvIndexList, its chiplet from ChipletNo. Labels of ids
     * outside the grid are kept.
     */
    method SetNodeType(isSquare: bool)
      requires Dimensions()
      modifies this`nodeType
      ensures nodeType == old(nodeType) + Labels(isSquare, numXDimNodes, numYDimNodes, tsvIndexList)
    {
      ghost var m0 := nodeType;
      for x := 0 to numXDimNodes
        invariant nodeType == m0 + LabelsOf(isSquare, numXDimNodes, numYDimNodes, tsvIndexList, LabelledIds(numXDimNodes, numYDimNodes, x, 0))
      {
        for y := 0 to numYDimNodes
          invariant nodeType == m0 + LabelsOf(isSquare, numXDimNodes, numYDimNodes, tsvIndexList, LabelledIds(numXDimNodes, numYDimNodes, x, y))
        {
          var src1DIndex := To1D(numXDimNodes, (x, y));
          RoundTrip2D(numXDimNodes, (x, y));
          LabelledStep(numXDimNodes, numYDimNodes, x, y);
          LabelsOfStep(isSquare, numXDimNodes, numYDimNodes, tsvIndexList, m0, LabelledIds(numXDimNodes, numYDimNodes, x, y), src1DIndex);
          nodeType := nodeType[src1DIndex := TypeAt(isSquare, numYDimNodes, tsvIndexList, (x, y))];
        }
        LabelledNextColumn(numXDimNodes, numYDimNodes, x);
      }
      LabelsOfGrid(isSquare, numXDimNodes, numYDimNodes, tsvIndexList);
    }

    /** The memoised `isolated` list of one floorplan. */
    function Memo(isSquare: bool): Option<seq<int>>
      reads this`tsvDispListSquare, this`tsvDispListNotSquare
    {
      if isSquare then tsvDispListSquare else tsvDispListNotSquare
    }

    function CurrentProbs(): Probs
      reads this`probCoreToCore, this`probCoreToMemCtrl, this`probMemCtrlToCore
    {
      Probs(probCoreToCore, probCoreToMemCtrl, probMemCtrlToCore)
    }

    /**
     * The match on one chiplet's pattern (sim.py:72-127): a fixed table, the
     * remembered isolated list, a fresh isolated draw that is then remembered,
     * or nothing for an unknown pattern.
     */
    method ChipletDisps(isSquare: bool, tsvPattern: string, draws: seq<int>) returns (tsvDispList: seq<int>)
      requires tsvPattern == ISOLATED && Memo(isSquare).None? ==> DrawsSuffice(draws, isSquare)
      modifies this`tsvDispListSquare, this`tsvDispListNotSquare
      ensures tsvDispList == Displacements(tsvPattern, isSquare, IsolatedList(old(Memo(isSquare)), draws, isSquare))
      ensures Memo(isSquare) == if tsvPattern == ISOLATED then Some(IsolatedList(old(Memo(isSquare)), draws, isSquare))
                                else old(Memo(isSquare))
      ensures Memo(!isSquare) == old(Memo(!isSquare))
    {
      if tsvPattern == BORDER {
        tsvDispList := if isSquare then SQUARE_BORDER else LIST_BORDER;
      } else if tsvPattern == BUNDLE {
        tsvDispList := if isSquare then SQUARE_BUNDLE else LIST_BUNDLE;
      } else if tsvPattern == SHIELDED {
        tsvDispList := if isSquare then SQUARE_SHIELDED else LIST_SHIELDED;
      } else if tsvPattern == ISOLATED {
        if isSquare {
          if tsvDispListSquare.Some? {
            tsvDispList := tsvDispListSquare.value;
          } else {
            var numTSVPerChiplet := 7;
            tsvDispList := SampleDistinct(draws, numTSVPerChiplet);
            tsvDispListSquare := Some(tsvDispList);
          }
        } else {
          if tsvDispListNotSquare.Some? {
            tsvDispList := tsvDispListNotSquare.value;
          } else {
            var numTSVPerChiplet := 6;
            tsvDispList := SampleDistinct(draws, numTSVPerChiplet);
            tsvDispListNotSquare := Some(tsvDispList);
          }
        }
      } else {
        tsvDispList := [];
      }
    }

    /**
     * The loop over the four chiplets (sim.py:69-129): each chiplet's
     * displacement list, and the offsets, which an unknown pattern empties.
     */
    method ChipletTable(isSquare: bool, layout: seq<string>, draws: seq<int>)
      returns (chipletOffsetList: seq<int>, tsvDispDict: seq<seq<int>>)
      requires ISOLATED in layout && Memo(isSquare).None? ==> DrawsSuffice(draws, isSquare)
      modifies this`tsvDispListSquare, this`tsvDispListNotSquare
      ensures var iso := IsolatedList(old(Memo(isSquare)), draws, isSquare);
        && tsvDispDict == ChipletLists(layout, isSquare, iso)
        && chipletOffsetList == (if AllRecognised(layout) then ChipletOffsets(isSquare) else [])
        && Memo(isSquare) == (if ISOLATED in layout then Some(iso) else old(Memo(isSquare)))
      ensures Memo(!isSquare) == old(Memo(!isSquare))
    {
      ghost var iso := IsolatedList(Memo(isSquare), draws, isSquare);
      chipletOffsetList := ChipletOffsets(isSquare);
      tsvDispDict := [];
      for chipletNo := 0 to |layout|
        invariant tsvDispDict == ChipletLists(layout[..chipletNo], isSquare, iso)
        invariant chipletOffsetList == if AllRecognised(layout[..chipletNo]) then ChipletOffsets(isSquare) else []
        invariant Memo(isSquare) == if ISOLATED in layout[..chipletNo] then Some(iso) else old(Memo(isSquare))
        invariant Memo(!isSquare) == old(Memo(!isSquare))
      {
        var tsvPattern := layout[chipletNo];
        var tsvDispList := ChipletDisps(isSquare, tsvPattern, draws);
        if !Recognised(tsvPattern) {
          chipletOffsetList := [];
        }
        PrefixStep(layout, isSquare, iso, chipletNo);
        tsvDispDict := tsvDispDict + [tsvDispList];
      }
      assert layout[..|layout|] == layout;
    }

    /**
     * __place: the displacement list of each chiplet, the TSV coordinates,
     * their number and the three traffic probabilities. `draws` stands for
     * the values random.randint returns. A layout with no TSV at all makes
     * the first probability a division by zero: the result is false and
     * the probabilities are left as they were.
     */
    method Place(isSquare: bool, layout: seq<string>, draws: seq<int>) returns (ok: bool)
      requires Dimensions() && |layout| == 4
      requires ISOLATED in layout && Memo(isSquare).None? ==> DrawsSuffice(draws, isSquare)
      modifies this`tsvIndexList, this`numTotalTSV, this`probCoreToCore, this`probCoreToMemCtrl,
        this`probMemCtrlToCore, this`tsvDispListSquare, this`tsvDispListNotSquare
      ensures var iso := IsolatedList(old(Memo(isSquare)), draws, isSquare);
        && Memo(isSquare) == (if ISOLATED in layout then Some(iso) else old(Memo(isSquare)))
        && Memo(!isSquare) == old(Memo(!isSquare))
        && tsvIndexList == Sites(numXDimNodes, isSquare, layout, iso)
        && numTotalTSV == TotalTSV(isSquare, layout, iso)
      ensures ok <==> numTotalTSV > 0
      ensures ok ==> && probCoreToCore == 0.3 / numTotalTSV as real
                     && probCoreToMemCtrl == 0.7 / numTotalMemCtrl as real
                     && probMemCtrlToCore == 1.0 / numTotalTSV as real
      ensures !ok ==> CurrentProbs() == old(CurrentProbs())
    {
      ghost var iso := IsolatedList(Memo(isSquare), draws, isSquare);
      var chipletOffsetList, tsvDispDict := ChipletTable(isSquare, layout, draws);
      FromTable(numXDimNodes, isSquare, layout, iso, chipletOffsetList, tsvDispDict);
      tsvIndexList := CollectSites(numXDimNodes, chipletOffsetList, tsvDispDict);
      numTotalTSV := |tsvDispDict[0]| + |tsvDispDict[1]| + |tsvDispDict[2]| + |tsvDispDict[3]|;
      ok := numTotalTSV > 0;
      if ok {
        probCoreToCore := 0.3 / numTotalTSV as real;
        probCoreToMemCtrl := 0.7 / numTotalMemCtrl as real;
        probMemCtrlToCore := 1.0 / numTotalTSV as real;
      }
    }

    /**
     * __setTopolgy: adds nodes 0 .. numTotalNodes-1, builds the links of
     * the named topology (none for an unknown name) and labels the nodes.
     */
    method SetTopology(topology: string, isSquare: bool)
      requires Dimensions()
      modifies this`nodes, this`edges, this`nodeType
      ensures edges == old(edges) + TopologyEdges(topology, numXDimNodes, numYDimNodes)
      ensures nodes == old(nodes) + Ids(numTotalNodes) + Ends(TopologyEdges(topology, numXDimNodes, numYDimNodes))
      ensures nodeType == old(nodeType) + Labels(isSquare, numXDimNodes, numYDimNodes, tsvIndexList)
    {
      AddGridNodes();
      BuildLinks(topology);
      SetNodeType(isSquare);
    }

    /** The add_node loop at the head of __setTopolgy. */
    method AddGridNodes()
      requires Dimensions()
      modifies this`nodes
      ensures nodes == old(nodes) + Ids(numTotalNodes)
    {
      for nodeId := 0 to numTotalNodes
        invariant nodes == old(nodes) + Ids(nodeId)
      {
        nodes := nodes + {nodeId};
      }
    }

    /** The match of __setTopolgy on the topology name. */
    method BuildLinks(topology: string)
      requires Dimensions()
      modifies this`nodes, this`edges
      ensures edges == old(edges) + TopologyEdges(topology, numXDimNodes, numYDimNodes)
      ensures nodes == old(nodes) + Ends(TopologyEdges(topology, numXDimNodes, numYDimNodes))
    {
      if topology == "mesh" {
        SetMesh();
      } else if topology == "cmesh" {
        SetCMesh();
      } else if topology == "dbutterfly" {
        SetDButterfly();
      } else if topology == "ftorus" {
        SetFTorus();
      } else if topology == "bdonut" {
        SetBDonut();
      }
    }

    /**
     * __getAvgHopCountAt: the probability-weighted hop counts from nodeId
     * to the nodes it exchanges traffic with; a query the graph cannot
     * answer aborts with NoPath.
     */
    method AvgHopCountAt(nodeId: int, dist: Distance) returns (r: HopSum)
      requires Dimensions() && nodeId in nodeType && Typed(nodeType, numTotalNodes)
      ensures r == AvgHopAt(nodeType, CurrentProbs(), dist, nodeId, numTotalNodes)
    {
      var src := nodeType[nodeId];
      match src.kind {
        case Normal =>
          return Sum(0.0);
        case Tsv =>
          var avgHopCount := 0.0;
          for dstNodeId := 0 to numTotalNodes
            invariant WeightedSum(nodeType, CurrentProbs(), dist, nodeId, dstNodeId) == Sum(avgHopCount)
          {
            var dst := nodeType[dstNodeId];
            WeightedSumStep(nodeType, CurrentProbs(), dist, nodeId, dstNodeId);
            if dst.kind == Tsv && src.chipletNo != dst.chipletNo {
              if (nodeId, dstNodeId) !in dist {
                NoPathSticks(nodeId, dist, dstNodeId + 1);
                return NoPath;
              }
              avgHopCount := avgHopCount + probCoreToCore * dist[(nodeId, dstNodeId)] as real;
            } else if dst.kind == MemCtrl {
              if (nodeId, dstNodeId) !in dist {
                NoPathSticks(nodeId, dist, dstNodeId + 1);
                return NoPath;
              }
              avgHopCount := avgHopCount + probCoreToMemCtrl * dist[(nodeId, dstNodeId)] as real;
            }
          }
          return Sum(avgHopCount);
        case MemCtrl =>
          var avgHopCount := 0.0;
          for dstNodeId := 0 to numTotalNodes
            invariant WeightedSum(nodeType, CurrentProbs(), dist, nodeId, dstNodeId) == Sum(avgHopCount)
          {
            var dst := nodeType[dstNodeId];
            WeightedSumStep(nodeType, CurrentProbs(), dist, nodeId, dstNodeId);
            if dst.kind == Tsv {
              if (nodeId, dstNodeId) !in dist {
                NoPathSticks(nodeId, dist, dstNodeId + 1);
                return NoPath;
              }
              avgHopCount := avgHopCount + probMemCtrlToCore * dist[(nodeId, dstNodeId)] as real;
            }
          }
          return Sum(avgHopCount);
      }
    }

    /** Once a prefix of destinations fails, so does the whole sum. */
    lemma NoPathSticks(s: int, dist: Distance, k: nat)
      requires Dimensions() && s in nodeType && Typed(nodeType, numTotalNodes) && k <= numTotalNodes
      requires WeightedSum(nodeType, CurrentProbs(), dist, s, k).NoPath?
      ensures WeightedSum(nodeType, CurrentProbs(), dist, s, numTotalNodes).NoPath?
    {
      WeightedSumFails(nodeType, CurrentProbs(), dist, s, k);
      WeightedSumFails(nodeType, CurrentProbs(), dist, s, numTotalNodes);
    }

    /**
     * __run: the per-node averages summed over the grid, columns outer,
     * divided by numTotalTSV + numTotalMemCtrl. Non-negative whenever the
     * probabilities are.
     */
    method Run(dist: Distance) returns (r: HopSum)
      requires Dimensions() && Typed(nodeType, numTotalNodes)
      ensures r == Average(GridTotal(nodeType, CurrentProbs(), dist, numXDimNodes, numYDimNodes, numXDimNodes),
                           numTotalTSV + numTotalMemCtrl)
      ensures r.Sum? && probCoreToCore >= 0.0 && probCoreToMemCtrl >= 0.0 && probMemCtrlToCore >= 0.0
        ==> r.value >= 0.0
    {
      var hopCountSum := 0.0;
      for indexX := 0 to numXDimNodes
        invariant GridTotal(nodeType, CurrentProbs(), dist, numXDimNodes, numYDimNodes, indexX) == Sum(hopCountSum)
      {
        for indexY := 0 to numYDimNodes
          invariant Plus(GridTotal(nodeType, CurrentProbs(), dist, numXDimNodes, numYDimNodes, indexX),
                         ColumnTotal(nodeType, CurrentProbs(), dist, numXDimNodes, numYDimNodes, indexX, indexY))
            == Sum(hopCountSum)
        {
          var targetNodeId := To1D(numXDimNodes, (indexX, indexY));
          GridNodeId(numXDimNodes, numYDimNodes, indexX, indexY);
          var avg := AvgHopCountAt(targetNodeId, dist);
          if avg.NoPath? {
            NodeFailureFailsGrid(nodeType, CurrentProbs(), dist, numXDimNodes, numYDimNodes, indexX, indexY);
            return NoPath;
          }
          hopCountSum := hopCountSum + avg.value;
        }
      }
      if probCoreToCore >= 0.0 && probCoreToMemCtrl >= 0.0 && probMemCtrlToCore >= 0.0 {
        GridTotalNonNegative(nodeType, CurrentProbs(), dist, numXDimNodes, numYDimNodes, numXDimNodes);
      }
      return Sum(hopCountSum / (numTotalTSV + numTotalMemCtrl) as real);
    }

    /** __getPossibleTSVLayout: four nested loops over the configured pattern names. */
    method PossibleTSVLayouts() returns (tsvLayoutList: seq<seq<string>>)
      ensures tsvLayoutList == AllLayouts(tsvPatternTypeList)
    {
      var names := tsvPatternTypeList;
      tsvLayoutList := [];
      for i1 := 0 to |names|
        invariant tsvLayoutList == Row(names, [], 4, i1)
      {
        var pre1 := [names[i1]];
        ghost var done1 := tsvLayoutList;
        for i2 := 0 to |names|
          invariant tsvLayoutList == done1 + Row(names, pre1, 3, i2)
        {
          tsvLayoutList := AppendTail(names, pre1 + [names[i2]], tsvLayoutList);
          RowSnoc(names, pre1, 3, i2);
        }
        assert [] + [names[i1]] == pre1;
        RowDone(names, pre1, 3);
        RowSnoc(names, [], 4, i1);
      }
      RowDone(names, [], 4);
    }

    /**
     * The graph and result once `topology` is built over the placed TSVs and
     * __run has evaluated it: exactly the topology's links, the grid nodes
     * plus the links' ends, the labels of the placed TSVs, and the grid
     * total over numTotalTSV + numTotalMemCtrl, or Unreachable when some
     * node has no path.
     */
    ghost predicate Built(topology: string, isSquare: bool, dist: Distance, r: Result<real, TrialError>)
      requires Dimensions()
      reads this
    {
      && edges == TopologyEdges(topology, numXDimNodes, numYDimNodes)
      && nodes == Ids(numTotalNodes) + Ends(TopologyEdges(topology, numXDimNodes, numYDimNodes))
      && nodeType == Labels(isSquare, numXDimNodes, numYDimNodes, tsvIndexList)
      && Typed(nodeType, numTotalNodes)
      && r == Outcome(Average(GridTotal(nodeType, CurrentProbs(), dist, numXDimNodes, numYDimNodes, numXDimNodes),
                                numTotalTSV + numTotalMemCtrl))
    }

    /**
     * One iteration of the sweep in `run`: clear the graph, place the TSVs,
     * build the topology and label the nodes, then evaluate.
     */
    method Trial(topology: string, isSquare: bool, layout: seq<string>, draws: seq<int>, dist: Distance)
      returns (r: Result<real, TrialError>)
      requires Dimensions() && |layout| == 4
      requires ISOLATED in layout && Memo(isSquare).None? ==> DrawsSuffice(draws, isSquare)
      modifies this`nodes, this`edges, this`nodeType, this`tsvIndexList, this`numTotalTSV,
        this`probCoreToCore, this`probCoreToMemCtrl, this`probMemCtrlToCore,
        this`tsvDispListSquare, this`tsvDispListNotSquare
      ensures var iso := IsolatedList(old(Memo(isSquare)), draws, isSquare);
        && Memo(isSquare) == (if ISOLATED in layout then Some(iso) else old(Memo(isSquare)))
        && Memo(!isSquare) == old(Memo(!isSquare))
        && tsvIndexList == Sites(numXDimNodes, isSquare, layout, iso)
        && numTotalTSV == TotalTSV(isSquare, layout, iso)
      ensures r == Err(ZeroTsv) <==> numTotalTSV == 0
      ensures r == Err(ZeroTsv) ==>
        && nodes == {} && edges == {} && nodeType == map[]
        && CurrentProbs() == old(CurrentProbs())
      ensures r != Err(ZeroTsv) ==>
        && probCoreToCore == 0.3 / numTotalTSV as real
        && probCoreToMemCtrl == 0.7 / numTotalMemCtrl as real
        && probMemCtrlToCore == 1.0 / numTotalTSV as real
        && Built(topology, isSquare, dist, r)
      ensures r.Ok? ==> r.value >= 0.0
    {
      Clear();
      var ok := Place(isSquare, layout, draws);
      r := Finish(ok, topology, isSquare, dist);
    }

    /** After the placement: stop on the division by zero, else build the graph and run. */
    method Finish(ok: bool, topology: string, isSquare: bool, dist: Distance) returns (r: Result<real, TrialError>)
      requires Dimensions() && nodes == {} && edges == {} && nodeType == map[]
      requires ok <==> numTotalTSV > 0
      requires ok ==> && probCoreToCore == 0.3 / numTotalTSV as real
                      && probCoreToMemCtrl == 0.7 / numTotalMemCtrl as real
                      && probMemCtrlToCore == 1.0 / numTotalTSV as real
      modifies this`nodes, this`edges, this`nodeType
      ensures r == Err(ZeroTsv) <==> !ok
      ensures !ok ==> nodes == {} && edges == {} && nodeType == map[]
      ensures ok ==>
        && Built(topology, isSquare, dist, r)
      ensures r.Ok? ==> r.value >= 0.0
    {
      if !ok {
        return Err(ZeroTsv);
      }
      NonNegRatio(0.3, numTotalTSV);
      NonNegRatio(0.7, numTotalMemCtrl);
      NonNegRatio(1.0, numTotalTSV);
      r := Evaluate(topology, isSquare, dist);
    }

    /** The second half of one sweep iteration: build the cleared graph, then run. */
    method Evaluate(topology: string, isSquare: bool, dist: Distance) returns (r: Result<real, TrialError>)
      requires Dimensions() && nodes == {} && edges == {} && nodeType == map[]
      requires probCoreToCore >= 0.0 && probCoreToMemCtrl >= 0.0 && probMemCtrlToCore >= 0.0
      modifies this`nodes, this`edges, this`nodeType
      ensures Built(topology, isSquare, dist, r)
      ensures r.Ok? ==> r.value >= 0.0
    {
      SetTopology(topology, isSquare);
      assert nodeType == Labels(isSquare, numXDimNodes, numYDimNodes, tsvIndexList);
      LabelsTyped(isSquare, numXDimNodes, numYDimNodes, tsvIndexList);
      var avg := Run(dist);
      r := Outcome(avg);
    }
  }
}
