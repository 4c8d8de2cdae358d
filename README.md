# HopSim in Dafny

This project models the `HopSim` interconnect simulator in `sim.py` and proves properties of that model. HopSim places through-silicon vias (TSVs) on the chiplets of a 2.5D floorplan. It builds one of five network-on-chip topologies over an `numXDimNodes` × `numYDimNodes` grid. It labels every router as NORMAL, TSV or MEMCTRL, and computes the probability-weighted average hop count of the resulting traffic.

The modules follow the structure of the simulator:

- `Grid` covers the id ↔ coordinate mapping (`__get2DIndex`, `__get1DIndex`).
- `Placement` covers the displacement tables, the `isolated` rejection sampling and the TSV coordinates of one layout (`__place`).
- `Links` gives the link rule of each topology as a set of arcs, with lemmas characterising mesh, dbutterfly, ftorus and bdonut.
- `Classification` covers `__getChipletNo` and the labels that `__setNodeType` writes.
- `HopCount` covers the pair-selection rule and the weighted sums of `__getAvgHopCountAt` and `__run`.
- `Layouts` covers the cartesian product built by `__getPossibleTSVLayout`.
- `Engine` holds the class `HopSim`. Its fields (the graph, the labels, `tsvIndexList`, `numTotalTSV`, the three probabilities and the two memoised `isolated` lists) are updated in place by methods that keep the source's loops. Each method is proved against the functions of the modules above.

The graph is a set of node ids plus a set of arcs; every `add_edge` stores both directions. Shortest-path lengths are a table `Distance` from (source, destination) to hop count. A missing entry stands for an unconnected pair, the case in which the graph library raises.

Several quirks of the code as written are stated as lemmas rather than corrected:

- The `y == numYDimNodes` tests never fire on the grid, so a node is MEMCTRL exactly on row 0. That gives `numXDimNodes` MEMCTRL nodes, while `numTotalMemCtrl` is `2 * numXDimNodes`.
- An `isolated` displacement can place a TSV in another chiplet's block.
- A shuffle link can reach an id outside the grid when `numYDimNodes` is not a multiple of 16. The graph then gains an extra node.
- An unrecognised pattern empties `tsvIndexList` but still counts the other chiplets' TSVs.
- A layout with no TSV at all divides by zero.

## Model

| member | source | states |
|---|---|---|
| Grid.To2D | sim.py:52-53 | the column is in 0 .. numX-1 and row*numX + column gives back the id |
| Grid.RoundTrip2D | sim.py:52-58 | converting a coordinate with column in range to an id and back returns the coordinate |
| Grid.RoundTrip1D | sim.py:52-58 | converting an id to a coordinate and back returns the id |
| Grid.InGridRange | sim.py:52-53 | an id's coordinate lies on the grid exactly when 0 <= id < numX*numY |
| Grid.IdInjective | sim.py:55-58 | two coordinates with columns in range and the same id are equal |
| Placement.FixedTables | sim.py:72-92 | the border, bundle and shielded tables have 18, 10/6 and 6/4 entries, are pairwise distinct and lie inside one chiplet block |
| Placement.SquareBorderPlaced | sim.py:74-76 | the square border table is increasing and inside a 4×7 chiplet block |
| Placement.ListBorderPlaced | sim.py:77-80 | the non-square border table is increasing and inside an 8×3 chiplet block |
| Placement.Dedup | sim.py:104-108 | the kept draws are pairwise distinct, never more than the draws, and exactly the values drawn |
| Placement.DedupSnoc | sim.py:107-108 | one more draw is appended exactly when it was not kept before |
| Placement.DedupPrefix | sim.py:104-108 | what was kept from earlier draws is a prefix of what is kept after more draws |
| Placement.SampleDistinct | sim.py:104-108 | the rejection-sampling loop returns the first `count` distinct draws |
| Placement.IsolatedDrawShape | sim.py:97-124 | a fresh `isolated` list has exactly 7 (square) or 6 entries, pairwise distinct, each in 0 .. 28 or 0 .. 24 |
| Placement.ChipletLists | sim.py:69-130 | tsvDispDict has one list per chiplet of the layout; an isolated chiplet gets the isolated list, an unknown pattern the empty list, and every other chiplet a list that does not depend on the isolated draw |
| Placement.ChipletListsIgnoreIsolated | sim.py:72-128 | a layout without an isolated chiplet gives the same tsvDispDict whatever isolated list is remembered |
| Placement.Translate | sim.py:134-136 | one coordinate per displacement, in order; each has its x inside the grid width and maps back (by __get1DIndex) to the id offset + d |
| Placement.CollectSites | sim.py:132-136 | the nested loop yields the translated displacement lists of the chiplets that have an offset, in chiplet order |
| Placement.SitesUpToLength | sim.py:134-136 | the number of coordinates collected is the summed length of the lists visited |
| Placement.FromTable | sim.py:64-139 | the collected coordinates equal the layout's TSV sites, and the four list lengths sum to the layout's TSV count |
| Placement.SitesCount | sim.py:126-139 | with all patterns recognised there is one coordinate per counted TSV; one unrecognised pattern leaves tsvIndexList empty |
| Placement.TotalTSVZero | sim.py:138-143 | the TSV count is 0 (the later division fails) exactly when no chiplet has a recognised pattern |
| Placement.AllBorderSquare | sim.py:73-80 | four square border chiplets give 72 TSVs |
| Links.ShuffleFlipsBit | sim.py:249-286 | the shuffle row flips bit 0, 1, 2 or 3 of y by column band, stays in its aligned block and is an involution |
| Links.FlipInBlock | sim.py:252-281 | the formula (y // k)*k + (y + k/2) % k adds or subtracts k/2, keeps the block and undoes itself |
| Links.ShuffleInRange | sim.py:249-286 | when numYDimNodes is a multiple of 16 the shuffle row of an in-range row stays in range |
| Links.FoldTargetsBounds | sim.py:292-311 | every skip-2-with-fold destination is greater than the source, at most 2 away and below the bound |
| Links.RingPosBijective | sim.py:292-333 | the ring position of an index is in range and distinct indices have distinct positions |
| Links.FoldRing | sim.py:292-333 | for bound >= 3 two indices are folded-linked exactly when their ring positions are cyclic neighbours, so the links form one ring |
| Links.EdgeWitness | sim.py:200-398 | every stored edge is one direction of a link produced by the builder's rule |
| Links.RuleEdgesIff | sim.py:200-398 | two in-range coordinates are joined exactly when the rule links one to the other |
| Links.MeshAdjacency | sim.py:200-227 | mesh joins two grid nodes exactly when they differ by 1 in one coordinate |
| Links.DownArc | sim.py:201-212 | the first mesh loop links (x, y) to (x, y+1) and nothing else |
| Links.RightArc | sim.py:214-225 | the second mesh loop (and dbutterfly's horizontal loop) links (x, y) to (x+1, y) and nothing else |
| Links.MeshEdgesInGrid | sim.py:200-227 | both ends of every mesh edge are grid nodes |
| Links.MeshAdjacencyIds | sim.py:200-227 | mesh joins two node ids exactly when their coordinates differ by 1 in one coordinate |
| Links.MeshCorner | sim.py:200-227 | on any grid of at least 2×2, node 0's neighbours are exactly 1 and numXDimNodes ({1, 4} on 4×4) |
| Links.CornerLinksOnlyNeighbours | sim.py:200-227 | node 0 is linked to no node other than 1 and numXDimNodes |
| Links.CornerLinksNeighbours | sim.py:200-227 | node 0 is linked to 1 and to numXDimNodes |
| Links.FTorusAdjacency | sim.py:290-335 | ftorus joins two grid nodes exactly when they share a row and are fold-linked along it, or share a column and are fold-linked along it |
| Links.DButterflyAdjacency | sim.py:233-288 | dbutterfly joins two grid nodes exactly when they are horizontal neighbours or one is the other's shuffle destination |
| Links.ShuffleArc | sim.py:249-286 | the vertical loop links (x, y) only to (x+1, shuffle row) for columns 0 .. 6 below numXDimNodes-1 |
| Links.ShuffleEdgesInGrid | sim.py:249-286 | when numYDimNodes is a multiple of 16 both ends of every shuffle edge are grid nodes |
| Links.ShuffleLeavesGrid | sim.py:279-286 | on an 8×12 grid the column-3 link from (3, 4) reaches id 100, which is off the grid |
| Links.BDonutRowsAreFTorusRows | sim.py:337-398 | within one row, bdonut and ftorus join exactly the same pairs |
| Links.NoRowArc | sim.py:313-333 | the vertical fold rule and the shuffle rule never join two nodes of one row |
| Classification.KindOnGrid | sim.py:188-195 | on the grid a node is MEMCTRL iff y == 0, TSV iff off row 0 and listed, NORMAL otherwise |
| Classification.ChipletOnGrid | sim.py:170-180 | the chiplet number is -1 exactly on row 0, and also on rows 7 and 8 for the non-square floorplan |
| Classification.Ids | sim.py:146-147 | the node ids added are exactly 0 .. n-1 |
| Classification.IdsSize | sim.py:146-147 | there are exactly n of them |
| Classification.MemCtrlCount | sim.py:188-192 | exactly numXDimNodes nodes are labelled MEMCTRL |
| Classification.BlockSiteInOwnChiplet | sim.py:170-180 | a displacement inside the chiplet block lands on a node whose chiplet number is that chiplet |
| Classification.SquareSiteInChiplet | sim.py:170-175 | the same for the square floorplan |
| Classification.ListSiteInChiplet | sim.py:176-180 | the same for the non-square floorplan |
| Classification.FixedSitesInOwnChiplet | sim.py:72-92 | every border, bundle or shielded TSV of chiplet c lies on a node labelled chiplet c |
| Classification.IsolatedMayLeaveChiplet | sim.py:94-110 | the allowed isolated displacement 4 puts a square chiplet-0 TSV in chiplet 1 |
| Classification.LabelledAll | sim.py:182-198 | the labelling loop visits exactly the ids 0 .. numX*numY-1 |
| Classification.LabelsOfGrid | sim.py:182-198 | labelling the ids the loop visits gives exactly the label map of the whole grid |
| HopCount.DemandOf | sim.py:443-485 | TSV→TSV of another chiplet is core-to-core, TSV→MEMCTRL core-to-memory, MEMCTRL→TSV memory-to-core, each iff |
| HopCount.NoSelfDemand | sim.py:454 | a node is never paired with itself |
| HopCount.WeightedSumFails | sim.py:443-485 | the sum fails exactly when some paired destination is unreachable |
| HopCount.WeightedSumSplit | sim.py:443-485 | a successful sum is each probability times the hop total of its traffic class |
| HopCount.HopTotalByKind | sim.py:443-485 | NORMAL sources contribute nothing, TSV sources no memory-to-core hops, MEMCTRL sources no core hops |
| HopCount.AvgHopNonNegative | sim.py:443-488 | with non-negative probabilities a node's average is non-negative |
| HopCount.LabelsTyped | sim.py:182-198 | after labelling every id 0 .. numX*numY-1 has a type |
| HopCount.GridNodeId | sim.py:512-514 | every node visited by the loops of __run has an id in range |
| HopCount.ColumnTotalFails | sim.py:512-515 | a column total fails exactly when a node in it fails |
| HopCount.GridTotalFails | sim.py:507-517 | the grid total fails exactly when some column contains a failing node |
| HopCount.ColumnTotalNonNegative | sim.py:512-515 | column totals are non-negative for non-negative probabilities |
| HopCount.GridTotalNonNegative | sim.py:507-517 | grid totals are non-negative for non-negative probabilities |
| HopCount.NodeFailureFailsGrid | sim.py:507-517 | one failing node makes the whole evaluation fail |
| Layouts.AppendTail | sim.py:499-503 | the two innermost loops append every extension of the prefix by two names, in loop order |
| Layouts.BlockSize | sim.py:493-505 | the extensions of a prefix by d names number |names|^d |
| Layouts.BlockMembers | sim.py:493-505 | a list is among them exactly when it is the prefix followed by d configured names |
| Layouts.AllLayoutsCount | sim.py:493-505 | there are |names|^4 layouts |
| Layouts.AllLayoutsMembers | sim.py:493-505 | a layout is listed exactly when it has 4 entries, each a configured name |
| Engine.HopSim.constructor | sim.py:23-50 | the grid sizes and counts are set, the graph is empty, no TSV is placed and no isolated list is remembered |
| Engine.HopSim.Clear | sim.py:490-491 | the graph and its labels are emptied |
| Engine.HopSim.AddEdge | sim.py:211-212 | both directions of the link are added, with both ends as nodes |
| Engine.HopSim.LinkFrom | sim.py:303-311 | every destination of one source is linked in both directions |
| Engine.HopSim.LinkLine | sim.py:292-311 | one pass of the inner loop adds the links of one line of sources |
| Engine.HopSim.LinkGrid | sim.py:292-311 | the nested loops add exactly the rule's edges and their ends |
| Engine.HopSim.SetMesh | sim.py:200-227 | the mesh edges are added |
| Engine.HopSim.SetCMesh | sim.py:229-231 | cmesh has no edges |
| Engine.HopSim.SetDButterfly | sim.py:233-288 | the dbutterfly edges are added |
| Engine.HopSim.SetFTorus | sim.py:290-335 | the ftorus edges are added |
| Engine.HopSim.SetBDonut | sim.py:337-400 | the bdonut edges are added |
| Engine.HopSim.AddGridNodes | sim.py:146-147 | the nodes 0 .. numTotalNodes-1 are added |
| Engine.HopSim.BuildLinks | sim.py:149-166 | the named topology's edges are added; cmesh and unknown names add none |
| Engine.HopSim.SetNodeType | sim.py:182-198 | every grid node gets the kind and chiplet number of its coordinate |
| Engine.HopSim.SetTopology | sim.py:145-168 | the grid nodes, the topology's edges and all labels are added |
| Engine.HopSim.ChipletDisps | sim.py:72-128 | one chiplet's list is its pattern's table, the remembered isolated list or a fresh one that is then remembered, or empty |
| Engine.HopSim.ChipletTable | sim.py:69-130 | the per-chiplet lists, the offsets (wiped by an unrecognised pattern) and the memo update |
| Engine.HopSim.Place | sim.py:60-143 | tsvIndexList, numTotalTSV, the memo and the three probabilities after a placement; probabilities unchanged when no TSV is placed |
| Engine.HopSim.AvgHopCountAt | sim.py:443-488 | the loop computes the weighted sum of the node's paired hop counts, or fails on an unconnected pair |
| Engine.HopSim.NoPathSticks | sim.py:440-441 | once a shortest-path query fails the whole node average fails |
| Engine.HopSim.Run | sim.py:507-517 | the per-node averages summed columns-outer (GridTotal) divided by numTotalTSV + numTotalMemCtrl, NoPath when some node is unreachable; non-negative when the probabilities are |
| Engine.HopSim.PossibleTSVLayouts | sim.py:493-505 | the four nested loops list every 4-tuple of configured names in loop order |
| Engine.HopSim.Trial | sim.py:540-545 | one sweep iteration: the isolated list remembered for this orientation only (the other left alone), the TSV sites and their count; ZeroTsv exactly when no TSV is placed, with an empty graph and the probabilities unchanged; otherwise the three probabilities 0.3/numTotalTSV, 0.7/numTotalMemCtrl, 1/numTotalTSV, the topology's edges, the grid nodes, the labels, and the result Unreachable when the grid total is NoPath, else that total over numTotalTSV + numTotalMemCtrl, which is non-negative |
| Engine.HopSim.Finish | sim.py:141-143 | after placement: ZeroTsv exactly when no TSV was placed (the graph stays empty); otherwise the graph, labels and result of Evaluate |
| Engine.HopSim.Evaluate | sim.py:544-545 | building the cleared graph gives (the predicate Built) exactly the topology's edges, the grid nodes and the labels; the result is Unreachable when the grid total is NoPath, else that total over numTotalTSV + numTotalMemCtrl, non-negative |

## Left out

- main.py (reading and printing `config.ini`) and the string splitting in `__init__`: the grid sizes, topology names and pattern names are constructor parameters.
- `visualize`, `__visualize`, `checkNodeType` and the plotting, printing, `np.mean`/`np.std` and outer sweep loops of `run`. Only the body of one sweep iteration is modelled (`Trial`).
- The attributes `topolgy`, `isSquare` and `tsvLayout`, which `run` sets before each step: they are passed to `Place`, `SetTopology` and `Trial` as parameters.
- `numTotalTSV` and the probabilities, `None` before the first placement, start as 0 in the model.
- networkx: the graph container is a set of ids plus a set of arcs. `nx.shortest_path` is the `Distance` table, which is not computed from the edges. A `NetworkXNoPath` raise becomes the `NoPath` result.
- `random.randint`: the values drawn are the `draws` parameter, assumed to hold enough distinct values in range. Termination of the rejection loop for a real random source is not modelled.
- `np.float32`: probabilities, sums and averages are exact reals. Rounding is not modelled.
- The `ZeroDivisionError` raised when no TSV is placed: `Place` returns `false` and leaves the probabilities unchanged; `Trial` returns `Err(ZeroTsv)`.
- `__place` places and counts only `tsvDispDict[0..3]`, so the source works with any layout of at least four entries; fewer raise KeyError. Entries past the fourth are still matched: an unrecognised one empties `chipletOffsetList`, so no chiplet gets a TSV while `numTotalTSV` still counts the first four lists; an `isolated` one may draw and remember the isolated list for later calls. Their own displacements are never placed. `Place` and `Trial` require exactly four entries, as every layout `__getPossibleTSVLayout` builds has; longer layouts are not modelled.
- The `None` returned by `__getAvgHopCountAt` for a node without a recognised kind cannot occur: every node has one of the three kinds.
- Structure only, not behaviour: the loop of `__place` is split into the methods `ChipletTable` and `CollectSites`, and `__setTopolgy`'s steps into `AddGridNodes`, `BuildLinks` and `SetNodeType`. The loops and their order are kept.
