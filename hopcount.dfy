/**
 * The hop-count evaluator (HopSim.__getAvgHopCountAt and HopSim.__run):
 * a weighted sum of shortest-path lengths from one node to the nodes it
 * exchanges traffic with, and the grid-wide total of those sums.
 *
 * Shortest-path lengths come from the graph library; here they are a
 * table `dist` from (source, destination) to hop count, with no entry for
 * a pair the graph does not connect.
 */
module HopCount {
  import opened Grid
  import opened Classification

  /** Which traffic class a (source, destination) pair belongs to. */
  datatype Demand = NoDemand | CoreToCore | CoreToMemCtrl | MemCtrlToCore

  /** A sum of weighted hop counts, or NoPath when a shortest-path query failed because the graph does not connect the pair. */
  datatype HopSum = Sum(value: real) | NoPath

  /** probCoreToCore, probCoreToMemCtrl, probMemCtrlToCore. */
  datatype Probs = Probs(coreToCore: real, coreToMemCtrl: real, memCtrlToCore: real)

  /** Hop count of a shortest path from the first node to the second, for each connected pair. */
  type Distance = map<(int, int), nat>

  /**
   * The match in __getAvgHopCountAt: a TSV source pairs with TSV nodes of
   * another chiplet and with MEMCTRL nodes; a MEMCTRL source pairs with TSV
   * nodes; a NORMAL source pairs with nothing.
   */
  function DemandOf(src: NodeType, dst: NodeType): (r: Demand)
    ensures r == CoreToCore <==> src.kind == Tsv && dst.kind == Tsv && src.chipletNo != dst.chipletNo
    ensures r == CoreToMemCtrl <==> src.kind == Tsv && dst.kind == MemCtrl
    ensures r == MemCtrlToCore <==> src.kind == MemCtrl && dst.kind == Tsv
  {
    match src.kind
    case Normal => NoDemand
    case Tsv =>
      if dst.kind == Tsv && src.chipletNo != dst.chipletNo then CoreToCore
      else if dst.kind == MemCtrl then CoreToMemCtrl
      else NoDemand
    case MemCtrl => if dst.kind == Tsv then MemCtrlToCore else NoDemand
  }

  /** A node never exchanges traffic with a node of its own type, itself included. */
  lemma NoSelfDemand(t: NodeType)
    ensures DemandOf(t, t) == NoDemand
  {
  }

  function Rate(p: Probs, d: Demand): real
  {
    match d
    case NoDemand => 0.0
    case CoreToCore => p.coreToCore
    case CoreToMemCtrl => p.coreToMemCtrl
    case MemCtrlToCore => p.memCtrlToCore
  }

  /** Every id 0 .. n-1 carries a type. */
  predicate Typed(types: map<int, NodeType>, n: nat)
  {
    forall d :: 0 <= d < n ==> d in types
  }

  /**
   * The accumulator of __getAvgHopCountAt after destinations 0 .. k-1:
   * each paired destination adds its rate times its hop count, and the
   * first paired destination with no path aborts the sum.
   */
  function WeightedSum(types: map<int, NodeType>, p: Probs, dist: Distance, s: int, k: nat): HopSum
    requires s in types && Typed(types, k)
  {
    if k == 0 then Sum(0.0)
    else
      var acc := WeightedSum(types, p, dist, s, k - 1);
      var demand := DemandOf(types[s], types[k - 1]);
      if acc.NoPath? || demand == NoDemand then acc
      else if (s, k - 1) !in dist then NoPath
      else Sum(acc.value + Rate(p, demand) * dist[(s, k - 1)] as real)
  }

  /** One more destination: the accumulator step of __getAvgHopCountAt. */
  lemma WeightedSumStep(types: map<int, NodeType>, p: Probs, dist: Distance, s: int, k: nat)
    requires s in types && Typed(types, k + 1)
    ensures var acc := WeightedSum(types, p, dist, s, k);
      var demand := DemandOf(types[s], types[k]);
      WeightedSum(types, p, dist, s, k + 1)
        == if acc.NoPath? || demand == NoDemand then acc
           else if (s, k) !in dist then NoPath
           else Sum(acc.value + Rate(p, demand) * dist[(s, k)] as real)
  {
  }

  /** __getAvgHopCountAt(s) over a network of n nodes. */
  function AvgHopAt(types: map<int, NodeType>, p: Probs, dist: Distance, s: int, n: nat): HopSum
    requires s in types && Typed(types, n)
  {
    if types[s].kind == Normal then Sum(0.0) else WeightedSum(types, p, dist, s, n)
  }

  /** Every destination below k that s is paired with is reachable from s. */
  predicate Reachable(types: map<int, NodeType>, dist: Distance, s: int, k: nat)
    requires s in types && Typed(types, k)
  {
    forall d :: 0 <= d < k && DemandOf(types[s], types[d]) != NoDemand ==> (s, d) in dist
  }

  /** Summed hop counts from s to the destinations below k in traffic class `demand`. */
  function HopTotal(types: map<int, NodeType>, dist: Distance, s: int, k: nat, demand: Demand): nat
    requires s in types && Typed(types, k)
  {
    if k == 0 then 0
    else
      var rest := HopTotal(types, dist, s, k - 1, demand);
      if DemandOf(types[s], types[k - 1]) == demand && (s, k - 1) in dist then rest + dist[(s, k - 1)]
      else rest
  }

  /** The weighted sum with the three probabilities factored out of the hop totals. */
  function Split(types: map<int, NodeType>, p: Probs, dist: Distance, s: int, k: nat): real
    requires s in types && Typed(types, k)
  {
    Weighted(p, HopTotal(types, dist, s, k, CoreToCore) as real,
      HopTotal(types, dist, s, k, CoreToMemCtrl) as real,
      HopTotal(types, dist, s, k, MemCtrlToCore) as real)
  }

  /** Core-to-core, core-to-memory and memory-to-core amounts weighted by their probabilities. */
  function Weighted(p: Probs, c2c: real, c2m: real, m2c: real): real
  {
    p.coreToCore * c2c + p.coreToMemCtrl * c2m + p.memCtrlToCore * m2c
  }

  /** Weighting distributes over adding amounts. */
  lemma WeightedAdd(p: Probs, a: real, b: real, c: real, x: real, y: real, z: real)
    ensures Weighted(p, a + x, b + y, c + z) == Weighted(p, a, b, c) + Weighted(p, x, y, z)
  {
  }

  /** The sum fails exactly when some paired destination is unreachable. */
  lemma {:induction false} WeightedSumFails(types: map<int, NodeType>, p: Probs, dist: Distance, s: int, k: nat)
    requires s in types && Typed(types, k)
    ensures WeightedSum(types, p, dist, s, k).NoPath? <==> !Reachable(types, dist, s, k)
  {
    if k > 0 {
      WeightedSumFails(types, p, dist, s, k - 1);
      if !Reachable(types, dist, s, k - 1) {
        var d :| 0 <= d < k - 1 && DemandOf(types[s], types[d]) != NoDemand && (s, d) !in dist;
      }
    }
  }

  /** What destination d adds to the sum from s: its rate times its hop count, if paired and reachable. */
  function Gain(types: map<int, NodeType>, p: Probs, dist: Distance, s: int, d: int): real
    requires s in types && d in types
  {
    var demand := DemandOf(types[s], types[d]);
    if demand != NoDemand && (s, d) in dist then Rate(p, demand) * dist[(s, d)] as real else 0.0
  }

  /** What destination d adds to HopTotal(.., demand): its hop count if it is in that class and reachable. */
  function Hops(types: map<int, NodeType>, dist: Distance, s: int, d: int, demand: Demand): nat
    requires s in types && d in types
  {
    if DemandOf(types[s], types[d]) == demand && (s, d) in dist then dist[(s, d)] else 0
  }

  lemma HopTotalStep(types: map<int, NodeType>, dist: Distance, s: int, k: nat, demand: Demand)
    requires s in types && Typed(types, k + 1)
    ensures HopTotal(types, dist, s, k + 1, demand) == HopTotal(types, dist, s, k, demand) + Hops(types, dist, s, k, demand)
  {
  }

  /** The gain of d is its hop count weighted by the probability of its class. */
  lemma GainByHops(types: map<int, NodeType>, p: Probs, dist: Distance, s: int, d: int)
    requires s in types && d in types
    ensures Gain(types, p, dist, s, d)
      == Weighted(p, Hops(types, dist, s, d, CoreToCore) as real,
           Hops(types, dist, s, d, CoreToMemCtrl) as real,
           Hops(types, dist, s, d, MemCtrlToCore) as real)
  {
  }

  /** One more destination adds its gain to the factored sum. */
  lemma SplitStep(types: map<int, NodeType>, p: Probs, dist: Distance, s: int, k: nat)
    requires s in types && Typed(types, k + 1)
    ensures Split(types, p, dist, s, k + 1) == Split(types, p, dist, s, k) + Gain(types, p, dist, s, k)
  {
    HopTotalStep(types, dist, s, k, CoreToCore);
    HopTotalStep(types, dist, s, k, CoreToMemCtrl);
    HopTotalStep(types, dist, s, k, MemCtrlToCore);
    GainByHops(types, p, dist, s, k);
    WeightedAdd(p,
      HopTotal(types, dist, s, k, CoreToCore) as real,
      HopTotal(types, dist, s, k, CoreToMemCtrl) as real,
      HopTotal(types, dist, s, k, MemCtrlToCore) as real,
      Hops(types, dist, s, k, CoreToCore) as real,
      Hops(types, dist, s, k, CoreToMemCtrl) as real,
      Hops(types, dist, s, k, MemCtrlToCore) as real);
  }

  /**
   * A successful sum is probCoreToCore times the core-to-core hops, plus
   * probCoreToMemCtrl times the core-to-memory hops, plus
   * probMemCtrlToCore times the memory-to-core hops.
   */
  lemma {:induction false} WeightedSumSplit(types: map<int, NodeType>, p: Probs, dist: Distance, s: int, k: nat)
    requires s in types && Typed(types, k)
    ensures WeightedSum(types, p, dist, s, k).Sum? ==> WeightedSum(types, p, dist, s, k).value == Split(types, p, dist, s, k)
  {
    if k > 0 {
      WeightedSumSplit(types, p, dist, s, k - 1);
      WeightedSumStep(types, p, dist, s, k - 1);
      SplitStep(types, p, dist, s, k - 1);
      var acc := WeightedSum(types, p, dist, s, k - 1);
      if WeightedSum(types, p, dist, s, k).Sum? {
        assert acc.Sum?;
        assert acc.value == Split(types, p, dist, s, k - 1);
        assert WeightedSum(types, p, dist, s, k).value == acc.value + Gain(types, p, dist, s, k - 1);
        assert Split(types, p, dist, s, k) == Split(types, p, dist, s, k - 1) + Gain(types, p, dist, s, k - 1);
      }
    } else {
      WeightedAdd(p, 0.0, 0.0, 0.0, 0.0, 0.0, 0.0);
      assert Split(types, p, dist, s, 0) == Weighted(p, 0.0, 0.0, 0.0);
    }
  }

  /**
   * What each kind of source node contributes: 0 for NORMAL; for a TSV
   * the core-to-core and core-to-memory terms only; for a MEMCTRL the
   * memory-to-core term only.
   */
  lemma {:induction false} HopTotalByKind(types: map<int, NodeType>, dist: Distance, s: int, k: nat)
    requires s in types && Typed(types, k)
    ensures types[s].kind != MemCtrl ==> HopTotal(types, dist, s, k, MemCtrlToCore) == 0
    ensures types[s].kind != Tsv ==> HopTotal(types, dist, s, k, CoreToCore) == 0
    ensures types[s].kind != Tsv ==> HopTotal(types, dist, s, k, CoreToMemCtrl) == 0
  {
    if k > 0 {
      HopTotalByKind(types, dist, s, k - 1);
    }
  }

  /** With non-negative probabilities, a successful sum is non-negative. */
  lemma AvgHopNonNegative(types: map<int, NodeType>, p: Probs, dist: Distance, s: int, n: nat)
    requires s in types && Typed(types, n)
    requires p.coreToCore >= 0.0 && p.coreToMemCtrl >= 0.0 && p.memCtrlToCore >= 0.0
    ensures AvgHopAt(types, p, dist, s, n).Sum? ==> AvgHopAt(types, p, dist, s, n).value >= 0.0
  {
    if types[s].kind != Normal {
      WeightedSumSplit(types, p, dist, s, n);
      var a, b, c := HopTotal(types, dist, s, n, CoreToCore) as real,
        HopTotal(types, dist, s, n, CoreToMemCtrl) as real,
        HopTotal(types, dist, s, n, MemCtrlToCore) as real;
      NonNegProduct(p.coreToCore, a);
      NonNegProduct(p.coreToMemCtrl, b);
      NonNegProduct(p.memCtrlToCore, c);
    }
  }

  lemma NonNegProduct(x: real, y: real)
    requires x >= 0.0 && y >= 0.0
    ensures x * y >= 0.0
  {
  }

  /** A labelling of the whole grid types every node id. */
  lemma LabelsTyped(isSquare: bool, numX: int, numY: int, tsvIndexList: seq<Coord>)
    requires numX > 0 && numY >= 0
    ensures Typed(Labels(isSquare, numX, numY, tsvIndexList), numX * numY)
  {
  }

  lemma NonNegRatio(a: real, n: int)
    requires a >= 0.0 && n > 0
    ensures a / n as real >= 0.0
  {
  }

  /** Error combination of `+=`: the first failure wins. */
  function Plus(a: HopSum, b: HopSum): (r: HopSum)
    ensures r.NoPath? <==> a.NoPath? || b.NoPath?
    ensures r.Sum? ==> r.value == a.value + b.value
  {
    if a.NoPath? then a else if b.NoPath? then b else Sum(a.value + b.value)
  }

  lemma GridNodeId(numX: int, numY: int, x: int, y: int)
    requires 0 <= x < numX && 0 <= y < numY
    ensures 0 <= To1D(numX, (x, y)) < numX * numY
  {
    RoundTrip2D(numX, (x, y));
    InGridRange(numX, numY, To1D(numX, (x, y)));
  }

  /** __getAvgHopCountAt of grid node (x, y). */
  function NodeAvg(types: map<int, NodeType>, p: Probs, dist: Distance, numX: int, numY: int, x: int, y: int): HopSum
    requires 0 <= x < numX && 0 <= y < numY && Typed(types, numX * numY)
  {
    GridNodeId(numX, numY, x, y);
    AvgHopAt(types, p, dist, To1D(numX, (x, y)), numX * numY)
  }

  /** The inner loop of __run: column x, rows 0 .. j-1. */
  function ColumnTotal(types: map<int, NodeType>, p: Probs, dist: Distance, numX: int, numY: int, x: int, j: nat): HopSum
    requires numX > 0 && 0 <= x < numX && j <= numY
    requires Typed(types, numX * numY)
  {
    if j == 0 then Sum(0.0)
    else
      Plus(ColumnTotal(types, p, dist, numX, numY, x, j - 1),
           NodeAvg(types, p, dist, numX, numY, x, j - 1))
  }

  /** The outer loop of __run: columns 0 .. i-1. */
  function GridTotal(types: map<int, NodeType>, p: Probs, dist: Distance, numX: int, numY: nat, i: nat): HopSum
    requires numX > 0 && i <= numX
    requires Typed(types, numX * numY)
  {
    if i == 0 then Sum(0.0)
    else
      Plus(GridTotal(types, p, dist, numX, numY, i - 1),
           ColumnTotal(types, p, dist, numX, numY, i - 1, numY))
  }

  /** What __run returns from the grid total: the total divided by `count`, or NoPath when some query failed. */
  function Average(total: HopSum, count: int): HopSum
    requires count != 0
  {
    match total
    case NoPath => NoPath
    case Sum(v) => Sum(v / count as real)
  }

  /** Some node of column x, rows 0 .. j-1, fails to reach a node it is paired with. */
  predicate ColumnFails(types: map<int, NodeType>, p: Probs, dist: Distance, numX: int, numY: nat, x: int, j: nat)
    requires numX > 0 && 0 <= x < numX && j <= numY
    requires Typed(types, numX * numY)
  {
    exists y :: 0 <= y < j && NodeAvg(types, p, dist, numX, numY, x, y).NoPath?
  }

  lemma {:induction false} ColumnTotalFails(types: map<int, NodeType>, p: Probs, dist: Distance, numX: int, numY: nat, x: int, j: nat)
    requires numX > 0 && 0 <= x < numX && j <= numY
    requires Typed(types, numX * numY)
    ensures ColumnTotal(types, p, dist, numX, numY, x, j).NoPath? <==> ColumnFails(types, p, dist, numX, numY, x, j)
  {
    if j > 0 {
      ColumnTotalFails(types, p, dist, numX, numY, x, j - 1);
      if NodeAvg(types, p, dist, numX, numY, x, j - 1).NoPath? {
        assert ColumnFails(types, p, dist, numX, numY, x, j);
      }
      if ColumnFails(types, p, dist, numX, numY, x, j - 1) {
        var y :| 0 <= y < j - 1 && NodeAvg(types, p, dist, numX, numY, x, y).NoPath?;
        assert ColumnFails(types, p, dist, numX, numY, x, j);
      }
      if ColumnFails(types, p, dist, numX, numY, x, j) {
        var y :| 0 <= y < j && NodeAvg(types, p, dist, numX, numY, x, y).NoPath?;
        if y < j - 1 {
          assert ColumnFails(types, p, dist, numX, numY, x, j - 1);
        }
      }
    }
  }

  /** Some column 0 .. i-1 holds a node that fails to reach a node it is paired with. */
  predicate GridFails(types: map<int, NodeType>, p: Probs, dist: Distance, numX: int, numY: nat, i: nat)
    requires numX > 0 && i <= numX
    requires Typed(types, numX * numY)
  {
    exists x :: 0 <= x < i && ColumnFails(types, p, dist, numX, numY, x, numY)
  }

  /** One more column fails the grid exactly when it fails itself or an earlier one does. */
  lemma GridFailsStep(types: map<int, NodeType>, p: Probs, dist: Distance, numX: int, numY: nat, i: nat)
    requires numX > 0 && 0 < i <= numX
    requires Typed(types, numX * numY)
    ensures GridFails(types, p, dist, numX, numY, i)
      <==> GridFails(types, p, dist, numX, numY, i - 1) || ColumnFails(types, p, dist, numX, numY, i - 1, numY)
  {
    if ColumnFails(types, p, dist, numX, numY, i - 1, numY) {
      assert GridFails(types, p, dist, numX, numY, i);
    }
    if GridFails(types, p, dist, numX, numY, i - 1) {
      var x :| 0 <= x < i - 1 && ColumnFails(types, p, dist, numX, numY, x, numY);
      assert GridFails(types, p, dist, numX, numY, i);
    }
    if GridFails(types, p, dist, numX, numY, i) {
      var x :| 0 <= x < i && ColumnFails(types, p, dist, numX, numY, x, numY);
      if x < i - 1 {
        assert GridFails(types, p, dist, numX, numY, i - 1);
      }
    }
  }

  /**
   * __run fails exactly when some grid node fails to reach a node it is
   * paired with (the graph library raises on the first such query).
   */
  lemma {:induction false} GridTotalFails(types: map<int, NodeType>, p: Probs, dist: Distance, numX: int, numY: nat, i: nat)
    requires numX > 0 && i <= numX
    requires Typed(types, numX * numY)
    ensures GridTotal(types, p, dist, numX, numY, i).NoPath? <==> GridFails(types, p, dist, numX, numY, i)
  {
    if i > 0 {
      GridTotalFails(types, p, dist, numX, numY, i - 1);
      ColumnTotalFails(types, p, dist, numX, numY, i - 1, numY);
      GridFailsStep(types, p, dist, numX, numY, i);
    }
  }

  /** With non-negative probabilities, a successful column total is non-negative. */
  lemma {:induction false} ColumnTotalNonNegative(types: map<int, NodeType>, p: Probs, dist: Distance, numX: int, numY: nat, x: int, j: nat)
    requires numX > 0 && 0 <= x < numX && j <= numY
    requires Typed(types, numX * numY)
    requires p.coreToCore >= 0.0 && p.coreToMemCtrl >= 0.0 && p.memCtrlToCore >= 0.0
    ensures ColumnTotal(types, p, dist, numX, numY, x, j).Sum? ==> ColumnTotal(types, p, dist, numX, numY, x, j).value >= 0.0
  {
    if j > 0 {
      ColumnTotalNonNegative(types, p, dist, numX, numY, x, j - 1);
      GridNodeId(numX, numY, x, j - 1);
      AvgHopNonNegative(types, p, dist, To1D(numX, (x, j - 1)), numX * numY);
    }
  }

  /** With non-negative probabilities, a successful grid total is non-negative. */
  lemma {:induction false} GridTotalNonNegative(types: map<int, NodeType>, p: Probs, dist: Distance, numX: int, numY: nat, i: nat)
    requires numX > 0 && i <= numX
    requires Typed(types, numX * numY)
    requires p.coreToCore >= 0.0 && p.coreToMemCtrl >= 0.0 && p.memCtrlToCore >= 0.0
    ensures GridTotal(types, p, dist, numX, numY, i).Sum? ==> GridTotal(types, p, dist, numX, numY, i).value >= 0.0
  {
    if i > 0 {
      GridTotalNonNegative(types, p, dist, numX, numY, i - 1);
      ColumnTotalNonNegative(types, p, dist, numX, numY, i - 1, numY);
    }
  }

  /** One failing grid node makes the whole of __run fail. */
  lemma NodeFailureFailsGrid(types: map<int, NodeType>, p: Probs, dist: Distance, numX: int, numY: nat, x: int, y: int)
    requires 0 <= x < numX && 0 <= y < numY && Typed(types, numX * numY)
    requires NodeAvg(types, p, dist, numX, numY, x, y).NoPath?
    ensures GridTotal(types, p, dist, numX, numY, numX).NoPath?
  {
    assert ColumnFails(types, p, dist, numX, numY, x, numY);
    assert GridFails(types, p, dist, numX, numY, numX);
    GridTotalFails(types, p, dist, numX, numY, numX);
  }
}
