/**
 * The quadratic hybrid solver: the imperative assembly of the hybrid
 * system, the pseudo-anchor update of later iterations, and one solve step
 * that writes the new moveable-node locations back into the placement.
 * Every method is proved against the specification functions of
 * `AnalyticalSystem`.
 */
module AnalyticalSolver {
  import opened AnalyticalSystem

  /** The partial placement: the netlist view and the location of every node. */
  class PartialPlacement {
    const numMoveableNodes: nat
    const netlist: seq<AtomNet>
    const nodeLocX: array<real>
    const nodeLocY: array<real>

    ghost predicate Valid() {
      nodeLocX != nodeLocY &&
      nodeLocX.Length == nodeLocY.Length &&
      numMoveableNodes <= nodeLocX.Length &&
      NetlistOk(netlist, nodeLocX.Length)
    }

    constructor (numMoveableNodes: nat, netlist: seq<AtomNet>, nodeLocX: array<real>, nodeLocY: array<real>)
      requires nodeLocX != nodeLocY && nodeLocX.Length == nodeLocY.Length
      requires numMoveableNodes <= nodeLocX.Length && NetlistOk(netlist, nodeLocX.Length)
      ensures Valid()
      ensures this.numMoveableNodes == numMoveableNodes && this.netlist == netlist
      ensures this.nodeLocX == nodeLocX && this.nodeLocY == nodeLocY
    {
      this.numMoveableNodes := numMoveableNodes;
      this.netlist := netlist;
      this.nodeLocX := nodeLocX;
      this.nodeLocY := nodeLocY;
    }
  }

  /** The system of a placement, as a specification. */
  ghost function PlacementStamps(pl: PartialPlacement): seq<Stamp>
    requires pl.Valid()
    reads pl.nodeLocX, pl.nodeLocY
  {
    SystemStamps(pl.netlist, pl.numMoveableNodes, pl.nodeLocX[..], pl.nodeLocY[..])
  }

  /**
   * Builds the hybrid system of the placement: one row per moveable node,
   * then one row per star net, the matrix as its triplet list and the two
   * right-hand sides.
   */
  method PopulateHybridMatrix(pl: PartialPlacement) returns (dim: nat, triplets: seq<Triplet>, rhsX: seq<real>, rhsY: seq<real>)
    requires pl.Valid()
    ensures dim == SystemDim(pl.netlist, pl.numMoveableNodes)
    ensures triplets == Expand(PlacementStamps(pl))
    ensures rhsX == RhsVector(PlacementStamps(pl), X, dim)
    ensures rhsY == RhsVector(PlacementStamps(pl), Y, dim)
  {
    var nets, m := pl.netlist, pl.numMoveableNodes;
    var lx, ly := pl.nodeLocX[..], pl.nodeLocY[..];
    var numStarNodes := CountStarNodes(nets);
    dim := m + numStarNodes;
    var bxa := new real[dim](_ => 0.0);
    var bya := new real[dim](_ => 0.0);
    assert Assembly([], bxa[..], bya[..]) == EmptyAssembly(dim);
    triplets := StampNets(nets, m, lx, ly, bxa, bya);
    AssembledIsSystem(SystemStamps(nets, m, lx, ly), dim);
    rhsX, rhsY := bxa[..], bya[..];
  }

  /** The first loop: the number of considered nets with more than three pins. */
  method CountStarNodes(nets: seq<AtomNet>) returns (numStarNodes: nat)
    ensures numStarNodes == StarCount(nets)
  {
    numStarNodes := 0;
    var k := 0;
    while k < |nets|
      invariant k <= |nets| && numStarNodes == StarCount(nets[..k])
    {
      StarCountStep(nets, k);
      if !nets[k].ignored && |nets[k].pins| > 3 {
        numStarNodes := numStarNodes + 1;
      }
      k := k + 1;
    }
    assert nets[..|nets|] == nets;
  }

  /**
   * The second loop: every net in order, the star rows numbered from `m`
   * upwards, onto an empty triplet list and the right-hand sides `rhsX`,
   * `rhsY` of the system dimension.
   */
  method StampNets(nets: seq<AtomNet>, m: nat, lx: seq<real>, ly: seq<real>, rhsX: array<real>, rhsY: array<real>)
    returns (ts: seq<Triplet>)
    requires NetlistOk(nets, |lx|) && |lx| == |ly|
    requires rhsX != rhsY && rhsX.Length == rhsY.Length == SystemDim(nets, m)
    modifies rhsX, rhsY
    ensures Assembly(ts, rhsX[..], rhsY[..]) == AssembleFrom(Assembly([], old(rhsX[..]), old(rhsY[..])), SystemStamps(nets, m, lx, ly))
  {
    ghost var start := Assembly([], rhsX[..], rhsY[..]);
    ts := [];
    var starNodeOffset: nat := 0;
    var k := 0;
    NoNetsYet(nets, m, lx, ly, start);
    while k < |nets|
      invariant k <= |nets|
      invariant starNodeOffset == StarCount(nets[..k])
      invariant Assembly(ts, rhsX[..], rhsY[..]) == AssembleFrom(start, SystemStamps(nets[..k], m, lx, ly))
    {
      ts, starNodeOffset := StampNextNet(nets, k, starNodeOffset, m, lx, ly, rhsX, rhsY, ts, start);
      k := k + 1;
    }
    assert nets[..|nets|] == nets;
  }

  /** One turn of the second loop: net k stamped with star row `m + offset`, the offset moved past a star net. */
  method StampNextNet(nets: seq<AtomNet>, k: nat, offset: nat, m: nat, lx: seq<real>, ly: seq<real>,
                      rhsX: array<real>, rhsY: array<real>, ts0: seq<Triplet>, ghost start: Assembly)
    returns (ts: seq<Triplet>, offset': nat)
    requires k < |nets| && NetlistOk(nets, |lx|) && |lx| == |ly|
    requires rhsX != rhsY && rhsX.Length == rhsY.Length == SystemDim(nets, m)
    requires offset == StarCount(nets[..k])
    requires Assembly(ts0, rhsX[..], rhsY[..]) == AssembleFrom(start, SystemStamps(nets[..k], m, lx, ly))
    modifies rhsX, rhsY
    ensures offset' == StarCount(nets[..k + 1])
    ensures Assembly(ts, rhsX[..], rhsY[..]) == AssembleFrom(start, SystemStamps(nets[..k + 1], m, lx, ly))
  {
    ghost var before := Assembly(ts0, rhsX[..], rhsY[..]);
    var net := nets[k];
    assert NetOk(net, |lx|);
    StarRowInRange(nets, m, k);
    assert IsStar(net) ==> m + offset < rhsX.Length;
    ts := StampNet(net, m + offset, m, lx, ly, rhsX, rhsY, ts0);
    ghost var after := Assembly(ts, rhsX[..], rhsY[..]);
    NetDone(nets, k, net, m + offset, m, lx, ly, start, before, after);
    StarCountStep(nets, k);
    offset' := offset;
    if IsStar(net) {
      offset' := offset + 1;
    }
  }

  /**
   * One net of the assembly loop: an ignored net adds nothing, a net with
   * more than three pins is stamped as a star around row `s`, any other as a
   * clique.
   */
  method StampNet(net: AtomNet, s: nat, m: nat, lx: seq<real>, ly: seq<real>,
                  rhsX: array<real>, rhsY: array<real>, ts0: seq<Triplet>)
    returns (ts: seq<Triplet>)
    requires NetOk(net, |lx|) && |lx| == |ly|
    requires rhsX != rhsY && m <= rhsX.Length == rhsY.Length
    requires IsStar(net) ==> s < rhsX.Length
    modifies rhsX, rhsY
    ensures Assembly(ts, rhsX[..], rhsY[..])
         == AssembleFrom(Assembly(ts0, old(rhsX[..]), old(rhsY[..])), NetStamps(net, s, m, lx, ly))
  {
    ts := ts0;
    if !net.ignored {
      var numPins := |net.pins|;
      if numPins > 3 {
        var w := numPins as real / (numPins - 1) as real;
        ts := StampStarNet(net.pins, s, w, m, lx, ly, rhsX, rhsY, ts);
      } else {
        var w := 1.0 / (numPins - 1) as real;
        ts := StampCliqueNet(net.pins, w, m, lx, ly, rhsX, rhsY, ts);
      }
    }
  }

  /**
   * The star branch: every pin of the net is connected to the star node `s`.
   * `lx` and `ly` are the node locations of the placement; `rhsX`, `rhsY`
   * and the triplet list are the assembly so far.
   */
  method StampStarNet(pins: seq<nat>, s: nat, w: real, m: nat, lx: seq<real>, ly: seq<real>,
                      rhsX: array<real>, rhsY: array<real>, ts0: seq<Triplet>)
    returns (ts: seq<Triplet>)
    requires PinsIn(pins, |lx|) && |lx| == |ly|
    requires rhsX != rhsY && s < rhsX.Length == rhsY.Length
    modifies rhsX, rhsY
    ensures Assembly(ts, rhsX[..], rhsY[..])
         == AssembleFrom(Assembly(ts0, old(rhsX[..]), old(rhsY[..])), StarStamps(pins, s, w, m, lx, ly))
  {
    ghost var start := Assembly(ts0, rhsX[..], rhsY[..]);
    ts := ts0;
    var q := 0;
    while q < |pins|
      invariant q <= |pins|
      invariant Assembly(ts, rhsX[..], rhsY[..]) == AssembleFrom(start, StarStamps(pins[..q], s, w, m, lx, ly))
    {
      ghost var before := Assembly(ts, rhsX[..], rhsY[..]);
      ts := StampStarPin(pins[q], s, w, m, lx, ly, rhsX, rhsY, ts);
      StarStampsSnoc(pins, q, s, w, m, lx, ly);
      AssembleChain(start, StarStamps(pins[..q], s, w, m, lx, ly), [StarPinStamp(pins[q], s, w, m, lx, ly)],
                    StarStamps(pins[..q + 1], s, w, m, lx, ly), before, Assembly(ts, rhsX[..], rhsY[..]));
      q := q + 1;
    }
    assert pins[..|pins|] == pins;
  }

  /** One pin of a star net: a moveable node is linked to the star node, a fixed one anchors it. */
  method StampStarPin(node: nat, s: nat, w: real, m: nat, lx: seq<real>, ly: seq<real>,
                      rhsX: array<real>, rhsY: array<real>, ts0: seq<Triplet>)
    returns (ts: seq<Triplet>)
    requires node < |lx| && |lx| == |ly|
    requires rhsX != rhsY && s < rhsX.Length == rhsY.Length
    modifies rhsX, rhsY
    ensures Assembly(ts, rhsX[..], rhsY[..])
         == AssembleFrom(Assembly(ts0, old(rhsX[..]), old(rhsY[..])), [StarPinStamp(node, s, w, m, lx, ly)])
  {
    AssembleOne(Assembly(ts0, rhsX[..], rhsY[..]), StarPinStamp(node, s, w, m, lx, ly));
    if node < m {
      ts := ts0 + [Triplet(s, s, w), Triplet(node, node, w), Triplet(s, node, -w), Triplet(node, s, -w)];
    } else {
      ts := ts0 + [Triplet(s, s, w)];
      rhsX[s] := rhsX[s] + Pull(w, lx[node]);
      rhsY[s] := rhsY[s] + Pull(w, ly[node]);
    }
  }

  /**
   * The clique branch, every pin pair i < j in loop order.  Both nodes of a
   * pair are looked up afresh for every pair.
   */
  method StampCliqueNet(pins: seq<nat>, w: real, m: nat, lx: seq<real>, ly: seq<real>,
                        rhsX: array<real>, rhsY: array<real>, ts0: seq<Triplet>)
    returns (ts: seq<Triplet>)
    requires PinsIn(pins, |lx|) && |lx| == |ly|
    requires rhsX != rhsY && m <= rhsX.Length == rhsY.Length
    modifies rhsX, rhsY
    ensures Assembly(ts, rhsX[..], rhsY[..])
         == AssembleFrom(Assembly(ts0, old(rhsX[..]), old(rhsY[..])), CliqueStamps(pins, w, m, lx, ly))
  {
    ghost var start := Assembly(ts0, rhsX[..], rhsY[..]);
    var n := |pins|;
    ts := ts0;
    var i := 0;
    while i < n
      invariant i <= n
      invariant Assembly(ts, rhsX[..], rhsY[..]) == AssembleFrom(start, PairsStamps(pins, PairsBefore(n, i), w, m, lx, ly))
    {
      ghost var before := Assembly(ts, rhsX[..], rhsY[..]);
      ts := StampCliqueRow(pins, i, w, m, lx, ly, rhsX, rhsY, ts);
      CliqueRowDone(pins, i, w, m, lx, ly, start, before, Assembly(ts, rhsX[..], rhsY[..]));
      i := i + 1;
    }
  }

  /** Row i of the clique loops: pin i paired with pins i+1 .. n-1 in order. */
  method StampCliqueRow(pins: seq<nat>, i: nat, w: real, m: nat, lx: seq<real>, ly: seq<real>,
                        rhsX: array<real>, rhsY: array<real>, ts0: seq<Triplet>)
    returns (ts: seq<Triplet>)
    requires PinsIn(pins, |lx|) && |lx| == |ly| && i < |pins|
    requires rhsX != rhsY && m <= rhsX.Length == rhsY.Length
    modifies rhsX, rhsY
    ensures Assembly(ts, rhsX[..], rhsY[..])
         == AssembleFrom(Assembly(ts0, old(rhsX[..]), old(rhsY[..])), RowStamps(pins[i], pins[i + 1..], w, m, lx, ly))
  {
    ghost var rowStart := Assembly(ts0, rhsX[..], rhsY[..]);
    var n := |pins|;
    ts := ts0;
    var j := i + 1;
    assert pins[i + 1..j] == [];
    while j < n
      invariant i + 1 <= j <= n
      invariant Assembly(ts, rhsX[..], rhsY[..]) == AssembleFrom(rowStart, RowStamps(pins[i], pins[i + 1..j], w, m, lx, ly))
    {
      ghost var before, prev := Assembly(ts, rhsX[..], rhsY[..]), j;
      ts := StampCliquePair(pins[i], pins[j], w, m, lx, ly, rhsX, rhsY, ts);
      j := j + 1;
      CliqueRowStep(pins, i, prev, j, w, m, lx, ly, rowStart, before, Assembly(ts, rhsX[..], rhsY[..]));
    }
    assert pins[i + 1..n] == pins[i + 1..];
  }

  /**
   * One clique pin pair.  A fixed first node is swapped with a moveable
   * second one; two moveable nodes are linked, a moveable and a fixed node
   * give an anchor on the moveable node's row, two fixed nodes nothing.
   */
  method StampCliquePair(a: nat, b: nat, w: real, m: nat, lx: seq<real>, ly: seq<real>,
                         rhsX: array<real>, rhsY: array<real>, ts0: seq<Triplet>)
    returns (ts: seq<Triplet>)
    requires a < |lx| && b < |lx| && |lx| == |ly|
    requires rhsX != rhsY && m <= rhsX.Length == rhsY.Length
    modifies rhsX, rhsY
    ensures Assembly(ts, rhsX[..], rhsY[..])
         == AssembleFrom(Assembly(ts0, old(rhsX[..]), old(rhsY[..])), PairStamps(a, b, w, m, lx, ly))
  {
    ts := ts0;
    var first, second := a, b;
    if !(first < m) {
      if !(second < m) {
        return;
      }
      first, second := second, first;
    }
    if second < m {
      AssembleOne(Assembly(ts0, rhsX[..], rhsY[..]), Link(first, second, w));
      ts := ts + [Triplet(first, first, w), Triplet(second, second, w), Triplet(first, second, -w), Triplet(second, first, -w)];
    } else {
      AssembleOne(Assembly(ts0, rhsX[..], rhsY[..]), Anchor(first, w, lx[second], ly[second]));
      ts := ts + [Triplet(first, first, w)];
      rhsX[first] := rhsX[first] + Pull(w, lx[second]);
      rhsY[first] := rhsY[first] + Pull(w, ly[second]);
    }
  }

  /**
   * The pseudo-anchor update of a later iteration: every moveable node gets
   * an anchor of weight `coeff` at its current location.
   */
  method PopulateUpdateHybridMatrix(aDiff: seq<Triplet>, bxDiff: array<real>, byDiff: array<real>, pl: PartialPlacement, coeff: real)
    returns (aOut: seq<Triplet>)
    requires pl.Valid()
    requires bxDiff != byDiff && {bxDiff, byDiff} !! {pl.nodeLocX, pl.nodeLocY}
    requires pl.numMoveableNodes <= bxDiff.Length == byDiff.Length
    modifies bxDiff, byDiff
    ensures aOut == aDiff + DiagonalRun(pl.numMoveableNodes, coeff)
    ensures bxDiff[..] == AnchoredRhs(old(bxDiff[..]), pl.nodeLocX[..], coeff, pl.numMoveableNodes)
    ensures byDiff[..] == AnchoredRhs(old(byDiff[..]), pl.nodeLocY[..], coeff, pl.numMoveableNodes)
  {
    aOut := aDiff;
    var i := 0;
    while i < pl.numMoveableNodes
      invariant i <= pl.numMoveableNodes
      invariant aOut == aDiff + DiagonalRun(i, coeff)
      invariant bxDiff[..] == AnchoredRhs(old(bxDiff[..]), pl.nodeLocX[..], coeff, i)
      invariant byDiff[..] == AnchoredRhs(old(byDiff[..]), pl.nodeLocY[..], coeff, i)
    {
      aOut := aOut + [Triplet(i, i, coeff)];
      bxDiff[i] := bxDiff[i] + Pull(coeff, pl.nodeLocX[i]);
      byDiff[i] := byDiff[i] + Pull(coeff, pl.nodeLocY[i]);
      i := i + 1;
    }
  }

  /** A fresh vector holding `v`, as the copy constructor of a dense vector makes. */
  method NewVector(v: seq<real>) returns (a: array<real>)
    ensures fresh(a) && a[..] == v
  {
    a := new real[|v|](i requires 0 <= i < |v| => v[i]);
  }

  /** The last loop of a solve step: the first `numMoveableNodes` entries of the solutions become the moveable locations. */
  method WriteBack(pl: PartialPlacement, x: seq<real>, y: seq<real>)
    requires pl.Valid() && pl.numMoveableNodes <= |x| && pl.numMoveableNodes <= |y|
    modifies pl.nodeLocX, pl.nodeLocY
    ensures pl.nodeLocX[..] == WithMoveable(old(pl.nodeLocX[..]), x, pl.numMoveableNodes)
    ensures pl.nodeLocY[..] == WithMoveable(old(pl.nodeLocY[..]), y, pl.numMoveableNodes)
  {
    var m := pl.numMoveableNodes;
    ghost var lx0, ly0 := pl.nodeLocX[..], pl.nodeLocY[..];
    var node := 0;
    while node < m
      invariant node <= m
      invariant forall j :: 0 <= j < pl.nodeLocX.Length ==> pl.nodeLocX[j] == if j < node then x[j] else lx0[j]
      invariant forall j :: 0 <= j < pl.nodeLocY.Length ==> pl.nodeLocY[j] == if j < node then y[j] else ly0[j]
    {
      pl.nodeLocX[node] := x[node];
      pl.nodeLocY[node] := y[node];
      node := node + 1;
    }
    assert pl.nodeLocX[..] == WithMoveable(lx0, x, m);
    assert pl.nodeLocY[..] == WithMoveable(ly0, y, m);
  }

  /** The solver keeps the hybrid system of the first iteration. */
  class QPHybridSolver {
    var aDim: nat
    var aSparse: seq<Triplet>
    var bX: seq<real>
    var bY: seq<real>

    /** The stored system is the hybrid system of the placement `pl`. */
    ghost predicate Holds(pl: PartialPlacement)
      requires pl.Valid()
      reads this, pl.nodeLocX, pl.nodeLocY
    {
      aDim == SystemDim(pl.netlist, pl.numMoveableNodes) &&
      aSparse == Expand(PlacementStamps(pl)) &&
      bX == RhsVector(PlacementStamps(pl), X, aDim) &&
      bY == RhsVector(PlacementStamps(pl), Y, aDim)
    }

    constructor ()
      ensures aDim == 0 && aSparse == [] && bX == [] && bY == []
    {
      aDim, aSparse, bX, bY := 0, [], [], [];
    }

    /**
     * One solve step.  Iteration 0 builds the system; a later iteration
     * anchors every moveable node at its current location with weight
     * `coeff`.  The two systems are handed to the linear solver `cg`, and the
     * first `numMoveableNodes` entries of its solutions become the new
     * moveable locations.  Fixed nodes never move, so the stored system stays
     * the system of the placement.
     */
    method Solve(iteration: nat, pl: PartialPlacement, coeff: real, cg: (seq<Triplet>, seq<real>) -> seq<real>)
      requires pl.Valid()
      requires iteration == 0 || Holds(pl)
      requires forall a, b :: |cg(a, b)| == |b|
      modifies this, pl.nodeLocX, pl.nodeLocY
      ensures Holds(pl)
      ensures iteration != 0 ==> aDim == old(aDim) && aSparse == old(aSparse) && bX == old(bX) && bY == old(bY)
      ensures var a := if iteration == 0 then aSparse else aSparse + DiagonalRun(pl.numMoveableNodes, coeff);
              var rhsX := if iteration == 0 then bX else AnchoredRhs(bX, old(pl.nodeLocX[..]), coeff, pl.numMoveableNodes);
              var rhsY := if iteration == 0 then bY else AnchoredRhs(bY, old(pl.nodeLocY[..]), coeff, pl.numMoveableNodes);
              pl.nodeLocX[..] == WithMoveable(old(pl.nodeLocX[..]), cg(a, rhsX), pl.numMoveableNodes) &&
              pl.nodeLocY[..] == WithMoveable(old(pl.nodeLocY[..]), cg(a, rhsY), pl.numMoveableNodes)
    {
      var m := pl.numMoveableNodes;
      if iteration == 0 {
        aDim, aSparse, bX, bY := PopulateHybridMatrix(pl);
      }
      var aDiff := aSparse;
      var bxDiff := NewVector(bX);
      var byDiff := NewVector(bY);
      if iteration != 0 {
        aDiff := PopulateUpdateHybridMatrix(aDiff, bxDiff, byDiff, pl, coeff);
      }
      var x := cg(aDiff, bxDiff[..]);
      var y := cg(aDiff, byDiff[..]);
      ghost var lx0, ly0 := pl.nodeLocX[..], pl.nodeLocY[..];
      WriteBack(pl, x, y);
      OverwriteMoveable(m, lx0, ly0, x, y);
      SystemStampsFixedOnly(pl.netlist, m, lx0, ly0, pl.nodeLocX[..], pl.nodeLocY[..]);
    }
  }
}
