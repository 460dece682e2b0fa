/**
 * The quadratic-placement system of the hybrid (clique + star) net model.
 *
 * The sparse matrix is represented by the triplet list it is assembled
 * from; as with `setFromTriplets`, the value of entry (i, j) is the sum of
 * the values of all triplets at (i, j).  Every connection of the model is a
 * `Stamp`: a `Link` pulls two matrix rows together (four Laplacian
 * triplets), an `Anchor` pulls one matrix row towards a fixed position
 * (one diagonal triplet plus a right-hand-side term on each axis).
 */
module AnalyticalSystem {

  /** One entry handed to `setFromTriplets`. */
  datatype Triplet = Triplet(row: nat, col: nat, val: real)

  /** A net of the atom netlist, its pins already resolved to placement node ids. */
  datatype AtomNet = AtomNet(pins: seq<nat>, ignored: bool)

  datatype Stamp =
    | Link(a: nat, b: nat, w: real)
    | Anchor(row: nat, w: real, x: real, y: real)

  datatype Axis = X | Y

  /** Node ids below the number of moveable nodes are the moveable nodes. */
  predicate Moveable(node: nat, numMoveable: nat) {
    node < numMoveable
  }

  // ---------------------------------------------------------------------
  // Matrix entries and right-hand sides

  /** The four Laplacian triplets, or the single diagonal one, in emission order. */
  function StampTriplets(st: Stamp): (ts: seq<Triplet>)
    ensures |ts| == if st.Link? then 4 else 1
  {
    match st
    case Link(a, b, w) => [Triplet(a, a, w), Triplet(b, b, w), Triplet(a, b, -w), Triplet(b, a, -w)]
    case Anchor(r, w, _, _) => [Triplet(r, r, w)]
  }

  /** The triplet list of a sequence of stamps, emitted in order. */
  function Expand(sts: seq<Stamp>): seq<Triplet>
  {
    if sts == [] then [] else Expand(sts[..|sts| - 1]) + StampTriplets(sts[|sts| - 1])
  }

  /** The summed value of entry (i, j) of the matrix built from `ts`. */
  function Entry(ts: seq<Triplet>, i: nat, j: nat): real
  {
    if ts == [] then 0.0 else TripletEntry(ts[0], i, j) + Entry(ts[1..], i, j)
  }

  function TripletEntry(t: Triplet, i: nat, j: nat): real
  {
    if t.row == i && t.col == j then t.val else 0.0
  }

  /** The location of node `p` on one axis; every node the netlist names is below `|v|`. */
  function Loc(v: seq<real>, p: nat): real
  {
    if p < |v| then v[p] else 0.0
  }

  /** The pull of an anchor of weight `w` at position `pos` on the right-hand side. */
  function Pull(w: real, pos: real): real
  {
    w * pos
  }

  function StampRhs(st: Stamp, axis: Axis, r: nat): real
  {
    match st
    case Link(_, _, _) => 0.0
    case Anchor(row, w, x, y) =>
      if row != r then 0.0
      else if axis == X then Pull(w, x)
      else Pull(w, y)
  }

  /** Entry `r` of the right-hand side on `axis`, starting from the zero vector. */
  function Rhs(sts: seq<Stamp>, axis: Axis, r: nat): real
  {
    if sts == [] then 0.0 else Rhs(sts[..|sts| - 1], axis, r) + StampRhs(sts[|sts| - 1], axis, r)
  }

  function RhsVector(sts: seq<Stamp>, axis: Axis, dim: nat): (b: seq<real>)
    ensures |b| == dim
    ensures forall r :: 0 <= r < dim ==> b[r] == Rhs(sts, axis, r)
  {
    seq(dim, r requires 0 <= r < dim => Rhs(sts, axis, r))
  }

  lemma ExpandSnoc(sts: seq<Stamp>, st: Stamp)
    ensures Expand(sts + [st]) == Expand(sts) + StampTriplets(st)
  {
    assert (sts + [st])[..|sts|] == sts;
  }

  lemma RhsSnoc(sts: seq<Stamp>, st: Stamp, axis: Axis, r: nat)
    ensures Rhs(sts + [st], axis, r) == Rhs(sts, axis, r) + StampRhs(st, axis, r)
  {
    assert (sts + [st])[..|sts|] == sts;
  }

  /** The right-hand side after adding one stamp: only an `Anchor` changes it, on its own row. */
  function AddStampRhs(b: seq<real>, st: Stamp, axis: Axis): (b': seq<real>)
    ensures |b'| == |b|
  {
    match st
    case Link(_, _, _) => b
    case Anchor(r, w, x, y) =>
      if r >= |b| then b
      else if axis == X then b[r := b[r] + Pull(w, x)]
      else b[r := b[r] + Pull(w, y)]
  }

  /** The state of the assembly: the triplet list and the two right-hand sides. */
  datatype Assembly = Assembly(triplets: seq<Triplet>, rhsX: seq<real>, rhsY: seq<real>)

  function AddStamp(a: Assembly, st: Stamp): Assembly
  {
    Assembly(a.triplets + StampTriplets(st), AddStampRhs(a.rhsX, st, X), AddStampRhs(a.rhsY, st, Y))
  }

  /** No triplets and zero right-hand sides of size `dim`. */
  function EmptyAssembly(dim: nat): (a: Assembly)
    ensures |a.rhsX| == dim && |a.rhsY| == dim
  {
    Assembly([], seq(dim, _ => 0.0), seq(dim, _ => 0.0))
  }

  /** The assembly `a` after every stamp of `sts`, in order. */
  function AssembleFrom(a: Assembly, sts: seq<Stamp>): (r: Assembly)
    ensures |r.rhsX| == |a.rhsX| && |r.rhsY| == |a.rhsY|
  {
    if sts == [] then a else AddStamp(AssembleFrom(a, sts[..|sts| - 1]), sts[|sts| - 1])
  }

  /** Assembling two runs of stamps one after the other is assembling their concatenation. */
  lemma {:induction false} AssembleFromAppend(a: Assembly, s1: seq<Stamp>, s2: seq<Stamp>)
    ensures AssembleFrom(a, s1 + s2) == AssembleFrom(AssembleFrom(a, s1), s2)
  {
    if s2 != [] {
      var init := s2[..|s2| - 1];
      AssembleFromAppend(a, s1, init);
      assert (s1 + s2)[..|s1 + s2| - 1] == s1 + init;
    } else {
      assert s1 + s2 == s1;
    }
  }

  lemma AssembleOne(a: Assembly, st: Stamp)
    ensures AssembleFrom(a, [st]) == AddStamp(a, st)
  {
    assert [st][..0] == [];
  }

  /** Assembling `t` after `s` from `start` is assembling `u == s + t` from `start`. */
  lemma AssembleChain(start: Assembly, s: seq<Stamp>, t: seq<Stamp>, u: seq<Stamp>, before: Assembly, after: Assembly)
    requires u == s + t && before == AssembleFrom(start, s) && after == AssembleFrom(before, t)
    ensures after == AssembleFrom(start, u)
  {
    AssembleFromAppend(start, s, t);
  }

  /**
   * Assembling stamp by stamp from scratch yields the triplet list of the
   * stamps and, in every row of each right-hand side, the sum of that row's
   * terms.
   */
  lemma {:induction false} AssembledIsSystem(sts: seq<Stamp>, dim: nat)
    ensures AssembleFrom(EmptyAssembly(dim), sts) == Assembly(Expand(sts), RhsVector(sts, X, dim), RhsVector(sts, Y, dim))
  {
    if sts != [] {
      var init, st := sts[..|sts| - 1], sts[|sts| - 1];
      AssembledIsSystem(init, dim);
      assert init + [st] == sts;
      var r := AssembleFrom(EmptyAssembly(dim), sts);
      forall k | 0 <= k < dim
        ensures r.rhsX[k] == Rhs(sts, X, k) && r.rhsY[k] == Rhs(sts, Y, k)
      {
        RhsSnoc(init, st, X, k);
        RhsSnoc(init, st, Y, k);
      }
    }
  }

  lemma {:induction false} EntryAppend(a: seq<Triplet>, b: seq<Triplet>, i: nat, j: nat)
    ensures Entry(a + b, i, j) == Entry(a, i, j) + Entry(b, i, j)
  {
    if a != [] {
      assert (a + b)[1..] == a[1..] + b;
      EntryAppend(a[1..], b, i, j);
    } else {
      assert a + b == b;
    }
  }

  lemma {:induction false} ExpandAppend(a: seq<Stamp>, b: seq<Stamp>)
    ensures Expand(a + b) == Expand(a) + Expand(b)
    decreases |b|
  {
    if b == [] {
      assert a + b == a;
    } else {
      var init, last := b[..|b| - 1], b[|b| - 1];
      assert (a + b)[..|a + b| - 1] == a + init;
      assert (a + b)[|a + b| - 1] == last;
      ExpandAppend(a, init);
      var ea, ei, t := Expand(a), Expand(init), StampTriplets(last);
      assert (ea + ei) + t == ea + (ei + t);
    }
  }

  /** Entry (i, j) of the triplets of one stamp, in closed form. */
  function StampEntry(st: Stamp, i: nat, j: nat): real
  {
    match st
    case Link(a, b, w) =>
      (if i == a && j == a then w else 0.0) + (if i == b && j == b then w else 0.0)
      + (if i == a && j == b then -w else 0.0) + (if i == b && j == a then -w else 0.0)
    case Anchor(r, w, _, _) => if i == r && j == r then w else 0.0
  }

  lemma EntrySingle(t: Triplet, i: nat, j: nat)
    ensures Entry([t], i, j) == TripletEntry(t, i, j)
  {
    assert [t][1..] == [];
  }

  lemma StampEntryIsSum(st: Stamp, i: nat, j: nat)
    ensures Entry(StampTriplets(st), i, j) == StampEntry(st, i, j)
  {
    match st
    case Link(a, b, w) =>
      var t0, t1, t2, t3 := Triplet(a, a, w), Triplet(b, b, w), Triplet(a, b, -w), Triplet(b, a, -w);
      assert StampTriplets(st) == [t0] + ([t1] + ([t2] + [t3]));
      EntryAppend([t0], [t1] + ([t2] + [t3]), i, j);
      EntryAppend([t1], [t2] + [t3], i, j);
      EntryAppend([t2], [t3], i, j);
      EntrySingle(t0, i, j);
      EntrySingle(t1, i, j);
      EntrySingle(t2, i, j);
      EntrySingle(t3, i, j);
    case Anchor(r, w, _, _) =>
      EntrySingle(Triplet(r, r, w), i, j);
  }

  /** Every off-diagonal triplet is emitted with its transpose: each stamp is symmetric. */
  lemma {:induction false} ExpandSymmetric(sts: seq<Stamp>, i: nat, j: nat)
    ensures Entry(Expand(sts), i, j) == Entry(Expand(sts), j, i)
  {
    if sts != [] {
      var init, last := sts[..|sts| - 1], sts[|sts| - 1];
      ExpandSymmetric(init, i, j);
      EntryAppend(Expand(init), StampTriplets(last), i, j);
      EntryAppend(Expand(init), StampTriplets(last), j, i);
      StampEntryIsSum(last, i, j);
      StampEntryIsSum(last, j, i);
    }
  }

  predicate PositiveWeights(sts: seq<Stamp>) {
    forall k :: 0 <= k < |sts| ==> sts[k].w > 0.0
  }

  /**
   * With positive weights the summed matrix has a non-negative diagonal and
   * non-positive off-diagonal entries (the sign pattern of a graph Laplacian).
   */
  lemma {:induction false} ExpandSigns(sts: seq<Stamp>, i: nat, j: nat)
    requires PositiveWeights(sts)
    ensures i == j ==> Entry(Expand(sts), i, j) >= 0.0
    ensures i != j ==> Entry(Expand(sts), i, j) <= 0.0
  {
    if sts != [] {
      var init, last := sts[..|sts| - 1], sts[|sts| - 1];
      assert last.w > 0.0;
      ExpandSigns(init, i, j);
      EntryAppend(Expand(init), StampTriplets(last), i, j);
      StampEntryIsSum(last, i, j);
    }
  }

  // ---------------------------------------------------------------------
  // The hybrid net model

  function StarWeight(numPins: nat): (w: real)
    requires numPins >= 2
    ensures w > 1.0
    ensures w * (numPins - 1) as real == numPins as real
  {
    numPins as real / (numPins - 1) as real
  }

  /**
   * The clique weight 1/(n-1).  A net with fewer than two pins has no pin
   * pair, so its weight is never used; it is given weight 1 here.
   */
  function CliqueWeight(numPins: nat): (w: real)
    ensures 0.0 < w <= 1.0
    ensures numPins >= 2 ==> w * (numPins - 1) as real == 1.0
  {
    if numPins < 2 then 1.0 else 1.0 / (numPins - 1) as real
  }

  predicate PinsIn(pins: seq<nat>, numNodes: nat) {
    forall k :: 0 <= k < |pins| ==> pins[k] < numNodes
  }

  /** What the netlist must satisfy: every considered net has at least two pins, all on known nodes. */
  predicate NetOk(net: AtomNet, numNodes: nat) {
    net.ignored || (|net.pins| >= 2 && PinsIn(net.pins, numNodes))
  }

  predicate NetlistOk(nets: seq<AtomNet>, numNodes: nat) {
    forall k :: 0 <= k < |nets| ==> NetOk(nets[k], numNodes)
  }

  predicate IsStar(net: AtomNet) {
    !net.ignored && |net.pins| > 3
  }

  /** The number of star rows a net takes: one for a star net, none otherwise. */
  function StarInc(net: AtomNet): nat {
    if IsStar(net) then 1 else 0
  }

  /** The number of synthetic star nodes: considered nets with more than three pins. */
  function StarCount(nets: seq<AtomNet>): nat
  {
    if nets == [] then 0 else StarInc(nets[0]) + StarCount(nets[1..])
  }

  /** The dimension of the system: moveable nodes followed by star nodes. */
  function SystemDim(nets: seq<AtomNet>, numMoveable: nat): nat
  {
    numMoveable + StarCount(nets)
  }

  /** The connection of one star-net pin to the star node `s`. */
  function StarPinStamp(p: nat, s: nat, w: real, numMoveable: nat, lx: seq<real>, ly: seq<real>): Stamp
  {
    if Moveable(p, numMoveable) then Link(s, p, w) else Anchor(s, w, Loc(lx, p), Loc(ly, p))
  }

  function StarStamps(pins: seq<nat>, s: nat, w: real, numMoveable: nat, lx: seq<real>, ly: seq<real>): seq<Stamp>
  {
    if pins == [] then []
    else
      var init := pins[..|pins| - 1];
      StarStamps(init, s, w, numMoveable, lx, ly) + [StarPinStamp(pins[|pins| - 1], s, w, numMoveable, lx, ly)]
  }

  lemma StarStampsSnoc(pins: seq<nat>, q: nat, s: nat, w: real, numMoveable: nat, lx: seq<real>, ly: seq<real>)
    requires q < |pins|
    ensures StarStamps(pins[..q + 1], s, w, numMoveable, lx, ly)
         == StarStamps(pins[..q], s, w, numMoveable, lx, ly) + [StarPinStamp(pins[q], s, w, numMoveable, lx, ly)]
  {
    assert pins[..q + 1][..q] == pins[..q];
  }

  /** The connection of one clique pin pair; a pair of fixed nodes contributes nothing. */
  function PairStamps(a: nat, b: nat, w: real, numMoveable: nat, lx: seq<real>, ly: seq<real>): seq<Stamp>
  {
    if Moveable(a, numMoveable) && Moveable(b, numMoveable) then [Link(a, b, w)]
    else if Moveable(a, numMoveable) then [Anchor(a, w, Loc(lx, b), Loc(ly, b))]
    else if Moveable(b, numMoveable) then [Anchor(b, w, Loc(lx, a), Loc(ly, a))]
    else []
  }

  /** The pin-index pairs (i, i+1), ..., (i, j-1). */
  function RowPairs(i: nat, j: nat): seq<(nat, nat)>
    decreases j
  {
    if j <= i + 1 then [] else RowPairs(i, j - 1) + [(i, j - 1)]
  }

  /** The pin-index pairs of rows 0 .. k-1 of an n-pin clique, in visiting order. */
  function PairsBefore(n: nat, k: nat): seq<(nat, nat)>
  {
    if k == 0 then [] else PairsBefore(n, k - 1) + RowPairs(k - 1, n)
  }

  function Pairs(n: nat): seq<(nat, nat)>
  {
    PairsBefore(n, n)
  }

  predicate PairsIn(ps: seq<(nat, nat)>, n: nat) {
    forall k :: 0 <= k < |ps| ==> ps[k].0 < n && ps[k].1 < n
  }

  function PairsStamps(pins: seq<nat>, ps: seq<(nat, nat)>, w: real, numMoveable: nat, lx: seq<real>, ly: seq<real>): seq<Stamp>
  {
    if ps == [] then []
    else
      var init, last := ps[..|ps| - 1], ps[|ps| - 1];
      PairsStamps(pins, init, w, numMoveable, lx, ly)
        + (if last.0 < |pins| && last.1 < |pins| then PairStamps(pins[last.0], pins[last.1], w, numMoveable, lx, ly) else [])
  }

  /** Appending one pair appends that pair's stamps. */
  lemma PairsStampsSnoc(pins: seq<nat>, ps: seq<(nat, nat)>, p: (nat, nat), w: real, numMoveable: nat, lx: seq<real>, ly: seq<real>)
    requires p.0 < |pins| && p.1 < |pins|
    ensures PairsStamps(pins, ps + [p], w, numMoveable, lx, ly)
         == PairsStamps(pins, ps, w, numMoveable, lx, ly) + PairStamps(pins[p.0], pins[p.1], w, numMoveable, lx, ly)
  {
    assert (ps + [p])[..|ps|] == ps;
  }

  lemma {:induction false} PairsStampsAppend(pins: seq<nat>, a: seq<(nat, nat)>, b: seq<(nat, nat)>, w: real, numMoveable: nat, lx: seq<real>, ly: seq<real>)
    ensures PairsStamps(pins, a + b, w, numMoveable, lx, ly)
         == PairsStamps(pins, a, w, numMoveable, lx, ly) + PairsStamps(pins, b, w, numMoveable, lx, ly)
    decreases |b|
  {
    if b == [] {
      assert a + b == a;
    } else {
      var init, last := b[..|b| - 1], b[|b| - 1];
      assert (a + b)[..|a + b| - 1] == a + init;
      assert (a + b)[|a + b| - 1] == last;
      PairsStampsAppend(pins, a, init, w, numMoveable, lx, ly);
      var sa, si := PairsStamps(pins, a, w, numMoveable, lx, ly), PairsStamps(pins, init, w, numMoveable, lx, ly);
      var t := if last.0 < |pins| && last.1 < |pins| then PairStamps(pins[last.0], pins[last.1], w, numMoveable, lx, ly) else [];
      assert (sa + si) + t == sa + (si + t);
    }
  }

  /** The stamps pairing node `a` with each of `partners` in turn, as one row of the clique loops does. */
  function RowStamps(a: nat, partners: seq<nat>, w: real, numMoveable: nat, lx: seq<real>, ly: seq<real>): seq<Stamp>
  {
    if partners == [] then []
    else
      var init := partners[..|partners| - 1];
      RowStamps(a, init, w, numMoveable, lx, ly) + PairStamps(a, partners[|partners| - 1], w, numMoveable, lx, ly)
  }

  /** One more step of the inner clique loop appends the stamps of pair (i, j). */
  lemma RowStampsSnoc(pins: seq<nat>, i: nat, j: nat, w: real, numMoveable: nat, lx: seq<real>, ly: seq<real>)
    requires i < j < |pins|
    ensures RowStamps(pins[i], pins[i + 1..j + 1], w, numMoveable, lx, ly)
         == RowStamps(pins[i], pins[i + 1..j], w, numMoveable, lx, ly) + PairStamps(pins[i], pins[j], w, numMoveable, lx, ly)
  {
    assert pins[i + 1..j + 1][..j - i - 1] == pins[i + 1..j];
    assert pins[i + 1..j + 1][j - i - 1] == pins[j];
  }

  /** Stamping pair (i, j) onto the assembly of the earlier pairs of row i gives the assembly up to (i, j); `next` is j + 1. */
  lemma CliqueRowStep(pins: seq<nat>, i: nat, j: nat, next: nat, w: real, numMoveable: nat, lx: seq<real>, ly: seq<real>,
                      rowStart: Assembly, before: Assembly, after: Assembly)
    requires i < j < |pins| && next == j + 1
    requires before == AssembleFrom(rowStart, RowStamps(pins[i], pins[i + 1..j], w, numMoveable, lx, ly))
    requires after == AssembleFrom(before, PairStamps(pins[i], pins[j], w, numMoveable, lx, ly))
    ensures after == AssembleFrom(rowStart, RowStamps(pins[i], pins[i + 1..next], w, numMoveable, lx, ly))
  {
    assert pins[i + 1..next] == pins[i + 1..j + 1];
    RowStampsSnoc(pins, i, j, w, numMoveable, lx, ly);
    AssembleChain(rowStart, RowStamps(pins[i], pins[i + 1..j], w, numMoveable, lx, ly), PairStamps(pins[i], pins[j], w, numMoveable, lx, ly),
                  RowStamps(pins[i], pins[i + 1..next], w, numMoveable, lx, ly), before, after);
  }

  lemma {:induction false} RowStampsArePairs(pins: seq<nat>, i: nat, j: nat, w: real, numMoveable: nat, lx: seq<real>, ly: seq<real>)
    requires i < j <= |pins|
    ensures RowStamps(pins[i], pins[i + 1..j], w, numMoveable, lx, ly) == PairsStamps(pins, RowPairs(i, j), w, numMoveable, lx, ly)
    decreases j
  {
    if j == i + 1 {
      assert pins[i + 1..j] == [];
    } else {
      var k := j - 1;
      RowStampsArePairs(pins, i, k, w, numMoveable, lx, ly);
      RowStampsArePairsStep(pins, i, k, j, w, numMoveable, lx, ly);
    }
  }

  lemma RowStampsArePairsStep(pins: seq<nat>, i: nat, k: nat, j: nat, w: real, numMoveable: nat, lx: seq<real>, ly: seq<real>)
    requires i < k && j == k + 1 && j <= |pins|
    requires RowStamps(pins[i], pins[i + 1..k], w, numMoveable, lx, ly) == PairsStamps(pins, RowPairs(i, k), w, numMoveable, lx, ly)
    ensures RowStamps(pins[i], pins[i + 1..j], w, numMoveable, lx, ly) == PairsStamps(pins, RowPairs(i, j), w, numMoveable, lx, ly)
  {
    assert pins[i + 1..j] == pins[i + 1..k + 1];
    assert RowPairs(i, j) == RowPairs(i, k) + [(i, k)];
    RowStampsSnoc(pins, i, k, w, numMoveable, lx, ly);
    PairsStampsSnoc(pins, RowPairs(i, k), (i, k), w, numMoveable, lx, ly);
  }

  /** The stamps of rows 0 .. i are those of rows 0 .. i-1 followed by row i. */
  lemma CliqueRowStamps(pins: seq<nat>, i: nat, w: real, numMoveable: nat, lx: seq<real>, ly: seq<real>)
    requires i < |pins|
    ensures PairsStamps(pins, PairsBefore(|pins|, i + 1), w, numMoveable, lx, ly)
         == PairsStamps(pins, PairsBefore(|pins|, i), w, numMoveable, lx, ly) + RowStamps(pins[i], pins[i + 1..], w, numMoveable, lx, ly)
  {
    var n := |pins|;
    RowStampsArePairs(pins, i, n, w, numMoveable, lx, ly);
    assert pins[i + 1..n] == pins[i + 1..];
    assert PairsBefore(n, i + 1) == PairsBefore(n, i) + RowPairs(i, n);
    PairsStampsAppend(pins, PairsBefore(n, i), RowPairs(i, n), w, numMoveable, lx, ly);
  }

  /** Stamping row i onto the assembly of rows 0 .. i-1 gives the assembly of rows 0 .. i. */
  lemma CliqueRowDone(pins: seq<nat>, i: nat, w: real, numMoveable: nat, lx: seq<real>, ly: seq<real>,
                      start: Assembly, before: Assembly, after: Assembly)
    requires i < |pins|
    requires before == AssembleFrom(start, PairsStamps(pins, PairsBefore(|pins|, i), w, numMoveable, lx, ly))
    requires after == AssembleFrom(before, RowStamps(pins[i], pins[i + 1..], w, numMoveable, lx, ly))
    ensures after == AssembleFrom(start, PairsStamps(pins, PairsBefore(|pins|, i + 1), w, numMoveable, lx, ly))
  {
    CliqueRowStamps(pins, i, w, numMoveable, lx, ly);
    AssembleChain(start, PairsStamps(pins, PairsBefore(|pins|, i), w, numMoveable, lx, ly), RowStamps(pins[i], pins[i + 1..], w, numMoveable, lx, ly),
                  PairsStamps(pins, PairsBefore(|pins|, i + 1), w, numMoveable, lx, ly), before, after);
  }

  lemma {:induction false} RowPairsShape(i: nat, j: nat)
    ensures forall k :: 0 <= k < |RowPairs(i, j)| ==> RowPairs(i, j)[k] == (i, i + 1 + k)
    ensures |RowPairs(i, j)| == if j <= i + 1 then 0 else j - i - 1
    decreases j
  {
    if j > i + 1 {
      RowPairsShape(i, j - 1);
    }
  }

  lemma {:induction false} PairsBeforeShape(n: nat, k: nat)
    ensures forall x :: 0 <= x < |PairsBefore(n, k)| ==> PairsBefore(n, k)[x].0 < k && PairsBefore(n, k)[x].0 < PairsBefore(n, k)[x].1 < n
  {
    if k > 0 {
      PairsBeforeShape(n, k - 1);
      RowPairsShape(k - 1, n);
    }
  }

  lemma PairsBeforeIn(n: nat, k: nat, j: nat)
    requires k < n && j <= n
    ensures PairsIn(PairsBefore(n, k) + RowPairs(k, j), n)
  {
    PairsBeforeShape(n, k);
    RowPairsShape(k, j);
  }

  /** Lexicographic order on pin-index pairs. */
  predicate PairBefore(p: (nat, nat), q: (nat, nat)) {
    p.0 < q.0 || (p.0 == q.0 && p.1 < q.1)
  }

  lemma {:induction false} PairsBeforeSorted(n: nat, k: nat)
    ensures forall x, y :: 0 <= x < y < |PairsBefore(n, k)| ==> PairBefore(PairsBefore(n, k)[x], PairsBefore(n, k)[y])
  {
    if k > 0 {
      PairsBeforeSorted(n, k - 1);
      PairsBeforeShape(n, k - 1);
      RowPairsShape(k - 1, n);
    }
  }

  /**
   * The clique loops visit every unordered pin pair i < j exactly once:
   * a pair is visited iff i < j < n, and no pair is visited twice.
   */
  lemma PairsExactlyOnce(n: nat)
    ensures forall i: nat, j: nat :: (i, j) in Pairs(n) <==> i < j < n
    ensures forall x, y :: 0 <= x < y < |Pairs(n)| ==> Pairs(n)[x] != Pairs(n)[y]
  {
    PairsBeforeShape(n, n);
    PairsBeforeSorted(n, n);
    forall i: nat, j: nat | i < j < n
      ensures (i, j) in Pairs(n)
    {
      PairVisited(n, n, i, j);
    }
  }

  lemma {:induction false} PairVisited(n: nat, k: nat, i: nat, j: nat)
    requires i < j < n && i < k
    ensures (i, j) in PairsBefore(n, k)
  {
    if i == k - 1 {
      RowPairsShape(i, n);
      assert RowPairs(i, n)[j - i - 1] == (i, j);
    } else {
      PairVisited(n, k - 1, i, j);
    }
  }

  function CliqueStamps(pins: seq<nat>, w: real, numMoveable: nat, lx: seq<real>, ly: seq<real>): seq<Stamp>
  {
    PairsStamps(pins, Pairs(|pins|), w, numMoveable, lx, ly)
  }

  /** The stamps of one net whose star node, if it gets one, is row `s`. */
  function NetStamps(net: AtomNet, s: nat, numMoveable: nat, lx: seq<real>, ly: seq<real>): seq<Stamp>
  {
    if net.ignored then []
    else if |net.pins| > 3 then StarStamps(net.pins, s, StarWeight(|net.pins|), numMoveable, lx, ly)
    else CliqueStamps(net.pins, CliqueWeight(|net.pins|), numMoveable, lx, ly)
  }

  /** How one net is stamped, given its star row: `NetStamps` for the placement at hand. */
  type NetRule = (AtomNet, nat) -> seq<Stamp>

  function PlacementRule(numMoveable: nat, lx: seq<real>, ly: seq<real>): NetRule
  {
    (net: AtomNet, s: nat) => NetStamps(net, s, numMoveable, lx, ly)
  }

  lemma PlacementRuleApplies(net: AtomNet, s: nat, numMoveable: nat, lx: seq<real>, ly: seq<real>)
    ensures PlacementRule(numMoveable, lx, ly)(net, s) == NetStamps(net, s, numMoveable, lx, ly)
  {
  }

  /**
   * The stamps of the nets in order, the first star net among them taking
   * row `s` and every later star net the next row.
   */
  function NetsStamps(rule: NetRule, nets: seq<AtomNet>, s: nat): seq<Stamp>
  {
    if nets == [] then []
    else rule(nets[0], s) + NetsStamps(rule, nets[1..], s + StarInc(nets[0]))
  }

  /** All stamps of the netlist, nets in order, star rows numbered from `numMoveable` upwards. */
  function SystemStamps(nets: seq<AtomNet>, numMoveable: nat, lx: seq<real>, ly: seq<real>): seq<Stamp>
  {
    NetsStamps(PlacementRule(numMoveable, lx, ly), nets, numMoveable)
  }

  /** The stamps of a single net are that net's stamps. */
  lemma OneNetStamps(rule: NetRule, net: AtomNet, s: nat)
    ensures NetsStamps(rule, [net], s) == rule(net, s)
  {
    assert [net][1..] == [];
  }

  lemma NetsStampsSnoc(rule: NetRule, nets: seq<AtomNet>, k: nat, s: nat)
    requires k < |nets|
    ensures NetsStamps(rule, nets[..k + 1], s) == NetsStamps(rule, nets[..k], s) + rule(nets[k], s + StarCount(nets[..k]))
  {
    assert nets[..k + 1] == nets[..k] + [nets[k]];
    NetsStampsAppend(rule, nets[..k], [nets[k]], s);
    OneNetStamps(rule, nets[k], s + StarCount(nets[..k]));
  }

  lemma NoNetsYet(nets: seq<AtomNet>, numMoveable: nat, lx: seq<real>, ly: seq<real>, start: Assembly)
    ensures StarCount(nets[..0]) == 0
    ensures AssembleFrom(start, SystemStamps(nets[..0], numMoveable, lx, ly)) == start
  {
    assert nets[..0] == [];
  }

  /** Stamping net k onto the assembly of nets 0 .. k-1 gives the assembly of nets 0 .. k. */
  lemma NetDone(nets: seq<AtomNet>, k: nat, net: AtomNet, s: nat, numMoveable: nat, lx: seq<real>, ly: seq<real>,
                start: Assembly, before: Assembly, after: Assembly)
    requires k < |nets| && net == nets[k] && s == numMoveable + StarCount(nets[..k])
    requires before == AssembleFrom(start, SystemStamps(nets[..k], numMoveable, lx, ly))
    requires after == AssembleFrom(before, NetStamps(net, s, numMoveable, lx, ly))
    ensures after == AssembleFrom(start, SystemStamps(nets[..k + 1], numMoveable, lx, ly))
  {
    PlacementRuleApplies(nets[k], numMoveable + StarCount(nets[..k]), numMoveable, lx, ly);
    RunDone(PlacementRule(numMoveable, lx, ly), nets, k, numMoveable, start, before, after);
  }

  lemma RunDone(rule: NetRule, nets: seq<AtomNet>, k: nat, s: nat, start: Assembly, before: Assembly, after: Assembly)
    requires k < |nets|
    requires before == AssembleFrom(start, NetsStamps(rule, nets[..k], s))
    requires after == AssembleFrom(before, rule(nets[k], s + StarCount(nets[..k])))
    ensures after == AssembleFrom(start, NetsStamps(rule, nets[..k + 1], s))
  {
    NetsStampsSnoc(rule, nets, k, s);
    AssembleChain(start, NetsStamps(rule, nets[..k], s), rule(nets[k], s + StarCount(nets[..k])), NetsStamps(rule, nets[..k + 1], s), before, after);
  }

  // ---------------------------------------------------------------------
  // Properties of the assembled system

  lemma {:induction false} StarCountAppend(a: seq<AtomNet>, b: seq<AtomNet>)
    ensures StarCount(a + b) == StarCount(a) + StarCount(b)
    decreases |a|
  {
    if a == [] {
      assert a + b == b;
    } else {
      assert (a + b)[0] == a[0] && (a + b)[1..] == a[1..] + b;
      StarCountAppend(a[1..], b);
    }
  }

  lemma StarCountStep(nets: seq<AtomNet>, k: nat)
    requires k < |nets|
    ensures StarCount(nets[..k + 1]) == StarCount(nets[..k]) + StarInc(nets[k])
  {
    assert nets[..k + 1] == nets[..k] + [nets[k]];
    StarCountAppend(nets[..k], [nets[k]]);
    assert [nets[k]][1..] == [];
  }

  lemma StarCountMonotone(nets: seq<AtomNet>, i: nat, j: nat)
    requires i <= j <= |nets|
    ensures StarCount(nets[..i]) <= StarCount(nets[..j])
  {
    assert nets[..j] == nets[..i] + nets[i..j];
    StarCountAppend(nets[..i], nets[i..j]);
  }

  /** The star row of net k: the number of moveable nodes plus the star nets before it. */
  function StarRow(nets: seq<AtomNet>, numMoveable: nat, k: nat): nat
    requires k <= |nets|
  {
    numMoveable + StarCount(nets[..k])
  }

  /**
   * The star offset grows exactly once per star net: star rows are distinct,
   * never below the number of moveable nodes, and below the system dimension.
   */
  lemma StarRowsDistinct(nets: seq<AtomNet>, numMoveable: nat, k1: nat, k2: nat)
    requires k1 < k2 < |nets| && IsStar(nets[k1]) && IsStar(nets[k2])
    ensures numMoveable <= StarRow(nets, numMoveable, k1) < StarRow(nets, numMoveable, k2) < SystemDim(nets, numMoveable)
  {
    StarCountStep(nets, k1);
    StarCountMonotone(nets, k1 + 1, k2);
    StarCountStep(nets, k2);
    StarCountMonotone(nets, k2 + 1, |nets|);
    assert nets[..|nets|] == nets;
  }

  lemma StarRowInRange(nets: seq<AtomNet>, numMoveable: nat, k: nat)
    requires k < |nets|
    ensures IsStar(nets[k]) ==> numMoveable <= StarRow(nets, numMoveable, k) < SystemDim(nets, numMoveable)
  {
    StarCountStep(nets, k);
    StarCountMonotone(nets, k + 1, |nets|);
    assert nets[..|nets|] == nets;
  }

  /** The stamps of two runs of nets are those of the first run, then those of the second with its star rows after the first run's. */
  lemma {:induction false} NetsStampsAppend(rule: NetRule, a: seq<AtomNet>, b: seq<AtomNet>, s: nat)
    ensures NetsStamps(rule, a + b, s) == NetsStamps(rule, a, s) + NetsStamps(rule, b, s + StarCount(a))
    decreases |a|
  {
    if a == [] {
      assert a + b == b;
    } else {
      assert (a + b)[0] == a[0] && (a + b)[1..] == a[1..] + b;
      NetsStampsAppend(rule, a[1..], b, s + StarInc(a[0]));
    }
  }

  /**
   * In the system, the stamps of net k come after those of the nets before it
   * and before those of the nets after it, with its star row `StarRow(nets, numMoveable, k)`.
   */
  lemma SystemStampsSplit(nets: seq<AtomNet>, k: nat, numMoveable: nat, lx: seq<real>, ly: seq<real>)
    requires k < |nets|
    ensures SystemStamps(nets, numMoveable, lx, ly)
         == NetsStamps(PlacementRule(numMoveable, lx, ly), nets[..k], numMoveable)
          + NetStamps(nets[k], StarRow(nets, numMoveable, k), numMoveable, lx, ly)
          + NetsStamps(PlacementRule(numMoveable, lx, ly), nets[k + 1..], StarRow(nets, numMoveable, k + 1))
  {
    NetsStampsSplit(PlacementRule(numMoveable, lx, ly), nets, k, numMoveable);
    PlacementRuleApplies(nets[k], StarRow(nets, numMoveable, k), numMoveable, lx, ly);
  }

  lemma NetsStampsSplit(rule: NetRule, nets: seq<AtomNet>, k: nat, s: nat)
    requires k < |nets|
    ensures NetsStamps(rule, nets, s)
         == NetsStamps(rule, nets[..k], s) + rule(nets[k], s + StarCount(nets[..k])) + NetsStamps(rule, nets[k + 1..], s + StarCount(nets[..k + 1]))
  {
    assert nets == nets[..k] + nets[k..];
    NetsStampsAppend(rule, nets[..k], nets[k..], s);
    assert nets[k..][0] == nets[k] && nets[k..][1..] == nets[k + 1..];
    StarCountStep(nets, k);
  }

  predicate StampIn(st: Stamp, dim: nat) {
    match st
    case Link(a, b, _) => a < dim && b < dim
    case Anchor(r, _, _, _) => r < dim
  }

  predicate StampsIn(sts: seq<Stamp>, dim: nat) {
    forall k :: 0 <= k < |sts| ==> StampIn(sts[k], dim)
  }

  predicate TripletsIn(ts: seq<Triplet>, dim: nat) {
    forall k :: 0 <= k < |ts| ==> ts[k].row < dim && ts[k].col < dim
  }

  lemma {:induction false} ExpandIn(sts: seq<Stamp>, dim: nat)
    requires StampsIn(sts, dim)
    ensures TripletsIn(Expand(sts), dim)
  {
    if sts != [] {
      ExpandIn(sts[..|sts| - 1], dim);
    }
  }

  lemma {:induction false} StarStampsShape(pins: seq<nat>, s: nat, w: real, numMoveable: nat, lx: seq<real>, ly: seq<real>)
    ensures |StarStamps(pins, s, w, numMoveable, lx, ly)| == |pins|
    ensures forall k :: 0 <= k < |pins| ==> StarStamps(pins, s, w, numMoveable, lx, ly)[k] == StarPinStamp(pins[k], s, w, numMoveable, lx, ly)
  {
    if pins != [] {
      StarStampsShape(pins[..|pins| - 1], s, w, numMoveable, lx, ly);
    }
  }

  /** Every stamp of a clique touches moveable rows only, and carries the clique weight. */
  lemma {:induction false} PairsStampsMoveable(pins: seq<nat>, ps: seq<(nat, nat)>, w: real, numMoveable: nat, lx: seq<real>, ly: seq<real>)
    ensures StampsIn(PairsStamps(pins, ps, w, numMoveable, lx, ly), numMoveable)
    ensures forall k :: 0 <= k < |PairsStamps(pins, ps, w, numMoveable, lx, ly)| ==> PairsStamps(pins, ps, w, numMoveable, lx, ly)[k].w == w
  {
    if ps != [] {
      PairsStampsMoveable(pins, ps[..|ps| - 1], w, numMoveable, lx, ly);
    }
  }

  lemma NetStampsIn(net: AtomNet, s: nat, numMoveable: nat, lx: seq<real>, ly: seq<real>, dim: nat)
    requires numMoveable <= dim && (IsStar(net) ==> s < dim)
    ensures StampsIn(NetStamps(net, s, numMoveable, lx, ly), dim)
    ensures PositiveWeights(NetStamps(net, s, numMoveable, lx, ly))
  {
    if !net.ignored {
      if |net.pins| > 3 {
        StarStampsShape(net.pins, s, StarWeight(|net.pins|), numMoveable, lx, ly);
      } else {
        PairsStampsMoveable(net.pins, Pairs(|net.pins|), CliqueWeight(|net.pins|), numMoveable, lx, ly);
      }
    }
  }

  /**
   * Every stamp of the assembled system indexes rows and columns below the
   * system dimension, and every weight is positive.
   */
  lemma StampsAppend(a: seq<Stamp>, b: seq<Stamp>, dim: nat)
    requires StampsIn(a, dim) && StampsIn(b, dim)
    requires PositiveWeights(a) && PositiveWeights(b)
    ensures StampsIn(a + b, dim) && PositiveWeights(a + b)
  {
    forall k | 0 <= k < |a + b| ensures StampIn((a + b)[k], dim) && (a + b)[k].w > 0.0 {
      if k < |a| {
        assert (a + b)[k] == a[k];
      } else {
        assert (a + b)[k] == b[k - |a|];
      }
    }
  }

  lemma StampsWiden(a: seq<Stamp>, dim: nat, dim': nat)
    requires StampsIn(a, dim) && dim <= dim'
    ensures StampsIn(a, dim')
  {
    forall k | 0 <= k < |a| ensures StampIn(a[k], dim') {
      assert StampIn(a[k], dim);
    }
  }

  lemma {:induction false} NetsStampsIn(nets: seq<AtomNet>, s: nat, numMoveable: nat, lx: seq<real>, ly: seq<real>, dim: nat)
    requires numMoveable <= dim && s + StarCount(nets) <= dim
    ensures StampsIn(NetsStamps(PlacementRule(numMoveable, lx, ly), nets, s), dim)
    ensures PositiveWeights(NetsStamps(PlacementRule(numMoveable, lx, ly), nets, s))
    decreases |nets|
  {
    if nets != [] {
      NetsStampsIn(nets[1..], s + StarInc(nets[0]), numMoveable, lx, ly, dim);
      NetStampsIn(nets[0], s, numMoveable, lx, ly, dim);
      StampsAppend(NetStamps(nets[0], s, numMoveable, lx, ly), NetsStamps(PlacementRule(numMoveable, lx, ly), nets[1..], s + StarInc(nets[0])), dim);
    }
  }

  lemma SystemStampsIn(nets: seq<AtomNet>, numMoveable: nat, lx: seq<real>, ly: seq<real>)
    ensures StampsIn(SystemStamps(nets, numMoveable, lx, ly), SystemDim(nets, numMoveable))
    ensures PositiveWeights(SystemStamps(nets, numMoveable, lx, ly))
  {
    NetsStampsIn(nets, numMoveable, numMoveable, lx, ly, SystemDim(nets, numMoveable));
  }

  /**
   * The assembled matrix is square of the system dimension, symmetric, with a
   * non-negative diagonal and non-positive off-diagonal entries.
   */
  lemma SystemMatrixShape(nets: seq<AtomNet>, numMoveable: nat, lx: seq<real>, ly: seq<real>, i: nat, j: nat)
    ensures TripletsIn(Expand(SystemStamps(nets, numMoveable, lx, ly)), SystemDim(nets, numMoveable))
    ensures Entry(Expand(SystemStamps(nets, numMoveable, lx, ly)), i, j) == Entry(Expand(SystemStamps(nets, numMoveable, lx, ly)), j, i)
    ensures i == j ==> Entry(Expand(SystemStamps(nets, numMoveable, lx, ly)), i, j) >= 0.0
    ensures i != j ==> Entry(Expand(SystemStamps(nets, numMoveable, lx, ly)), i, j) <= 0.0
  {
    var sts := SystemStamps(nets, numMoveable, lx, ly);
    SystemStampsIn(nets, numMoveable, lx, ly);
    ExpandIn(sts, SystemDim(nets, numMoveable));
    ExpandSymmetric(sts, i, j);
    ExpandSigns(sts, i, j);
  }

  /** An ignored net contributes no triplets, no right-hand-side terms and no star row. */
  lemma IgnoredNetIsInert(before: seq<AtomNet>, net: AtomNet, after: seq<AtomNet>, numMoveable: nat, lx: seq<real>, ly: seq<real>)
    requires net.ignored
    ensures StarCount(before + [net] + after) == StarCount(before + after)
    ensures SystemStamps(before + [net] + after, numMoveable, lx, ly) == SystemStamps(before + after, numMoveable, lx, ly)
  {
    PlacementRuleApplies(net, numMoveable + StarCount(before), numMoveable, lx, ly);
    InertNet(PlacementRule(numMoveable, lx, ly), before, net, after, numMoveable);
  }

  /** A net that is no star net and that the rule gives no stamps leaves the run of nets unchanged. */
  lemma InertNet(rule: NetRule, before: seq<AtomNet>, net: AtomNet, after: seq<AtomNet>, s: nat)
    requires !IsStar(net) && rule(net, s + StarCount(before)) == []
    ensures StarCount(before + [net] + after) == StarCount(before + after)
    ensures NetsStamps(rule, before + [net] + after, s) == NetsStamps(rule, before + after, s)
  {
    var rest := [net] + after;
    assert before + [net] + after == before + rest;
    assert rest[0] == net && rest[1..] == after;
    StarCountAppend(before, rest);
    StarCountAppend(before, after);
    NetsStampsAppend(rule, before, rest, s);
    NetsStampsAppend(rule, before, after, s);
  }

  /** The diagonal of a star row is the number of pins times the star weight. */
  lemma {:induction false} StarRowDiagonal(pins: seq<nat>, s: nat, w: real, numMoveable: nat, lx: seq<real>, ly: seq<real>)
    requires s >= numMoveable
    ensures Entry(Expand(StarStamps(pins, s, w, numMoveable, lx, ly)), s, s) == |pins| as real * w
  {
    if pins != [] {
      var init, p := pins[..|pins| - 1], pins[|pins| - 1];
      var prev := StarStamps(init, s, w, numMoveable, lx, ly);
      var st := StarPinStamp(p, s, w, numMoveable, lx, ly);
      assert StarStamps(pins, s, w, numMoveable, lx, ly) == prev + [st];
      StarRowDiagonal(init, s, w, numMoveable, lx, ly);
      assert StampEntry(st, s, s) == w;
      ExpandSnoc(prev, st);
      EntryAppend(Expand(prev), StampTriplets(st), s, s);
      StampEntryIsSum(st, s, s);
      calc {
        Entry(Expand(prev + [st]), s, s);
        Entry(Expand(prev), s, s) + w;
        (|init| as real) * w + w;
        (|pins| as real) * w;
      }
    }
  }

  lemma {:induction false} PairsStampsContains(pins: seq<nat>, ps: seq<(nat, nat)>, x: nat, w: real, numMoveable: nat, lx: seq<real>, ly: seq<real>)
    requires PairsIn(ps, |pins|)
    requires x < |ps|
    ensures forall st :: st in PairStamps(pins[ps[x].0], pins[ps[x].1], w, numMoveable, lx, ly) ==> st in PairsStamps(pins, ps, w, numMoveable, lx, ly)
  {
    var init := ps[..|ps| - 1];
    assert PairsIn(init, |pins|);
    if x < |ps| - 1 {
      PairsStampsContains(pins, init, x, w, numMoveable, lx, ly);
      assert init[x] == ps[x];
    }
  }

  /**
   * Every pin pair i < j of a clique contributes with its own two nodes: a
   * moveable-moveable pair links them, and a mixed pair anchors the moveable
   * node to the fixed node's position.
   */
  lemma CliqueCoversEveryPair(pins: seq<nat>, w: real, numMoveable: nat, lx: seq<real>, ly: seq<real>, i: nat, j: nat)
    requires i < j < |pins|
    ensures Moveable(pins[i], numMoveable) && Moveable(pins[j], numMoveable) ==>
              Link(pins[i], pins[j], w) in CliqueStamps(pins, w, numMoveable, lx, ly)
    ensures Moveable(pins[i], numMoveable) && !Moveable(pins[j], numMoveable) ==>
              Anchor(pins[i], w, Loc(lx, pins[j]), Loc(ly, pins[j])) in CliqueStamps(pins, w, numMoveable, lx, ly)
    ensures !Moveable(pins[i], numMoveable) && Moveable(pins[j], numMoveable) ==>
              Anchor(pins[j], w, Loc(lx, pins[i]), Loc(ly, pins[i])) in CliqueStamps(pins, w, numMoveable, lx, ly)
  {
    PairsExactlyOnce(|pins|);
    PairsBeforeShape(|pins|, |pins|);
    var ps := Pairs(|pins|);
    assert (i, j) in ps;
    var x :| 0 <= x < |ps| && ps[x] == (i, j);
    PairsStampsContains(pins, ps, x, w, numMoveable, lx, ly);
  }

  /**
   * The clique pair loop as the source writes it: the first node of a pair is
   * kept across the inner loop, so after a swap the moveable second node stays
   * the first node for every later pair of the same outer iteration.
   */
  function RowAsWritten(first: nat, rest: seq<nat>, w: real, numMoveable: nat, lx: seq<real>, ly: seq<real>): seq<Stamp>
    decreases |rest|
  {
    if rest == [] then []
    else
      var second := rest[0];
      if !Moveable(first, numMoveable) && !Moveable(second, numMoveable) then
        RowAsWritten(first, rest[1..], w, numMoveable, lx, ly)
      else
        var f := if Moveable(first, numMoveable) then first else second;
        var s := if Moveable(first, numMoveable) then second else first;
        (if Moveable(s, numMoveable) then [Link(f, s, w)] else [Anchor(f, w, Loc(lx, s), Loc(ly, s))])
          + RowAsWritten(f, rest[1..], w, numMoveable, lx, ly)
  }

  function CliqueStampsAsWritten(pins: seq<nat>, w: real, numMoveable: nat, lx: seq<real>, ly: seq<real>): seq<Stamp>
    decreases |pins|
  {
    if pins == [] then []
    else
      RowAsWritten(pins[0], pins[1..], w, numMoveable, lx, ly) + CliqueStampsAsWritten(pins[1..], w, numMoveable, lx, ly)
  }

  /**
   * A three-pin net [F, M1, M2] with F fixed at (1, 1) and the
   * three-pin clique weight 1/2: the pair (F, M2) should
   * pull M2 towards F, but as written it is stamped as a second M1-M2 link, so
   * M2's right-hand side stays 0 and the M1-M2 coupling is doubled.
   */
  lemma SwappedFirstNodeLeaks(pins: seq<nat>, loc: seq<real>)
    requires pins == [2, 0, 1] && loc == [0.0, 0.0, 1.0]
    ensures CliqueStampsAsWritten(pins, 0.5, 2, loc, loc) == [Anchor(0, 0.5, 1.0, 1.0), Link(0, 1, 0.5), Link(0, 1, 0.5)]
    ensures Rhs(CliqueStampsAsWritten(pins, 0.5, 2, loc, loc), X, 1) == 0.0
  {
    var w := 0.5;
    var a0, l01 := Anchor(0, w, 1.0, 1.0), Link(0, 1, w);
    AsWrittenThreePinStamps(pins, loc);
    RhsSnoc([], a0, X, 1);
    RhsSnoc([a0], l01, X, 1);
    RhsSnoc([a0, l01], l01, X, 1);
    assert [] + [a0] == [a0] && [a0] + [l01] == [a0, l01] && [a0, l01] + [l01] == [a0, l01, l01];
  }

  /** The rows of the three-pin net as written: row F swaps in M1, which then also takes the pair (F, M2). */
  lemma AsWrittenThreePinRows(loc: seq<real>)
    requires loc == [0.0, 0.0, 1.0]
    ensures RowAsWritten(0, [1], 0.5, 2, loc, loc) == [Link(0, 1, 0.5)]
    ensures RowAsWritten(2, [0, 1], 0.5, 2, loc, loc) == [Anchor(0, 0.5, 1.0, 1.0), Link(0, 1, 0.5)]
  {
    var one: seq<nat>, e: seq<nat> := [1], [];
    assert [0, 1][1..] == one && one[1..] == e;
    assert RowAsWritten(0, one, 0.5, 2, loc, loc) == [Link(0, 1, 0.5)] + RowAsWritten(0, e, 0.5, 2, loc, loc);
  }

  lemma AsWrittenThreePinStamps(pins: seq<nat>, loc: seq<real>)
    requires pins == [2, 0, 1] && loc == [0.0, 0.0, 1.0]
    ensures CliqueStampsAsWritten(pins, 0.5, 2, loc, loc) == [Anchor(0, 0.5, 1.0, 1.0), Link(0, 1, 0.5), Link(0, 1, 0.5)]
  {
    var w := 0.5;
    var a0, l01 := Anchor(0, w, 1.0, 1.0), Link(0, 1, w);
    AsWrittenThreePinRows(loc);
    var rest, last, e: seq<nat> := [0, 1], [1], [];
    assert pins[1..] == rest && rest[1..] == last && last[1..] == e;
    assert CliqueStampsAsWritten(last, w, 2, loc, loc) == [];
    assert CliqueStampsAsWritten(rest, w, 2, loc, loc) == [l01];
  }

  lemma PairsOfThree()
    ensures Pairs(3) == [(0, 1), (0, 2), (1, 2)]
  {
    assert RowPairs(0, 2) == [(0, 1)];
    assert RowPairs(0, 3) == [(0, 1), (0, 2)];
    assert RowPairs(1, 3) == [(1, 2)];
    assert RowPairs(2, 3) == [];
    assert PairsBefore(3, 1) == [(0, 1), (0, 2)];
    assert PairsBefore(3, 2) == [(0, 1), (0, 2), (1, 2)];
  }

  /** The corrected clique of the same net: the pairs (F, M1), (F, M2), (M1, M2) in visiting order. */
  lemma CorrectedThreePinStamps(pins: seq<nat>, loc: seq<real>)
    requires pins == [2, 0, 1] && loc == [0.0, 0.0, 1.0]
    ensures CliqueStamps(pins, 0.5, 2, loc, loc) == [Anchor(0, 0.5, 1.0, 1.0), Anchor(1, 0.5, 1.0, 1.0), Link(0, 1, 0.5)]
  {
    var w := 0.5;
    var a0, a1, l01 := Anchor(0, w, 1.0, 1.0), Anchor(1, w, 1.0, 1.0), Link(0, 1, w);
    var p01: (nat, nat), p02: (nat, nat), p12: (nat, nat) := (0, 1), (0, 2), (1, 2);
    var e: seq<(nat, nat)> := [];
    PairsOfThree();
    PairsStampsSnoc(pins, e, p01, w, 2, loc, loc);
    PairsStampsSnoc(pins, [p01], p02, w, 2, loc, loc);
    PairsStampsSnoc(pins, [p01, p02], p12, w, 2, loc, loc);
    assert e + [p01] == [p01] && [p01] + [p02] == [p01, p02] && [p01, p02] + [p12] == [p01, p02, p12];
    assert PairStamps(2, 0, w, 2, loc, loc) == [a0];
    assert PairStamps(2, 1, w, 2, loc, loc) == [a1];
    assert PairStamps(0, 1, w, 2, loc, loc) == [l01];
  }

  /** The corrected clique on the same net pulls M2 towards F: its right-hand side is w * 1. */
  lemma CorrectedCliqueAnchorsEveryMixedPair(pins: seq<nat>, loc: seq<real>)
    requires pins == [2, 0, 1] && loc == [0.0, 0.0, 1.0]
    ensures CliqueStamps(pins, 0.5, 2, loc, loc) == [Anchor(0, 0.5, 1.0, 1.0), Anchor(1, 0.5, 1.0, 1.0), Link(0, 1, 0.5)]
    ensures Rhs(CliqueStamps(pins, 0.5, 2, loc, loc), X, 1) == 0.5
  {
    var w := 0.5;
    var a0, a1, l01 := Anchor(0, w, 1.0, 1.0), Anchor(1, w, 1.0, 1.0), Link(0, 1, w);
    CorrectedThreePinStamps(pins, loc);
    RhsSnoc([], a0, X, 1);
    RhsSnoc([a0], a1, X, 1);
    RhsSnoc([a0, a1], l01, X, 1);
    assert [] + [a0] == [a0] && [a0] + [a1] == [a0, a1] && [a0, a1] + [l01] == [a0, a1, l01];
  }

  /**
   * A three-pin net [F1, M, F2] with weight 1/2: the pair (F1, F2) of two
   * fixed pins should contribute nothing, but as written the swap in the
   * pair (F1, M) makes M the first node, so the fixed-fixed pair anchors M
   * to F2 a second time.
   */
  lemma FixedPairAnchoredAsWritten(pins: seq<nat>, loc: seq<real>)
    requires pins == [1, 0, 2] && loc == [0.0, 1.0, 2.0]
    ensures CliqueStampsAsWritten(pins, 0.5, 1, loc, loc) == [Anchor(0, 0.5, 1.0, 1.0), Anchor(0, 0.5, 2.0, 2.0), Anchor(0, 0.5, 2.0, 2.0)]
    ensures CliqueStamps(pins, 0.5, 1, loc, loc) == [Anchor(0, 0.5, 1.0, 1.0), Anchor(0, 0.5, 2.0, 2.0)]
  {
    var w := 0.5;
    var a1, a2 := Anchor(0, w, 1.0, 1.0), Anchor(0, w, 2.0, 2.0);
    var rest, last, e: seq<nat> := [0, 2], [2], [];
    assert pins[1..] == rest && rest[1..] == last && last[1..] == e;
    assert RowAsWritten(0, last, w, 1, loc, loc) == [a2] + RowAsWritten(0, e, w, 1, loc, loc);
    assert RowAsWritten(1, rest, w, 1, loc, loc) == [a1] + RowAsWritten(0, last, w, 1, loc, loc);
    assert CliqueStampsAsWritten(last, w, 1, loc, loc) == [];
    assert CliqueStampsAsWritten(rest, w, 1, loc, loc) == [a2];
    var p01: (nat, nat), p02: (nat, nat), p12: (nat, nat) := (0, 1), (0, 2), (1, 2);
    var ps: seq<(nat, nat)> := [];
    PairsOfThree();
    PairsStampsSnoc(pins, ps, p01, w, 1, loc, loc);
    PairsStampsSnoc(pins, [p01], p02, w, 1, loc, loc);
    PairsStampsSnoc(pins, [p01, p02], p12, w, 1, loc, loc);
    assert ps + [p01] == [p01] && [p01] + [p02] == [p01, p02] && [p01, p02] + [p12] == [p01, p02, p12];
    assert PairStamps(1, 0, w, 1, loc, loc) == [a1];
    assert PairStamps(1, 2, w, 1, loc, loc) == [];
    assert PairStamps(0, 2, w, 1, loc, loc) == [a2];
  }

  /** Each stamp of a row as written touches moveable rows only and carries the clique weight. */
  lemma {:induction false} RowAsWrittenMoveable(first: nat, rest: seq<nat>, w: real, numMoveable: nat, lx: seq<real>, ly: seq<real>)
    ensures StampsIn(RowAsWritten(first, rest, w, numMoveable, lx, ly), numMoveable)
    ensures forall k :: 0 <= k < |RowAsWritten(first, rest, w, numMoveable, lx, ly)| ==> RowAsWritten(first, rest, w, numMoveable, lx, ly)[k].w == w
    decreases |rest|
  {
    if rest != [] {
      var second := rest[0];
      if Moveable(first, numMoveable) || Moveable(second, numMoveable) {
        var f := if Moveable(first, numMoveable) then first else second;
        RowAsWrittenMoveable(f, rest[1..], w, numMoveable, lx, ly);
      } else {
        RowAsWrittenMoveable(first, rest[1..], w, numMoveable, lx, ly);
      }
    }
  }

  /**
   * The clique as written, whatever pairs it stamps, touches moveable rows only
   * and carries the clique weight: with a positive weight it keeps the matrix
   * symmetric with the Laplacian sign pattern, as the corrected clique does.
   */
  lemma {:induction false} CliqueAsWrittenMoveable(pins: seq<nat>, w: real, numMoveable: nat, lx: seq<real>, ly: seq<real>)
    ensures StampsIn(CliqueStampsAsWritten(pins, w, numMoveable, lx, ly), numMoveable)
    ensures forall k :: 0 <= k < |CliqueStampsAsWritten(pins, w, numMoveable, lx, ly)| ==> CliqueStampsAsWritten(pins, w, numMoveable, lx, ly)[k].w == w
    ensures w > 0.0 ==> PositiveWeights(CliqueStampsAsWritten(pins, w, numMoveable, lx, ly))
    decreases |pins|
  {
    if pins != [] {
      var row := RowAsWritten(pins[0], pins[1..], w, numMoveable, lx, ly);
      var tail := CliqueStampsAsWritten(pins[1..], w, numMoveable, lx, ly);
      RowAsWrittenMoveable(pins[0], pins[1..], w, numMoveable, lx, ly);
      CliqueAsWrittenMoveable(pins[1..], w, numMoveable, lx, ly);
      forall k | 0 <= k < |row + tail|
        ensures StampIn((row + tail)[k], numMoveable) && (row + tail)[k].w == w
      {
        if k < |row| {
          assert (row + tail)[k] == row[k];
        } else {
          assert (row + tail)[k] == tail[k - |row|];
        }
      }
    }
  }

  // ---------------------------------------------------------------------
  // Dependence on node locations

  /** Two location vectors that agree on every fixed node. */
  predicate SameFixed(numMoveable: nat, lx: seq<real>, ly: seq<real>, lx': seq<real>, ly': seq<real>) {
    |lx| == |ly| == |lx'| == |ly'| &&
    forall p :: numMoveable <= p < |lx| ==> lx[p] == lx'[p] && ly[p] == ly'[p]
  }

  /** The locations `loc` with the first `numMoveable` replaced by those of the solution `x`. */
  function WithMoveable(loc: seq<real>, x: seq<real>, numMoveable: nat): (r: seq<real>)
    requires numMoveable <= |x| && numMoveable <= |loc|
    ensures |r| == |loc|
    ensures forall j :: 0 <= j < |r| ==> r[j] == if j < numMoveable then x[j] else loc[j]
  {
    seq(|loc|, j requires 0 <= j < |loc| => if j < numMoveable then x[j] else loc[j])
  }

  /** Overwriting the moveable locations keeps every fixed location. */
  lemma OverwriteMoveable(numMoveable: nat, lx: seq<real>, ly: seq<real>, x: seq<real>, y: seq<real>)
    requires numMoveable <= |x| && numMoveable <= |y| && numMoveable <= |lx| == |ly|
    ensures SameFixed(numMoveable, lx, ly, WithMoveable(lx, x, numMoveable), WithMoveable(ly, y, numMoveable))
  {
  }

  lemma {:induction false} StarStampsFixedOnly(pins: seq<nat>, s: nat, w: real, numMoveable: nat, lx: seq<real>, ly: seq<real>, lx': seq<real>, ly': seq<real>)
    requires SameFixed(numMoveable, lx, ly, lx', ly')
    ensures StarStamps(pins, s, w, numMoveable, lx, ly) == StarStamps(pins, s, w, numMoveable, lx', ly')
  {
    if pins != [] {
      StarStampsFixedOnly(pins[..|pins| - 1], s, w, numMoveable, lx, ly, lx', ly');
    }
  }

  lemma {:induction false} PairsStampsFixedOnly(pins: seq<nat>, ps: seq<(nat, nat)>, w: real, numMoveable: nat, lx: seq<real>, ly: seq<real>, lx': seq<real>, ly': seq<real>)
    requires SameFixed(numMoveable, lx, ly, lx', ly')
    ensures PairsStamps(pins, ps, w, numMoveable, lx, ly) == PairsStamps(pins, ps, w, numMoveable, lx', ly')
  {
    if ps != [] {
      PairsStampsFixedOnly(pins, ps[..|ps| - 1], w, numMoveable, lx, ly, lx', ly');
    }
  }

  lemma {:induction false} NetsStampsFixedOnly(nets: seq<AtomNet>, s: nat, numMoveable: nat, lx: seq<real>, ly: seq<real>, lx': seq<real>, ly': seq<real>)
    requires SameFixed(numMoveable, lx, ly, lx', ly')
    ensures NetsStamps(PlacementRule(numMoveable, lx, ly), nets, s) == NetsStamps(PlacementRule(numMoveable, lx', ly'), nets, s)
    decreases |nets|
  {
    if nets != [] {
      var net := nets[0];
      NetsStampsFixedOnly(nets[1..], s + StarInc(net), numMoveable, lx, ly, lx', ly');
      if !net.ignored {
        if |net.pins| > 3 {
          StarStampsFixedOnly(net.pins, s, StarWeight(|net.pins|), numMoveable, lx, ly, lx', ly');
        } else {
          PairsStampsFixedOnly(net.pins, Pairs(|net.pins|), CliqueWeight(|net.pins|), numMoveable, lx, ly, lx', ly');
        }
      }
    }
  }

  /**
   * The system reads node locations only at fixed nodes: moving the moveable
   * nodes leaves the matrix and both right-hand sides unchanged.  This is why
   * the system is built once, at the first iteration, and reused afterwards.
   */
  lemma SystemStampsFixedOnly(nets: seq<AtomNet>, numMoveable: nat, lx: seq<real>, ly: seq<real>, lx': seq<real>, ly': seq<real>)
    requires SameFixed(numMoveable, lx, ly, lx', ly')
    ensures SystemStamps(nets, numMoveable, lx, ly) == SystemStamps(nets, numMoveable, lx', ly')
  {
    NetsStampsFixedOnly(nets, numMoveable, numMoveable, lx, ly, lx', ly');
  }

  // ---------------------------------------------------------------------
  // The pseudo-anchor update

  /** The diagonal triplets (0,0,c), ..., (k-1,k-1,c), in loop order. */
  function DiagonalRun(k: nat, c: real): (ts: seq<Triplet>)
    ensures |ts| == k
  {
    if k == 0 then [] else DiagonalRun(k - 1, c) + [Triplet(k - 1, k - 1, c)]
  }

  /**
   * Adding the pseudo-anchors raises exactly the diagonal entries of the
   * moveable rows by the coefficient; star rows and off-diagonal entries keep
   * their values.
   */
  lemma {:induction false} AnchoredEntry(ts: seq<Triplet>, k: nat, c: real, i: nat, j: nat)
    ensures Entry(ts + DiagonalRun(k, c), i, j) == Entry(ts, i, j) + (if i == j && i < k then c else 0.0)
  {
    EntryAppend(ts, DiagonalRun(k, c), i, j);
    DiagonalRunEntry(k, c, i, j);
  }

  lemma {:induction false} DiagonalRunEntry(k: nat, c: real, i: nat, j: nat)
    ensures Entry(DiagonalRun(k, c), i, j) == if i == j && i < k then c else 0.0
  {
    if k > 0 {
      DiagonalRunEntry(k - 1, c, i, j);
      EntryAppend(DiagonalRun(k - 1, c), [Triplet(k - 1, k - 1, c)], i, j);
    }
  }

  /** The right-hand side after the pseudo-anchor update of the first k rows. */
  function AnchoredRhs(b: seq<real>, loc: seq<real>, c: real, k: nat): (b': seq<real>)
    requires k <= |b| && k <= |loc|
    ensures |b'| == |b|
  {
    seq(|b|, i requires 0 <= i < |b| => if i < k then b[i] + Pull(c, loc[i]) else b[i])
  }
}
