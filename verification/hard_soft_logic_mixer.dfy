/**
 * The mixer that decides, per operation kind, how many candidate netlist
 * nodes become hard blocks and how many are mapped to soft logic.
 *
 * The mixer holds one optimisation strategy per operation kind (a table
 * filled once by its constructor) and one candidate list per kind. The
 * strategies themselves are abstract: each call the mixer makes on a
 * strategy is recorded in a call trace, so that the candidate counts, the
 * dispatch and the order of the calls can be stated and proved.
 */
module HardSoftLogicMixer {

  /** The three strategy implementations the table can hold. */
  datatype Strategy = MixingOpt | MultsOpt | AddersOpt

  /** A netlist node; `kind` is its operation index. */
  datatype Node = Node(id: nat, kind: nat)

  /** One call on a strategy object. */
  datatype Action =
    | SetBlocksNeeded(count: nat)
    | AssignWeights(nodes: seq<Node>)
    | Perform(nodes: seq<Node>)
    | InstantiateSoftLogic(nodes: seq<Node>)
    | InstantiateHardLogic(nodes: seq<Node>)
    | PartialMap(node: Node, traverseNumber: int)

  /** A call on the strategy at table index `op`, which is `strategy`. */
  datatype Call = Call(op: nat, strategy: Strategy, action: Action)

  /** The strategy the constructor installs at operation index `i`. */
  function StrategyOf(i: nat, multiply: nat, add: nat): Strategy {
    if i == multiply then MultsOpt else if i == add then AddersOpt else MixingOpt
  }

  /** The nodes of `noted` whose kind is `op`, in the order they were noted. */
  function Noted(noted: seq<Node>, op: nat): seq<Node> {
    if noted == [] then []
    else
      var last := noted[|noted| - 1];
      Noted(noted[..|noted| - 1], op) + (if last.kind == op then [last] else [])
  }

  lemma NotedSnoc(noted: seq<Node>, node: Node, op: nat)
    ensures Noted(noted + [node], op) == Noted(noted, op) + (if node.kind == op then [node] else [])
  {
    assert (noted + [node])[..|noted|] == noted;
  }

  /** A node is in the list of `op` exactly when it was noted and has kind `op`. */
  lemma {:induction false} NotedMembers(noted: seq<Node>, op: nat, node: Node)
    ensures node in Noted(noted, op) <==> node in noted && node.kind == op
  {
    if noted != [] {
      var init := noted[..|noted| - 1];
      NotedMembers(init, op, node);
      assert noted == init + [noted[|noted| - 1]];
    }
  }

  /** The four-call pipeline a strategy runs on its candidate list when it is enabled. */
  function Pipeline(op: nat, strategy: Strategy, nodes: seq<Node>): seq<Call> {
    [Call(op, strategy, SetBlocksNeeded(|nodes|)),
     Call(op, strategy, AssignWeights(nodes)),
     Call(op, strategy, Perform(nodes)),
     Call(op, strategy, InstantiateSoftLogic(nodes))]
  }

  /** The calls made on the multiplier strategy. */
  function MultiplyCalls(multiply: nat, enabled: bool, nodes: seq<Node>): seq<Call> {
    if enabled then Pipeline(multiply, MultsOpt, nodes) else []
  }

  /** The calls made on the adder strategy. */
  function AddCalls(add: nat, enabled: bool, nodes: seq<Node>): seq<Call> {
    if enabled then Pipeline(add, AddersOpt, nodes) else [Call(add, AddersOpt, InstantiateHardLogic(nodes))]
  }

  /** The calls of one optimisation pass: the multipliers, then the adders. */
  function OptimizationCalls(multiply: nat, add: nat, multiplyEnabled: bool, addEnabled: bool,
                             multiplyNodes: seq<Node>, addNodes: seq<Node>): seq<Call>
  {
    MultiplyCalls(multiply, multiplyEnabled, multiplyNodes) + AddCalls(add, addEnabled, addNodes)
  }

  /** The calls of `calls` made on the strategy at index `op`, in order. */
  function CallsOn(calls: seq<Call>, op: nat): seq<Call> {
    if calls == [] then []
    else (if calls[0].op == op then [calls[0]] else []) + CallsOn(calls[1..], op)
  }

  lemma {:induction false} CallsOnAppend(a: seq<Call>, b: seq<Call>, op: nat)
    ensures CallsOn(a + b, op) == CallsOn(a, op) + CallsOn(b, op)
  {
    if a == [] {
      assert a + b == b;
    } else {
      var head := if a[0].op == op then [a[0]] else [];
      assert (a + b)[0] == a[0] && (a + b)[1..] == a[1..] + b;
      assert CallsOn(a + b, op) == head + CallsOn(a[1..] + b, op);
      CallsOnAppend(a[1..], b, op);
      assert CallsOn(a, op) == head + CallsOn(a[1..], op);
    }
  }

  lemma {:induction false} CallsOnNone(calls: seq<Call>, op: nat)
    requires forall i :: 0 <= i < |calls| ==> calls[i].op != op
    ensures CallsOn(calls, op) == []
  {
    if calls != [] {
      CallsOnNone(calls[1..], op);
    }
  }

  lemma CallsOnAll(calls: seq<Call>, op: nat)
    requires forall i :: 0 <= i < |calls| ==> calls[i].op == op
    ensures CallsOn(calls, op) == calls
    decreases |calls|
  {
    if calls != [] {
      CallsOnAll(calls[1..], op);
      assert calls == [calls[0]] + calls[1..];
    }
  }

  /** An optimisation pass calls the multiplier and adder strategies only. */
  lemma OptimizationTouchesOnlyMultiplyAndAdd(multiply: nat, add: nat, multiplyEnabled: bool, addEnabled: bool,
                                              multiplyNodes: seq<Node>, addNodes: seq<Node>)
    ensures var calls := OptimizationCalls(multiply, add, multiplyEnabled, addEnabled, multiplyNodes, addNodes);
      forall i :: 0 <= i < |calls| ==>
        (calls[i].op == multiply && calls[i].strategy == MultsOpt) ||
        (calls[i].op == add && calls[i].strategy == AddersOpt)
  {
  }

  /** The multiplier calls all come before the first adder call. */
  lemma MultiplyFinishesBeforeAdd(multiply: nat, add: nat, multiplyEnabled: bool, addEnabled: bool,
                                  multiplyNodes: seq<Node>, addNodes: seq<Node>)
    requires multiply != add
    ensures var calls := OptimizationCalls(multiply, add, multiplyEnabled, addEnabled, multiplyNodes, addNodes);
      forall i, j :: 0 <= i < j < |calls| && calls[i].op == add ==> calls[j].op == add
  {
  }

  /**
   * Per strategy, an optimisation pass makes exactly the calls of its
   * phase: the multiplier pipeline (or nothing when it is disabled), and
   * the adder pipeline (or the single hard-logic instantiation).
   */
  lemma {:induction false} OptimizationCallsPerStrategy(multiply: nat, add: nat, multiplyEnabled: bool, addEnabled: bool,
                                                        multiplyNodes: seq<Node>, addNodes: seq<Node>)
    requires multiply != add
    ensures var calls := OptimizationCalls(multiply, add, multiplyEnabled, addEnabled, multiplyNodes, addNodes);
      CallsOn(calls, multiply) == MultiplyCalls(multiply, multiplyEnabled, multiplyNodes) &&
      CallsOn(calls, add) == AddCalls(add, addEnabled, addNodes)
  {
    var m := MultiplyCalls(multiply, multiplyEnabled, multiplyNodes);
    var a := AddCalls(add, addEnabled, addNodes);
    CallsOnAppend(m, a, multiply);
    CallsOnAppend(m, a, add);
    CallsOnAll(m, multiply);
    CallsOnNone(m, add);
    CallsOnAll(a, add);
    CallsOnNone(a, multiply);
  }

  /** A disabled multiplier strategy receives no call; a disabled adder strategy only instantiates hard logic. */
  lemma DisabledStrategies(multiply: nat, add: nat, multiplyEnabled: bool, addEnabled: bool,
                           multiplyNodes: seq<Node>, addNodes: seq<Node>)
    requires multiply != add
    ensures var calls := OptimizationCalls(multiply, add, multiplyEnabled, addEnabled, multiplyNodes, addNodes);
      (!multiplyEnabled ==> CallsOn(calls, multiply) == []) &&
      (!addEnabled ==> CallsOn(calls, add) == [Call(add, AddersOpt, InstantiateHardLogic(addNodes))])
  {
    OptimizationCallsPerStrategy(multiply, add, multiplyEnabled, addEnabled, multiplyNodes, addNodes);
  }

  /**
   * The mixer: a strategy table `opts` and a candidate list per operation
   * index in `nodesByOpt`. `noted` is every node noted so far, in order;
   * `trace` records the calls made on the strategies.
   */
  class Mixer {
    const operationCount: nat
    const multiply: nat
    const add: nat
    /** Whether a strategy is enabled, and whether it can harden a node. */
    const strategyEnabled: Strategy -> bool
    const strategyHardenable: (Strategy, Node) -> bool
    const opts: array<Strategy>
    const nodesByOpt: array<seq<Node>>
    ghost var noted: seq<Node>
    var trace: seq<Call>

    ghost predicate Valid()
      reads this, opts, nodesByOpt
    {
      opts.Length == operationCount && nodesByOpt.Length == operationCount &&
      multiply < operationCount && add < operationCount && multiply != add &&
      (forall i :: 0 <= i < operationCount ==> opts[i] == StrategyOf(i, multiply, add)) &&
      (forall i :: 0 <= i < operationCount ==> nodesByOpt[i] == Noted(noted, i))
    }

    constructor (operationCount: nat, multiply: nat, add: nat,
                 strategyEnabled: Strategy -> bool, strategyHardenable: (Strategy, Node) -> bool)
      requires multiply < operationCount && add < operationCount && multiply != add
      ensures Valid() && fresh(opts) && fresh(nodesByOpt)
      ensures this.operationCount == operationCount && this.multiply == multiply && this.add == add
      ensures this.strategyEnabled == strategyEnabled && this.strategyHardenable == strategyHardenable
      ensures opts[multiply] == MultsOpt && opts[add] == AddersOpt
      ensures forall i :: 0 <= i < operationCount && i != multiply && i != add ==> opts[i] == MixingOpt
      ensures noted == [] && trace == []
    {
      this.operationCount := operationCount;
      this.multiply := multiply;
      this.add := add;
      this.strategyEnabled := strategyEnabled;
      this.strategyHardenable := strategyHardenable;
      opts := new Strategy[operationCount];
      nodesByOpt := new seq<Node>[operationCount](_ => []);
      noted := [];
      trace := [];
      new;
      var i := 0;
      while i < operationCount
        invariant i <= operationCount && noted == [] && trace == []
        invariant forall k :: 0 <= k < i ==> opts[k] == StrategyOf(k, multiply, add)
        invariant forall k :: 0 <= k < operationCount ==> nodesByOpt[k] == []
      {
        if i == multiply {
          opts[i] := MultsOpt;
        } else if i == add {
          opts[i] := AddersOpt;
        } else {
          opts[i] := MixingOpt;
        }
        i := i + 1;
      }
    }

    /** Appends `node` to the candidate list of its own operation kind. */
    method NoteCandidateNode(node: Node)
      requires Valid() && node.kind < operationCount
      modifies nodesByOpt, this`noted
      ensures Valid()
      ensures noted == old(noted) + [node]
      ensures nodesByOpt[node.kind] == old(nodesByOpt[node.kind]) + [node]
      ensures forall op :: 0 <= op < operationCount && op != node.kind ==> nodesByOpt[op] == old(nodesByOpt[op])
    {
      nodesByOpt[node.kind] := nodesByOpt[node.kind] + [node];
      noted := noted + [node];
      forall op | 0 <= op < operationCount
        ensures nodesByOpt[op] == Noted(noted, op)
      {
        NotedSnoc(old(noted), node, op);
      }
    }

    /** The number of hard blocks operation `op` needs: the number of its candidates noted. */
    function HardBlocksNeeded(op: nat): (r: nat)
      requires Valid() && op < operationCount
      reads this, opts, nodesByOpt
      ensures r == |Noted(noted, op)|
    {
      |nodesByOpt[op]|
    }

    /** Whether the strategy for the kind of `node` can harden it. */
    function Hardenable(node: Node): (r: bool)
      requires Valid() && node.kind < operationCount
      reads this, opts, nodesByOpt
      ensures r == strategyHardenable(StrategyOf(node.kind, multiply, add), node)
    {
      strategyHardenable(opts[node.kind], node)
    }

    /** Whether the strategy for the kind of `node` is enabled. */
    function Enabled(node: Node): (r: bool)
      requires Valid() && node.kind < operationCount
      reads this, opts, nodesByOpt
      ensures r == strategyEnabled(StrategyOf(node.kind, multiply, add))
    {
      strategyEnabled(opts[node.kind])
    }

    /** Records one call on the strategy at index `op`. */
    method Invoke(op: nat, action: Action)
      requires Valid() && op < operationCount
      modifies this`trace
      ensures trace == old(trace) + [Call(op, StrategyOf(op, multiply, add), action)]
    {
      trace := trace + [Call(op, opts[op], action)];
    }

    /** Hands `node` to the strategy of its own operation kind. */
    method PartialMapNode(node: Node, traverseNumber: int)
      requires Valid() && node.kind < operationCount
      modifies this`trace
      ensures trace == old(trace) + [Call(node.kind, StrategyOf(node.kind, multiply, add), PartialMap(node, traverseNumber))]
    {
      Invoke(node.kind, PartialMap(node, traverseNumber));
    }

    /** Runs the multiplier strategy on its candidates, when it is enabled. */
    method OptimizeMultipliers()
      requires Valid()
      modifies this`trace
      ensures trace == old(trace) + MultiplyCalls(multiply, strategyEnabled(MultsOpt), Noted(noted, multiply))
    {
      if strategyEnabled(opts[multiply]) {
        var blocksNeeded := HardBlocksNeeded(multiply);
        Invoke(multiply, SetBlocksNeeded(blocksNeeded));
        Invoke(multiply, AssignWeights(nodesByOpt[multiply]));
        Invoke(multiply, Perform(nodesByOpt[multiply]));
        Invoke(multiply, InstantiateSoftLogic(nodesByOpt[multiply]));
      }
    }

    /** Runs the adder strategy on its candidates when it is enabled, and maps them to hard adders otherwise. */
    method OptimizeAdders()
      requires Valid()
      modifies this`trace
      ensures trace == old(trace) + AddCalls(add, strategyEnabled(AddersOpt), Noted(noted, add))
    {
      if strategyEnabled(opts[add]) {
        var blocksNeeded := HardBlocksNeeded(add);
        Invoke(add, SetBlocksNeeded(blocksNeeded));
        Invoke(add, AssignWeights(nodesByOpt[add]));
        Invoke(add, Perform(nodesByOpt[add]));
        Invoke(add, InstantiateSoftLogic(nodesByOpt[add]));
      } else {
        Invoke(add, InstantiateHardLogic(nodesByOpt[add]));
      }
    }

    /** Optimises the multipliers, then the adders. */
    method PerformOptimizations()
      requires Valid()
      modifies this`trace
      ensures trace == old(trace) +
        OptimizationCalls(multiply, add, strategyEnabled(MultsOpt), strategyEnabled(AddersOpt),
                          Noted(noted, multiply), Noted(noted, add))
    {
      OptimizeMultipliers();
      OptimizeAdders();
    }
  }
}
