/**
 * Implicit memories of the Odin II front end: memories inferred from array
 * declarations in the HDL. A memory starts as one MEMORY netlist node with
 * a depth rounded up to a power of two; ports are added as the design is
 * elaborated; at the end every memory is finalised (missing ports padded
 * with constant-zero inputs or unconnected outputs, unused second port
 * collapsed into a single-port RAM) and registered for hard-block mapping.
 *
 * The two name-keyed registries of the source (memories by full name,
 * memories by input name) are the fields of `ImplicitMemoryIndex`; the
 * memory record and its netlist node are one class, `ImplicitMemory`.
 */
module ImplicitMemory {

  datatype Option<T> = None | Some(value: T)

  /** Hard-block identifiers of the two RAM kinds. */
  const SinglePortRam: string := "single_port_ram"
  const DualPortRam: string := "dual_port_ram"

  /**
   * The hard-block identifier a new implicit memory is created with: every
   * implicit memory starts as a dual-port RAM and is collapsed to a
   * single-port RAM when a port stays unused. The source creates it with
   * `ImplicitRamIdentifierAsWritten`; see `AsWrittenNeverDualPort`.
   */
  const ImplicitRamIdentifier: string := DualPortRam
  const ImplicitRamIdentifierAsWritten: string := SinglePortRam

  /** An input pin of a memory node: its port mapping and the name of the net driving it. */
  datatype InputPin = InputPin(mapping: string, net: Option<string>)

  /** An output pin of a memory node: its port mapping and its own name. */
  datatype OutputPin = OutputPin(mapping: string, name: Option<string>)

  /* ---------------------------------------------------------------------- */
  /* Ports and pins                                                          */
  /* ---------------------------------------------------------------------- */

  /** Index of the first pin of port `i`, the ports being stored back to back. */
  function PortOffset(sizes: seq<nat>, i: nat): nat
    requires i <= |sizes|
  {
    if i == 0 then 0 else PortOffset(sizes, i - 1) + sizes[i - 1]
  }

  /** Total number of pins of all ports. */
  function PortPinCount(sizes: seq<nat>): nat {
    PortOffset(sizes, |sizes|)
  }

  lemma {:induction false} PortOffsetAppend(sizes: seq<nat>, n: nat, i: nat)
    requires i <= |sizes|
    ensures PortOffset(sizes + [n], i) == PortOffset(sizes, i)
  {
    if i > 0 {
      PortOffsetAppend(sizes, n, i - 1);
    }
  }

  /** Appending a port of `n` pins adds `n` to the pin count. */
  lemma PortPinCountAppend(sizes: seq<nat>, n: nat)
    ensures PortPinCount(sizes + [n]) == PortPinCount(sizes) + n
  {
    PortOffsetAppend(sizes, n, |sizes|);
  }

  /** Every port lies inside the pins of all ports. */
  lemma {:induction false} PortWithin(sizes: seq<nat>, i: nat)
    requires i < |sizes|
    ensures PortOffset(sizes, i) + sizes[i] <= PortPinCount(sizes)
    decreases |sizes| - i
  {
    if i + 1 < |sizes| {
      PortWithin(sizes, i + 1);
    }
  }

  /** A signed port width as a pin count: a padding loop `for (i = 0; i < size; i++)` adds none for a negative width. */
  function Count(size: int): nat {
    if size < 0 then 0 else size
  }

  function InputMappings(pins: seq<InputPin>): (r: seq<string>)
    ensures |r| == |pins| && forall i :: 0 <= i < |pins| ==> r[i] == pins[i].mapping
  {
    seq(|pins|, i requires 0 <= i < |pins| => pins[i].mapping)
  }

  function OutputMappings(pins: seq<OutputPin>): (r: seq<string>)
    ensures |r| == |pins| && forall i :: 0 <= i < |pins| ==> r[i] == pins[i].mapping
  {
    seq(|pins|, i requires 0 <= i < |pins| => pins[i].mapping)
  }

  /** Some input pin is mapped to `mapping`. */
  predicate HasInput(pins: seq<InputPin>, mapping: string) {
    mapping in InputMappings(pins)
  }

  /** Some output pin is mapped to `mapping`. */
  predicate HasOutput(pins: seq<OutputPin>, mapping: string) {
    mapping in OutputMappings(pins)
  }

  lemma InputMappingsSnoc(pins: seq<InputPin>, i: nat)
    requires i < |pins|
    ensures InputMappings(pins[..i + 1]) == InputMappings(pins[..i]) + [pins[i].mapping]
  {
  }

  lemma OutputMappingsSnoc(pins: seq<OutputPin>, i: nat)
    requires i < |pins|
    ensures OutputMappings(pins[..i + 1]) == OutputMappings(pins[..i]) + [pins[i].mapping]
  {
  }

  lemma HasInputAppend(a: seq<InputPin>, b: seq<InputPin>, mapping: string)
    ensures HasInput(a + b, mapping) <==> HasInput(a, mapping) || HasInput(b, mapping)
  {
    assert InputMappings(a + b) == InputMappings(a) + InputMappings(b);
  }

  lemma HasOutputAppend(a: seq<OutputPin>, b: seq<OutputPin>, mapping: string)
    ensures HasOutput(a + b, mapping) <==> HasOutput(a, mapping) || HasOutput(b, mapping)
  {
    assert OutputMappings(a + b) == OutputMappings(a) + OutputMappings(b);
  }

  /* ---------------------------------------------------------------------- */
  /* Dummy pins                                                              */
  /* ---------------------------------------------------------------------- */

  /** A padding input port: `size` pins, each driven by the netlist's zero net. */
  function DummyInputs(portName: string, size: int, zeroNet: Option<string>): (r: seq<InputPin>)
    ensures |r| == Count(size)
  {
    seq(Count(size), _ => InputPin(portName, zeroNet))
  }

  const DummyOutputPrefix: string := "dummy_implicit_memory_output~"

  function DigitChar(d: nat): char
    requires d < 10
  {
    ('0' as int + d) as char
  }

  predicate IsDigits(s: string) {
    forall i :: 0 <= i < |s| ==> '0' <= s[i] <= '9'
  }

  /** The decimal text of `n`, as `%d` prints it. */
  function DecimalString(n: nat): (s: string)
    ensures |s| > 0 && IsDigits(s)
    decreases n
  {
    if n < 10 then [DigitChar(n)] else DecimalString(n / 10) + [DigitChar(n % 10)]
  }

  /** Reads a decimal text back; the inverse of `DecimalString`. */
  function ParseDecimal(s: string): nat
    requires IsDigits(s)
  {
    if s == [] then 0
    else
      assert '0' <= s[|s| - 1];
      ParseDecimal(s[..|s| - 1]) * 10 + (s[|s| - 1] as int - '0' as int)
  }

  lemma {:induction false} ParseDecimalString(n: nat)
    ensures ParseDecimal(DecimalString(n)) == n
    decreases n
  {
    if n >= 10 {
      var s := DecimalString(n);
      assert s[..|s| - 1] == DecimalString(n / 10);
      ParseDecimalString(n / 10);
    }
  }

  /** The name of the `n`-th dummy output pin. */
  function DummyOutputName(n: nat): string {
    DummyOutputPrefix + DecimalString(n)
  }

  /** Distinct counter values give distinct dummy output names. */
  lemma DummyOutputNamesDistinct(a: nat, b: nat)
    requires a != b
    ensures DummyOutputName(a) != DummyOutputName(b)
  {
    if DummyOutputName(a) == DummyOutputName(b) {
      assert DecimalString(a) == DummyOutputName(a)[|DummyOutputPrefix|..];
      assert DecimalString(b) == DummyOutputName(b)[|DummyOutputPrefix|..];
      ParseDecimalString(a);
      ParseDecimalString(b);
    }
  }

  /** A padding output port: `size` unconnected pins named from counter value `first` on. */
  function DummyOutputs(portName: string, size: int, first: nat): (r: seq<OutputPin>)
    ensures |r| == Count(size)
  {
    seq(Count(size), i requires 0 <= i => OutputPin(portName, Some(DummyOutputName(first + i))))
  }

  /* ---------------------------------------------------------------------- */
  /* Finalisation, as functions of the ports found                           */
  /* ---------------------------------------------------------------------- */

  /** Which of the nine RAM ports have at least one pin. */
  datatype PortFlags = PortFlags(
    addr1: bool, addr2: bool, data1: bool, data2: bool,
    we1: bool, we2: bool, clk: bool, out1: bool, out2: bool)

  function Presence(ins: seq<InputPin>, outs: seq<OutputPin>): PortFlags {
    PortFlags(
      HasInput(ins, "addr1"), HasInput(ins, "addr2"),
      HasInput(ins, "data1"), HasInput(ins, "data2"),
      HasInput(ins, "we1"), HasInput(ins, "we2"),
      HasInput(ins, "clk"),
      HasOutput(outs, "out1"), HasOutput(outs, "out2"))
  }

  /** Port 1 (resp. 2) is in use when any of its four ports has a pin. */
  predicate PortOne(f: PortFlags) { f.addr1 || f.data1 || f.we1 || f.out1 }
  predicate PortTwo(f: PortFlags) { f.addr2 || f.data2 || f.we2 || f.out2 }

  /** The inputs padded for one RAM port: the missing ones of address, data and write enable. */
  function PortInputPadding(
    addr: string, data: string, we: string, hasAddr: bool, hasData: bool, hasWe: bool,
    addrWidth: nat, dataWidth: int, zeroNet: Option<string>): seq<InputPin>
  {
    (if hasAddr then [] else DummyInputs(addr, addrWidth, zeroNet)) +
    (if hasData then [] else DummyInputs(data, dataWidth, zeroNet)) +
    (if hasWe then [] else DummyInputs(we, 1, zeroNet))
  }

  /** The clock input padded when the memory has none. */
  function ClockPadding(hasClk: bool, zeroNet: Option<string>): seq<InputPin> {
    if hasClk then [] else DummyInputs("clk", 1, zeroNet)
  }

  /** The inputs padded for port 1 (resp. 2), when it is in use. */
  function PortOnePadding(f: PortFlags, addrWidth: nat, dataWidth: int, zeroNet: Option<string>): seq<InputPin> {
    if PortOne(f) then PortInputPadding("addr1", "data1", "we1", f.addr1, f.data1, f.we1, addrWidth, dataWidth, zeroNet) else []
  }

  function PortTwoPadding(f: PortFlags, addrWidth: nat, dataWidth: int, zeroNet: Option<string>): seq<InputPin> {
    if PortTwo(f) then PortInputPadding("addr2", "data2", "we2", f.addr2, f.data2, f.we2, addrWidth, dataWidth, zeroNet) else []
  }

  /** The input pins after padding: clock first, then port 1, then port 2. */
  function PaddedInputs(ins: seq<InputPin>, f: PortFlags, addrWidth: nat, dataWidth: int, zeroNet: Option<string>): seq<InputPin> {
    ins + ClockPadding(f.clk, zeroNet) + PortOnePadding(f, addrWidth, dataWidth, zeroNet) + PortTwoPadding(f, addrWidth, dataWidth, zeroNet)
  }

  /** The dummy outputs of one port, numbered from counter value `first`. */
  function PortOutputPadding(out: string, hasPort: bool, hasOut: bool, dataWidth: int, first: nat): seq<OutputPin> {
    if hasPort && !hasOut then DummyOutputs(out, dataWidth, first) else []
  }

  /** The output pins after padding, dummy names numbered from counter value `first`. */
  function PaddedOutputs(outs: seq<OutputPin>, f: PortFlags, dataWidth: int, first: nat): seq<OutputPin> {
    var one := PortOutputPadding("out1", PortOne(f), f.out1, dataWidth, first);
    outs + one + PortOutputPadding("out2", PortTwo(f), f.out2, dataWidth, first + |one|)
  }

  /** Number of dummy output pins the padding names. */
  function DummyOutputCount(f: PortFlags, dataWidth: int): nat {
    |PortOutputPadding("out1", PortOne(f), f.out1, dataWidth, 0)| +
    |PortOutputPadding("out2", PortTwo(f), f.out2, dataWidth, 0)|
  }

  /** A mapping without its last character (the port number). */
  function Strip(s: string): string {
    if s == [] then s else s[..|s| - 1]
  }

  /** Single-port input mappings: every input but the clock loses its port number. */
  function CollapsedInputs(pins: seq<InputPin>): (r: seq<InputPin>)
    ensures |r| == |pins|
    ensures forall i :: 0 <= i < |pins| ==>
      r[i] == if pins[i].mapping == "clk" then pins[i] else pins[i].(mapping := Strip(pins[i].mapping))
  {
    seq(|pins|, i requires 0 <= i < |pins| =>
      if pins[i].mapping == "clk" then pins[i] else pins[i].(mapping := Strip(pins[i].mapping)))
  }

  /** Single-port output mappings: every output loses its port number. */
  function CollapsedOutputs(pins: seq<OutputPin>): (r: seq<OutputPin>)
    ensures |r| == |pins|
    ensures forall i :: 0 <= i < |pins| ==> r[i] == pins[i].(mapping := Strip(pins[i].mapping))
  {
    seq(|pins|, i requires 0 <= i < |pins| => pins[i].(mapping := Strip(pins[i].mapping)))
  }

  /** A memory collapses to a single-port RAM when one of its ports is unused. */
  predicate Collapses(f: PortFlags) { !PortOne(f) || !PortTwo(f) }

  function FinalInputs(ins: seq<InputPin>, f: PortFlags, addrWidth: nat, dataWidth: int, zeroNet: Option<string>): seq<InputPin> {
    var padded := PaddedInputs(ins, f, addrWidth, dataWidth, zeroNet);
    if Collapses(f) then CollapsedInputs(padded) else padded
  }

  function FinalOutputs(outs: seq<OutputPin>, f: PortFlags, dataWidth: int, first: nat): seq<OutputPin> {
    var padded := PaddedOutputs(outs, f, dataWidth, first);
    if Collapses(f) then CollapsedOutputs(padded) else padded
  }

  function FinalIdentifier(identifier: string, f: PortFlags): string {
    if Collapses(f) then SinglePortRam else identifier
  }

  /** The list a finalised memory is registered in, if any. */
  datatype Registration = Unregistered | SinglePortList | DualPortList

  function RegistrationOf(f: PortFlags, identifier: string, hardBlocks: set<string>): Registration {
    if !PortOne(f) && !PortTwo(f) then Unregistered
    else if identifier !in hardBlocks then Unregistered
    else if identifier == SinglePortRam then SinglePortList
    else DualPortList
  }

  /** The list a memory with pins `ins` and `outs` and identifier `identifier` lands in once finalised. */
  function FinalRegistration(ins: seq<InputPin>, outs: seq<OutputPin>, identifier: string, hardBlocks: set<string>): Registration {
    var f := Presence(ins, outs);
    RegistrationOf(f, FinalIdentifier(identifier, f), hardBlocks)
  }

  /** What finalisation reads of a memory: its pins and its identifier. */
  datatype MemoryState = MemoryState(ins: seq<InputPin>, outs: seq<OutputPin>, identifier: string)

  ghost function States(ms: set<ImplicitMemory>): map<ImplicitMemory, MemoryState>
    reads ms
  {
    map m | m in ms :: MemoryState(m.inputPins, m.outputPins, m.identifier)
  }

  /** The list a memory in state `st` lands in once finalised. */
  function ListOf(st: MemoryState, hardBlocks: set<string>): Registration {
    FinalRegistration(st.ins, st.outs, st.identifier, hardBlocks)
  }

  /** The hard block a memory in state `st` is registered under once finalised. */
  function HardBlockOf(st: MemoryState): string {
    FinalIdentifier(st.identifier, Presence(st.ins, st.outs))
  }

  /** The memories of `done` that land in list `r`. */
  ghost function Listed(done: set<ImplicitMemory>, states: map<ImplicitMemory, MemoryState>, hardBlocks: set<string>, r: Registration): set<ImplicitMemory> {
    set m | m in done && m in states && ListOf(states[m], hardBlocks) == r
  }

  /** The hard blocks the memories of `done` are registered under. */
  ghost function Registrations(done: set<ImplicitMemory>, states: map<ImplicitMemory, MemoryState>, hardBlocks: set<string>): set<string> {
    set m | m in done && m in states && ListOf(states[m], hardBlocks) != Unregistered :: HardBlockOf(states[m])
  }

  /** List `base` after the memories of `order`, finalised in turn, each prepended when it lands in list `r`. */
  ghost function Prepended(base: seq<ImplicitMemory>, order: seq<ImplicitMemory>, states: map<ImplicitMemory, MemoryState>,
                           hardBlocks: set<string>, r: Registration): seq<ImplicitMemory>
    decreases |order|
  {
    if order == [] then base
    else
      var m := order[|order| - 1];
      (if m in states && ListOf(states[m], hardBlocks) == r then [m] else []) +
      Prepended(base, order[..|order| - 1], states, hardBlocks, r)
  }

  /** The hard blocks marked used, from `base`, after the memories of `order` are finalised in turn. */
  ghost function Marked(base: set<string>, order: seq<ImplicitMemory>, states: map<ImplicitMemory, MemoryState>,
                        hardBlocks: set<string>): set<string>
    decreases |order|
  {
    if order == [] then base
    else
      var m := order[|order| - 1];
      Marked(base, order[..|order| - 1], states, hardBlocks) +
      (if m in states && ListOf(states[m], hardBlocks) != Unregistered then {HardBlockOf(states[m])} else {})
  }

  /** Whatever the order, a list gains exactly the memories that land in it. */
  lemma {:induction false} PrependedMembers(base: seq<ImplicitMemory>, order: seq<ImplicitMemory>, states: map<ImplicitMemory, MemoryState>,
                                           hardBlocks: set<string>, r: Registration)
    ensures Elements(Prepended(base, order, states, hardBlocks, r)) == Elements(base) + Listed(Elements(order), states, hardBlocks, r)
    decreases |order|
  {
    if order != [] {
      var m, front := order[|order| - 1], order[..|order| - 1];
      assert order == front + [m];
      PrependedMembers(base, front, states, hardBlocks, r);
      ElementsConcat(front, [m]);
      ElementsConcat(if m in states && ListOf(states[m], hardBlocks) == r then [m] else [], Prepended(base, front, states, hardBlocks, r));
      assert Listed(Elements(order), states, hardBlocks, r) ==
        Listed(Elements(front), states, hardBlocks, r) + (if m in states && ListOf(states[m], hardBlocks) == r then {m} else {});
    }
  }

  /** Whatever the order, the hard blocks marked used are those the finalised memories are registered under. */
  lemma {:induction false} MarkedRegistrations(base: set<string>, order: seq<ImplicitMemory>, states: map<ImplicitMemory, MemoryState>,
                                              hardBlocks: set<string>)
    ensures Marked(base, order, states, hardBlocks) == base + Registrations(Elements(order), states, hardBlocks)
    decreases |order|
  {
    if order != [] {
      var m, front := order[|order| - 1], order[..|order| - 1];
      assert order == front + [m];
      MarkedRegistrations(base, front, states, hardBlocks);
      ElementsConcat(front, [m]);
      assert Registrations(Elements(order), states, hardBlocks) ==
        Registrations(Elements(front), states, hardBlocks) +
        (if m in states && ListOf(states[m], hardBlocks) != Unregistered then {HardBlockOf(states[m])} else {});
    }
  }

  /** Visiting `m`, one of the `pending` members of `all`, after the others listed once each in `order`. */
  lemma VisitNext<T>(all: set<T>, pending: set<T>, order: seq<T>, m: T)
    requires pending <= all && Elements(order) == all - pending && m in pending
    requires forall i, j :: 0 <= i < j < |order| ==> order[i] != order[j]
    ensures Elements(order + [m]) == all - (pending - {m})
    ensures forall i, j :: 0 <= i < j < |order + [m]| ==> (order + [m])[i] != (order + [m])[j]
  {
    ElementsConcat(order, [m]);
  }

  /** The elements of a list, as a set. */
  function Elements<T>(s: seq<T>): set<T> {
    set x | x in s
  }

  lemma ElementsConcat<T>(a: seq<T>, b: seq<T>)
    ensures Elements(a + b) == Elements(a) + Elements(b)
  {
  }

  /* ---------------------------------------------------------------------- */
  /* Properties of finalisation                                              */
  /* ---------------------------------------------------------------------- */

  lemma DummyInputsHave(portName: string, size: int, zeroNet: Option<string>)
    requires size > 0
    ensures HasInput(DummyInputs(portName, size, zeroNet), portName)
  {
    assert InputMappings(DummyInputs(portName, size, zeroNet))[0] == portName;
  }

  lemma DummyInputsLack(portName: string, size: int, zeroNet: Option<string>, other: string)
    requires other != portName
    ensures !HasInput(DummyInputs(portName, size, zeroNet), other)
  {
  }

  lemma DummyOutputsHave(portName: string, size: int, first: nat)
    requires size > 0
    ensures HasOutput(DummyOutputs(portName, size, first), portName)
  {
    assert OutputMappings(DummyOutputs(portName, size, first))[0] == portName;
  }

  /** One port's padding supplies each of its inputs that was missing, unless its width is zero. */
  lemma PortPaddingSupplies(
    addr: string, data: string, we: string, hasAddr: bool, hasData: bool, hasWe: bool,
    addrWidth: nat, dataWidth: int, zeroNet: Option<string>)
    ensures var p := PortInputPadding(addr, data, we, hasAddr, hasData, hasWe, addrWidth, dataWidth, zeroNet);
      (hasAddr || addrWidth == 0 || HasInput(p, addr)) &&
      (hasData || dataWidth <= 0 || HasInput(p, data)) &&
      (hasWe || HasInput(p, we))
  {
    var a := if hasAddr then [] else DummyInputs(addr, addrWidth, zeroNet);
    var d := if hasData then [] else DummyInputs(data, dataWidth, zeroNet);
    var w := if hasWe then [] else DummyInputs(we, 1, zeroNet);
    HasInputAppend(a + d, w, addr);
    HasInputAppend(a, d, addr);
    HasInputAppend(a + d, w, data);
    HasInputAppend(a, d, data);
    HasInputAppend(a + d, w, we);
    if !hasAddr && addrWidth > 0 { DummyInputsHave(addr, addrWidth, zeroNet); }
    if !hasData && dataWidth > 0 { DummyInputsHave(data, dataWidth, zeroNet); }
    if !hasWe { DummyInputsHave(we, 1, zeroNet); }
  }

  /** One port's padding adds no pin of another port. */
  lemma PortPaddingOnlyOwn(
    addr: string, data: string, we: string, hasAddr: bool, hasData: bool, hasWe: bool,
    addrWidth: nat, dataWidth: int, zeroNet: Option<string>, other: string)
    requires other != addr && other != data && other != we
    ensures !HasInput(PortInputPadding(addr, data, we, hasAddr, hasData, hasWe, addrWidth, dataWidth, zeroNet), other)
  {
    var a := if hasAddr then [] else DummyInputs(addr, addrWidth, zeroNet);
    var d := if hasData then [] else DummyInputs(data, dataWidth, zeroNet);
    var w := if hasWe then [] else DummyInputs(we, 1, zeroNet);
    HasInputAppend(a + d, w, other);
    HasInputAppend(a, d, other);
  }

  /** The four padded input groups, split so that each can be looked at alone. */
  lemma PaddedInputsParts(ins: seq<InputPin>, f: PortFlags, addrWidth: nat, dataWidth: int, zeroNet: Option<string>, m: string)
    ensures HasInput(PaddedInputs(ins, f, addrWidth, dataWidth, zeroNet), m) <==>
      HasInput(ins, m) ||
      HasInput(ClockPadding(f.clk, zeroNet), m) ||
      HasInput(PortOnePadding(f, addrWidth, dataWidth, zeroNet), m) ||
      HasInput(PortTwoPadding(f, addrWidth, dataWidth, zeroNet), m)
  {
    var c := ClockPadding(f.clk, zeroNet);
    var p1 := PortOnePadding(f, addrWidth, dataWidth, zeroNet);
    var p2 := PortTwoPadding(f, addrWidth, dataWidth, zeroNet);
    HasInputAppend(ins + c + p1, p2, m);
    HasInputAppend(ins + c, p1, m);
    HasInputAppend(ins, c, m);
  }

  /** The padded inputs include every input of each padding group. */
  lemma PaddedInputsHave(ins: seq<InputPin>, f: PortFlags, addrWidth: nat, dataWidth: int, zeroNet: Option<string>, m: string)
    requires
      HasInput(ins, m) ||
      HasInput(ClockPadding(f.clk, zeroNet), m) ||
      HasInput(PortOnePadding(f, addrWidth, dataWidth, zeroNet), m) ||
      HasInput(PortTwoPadding(f, addrWidth, dataWidth, zeroNet), m)
    ensures HasInput(PaddedInputs(ins, f, addrWidth, dataWidth, zeroNet), m)
  {
    PaddedInputsParts(ins, f, addrWidth, dataWidth, zeroNet, m);
  }

  lemma ClockPadded(ins: seq<InputPin>, outs: seq<OutputPin>, addrWidth: nat, dataWidth: int, zeroNet: Option<string>)
    ensures HasInput(PaddedInputs(ins, Presence(ins, outs), addrWidth, dataWidth, zeroNet), "clk")
  {
    var f := Presence(ins, outs);
    if !f.clk { DummyInputsHave("clk", 1, zeroNet); }
    PaddedInputsHave(ins, f, addrWidth, dataWidth, zeroNet, "clk");
  }

  lemma PortOnePadded(ins: seq<InputPin>, outs: seq<OutputPin>, addrWidth: nat, dataWidth: int, zeroNet: Option<string>)
    ensures var f := Presence(ins, outs);
      var pi := PaddedInputs(ins, f, addrWidth, dataWidth, zeroNet);
      PortOne(f) ==>
        (addrWidth == 0 || HasInput(pi, "addr1")) && (dataWidth <= 0 || HasInput(pi, "data1")) && HasInput(pi, "we1")
  {
    var f := Presence(ins, outs);
    if PortOne(f) {
      PortPaddingSupplies("addr1", "data1", "we1", f.addr1, f.data1, f.we1, addrWidth, dataWidth, zeroNet);
      if addrWidth != 0 { PaddedInputsHave(ins, f, addrWidth, dataWidth, zeroNet, "addr1"); }
      if dataWidth > 0 { PaddedInputsHave(ins, f, addrWidth, dataWidth, zeroNet, "data1"); }
      PaddedInputsHave(ins, f, addrWidth, dataWidth, zeroNet, "we1");
    }
  }

  lemma PortTwoPadded(ins: seq<InputPin>, outs: seq<OutputPin>, addrWidth: nat, dataWidth: int, zeroNet: Option<string>)
    ensures var f := Presence(ins, outs);
      var pi := PaddedInputs(ins, f, addrWidth, dataWidth, zeroNet);
      PortTwo(f) ==>
        (addrWidth == 0 || HasInput(pi, "addr2")) && (dataWidth <= 0 || HasInput(pi, "data2")) && HasInput(pi, "we2")
  {
    var f := Presence(ins, outs);
    if PortTwo(f) {
      PortPaddingSupplies("addr2", "data2", "we2", f.addr2, f.data2, f.we2, addrWidth, dataWidth, zeroNet);
      if addrWidth != 0 { PaddedInputsHave(ins, f, addrWidth, dataWidth, zeroNet, "addr2"); }
      if dataWidth > 0 { PaddedInputsHave(ins, f, addrWidth, dataWidth, zeroNet, "data2"); }
      PaddedInputsHave(ins, f, addrWidth, dataWidth, zeroNet, "we2");
    }
  }

  /** One port's output padding supplies its data output when it was missing. */
  lemma PortOutputSupplies(out: string, hasPort: bool, hasOut: bool, outs: seq<OutputPin>, dataWidth: int, first: nat)
    requires hasOut ==> HasOutput(outs, out)
    ensures hasPort && dataWidth > 0 ==> HasOutput(outs + PortOutputPadding(out, hasPort, hasOut, dataWidth, first), out)
  {
    var p := PortOutputPadding(out, hasPort, hasOut, dataWidth, first);
    HasOutputAppend(outs, p, out);
    if hasPort && !hasOut && dataWidth > 0 { DummyOutputsHave(out, dataWidth, first); }
  }

  /** The padded outputs include the outputs of both padding groups. */
  lemma PaddedOutputsHave(outs: seq<OutputPin>, f: PortFlags, dataWidth: int, first: nat)
    ensures var one := PortOutputPadding("out1", PortOne(f), f.out1, dataWidth, first);
      var po := PaddedOutputs(outs, f, dataWidth, first);
      (PortOne(f) && dataWidth > 0 && (f.out1 ==> HasOutput(outs, "out1")) ==> HasOutput(po, "out1")) &&
      (PortTwo(f) && dataWidth > 0 && (f.out2 ==> HasOutput(outs + one, "out2")) ==> HasOutput(po, "out2"))
  {
    var one := PortOutputPadding("out1", PortOne(f), f.out1, dataWidth, first);
    var two := PortOutputPadding("out2", PortTwo(f), f.out2, dataWidth, first + |one|);
    if f.out1 ==> HasOutput(outs, "out1") {
      PortOutputSupplies("out1", PortOne(f), f.out1, outs, dataWidth, first);
    }
    HasOutputAppend(outs + one, two, "out1");
    if f.out2 ==> HasOutput(outs + one, "out2") {
      PortOutputSupplies("out2", PortTwo(f), f.out2, outs + one, dataWidth, first + |one|);
    }
  }

  lemma OutputsPadded(ins: seq<InputPin>, outs: seq<OutputPin>, dataWidth: int, first: nat)
    ensures var f := Presence(ins, outs);
      var po := PaddedOutputs(outs, f, dataWidth, first);
      (PortOne(f) && dataWidth > 0 ==> HasOutput(po, "out1")) &&
      (PortTwo(f) && dataWidth > 0 ==> HasOutput(po, "out2"))
  {
    var f := Presence(ins, outs);
    var one := PortOutputPadding("out1", PortOne(f), f.out1, dataWidth, first);
    HasOutputAppend(outs, one, "out2");
    PaddedOutputsHave(outs, f, dataWidth, first);
  }

  /**
   * After padding the memory is clocked, and every port in use has an
   * address, data and write-enable input and a data output (a port of
   * width zero has no pin to show it).
   */
  lemma PaddingCompletesPorts(ins: seq<InputPin>, outs: seq<OutputPin>, addrWidth: nat, dataWidth: int, zeroNet: Option<string>, first: nat)
    ensures var f := Presence(ins, outs);
      var pi := PaddedInputs(ins, f, addrWidth, dataWidth, zeroNet);
      var po := PaddedOutputs(outs, f, dataWidth, first);
      HasInput(pi, "clk") &&
      (PortOne(f) ==>
        (addrWidth == 0 || HasInput(pi, "addr1")) && (dataWidth <= 0 || HasInput(pi, "data1")) &&
        HasInput(pi, "we1") && (dataWidth <= 0 || HasOutput(po, "out1"))) &&
      (PortTwo(f) ==>
        (addrWidth == 0 || HasInput(pi, "addr2")) && (dataWidth <= 0 || HasInput(pi, "data2")) &&
        HasInput(pi, "we2") && (dataWidth <= 0 || HasOutput(po, "out2")))
  {
    ClockPadded(ins, outs, addrWidth, dataWidth, zeroNet);
    PortOnePadded(ins, outs, addrWidth, dataWidth, zeroNet);
    PortTwoPadded(ins, outs, addrWidth, dataWidth, zeroNet);
    OutputsPadded(ins, outs, dataWidth, first);
  }

  /** An input of one port is absent after padding when its port and the clock padding do not supply it. */
  lemma PaddedInputLacks(ins: seq<InputPin>, f: PortFlags, addrWidth: nat, dataWidth: int, zeroNet: Option<string>, m: string)
    requires !HasInput(ins, m) && m != "clk"
    requires !HasInput(PortOnePadding(f, addrWidth, dataWidth, zeroNet), m)
    requires !HasInput(PortTwoPadding(f, addrWidth, dataWidth, zeroNet), m)
    ensures !HasInput(PaddedInputs(ins, f, addrWidth, dataWidth, zeroNet), m)
  {
    PaddedInputsParts(ins, f, addrWidth, dataWidth, zeroNet, m);
    DummyInputsLack("clk", 1, zeroNet, m);
  }

  lemma PortOneStaysUnused(ins: seq<InputPin>, outs: seq<OutputPin>, addrWidth: nat, dataWidth: int, zeroNet: Option<string>)
    ensures var f := Presence(ins, outs);
      var pi := PaddedInputs(ins, f, addrWidth, dataWidth, zeroNet);
      !PortOne(f) ==> !HasInput(pi, "addr1") && !HasInput(pi, "data1") && !HasInput(pi, "we1")
  {
    var f := Presence(ins, outs);
    if !PortOne(f) {
      PortPaddingOnlyOwn("addr2", "data2", "we2", f.addr2, f.data2, f.we2, addrWidth, dataWidth, zeroNet, "addr1");
      PortPaddingOnlyOwn("addr2", "data2", "we2", f.addr2, f.data2, f.we2, addrWidth, dataWidth, zeroNet, "data1");
      PortPaddingOnlyOwn("addr2", "data2", "we2", f.addr2, f.data2, f.we2, addrWidth, dataWidth, zeroNet, "we1");
      PaddedInputLacks(ins, f, addrWidth, dataWidth, zeroNet, "addr1");
      PaddedInputLacks(ins, f, addrWidth, dataWidth, zeroNet, "data1");
      PaddedInputLacks(ins, f, addrWidth, dataWidth, zeroNet, "we1");
    }
  }

  lemma PortTwoStaysUnused(ins: seq<InputPin>, outs: seq<OutputPin>, addrWidth: nat, dataWidth: int, zeroNet: Option<string>)
    ensures var f := Presence(ins, outs);
      var pi := PaddedInputs(ins, f, addrWidth, dataWidth, zeroNet);
      !PortTwo(f) ==> !HasInput(pi, "addr2") && !HasInput(pi, "data2") && !HasInput(pi, "we2")
  {
    var f := Presence(ins, outs);
    if !PortTwo(f) {
      PortPaddingOnlyOwn("addr1", "data1", "we1", f.addr1, f.data1, f.we1, addrWidth, dataWidth, zeroNet, "addr2");
      PortPaddingOnlyOwn("addr1", "data1", "we1", f.addr1, f.data1, f.we1, addrWidth, dataWidth, zeroNet, "data2");
      PortPaddingOnlyOwn("addr1", "data1", "we1", f.addr1, f.data1, f.we1, addrWidth, dataWidth, zeroNet, "we2");
      PaddedInputLacks(ins, f, addrWidth, dataWidth, zeroNet, "addr2");
      PaddedInputLacks(ins, f, addrWidth, dataWidth, zeroNet, "data2");
      PaddedInputLacks(ins, f, addrWidth, dataWidth, zeroNet, "we2");
    }
  }

  /** Padding never brings an unused port into use: its inputs stay absent. */
  lemma PaddingLeavesUnusedPortEmpty(ins: seq<InputPin>, outs: seq<OutputPin>, addrWidth: nat, dataWidth: int, zeroNet: Option<string>)
    ensures var f := Presence(ins, outs);
      var pi := PaddedInputs(ins, f, addrWidth, dataWidth, zeroNet);
      (!PortOne(f) ==> !HasInput(pi, "addr1") && !HasInput(pi, "data1") && !HasInput(pi, "we1")) &&
      (!PortTwo(f) ==> !HasInput(pi, "addr2") && !HasInput(pi, "data2") && !HasInput(pi, "we2"))
  {
    PortOneStaysUnused(ins, outs, addrWidth, dataWidth, zeroNet);
    PortTwoStaysUnused(ins, outs, addrWidth, dataWidth, zeroNet);
  }

  /** The dummy outputs of a finalisation have pairwise distinct names. */
  lemma {:induction false} PaddedOutputNamesDistinct(outs: seq<OutputPin>, f: PortFlags, dataWidth: int, first: nat, i: nat, j: nat)
    requires var po := PaddedOutputs(outs, f, dataWidth, first); |outs| <= i < j < |po|
    ensures var po := PaddedOutputs(outs, f, dataWidth, first);
      po[i].name.Some? && po[j].name.Some? && po[i].name != po[j].name
  {
    var one := PortOutputPadding("out1", PortOne(f), f.out1, dataWidth, first);
    var two := PortOutputPadding("out2", PortTwo(f), f.out2, dataWidth, first + |one|);
    var po := outs + one + two;
    assert po == PaddedOutputs(outs, f, dataWidth, first);
    // Position k of the padding carries counter value first + k.
    assert forall k :: |outs| <= k < |po| ==> po[k].name == Some(DummyOutputName(first + (k - |outs|))) by {
      forall k | |outs| <= k < |po|
        ensures po[k].name == Some(DummyOutputName(first + (k - |outs|)))
      {
        if k < |outs| + |one| {
          assert po[k] == one[k - |outs|];
        } else {
          assert po[k] == two[k - |outs| - |one|];
        }
      }
    }
    DummyOutputNamesDistinct(first + (i - |outs|), first + (j - |outs|));
  }

  /** Collapsing keeps a numbered mapping, minus its number, and keeps the clock. */
  lemma CollapsedHas(pins: seq<InputPin>, m: string)
    requires HasInput(pins, m)
    ensures HasInput(CollapsedInputs(pins), if m == "clk" then m else Strip(m))
  {
    var i :| 0 <= i < |pins| && pins[i].mapping == m;
    assert InputMappings(CollapsedInputs(pins))[i] == (if m == "clk" then m else Strip(m));
  }

  lemma CollapsedOutputHas(pins: seq<OutputPin>, m: string)
    requires HasOutput(pins, m)
    ensures HasOutput(CollapsedOutputs(pins), Strip(m))
  {
    var i :| 0 <= i < |pins| && pins[i].mapping == m;
    assert OutputMappings(CollapsedOutputs(pins))[i] == Strip(m);
  }

  /** Collapsing a complete numbered port gives a complete single-port RAM. */
  lemma CollapsedPortComplete(
    pi: seq<InputPin>, po: seq<OutputPin>, addr: string, data: string, we: string, out: string,
    addrWidth: nat, dataWidth: int)
    requires Strip(addr) == "addr" && Strip(data) == "data" && Strip(we) == "we" && Strip(out) == "out"
    requires addr != "clk" && data != "clk" && we != "clk"
    requires HasInput(pi, "clk") && (addrWidth == 0 || HasInput(pi, addr)) && (dataWidth <= 0 || HasInput(pi, data))
    requires HasInput(pi, we) && (dataWidth <= 0 || HasOutput(po, out))
    ensures var ci := CollapsedInputs(pi);
      HasInput(ci, "clk") && (addrWidth == 0 || HasInput(ci, "addr")) &&
      (dataWidth <= 0 || HasInput(ci, "data")) && HasInput(ci, "we") &&
      (dataWidth <= 0 || HasOutput(CollapsedOutputs(po), "out"))
  {
    CollapsedHas(pi, "clk");
    if addrWidth != 0 { CollapsedHas(pi, addr); }
    if dataWidth > 0 { CollapsedHas(pi, data); CollapsedOutputHas(po, out); }
    CollapsedHas(pi, we);
  }

  /**
   * A memory with exactly one port in use ends as a complete single-port
   * RAM: clock, address, data and write enable inputs and a data output,
   * under the single-port mappings.
   */
  lemma OnePortFinalisesToSinglePortRam(ins: seq<InputPin>, outs: seq<OutputPin>, addrWidth: nat, dataWidth: int, zeroNet: Option<string>, first: nat)
    requires var f := Presence(ins, outs); PortOne(f) != PortTwo(f)
    ensures var f := Presence(ins, outs);
      var fi := FinalInputs(ins, f, addrWidth, dataWidth, zeroNet);
      var fo := FinalOutputs(outs, f, dataWidth, first);
      HasInput(fi, "clk") && (addrWidth == 0 || HasInput(fi, "addr")) &&
      (dataWidth <= 0 || HasInput(fi, "data")) && HasInput(fi, "we") &&
      (dataWidth <= 0 || HasOutput(fo, "out")) &&
      FinalIdentifier(ImplicitRamIdentifier, f) == SinglePortRam
  {
    var f := Presence(ins, outs);
    var pi := PaddedInputs(ins, f, addrWidth, dataWidth, zeroNet);
    var po := PaddedOutputs(outs, f, dataWidth, first);
    PaddingCompletesPorts(ins, outs, addrWidth, dataWidth, zeroNet, first);
    if PortOne(f) {
      CollapsedPortComplete(pi, po, "addr1", "data1", "we1", "out1", addrWidth, dataWidth);
    } else {
      CollapsedPortComplete(pi, po, "addr2", "data2", "we2", "out2", addrWidth, dataWidth);
    }
  }

  /**
   * With the dual-port creation identifier, a finalised memory is registered
   * as a dual-port RAM exactly when both ports are in use, and as a
   * single-port RAM exactly when one is, provided the architecture has the
   * hard block.
   */
  lemma CorrectedRegistration(f: PortFlags, hardBlocks: set<string>)
    ensures var r := RegistrationOf(f, FinalIdentifier(ImplicitRamIdentifier, f), hardBlocks);
      (r == DualPortList <==> PortOne(f) && PortTwo(f) && DualPortRam in hardBlocks) &&
      (r == SinglePortList <==> PortOne(f) != PortTwo(f) && SinglePortRam in hardBlocks)
  {
    assert SinglePortRam != DualPortRam by {
      assert SinglePortRam[0] != DualPortRam[0];
    }
  }

  /**
   * As written, a memory is created with the single-port identifier, so no
   * memory ever reaches the dual-port list, whatever ports it uses.
   */
  lemma AsWrittenNeverDualPort(f: PortFlags, hardBlocks: set<string>)
    ensures RegistrationOf(f, FinalIdentifier(ImplicitRamIdentifierAsWritten, f), hardBlocks) != DualPortList
  {
  }

  /**
   * The input that shows it: a memory reading and writing through both
   * ports is registered as a single-port RAM while its pins keep the
   * dual-port mappings `addr1` and `addr2`.
   */
  lemma AsWrittenTwoPortMemoryIsSinglePort(zeroNet: Option<string>, addrWidth: nat, dataWidth: int)
    ensures var ins := [InputPin("addr1", zeroNet), InputPin("addr2", zeroNet)];
      var f := Presence(ins, []);
      var fi := FinalInputs(ins, f, addrWidth, dataWidth, zeroNet);
      RegistrationOf(f, FinalIdentifier(ImplicitRamIdentifierAsWritten, f), {SinglePortRam}) == SinglePortList &&
      HasInput(fi, "addr1") && HasInput(fi, "addr2")
  {
    var ins := [InputPin("addr1", zeroNet), InputPin("addr2", zeroNet)];
    assert InputMappings(ins)[0] == "addr1" && InputMappings(ins)[1] == "addr2";
    var f := Presence(ins, []);
    HasInputAppend(ins, PaddedInputs(ins, f, addrWidth, dataWidth, zeroNet)[|ins|..], "addr1");
    HasInputAppend(ins, PaddedInputs(ins, f, addrWidth, dataWidth, zeroNet)[|ins|..], "addr2");
    assert PaddedInputs(ins, f, addrWidth, dataWidth, zeroNet) == ins + PaddedInputs(ins, f, addrWidth, dataWidth, zeroNet)[|ins|..];
  }

  /* ---------------------------------------------------------------------- */
  /* Depth rounding                                                          */
  /* ---------------------------------------------------------------------- */

  function Pow2(k: nat): (p: nat)
    ensures p > 0
  {
    if k == 0 then 1 else 2 * Pow2(k - 1)
  }

  lemma {:induction false} Pow2Increasing(a: nat, b: nat)
    requires a < b
    ensures Pow2(a) < Pow2(b)
    decreases b
  {
    if a + 1 < b {
      Pow2Increasing(a, b - 1);
    }
  }

  /** Largest depth whose rounding stays within a signed 64-bit `long`. */
  const MaxMemoryDepth: nat := 0x4000_0000_0000_0000

  /**
   * Rounds a memory depth up to the closest power of two: the address width
   * is the least `k` with `2^k >= depth`, and a depth that is already a
   * power of two is kept.
   */
  method RoundDepthToPowerOfTwo(memoryDepth: int) returns (addrWidth: nat, realDepth: nat)
    requires 0 < memoryDepth <= MaxMemoryDepth
    ensures realDepth == Pow2(addrWidth) && memoryDepth <= realDepth
    ensures forall k: nat :: memoryDepth <= Pow2(k) ==> addrWidth <= k
    ensures forall k: nat :: memoryDepth == Pow2(k) ==> addrWidth == k && realDepth == memoryDepth
  {
    addrWidth, realDepth := 0, 1;
    while realDepth < memoryDepth
      invariant realDepth == Pow2(addrWidth)
      invariant addrWidth == 0 || Pow2(addrWidth - 1) < memoryDepth
      decreases memoryDepth - realDepth
    {
      addrWidth := addrWidth + 1;
      realDepth := realDepth * 2;
    }
    forall k: nat | memoryDepth <= Pow2(k)
      ensures addrWidth <= k
    {
      if k < addrWidth - 1 {
        Pow2Increasing(k, addrWidth - 1);
      }
    }
    forall k: nat | memoryDepth == Pow2(k)
      ensures addrWidth == k
    {
      if addrWidth < k {
        Pow2Increasing(addrWidth, k);
      }
    }
  }

  /* ---------------------------------------------------------------------- */
  /* AST references                                                          */
  /* ---------------------------------------------------------------------- */

  datatype AstKind = ArrayRef | Identifiers | OtherKind

  /**
   * The parts of an AST node a memory reference is resolved from: its kind,
   * its number of children, its own identifier (an IDENTIFIERS node) and the
   * identifier of its identifier node (an ARRAY_REF node).
   */
  datatype AstNode = AstNode(kind: AstKind, numChildren: nat, identifier: string, arrayIdentifier: string)

  /** The identifier an AST node refers to a memory by, if it can refer to one. */
  function ReferencedIdentifier(node: Option<AstNode>): (r: Option<string>)
    ensures r.Some? <==>
      node.Some? && (node.value.kind == Identifiers ||
        (node.value.kind == ArrayRef && (node.value.numChildren == 1 || node.value.numChildren == 2)))
  {
    if node.Some? && node.value.numChildren == 1 && node.value.kind == ArrayRef then Some(node.value.arrayIdentifier)
    else if node.Some? && node.value.numChildren == 2 && node.value.kind == ArrayRef then Some(node.value.arrayIdentifier)
    else if node.Some? && node.value.kind == Identifiers then Some(node.value.identifier)
    else None
  }

  /* ---------------------------------------------------------------------- */
  /* Registries                                                              */
  /* ---------------------------------------------------------------------- */

  /** `std::unordered_map::insert`: a key already present keeps its value. */
  function InsertNew<K(!new), V>(m: map<K, V>, k: K, v: V): (r: map<K, V>)
    ensures k in r && r[k] == (if k in m then m[k] else v)
    ensures forall k' :: k' != k ==> (k' in r <==> k' in m)
    ensures forall k' :: k' in m ==> k' in r && r[k'] == m[k']
  {
    if k in m then m else m[k := v]
  }

  /** Inserting the same key twice keeps the first value. */
  lemma InsertNewFirstWins<K(!new), V>(m: map<K, V>, k: K, v: V, v': V)
    ensures InsertNew(InsertNew(m, k, v), k, v') == InsertNew(m, k, v)
  {
  }

  /* ---------------------------------------------------------------------- */
  /* The memory                                                              */
  /* ---------------------------------------------------------------------- */

  /** The pins one port adds: one per signal, mapped to the port name. */
  function PortInputs(nets: seq<Option<string>>, portName: string): (r: seq<InputPin>)
    ensures |r| == |nets| && forall k :: 0 <= k < |nets| ==> r[k] == InputPin(portName, nets[k])
  {
    seq(|nets|, k requires 0 <= k < |nets| => InputPin(portName, nets[k]))
  }

  function PortOutputs(names: seq<Option<string>>, portName: string): (r: seq<OutputPin>)
    ensures |r| == |names| && forall k :: 0 <= k < |names| ==> r[k] == OutputPin(portName, names[k])
  {
    seq(|names|, k requires 0 <= k < |names| => OutputPin(portName, names[k]))
  }

  /** An implicit memory together with its MEMORY netlist node. */
  class ImplicitMemory {
    const name: string
    const addrWidth: nat
    const memoryDepth: nat
    const dataWidth: int
    var clockAdded: bool
    var outputAdded: bool
    var inputPins: seq<InputPin>
    var inputPortSizes: seq<nat>
    var outputPins: seq<OutputPin>
    var outputPortSizes: seq<nat>
    /** The hard-block identifier of the node's related AST node. */
    var identifier: string

    /** The ports partition the pins. */
    ghost predicate Valid()
      reads this
    {
      PortPinCount(inputPortSizes) == |inputPins| && PortPinCount(outputPortSizes) == |outputPins|
    }

    constructor (name: string, addrWidth: nat, memoryDepth: nat, dataWidth: int, identifier: string)
      ensures Valid()
      ensures this.name == name && this.addrWidth == addrWidth && this.memoryDepth == memoryDepth
      ensures this.dataWidth == dataWidth && this.identifier == identifier
      ensures !clockAdded && !outputAdded
      ensures inputPins == [] && inputPortSizes == [] && outputPins == [] && outputPortSizes == []
    {
      this.name := name;
      this.addrWidth := addrWidth;
      this.memoryDepth := memoryDepth;
      this.dataWidth := dataWidth;
      this.identifier := identifier;
      clockAdded, outputAdded := false, false;
      inputPins, inputPortSizes, outputPins, outputPortSizes := [], [], [], [];
    }

    /** Adds an input port with one pin per signal, each mapped to `portName`. */
    method AddInputPort(nets: seq<Option<string>>, portName: string)
      requires Valid()
      modifies this`inputPins, this`inputPortSizes
      ensures Valid()
      ensures inputPins == old(inputPins) + PortInputs(nets, portName)
      ensures inputPortSizes == old(inputPortSizes) + [|nets|]
    {
      PortPinCountAppend(inputPortSizes, |nets|);
      inputPins := inputPins + PortInputs(nets, portName);
      inputPortSizes := inputPortSizes + [|nets|];
    }

    /** Adds an output port with one pin per signal, each mapped to `portName`. */
    method AddOutputPort(names: seq<Option<string>>, portName: string)
      requires Valid()
      modifies this`outputPins, this`outputPortSizes
      ensures Valid()
      ensures outputPins == old(outputPins) + PortOutputs(names, portName)
      ensures outputPortSizes == old(outputPortSizes) + [|names|]
    {
      PortPinCountAppend(outputPortSizes, |names|);
      outputPins := outputPins + PortOutputs(names, portName);
      outputPortSizes := outputPortSizes + [|names|];
    }

    /** Which of the RAM ports have a pin, found by one pass over the inputs and one over the outputs. */
    method PresentPorts() returns (f: PortFlags)
      ensures f == Presence(inputPins, outputPins)
    {
      var addr1, addr2, data1, data2, we1, we2, clk := false, false, false, false, false, false, false;
      var i := 0;
      while i < |inputPins|
        invariant i <= |inputPins|
        invariant addr1 == HasInput(inputPins[..i], "addr1") && addr2 == HasInput(inputPins[..i], "addr2")
        invariant data1 == HasInput(inputPins[..i], "data1") && data2 == HasInput(inputPins[..i], "data2")
        invariant we1 == HasInput(inputPins[..i], "we1") && we2 == HasInput(inputPins[..i], "we2")
        invariant clk == HasInput(inputPins[..i], "clk")
      {
        InputMappingsSnoc(inputPins, i);
        var mapping := inputPins[i].mapping;
        if mapping == "addr1" {
          addr1 := true;
        } else if mapping == "addr2" {
          addr2 := true;
        } else if mapping == "data1" {
          data1 := true;
        } else if mapping == "data2" {
          data2 := true;
        } else if mapping == "we1" {
          we1 := true;
        } else if mapping == "we2" {
          we2 := true;
        } else if mapping == "clk" {
          clk := true;
        }
        i := i + 1;
      }
      assert inputPins[..i] == inputPins;
      var out1, out2 := false, false;
      i := 0;
      while i < |outputPins|
        invariant i <= |outputPins|
        invariant out1 == HasOutput(outputPins[..i], "out1") && out2 == HasOutput(outputPins[..i], "out2")
      {
        OutputMappingsSnoc(outputPins, i);
        var mapping := outputPins[i].mapping;
        if mapping == "out1" {
          out1 := true;
        } else if mapping == "out2" {
          out2 := true;
        }
        i := i + 1;
      }
      assert outputPins[..i] == outputPins;
      f := PortFlags(addr1, addr2, data1, data2, we1, we2, clk, out1, out2);
    }

    /**
     * Whether some input port of the memory is connected to exactly the
     * given signals: same width, every pin mapped to `portName` and driven
     * by the net of the same name. A port of width zero counts as connected.
     */
    method IsSignalListConnected(signals: seq<Option<string>>, portName: string) returns (connected: bool)
      requires Valid()
      ensures connected == SignalListConnected(inputPins, inputPortSizes, signals, portName)
    {
      if |inputPortSizes| > 0 {
        var pinIndex := 0;
        var i := 0;
        while i < |inputPortSizes|
          invariant i <= |inputPortSizes| && pinIndex == PortOffset(inputPortSizes, i)
          invariant forall i' :: 0 <= i' < i ==> !PortConnectedAt(inputPins, inputPortSizes, i', signals, portName)
        {
          PortWithin(inputPortSizes, i);
          var portConnected := IsPortConnected(pinIndex, inputPortSizes[i], signals, portName);
          pinIndex := pinIndex + inputPortSizes[i];
          if portConnected {
            assert PortConnectedAt(inputPins, inputPortSizes, i, signals, portName);
            return true;
          }
          i := i + 1;
        }
      }
      return false;
    }

    /** One port of the check above, with its array of per-signal results. */
    method IsPortConnected(offset: nat, size: nat, signals: seq<Option<string>>, portName: string) returns (connected: bool)
      requires offset + size <= |inputPins|
      ensures connected == PortConnected(inputPins, offset, size, signals, portName)
    {
      var connectivity := new bool[size](_ => false);
      var j := 0;
      ghost var stopped := false;
      while size == |signals| && j < |signals|
        invariant j <= size && (size != |signals| ==> j == 0)
        invariant connectivity[..] == Connectivity(inputPins, offset, size, signals, portName, j)
      {
        var pin := inputPins[offset + j];
        if pin.mapping == portName {
          if pin.net.Some? && signals[j].Some? {
            if pin.net.value == signals[j].value {
              connectivity[j] := true;
            }
          }
        } else {
          stopped := true;
          break;
        }
        j := j + 1;
      }
      ConnectivityMeaning(inputPins, offset, size, signals, portName, j);
      connected := true;
      var k := 0;
      while k < size
        invariant k <= size
        invariant connected == (false !in connectivity[..k])
      {
        assert connectivity[..k + 1] == connectivity[..k] + [connectivity[k]];
        connected := connected && connectivity[k];
        k := k + 1;
      }
      assert connectivity[..k] == connectivity[..];
    }

    /** Drops the port number from every mapping but the clock and turns the node into a single-port RAM. */
    method CollapseToSinglePortRam()
      requires Valid()
      modifies this`inputPins, this`outputPins, this`identifier
      ensures Valid()
      ensures inputPins == CollapsedInputs(old(inputPins))
      ensures outputPins == CollapsedOutputs(old(outputPins))
      ensures identifier == SinglePortRam
    {
      var i := 0;
      while i < |inputPins|
        invariant i <= |inputPins| == |old(inputPins)|
        invariant forall k :: 0 <= k < i ==> inputPins[k] == CollapsedInputs(old(inputPins))[k]
        invariant forall k :: i <= k < |inputPins| ==> inputPins[k] == old(inputPins)[k]
        invariant outputPins == old(outputPins)
      {
        var pin := inputPins[i];
        if pin.mapping != "clk" {
          inputPins := inputPins[i := pin.(mapping := Strip(pin.mapping))];
        }
        i := i + 1;
      }
      assert inputPins == CollapsedInputs(old(inputPins));
      i := 0;
      while i < |outputPins|
        invariant i <= |outputPins| == |old(outputPins)|
        invariant forall k :: 0 <= k < i ==> outputPins[k] == CollapsedOutputs(old(outputPins))[k]
        invariant forall k :: i <= k < |outputPins| ==> outputPins[k] == old(outputPins)[k]
        invariant inputPins == CollapsedInputs(old(inputPins))
      {
        var pin := outputPins[i];
        outputPins := outputPins[i := pin.(mapping := Strip(pin.mapping))];
        i := i + 1;
      }
      assert outputPins == CollapsedOutputs(old(outputPins));
      identifier := SinglePortRam;
    }
  }

  /** An input pin matches a signal: mapped to the port, and both nets named alike. */
  predicate PinMatches(pin: InputPin, signal: Option<string>, portName: string) {
    pin.mapping == portName && pin.net.Some? && signal.Some? && pin.net.value == signal.value
  }

  /** The port of `size` pins at `offset` is connected to the signals. */
  predicate PortConnected(pins: seq<InputPin>, offset: nat, size: nat, signals: seq<Option<string>>, portName: string) {
    size == 0 ||
    (size == |signals| && offset + size <= |pins| &&
     forall k :: 0 <= k < size ==> PinMatches(pins[offset + k], signals[k], portName))
  }

  /** The per-signal results of one port once the first `j` signals have been compared. */
  function Connectivity(pins: seq<InputPin>, offset: nat, size: nat, signals: seq<Option<string>>, portName: string, j: nat): (r: seq<bool>)
    requires offset + size <= |pins|
    ensures |r| == size
    ensures forall k :: 0 <= k < size ==>
      r[k] == (k < j && k < |signals| && PinMatches(pins[offset + k], signals[k], portName))
  {
    seq(size, k requires 0 <= k < size => k < j && k < |signals| && PinMatches(pins[offset + k], signals[k], portName))
  }

  /**
   * After the comparison loop has stopped, at the end of the signals or at
   * the first pin mapped to another port, the port is connected exactly when
   * every per-signal result is true.
   */
  lemma ConnectivityMeaning(pins: seq<InputPin>, offset: nat, size: nat, signals: seq<Option<string>>, portName: string, j: nat)
    requires offset + size <= |pins| && j <= size
    requires size != |signals| ==> j == 0
    requires size == |signals| && j < size ==> pins[offset + j].mapping != portName
    ensures (false !in Connectivity(pins, offset, size, signals, portName, j)) == PortConnected(pins, offset, size, signals, portName)
  {
    var c := Connectivity(pins, offset, size, signals, portName, j);
    if size > 0 && (size != |signals| || j < size) {
      assert !c[j];
      assert size == |signals| ==> !PinMatches(pins[offset + j], signals[j], portName);
    } else if size > 0 {
      if false in c {
        var k :| 0 <= k < size && c[k] == false;
        assert !PinMatches(pins[offset + k], signals[k], portName);
      }
    }
  }

  /** Some input port is connected to the signals. */
  predicate SignalListConnected(pins: seq<InputPin>, sizes: seq<nat>, signals: seq<Option<string>>, portName: string) {
    exists i :: 0 <= i < |sizes| && PortConnectedAt(pins, sizes, i, signals, portName)
  }

  /** Port `i` is connected to the signals. */
  predicate PortConnectedAt(pins: seq<InputPin>, sizes: seq<nat>, i: nat, signals: seq<Option<string>>, portName: string)
    requires i < |sizes|
  {
    PortConnected(pins, PortOffset(sizes, i), sizes[i], signals, portName)
  }

  /** A memory with an input port of width zero is connected to every signal list. */
  lemma EmptyPortConnectsAnything(pins: seq<InputPin>, sizes: seq<nat>, i: nat, signals: seq<Option<string>>, portName: string)
    requires i < |sizes| && sizes[i] == 0
    ensures SignalListConnected(pins, sizes, signals, portName)
  {
    assert PortConnectedAt(pins, sizes, i, signals, portName);
  }

  /** A memory with input ports of non-zero width only is connected to no signal list of another width. */
  lemma WidthMismatchNotConnected(pins: seq<InputPin>, sizes: seq<nat>, signals: seq<Option<string>>, portName: string)
    requires forall i :: 0 <= i < |sizes| ==> sizes[i] != 0 && sizes[i] != |signals|
    ensures !SignalListConnected(pins, sizes, signals, portName)
  {
  }

  /* ---------------------------------------------------------------------- */
  /* The index                                                               */
  /* ---------------------------------------------------------------------- */

  /** `ins'`, `outs'` and `identifier'` are the finalisation of a memory whose pins and identifier were `ins`, `outs` and `identifier`. */
  ghost predicate Finalized(ins': seq<InputPin>, outs': seq<OutputPin>, identifier': string, addrWidth: nat, dataWidth: int,
    zeroNet: Option<string>, ins: seq<InputPin>, outs: seq<OutputPin>, identifier: string)
  {
    var f := Presence(ins, outs);
    ins' == FinalInputs(ins, f, addrWidth, dataWidth, zeroNet) &&
    (exists first: nat :: outs' == FinalOutputs(outs, f, dataWidth, first)) &&
    identifier' == FinalIdentifier(identifier, f)
  }

  /**
   * The state kept in globals: the memories by full name, the
   * memories by input name, the dummy output pin counter, the hard-block
   * models marked used and the lists of single- and dual-port memories.
   * `refName` composes a full reference name from an instance prefix and an
   * identifier; `zeroNet` names the net of the netlist's constant-zero pin;
   * `hardBlocks` are the identifiers the architecture has a hard block for.
   */
  class ImplicitMemoryIndex {
    const refName: (string, string) -> string
    const zeroNet: Option<string>
    const hardBlocks: set<string>
    var memories: map<string, ImplicitMemory>
    var inputs: map<string, ImplicitMemory>
    var dummyOutputPinNumber: nat
    var usedHardBlocks: set<string>
    var spMemories: seq<ImplicitMemory>
    var dpMemories: seq<ImplicitMemory>

    /** Every indexed memory is well formed and indexed under one name only. */
    ghost predicate Valid()
      reads this, memories.Values
    {
      (forall m :: m in memories.Values ==> m.Valid()) &&
      (forall a, b :: a in memories && b in memories && memories[a] == memories[b] ==> a == b)
    }

    constructor (refName: (string, string) -> string, zeroNet: Option<string>, hardBlocks: set<string>)
      ensures Valid()
      ensures this.refName == refName && this.zeroNet == zeroNet && this.hardBlocks == hardBlocks
      ensures memories == map[] && inputs == map[] && dummyOutputPinNumber == 0
      ensures usedHardBlocks == {} && spMemories == [] && dpMemories == []
    {
      this.refName := refName;
      this.zeroNet := zeroNet;
      this.hardBlocks := hardBlocks;
      memories, inputs := map[], map[];
      dummyOutputPinNumber := 0;
      usedHardBlocks, spMemories, dpMemories := {}, [], [];
    }

    /** Starts both registries empty. */
    method InitImplicitMemoryIndex()
      modifies this`memories, this`inputs
      ensures Valid()
      ensures memories == map[] && inputs == map[]
    {
      memories := map[];
      inputs := map[];
    }

    /** The memory indexed under the full name of `identifier` in the instance `prefix`. */
    function LookupImplicitMemory(prefix: string, identifier: string): (r: Option<ImplicitMemory>)
      reads this
      ensures r.None? <==> refName(prefix, identifier) !in memories
      ensures r.Some? ==> r.value in memories.Values
    {
      var key := refName(prefix, identifier);
      if key in memories then Some(memories[key]) else None
    }

    /** The memory registered under the input name `name`. */
    function LookupImplicitMemoryInput(name: string): (r: Option<ImplicitMemory>)
      reads this
      ensures r.None? <==> name !in inputs
      ensures r.Some? ==> r.value in inputs.Values
    {
      if name in inputs then Some(inputs[name]) else None
    }

    /** The memory an AST node refers to: by its identifier node for an ARRAY_REF, by its own identifier for IDENTIFIERS. */
    function LookupImplicitMemoryReferenceAst(prefix: string, node: Option<AstNode>): (r: Option<ImplicitMemory>)
      reads this
      ensures ReferencedIdentifier(node).None? ==> r.None?
      ensures ReferencedIdentifier(node).Some? ==> r == LookupImplicitMemory(prefix, ReferencedIdentifier(node).value)
    {
      if node.Some? && node.value.numChildren == 1 && node.value.kind == ArrayRef then
        LookupImplicitMemory(prefix, node.value.arrayIdentifier)
      else if node.Some? && node.value.numChildren == 2 && node.value.kind == ArrayRef then
        LookupImplicitMemory(prefix, node.value.arrayIdentifier)
      else if node.Some? && node.value.kind == Identifiers then
        LookupImplicitMemory(prefix, node.value.identifier)
      else
        None
    }

    /** The supported reference forms: an ARRAY_REF with one or two children that names an indexed memory. */
    predicate IsValidImplicitMemoryReferenceAst(prefix: string, node: Option<AstNode>)
      reads this
    {
      if node.Some? && node.value.numChildren == 1 && node.value.kind == ArrayRef
        && LookupImplicitMemoryReferenceAst(prefix, node).Some? then true
      else if node.Some? && node.value.numChildren == 2 && node.value.kind == ArrayRef
        && LookupImplicitMemoryReferenceAst(prefix, node).Some? then true
      else false
    }

    /**
     * A reference is supported exactly when it is an ARRAY_REF with one or
     * two children naming an indexed memory; an IDENTIFIERS node is never a
     * supported reference, although lookup resolves it.
     */
    lemma ValidReferenceIsIndexedArrayRef(prefix: string, node: Option<AstNode>)
      ensures IsValidImplicitMemoryReferenceAst(prefix, node) <==>
        node.Some? && node.value.kind == ArrayRef &&
        (node.value.numChildren == 1 || node.value.numChildren == 2) &&
        refName(prefix, node.value.arrayIdentifier) in memories
      ensures node.Some? && node.value.kind == Identifiers ==>
        !IsValidImplicitMemoryReferenceAst(prefix, node) &&
        LookupImplicitMemoryReferenceAst(prefix, node) == LookupImplicitMemory(prefix, node.value.identifier)
    {
    }

    /**
     * Creates a memory of the given data width and a depth rounded up to a
     * power of two, and indexes it under its full name unless that name is
     * already taken.
     */
    method CreateImplicitMemoryBlock(dataWidth: int, memoryDepth: int, name: string, prefix: string) returns (memory: ImplicitMemory)
      requires Valid()
      requires 0 < memoryDepth <= MaxMemoryDepth
      modifies this`memories
      ensures Valid() && fresh(memory) && memory.Valid()
      ensures memory.name == refName(prefix, name)
      ensures memory.memoryDepth == Pow2(memory.addrWidth) && memoryDepth <= memory.memoryDepth
      ensures forall k: nat :: memoryDepth <= Pow2(k) ==> memory.addrWidth <= k
      ensures memory.dataWidth == dataWidth && !memory.clockAdded && !memory.outputAdded
      ensures memory.inputPins == [] && memory.inputPortSizes == [] && memory.outputPins == [] && memory.outputPortSizes == []
      ensures memory.identifier == ImplicitRamIdentifier
      ensures memories == InsertNew(old(memories), refName(prefix, name), memory)
      ensures refName(prefix, name) !in old(memories) ==> LookupImplicitMemory(prefix, name) == Some(memory)
    {
      var addrWidth, realDepth := RoundDepthToPowerOfTwo(memoryDepth);
      var fullName := refName(prefix, name);
      memory := new ImplicitMemory(fullName, addrWidth, realDepth, dataWidth, ImplicitRamIdentifier);
      memories := InsertNew(memories, fullName, memory);
    }

    /** Registers `memory` under the input name `name`; a name already registered keeps its memory. */
    method RegisterImplicitMemoryInput(name: string, memory: ImplicitMemory)
      modifies this`inputs
      ensures inputs == InsertNew(old(inputs), name, memory)
      ensures LookupImplicitMemoryInput(name) == if name in old(inputs) then Some(old(inputs)[name]) else Some(memory)
    {
      if LookupImplicitMemoryInput(name).None? {
        inputs := inputs[name := memory];
      }
    }

    /** Pads `memory` with an input port of `size` pins driven by the constant-zero net. */
    method AddDummyInputPort(memory: ImplicitMemory, size: int, portName: string)
      requires memory.Valid()
      modifies memory`inputPins, memory`inputPortSizes
      ensures memory.Valid()
      ensures memory.inputPins == old(memory.inputPins) + DummyInputs(portName, size, zeroNet)
      ensures memory.inputPortSizes == old(memory.inputPortSizes) + [Count(size)]
    {
      var signals: seq<Option<string>> := [];
      var i := 0;
      while i < size
        invariant i <= Count(size) && i == |signals|
        invariant forall k :: 0 <= k < |signals| ==> signals[k] == zeroNet
      {
        signals := signals + [zeroNet];
        i := i + 1;
      }
      memory.AddInputPort(signals, portName);
      assert PortInputs(signals, portName) == DummyInputs(portName, size, zeroNet);
    }

    /** Pads `memory` with an output port of `size` unconnected pins, each with a fresh dummy name. */
    method AddDummyOutputPort(memory: ImplicitMemory, size: int, portName: string)
      requires memory.Valid()
      modifies memory`outputPins, memory`outputPortSizes, this`dummyOutputPinNumber
      ensures memory.Valid()
      ensures memory.outputPins == old(memory.outputPins) + DummyOutputs(portName, size, old(dummyOutputPinNumber))
      ensures memory.outputPortSizes == old(memory.outputPortSizes) + [Count(size)]
      ensures dummyOutputPinNumber == old(dummyOutputPinNumber) + Count(size)
    {
      var names: seq<Option<string>> := [];
      var i := 0;
      while i < size
        invariant i <= Count(size) && i == |names|
        invariant dummyOutputPinNumber == old(dummyOutputPinNumber) + i
        invariant memory.outputPins == old(memory.outputPins) && memory.outputPortSizes == old(memory.outputPortSizes)
        invariant forall k :: 0 <= k < |names| ==> names[k] == Some(DummyOutputName(old(dummyOutputPinNumber) + k))
      {
        names := names + [Some(DummyOutputName(dummyOutputPinNumber))];
        dummyOutputPinNumber := dummyOutputPinNumber + 1;
        i := i + 1;
      }
      memory.AddOutputPort(names, portName);
      assert PortOutputs(names, portName) == DummyOutputs(portName, size, old(dummyOutputPinNumber));
    }

    /** Pads the missing address, data, write-enable and output ports of one RAM port, if it is in use. */
    method PadPort(memory: ImplicitMemory, inUse: bool, addr: string, data: string, we: string, out: string,
                   hasAddr: bool, hasData: bool, hasWe: bool, hasOut: bool)
      requires memory.Valid()
      modifies memory`inputPins, memory`inputPortSizes, memory`outputPins, memory`outputPortSizes, this`dummyOutputPinNumber
      ensures memory.Valid()
      ensures memory.inputPins == old(memory.inputPins) +
        (if inUse then PortInputPadding(addr, data, we, hasAddr, hasData, hasWe, memory.addrWidth, memory.dataWidth, zeroNet) else [])
      ensures memory.outputPins == old(memory.outputPins) +
        PortOutputPadding(out, inUse, hasOut, memory.dataWidth, old(dummyOutputPinNumber))
      ensures dummyOutputPinNumber == old(dummyOutputPinNumber) + |PortOutputPadding(out, inUse, hasOut, memory.dataWidth, old(dummyOutputPinNumber))|
    {
      if inUse {
        PadPortInputs(memory, addr, data, we, hasAddr, hasData, hasWe);
        if !hasOut { AddDummyOutputPort(memory, memory.dataWidth, out); }
      }
    }

    /** Pads the missing address, data and write-enable ports of one RAM port in use. */
    method PadPortInputs(memory: ImplicitMemory, addr: string, data: string, we: string,
                         hasAddr: bool, hasData: bool, hasWe: bool)
      requires memory.Valid()
      modifies memory`inputPins, memory`inputPortSizes
      ensures memory.Valid()
      ensures memory.inputPins == old(memory.inputPins) +
        PortInputPadding(addr, data, we, hasAddr, hasData, hasWe, memory.addrWidth, memory.dataWidth, zeroNet)
    {
      if !hasAddr { AddDummyInputPort(memory, memory.addrWidth, addr); }
      if !hasData { AddDummyInputPort(memory, memory.dataWidth, data); }
      if !hasWe { AddDummyInputPort(memory, 1, we); }
    }

    /** Pads a clock input when the memory has none. */
    method PadClock(memory: ImplicitMemory, f: PortFlags)
      requires memory.Valid()
      modifies memory`inputPins, memory`inputPortSizes
      ensures memory.Valid()
      ensures memory.inputPins == old(memory.inputPins) + ClockPadding(f.clk, zeroNet)
    {
      if !f.clk {
        AddDummyInputPort(memory, 1, "clk");
      }
    }

    /** Pads port 1 when it is in use. */
    method PadPortOne(memory: ImplicitMemory, f: PortFlags)
      requires memory.Valid()
      modifies memory`inputPins, memory`inputPortSizes, memory`outputPins, memory`outputPortSizes, this`dummyOutputPinNumber
      ensures memory.Valid()
      ensures memory.inputPins == old(memory.inputPins) + PortOnePadding(f, memory.addrWidth, memory.dataWidth, zeroNet)
      ensures memory.outputPins == old(memory.outputPins) +
        PortOutputPadding("out1", PortOne(f), f.out1, memory.dataWidth, old(dummyOutputPinNumber))
      ensures dummyOutputPinNumber == old(dummyOutputPinNumber) +
        |PortOutputPadding("out1", PortOne(f), f.out1, memory.dataWidth, old(dummyOutputPinNumber))|
    {
      var hasPort1 := f.addr1 || f.data1 || f.we1 || f.out1;
      PadPort(memory, hasPort1, "addr1", "data1", "we1", "out1", f.addr1, f.data1, f.we1, f.out1);
    }

    /** Pads port 2 when it is in use. */
    method PadPortTwo(memory: ImplicitMemory, f: PortFlags)
      requires memory.Valid()
      modifies memory`inputPins, memory`inputPortSizes, memory`outputPins, memory`outputPortSizes, this`dummyOutputPinNumber
      ensures memory.Valid()
      ensures memory.inputPins == old(memory.inputPins) + PortTwoPadding(f, memory.addrWidth, memory.dataWidth, zeroNet)
      ensures memory.outputPins == old(memory.outputPins) +
        PortOutputPadding("out2", PortTwo(f), f.out2, memory.dataWidth, old(dummyOutputPinNumber))
      ensures dummyOutputPinNumber == old(dummyOutputPinNumber) +
        |PortOutputPadding("out2", PortTwo(f), f.out2, memory.dataWidth, old(dummyOutputPinNumber))|
    {
      var hasPort2 := f.addr2 || f.data2 || f.we2 || f.out2;
      PadPort(memory, hasPort2, "addr2", "data2", "we2", "out2", f.addr2, f.data2, f.we2, f.out2);
    }

    /** Pads the clock and the missing ports of each RAM port in use, for the ports found `f`. */
    method PadMemory(memory: ImplicitMemory, f: PortFlags)
      requires memory.Valid()
      modifies memory`inputPins, memory`inputPortSizes, memory`outputPins, memory`outputPortSizes, this`dummyOutputPinNumber
      ensures memory.Valid()
      ensures memory.inputPins == PaddedInputs(old(memory.inputPins), f, memory.addrWidth, memory.dataWidth, zeroNet)
      ensures memory.outputPins == PaddedOutputs(old(memory.outputPins), f, memory.dataWidth, old(dummyOutputPinNumber))
      ensures dummyOutputPinNumber == old(dummyOutputPinNumber) + DummyOutputCount(f, memory.dataWidth)
    {
      PadClock(memory, f);
      PadPortOne(memory, f);
      PadPortTwo(memory, f);
    }

    /** `m` holds the finalisation of a memory whose pins and identifier were `ins`, `outs` and `identifier`. */
    ghost predicate FinalizedFrom(m: ImplicitMemory, ins: seq<InputPin>, outs: seq<OutputPin>, identifier: string)
      reads m
    {
      m.Valid() && Finalized(m.inputPins, m.outputPins, m.identifier, m.addrWidth, m.dataWidth, zeroNet, ins, outs, identifier)
    }

    /** Registers a memory with a port in use when the architecture has its hard block. */
    method RegisterHardBlock(memory: ImplicitMemory, f: PortFlags)
      modifies this`usedHardBlocks, this`spMemories, this`dpMemories
      ensures var r := RegistrationOf(f, memory.identifier, hardBlocks);
        spMemories == (if r == SinglePortList then [memory] else []) + old(spMemories) &&
        dpMemories == (if r == DualPortList then [memory] else []) + old(dpMemories) &&
        usedHardBlocks == old(usedHardBlocks) + (if r == Unregistered then {} else {memory.identifier})
    {
      var hasPort1 := f.addr1 || f.data1 || f.we1 || f.out1;
      var hasPort2 := f.addr2 || f.data2 || f.we2 || f.out2;
      if hasPort1 || hasPort2 {
        var hardBlockIdentifier := memory.identifier;
        if hardBlockIdentifier in hardBlocks {
          usedHardBlocks := usedHardBlocks + {hardBlockIdentifier};
          if hardBlockIdentifier == SinglePortRam {
            spMemories := [memory] + spMemories;
          } else {
            dpMemories := [memory] + dpMemories;
          }
        }
      }
    }

    /**
     * Finalises one memory: pads a missing clock, pads the missing ports of
     * each RAM port in use, collapses the memory to a single-port RAM when a
     * port is unused, and registers a memory with a port in use when the
     * architecture has its hard block.
     */
    method FinalizeImplicitMemory(memory: ImplicitMemory)
      requires memory.Valid()
      modifies memory`inputPins, memory`inputPortSizes, memory`outputPins, memory`outputPortSizes, memory`identifier
      modifies this`dummyOutputPinNumber, this`usedHardBlocks, this`spMemories, this`dpMemories
      ensures FinalizedFrom(memory, old(memory.inputPins), old(memory.outputPins), old(memory.identifier))
      ensures memory.identifier == FinalIdentifier(old(memory.identifier), Presence(old(memory.inputPins), old(memory.outputPins)))
      ensures var f := Presence(old(memory.inputPins), old(memory.outputPins));
        memory.outputPins == FinalOutputs(old(memory.outputPins), f, memory.dataWidth, old(dummyOutputPinNumber)) &&
        dummyOutputPinNumber == old(dummyOutputPinNumber) + DummyOutputCount(f, memory.dataWidth)
      ensures var r := RegistrationOf(Presence(old(memory.inputPins), old(memory.outputPins)), memory.identifier, hardBlocks);
        spMemories == (if r == SinglePortList then [memory] else []) + old(spMemories) &&
        dpMemories == (if r == DualPortList then [memory] else []) + old(dpMemories) &&
        usedHardBlocks == old(usedHardBlocks) + (if r == Unregistered then {} else {memory.identifier})
    {
      ghost var outs0, first := memory.outputPins, dummyOutputPinNumber;
      var f := memory.PresentPorts();
      PadMemory(memory, f);
      if !(f.addr1 || f.data1 || f.we1 || f.out1) || !(f.addr2 || f.data2 || f.we2 || f.out2) {
        memory.CollapseToSinglePortRam();
      }
      RegisterHardBlock(memory, f);
      assert memory.outputPins == FinalOutputs(outs0, f, memory.dataWidth, first);
    }

    /**
     * One visit of `FinalizeMemories`: finalises `memory`, one of the
     * `pending` memories of `all`, after those of `order`. `states` records
     * the memories as they were before the visits.
     */
    method FinalizeNext(memory: ImplicitMemory, ghost all: set<ImplicitMemory>, ghost pending: set<ImplicitMemory>,
                        ghost order: seq<ImplicitMemory>, ghost states: map<ImplicitMemory, MemoryState>,
                        ghost sp0: seq<ImplicitMemory>, ghost dp0: seq<ImplicitMemory>, ghost used0: set<string>)
      requires memory in pending && pending <= all && all <= states.Keys
      requires forall m :: m in all && m !in pending ==> FinalizedFrom(m, states[m].ins, states[m].outs, states[m].identifier)
      requires forall m :: m in pending ==> m.Valid() && states[m] == MemoryState(m.inputPins, m.outputPins, m.identifier)
      requires spMemories == Prepended(sp0, order, states, hardBlocks, SinglePortList)
      requires dpMemories == Prepended(dp0, order, states, hardBlocks, DualPortList)
      requires usedHardBlocks == Marked(used0, order, states, hardBlocks)
      modifies memory`inputPins, memory`inputPortSizes, memory`outputPins, memory`outputPortSizes, memory`identifier
      modifies this`dummyOutputPinNumber, this`usedHardBlocks, this`spMemories, this`dpMemories
      ensures forall m :: m in all && m !in pending - {memory} ==> FinalizedFrom(m, states[m].ins, states[m].outs, states[m].identifier)
      ensures forall m :: m in pending - {memory} ==> m.Valid() && states[m] == MemoryState(m.inputPins, m.outputPins, m.identifier)
      ensures spMemories == Prepended(sp0, order + [memory], states, hardBlocks, SinglePortList)
      ensures dpMemories == Prepended(dp0, order + [memory], states, hardBlocks, DualPortList)
      ensures usedHardBlocks == Marked(used0, order + [memory], states, hardBlocks)
    {
      FinalizeImplicitMemory(memory);
      assert (order + [memory])[..|order|] == order;
    }

    /**
     * Finalises every memory of `all`, in an unspecified order: `order`
     * lists them in the order visited, each once.
     */
    method FinalizeMemories(all: set<ImplicitMemory>) returns (ghost order: seq<ImplicitMemory>)
      requires forall m :: m in all ==> m.Valid()
      modifies all, this`dummyOutputPinNumber, this`usedHardBlocks, this`spMemories, this`dpMemories
      ensures Elements(order) == all && forall i, j :: 0 <= i < j < |order| ==> order[i] != order[j]
      ensures forall m :: m in all ==> FinalizedFrom(m, old(m.inputPins), old(m.outputPins), old(m.identifier))
      ensures spMemories == Prepended(old(spMemories), order, old(States(all)), hardBlocks, SinglePortList)
      ensures dpMemories == Prepended(old(dpMemories), order, old(States(all)), hardBlocks, DualPortList)
      ensures usedHardBlocks == Marked(old(usedHardBlocks), order, old(States(all)), hardBlocks)
      ensures Elements(spMemories) == Elements(old(spMemories)) + Listed(all, old(States(all)), hardBlocks, SinglePortList)
      ensures Elements(dpMemories) == Elements(old(dpMemories)) + Listed(all, old(States(all)), hardBlocks, DualPortList)
      ensures usedHardBlocks == old(usedHardBlocks) + Registrations(all, old(States(all)), hardBlocks)
    {
      ghost var states := States(all);
      order := [];
      var pending := all;
      while pending != {}
        invariant pending <= all && Elements(order) == all - pending
        invariant forall i, j :: 0 <= i < j < |order| ==> order[i] != order[j]
        invariant forall m :: m in all && m !in pending ==> FinalizedFrom(m, states[m].ins, states[m].outs, states[m].identifier)
        invariant forall m :: m in pending ==> m.Valid() && states[m] == MemoryState(m.inputPins, m.outputPins, m.identifier)
        invariant spMemories == Prepended(old(spMemories), order, states, hardBlocks, SinglePortList)
        invariant dpMemories == Prepended(old(dpMemories), order, states, hardBlocks, DualPortList)
        invariant usedHardBlocks == Marked(old(usedHardBlocks), order, states, hardBlocks)
        decreases pending
      {
        var memory :| memory in pending;
        FinalizeNext(memory, all, pending, order, states, old(spMemories), old(dpMemories), old(usedHardBlocks));
        VisitNext(all, pending, order, memory);
        order := order + [memory];
        pending := pending - {memory};
      }
      PrependedMembers(old(spMemories), order, states, hardBlocks, SinglePortList);
      PrependedMembers(old(dpMemories), order, states, hardBlocks, DualPortList);
      MarkedRegistrations(old(usedHardBlocks), order, states, hardBlocks);
    }

    /**
     * Empties the input registry, finalises every indexed memory (in the
     * unspecified order of the hash map, listed by `order`) and empties the
     * memory registry.
     */
    method FreeImplicitMemoryIndexAndFinalizeMemories() returns (ghost order: seq<ImplicitMemory>)
      requires Valid()
      modifies this, memories.Values
      ensures inputs == map[] && memories == map[]
      ensures Elements(order) == old(memories.Values) && forall i, j :: 0 <= i < j < |order| ==> order[i] != order[j]
      ensures forall m :: m in old(memories).Values ==>
        FinalizedFrom(m, old(m.inputPins), old(m.outputPins), old(m.identifier))
      ensures spMemories == Prepended(old(spMemories), order, old(States(memories.Values)), hardBlocks, SinglePortList)
      ensures dpMemories == Prepended(old(dpMemories), order, old(States(memories.Values)), hardBlocks, DualPortList)
      ensures usedHardBlocks == Marked(old(usedHardBlocks), order, old(States(memories.Values)), hardBlocks)
      ensures Elements(spMemories) == Elements(old(spMemories)) + Listed(old(memories.Values), old(States(memories.Values)), hardBlocks, SinglePortList)
      ensures Elements(dpMemories) == Elements(old(dpMemories)) + Listed(old(memories.Values), old(States(memories.Values)), hardBlocks, DualPortList)
      ensures usedHardBlocks == old(usedHardBlocks) + Registrations(old(memories.Values), old(States(memories.Values)), hardBlocks)
    {
      var indexed := memories.Values;
      ghost var states := States(indexed);
      inputs := map[];
      assert States(indexed) == states;
      // Each memory is indexed under one name, so visiting the indexed
      // memories visits the entries of the registry.
      order := FinalizeMemories(indexed);
      memories := map[];
    }
  }
}
