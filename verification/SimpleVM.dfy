/** The contract engine: a stack machine with jumps and gas. */
module SimpleVM {
  import opened Collections
  import opened Constants

  /** Runtime values; `Opaque` stands for every other object a caller may pass in. */
  datatype Value = Nothing | Bool(b: bool) | Int(i: int) | Float(x: real) | Text(s: string) | Opaque(tag: int)

  datatype BinOp = ADD | SUB | MUL | DIV | EQ | LT | GT | AND | OR

  datatype Opcode =
    | PUSH | POP | LOAD | STORE | BINARY(op: BinOp) | NOT | ASSERT | CALLER | VALUE | BALANCE | TRANSFER
    | JUMP | JUMPI | LABEL | RETURN | HALT | UNKNOWN

  /** The host language's operations, taken as given; None is a raised exception. */
  datatype Ops = Ops(
    upper: string -> string,
    literal: string -> Value,                        // int, else float, else the text itself
    float: string -> Option<Value>,
    show: Value -> string,                           // as in an f-string
    truth: Value -> bool,
    same: (Value, Value) -> bool,                    // ==
    binary: (BinOp, Value, Value) -> Option<Value>)  // + - * / < >

  /** An instruction is its opcode and operands; parsing never yields an empty one. */
  type Instruction = s: seq<string> | s != [] witness ["HALT"]

  type Program = seq<Instruction>

  type State = map<string, Value>

  datatype Fault =
    | GasExceeded | Underflow | DivisionByZero | AssertionFailed | InsufficientBalance
    | UnknownLabel | UnknownOpcode | Raised

  datatype Machine = Machine(stack: seq<Value>, state: State, pc: nat, gas: nat)
  {
    function Top(): Value
      requires stack != []
    {
      stack[|stack| - 1]
    }

    function Popped(): Machine
      requires stack != []
    {
      this.(stack := stack[..|stack| - 1])
    }

    function Push(v: Value): Machine {
      this.(stack := stack + [v])
    }
  }

  /** What stays fixed while a call runs. */
  datatype Context = Context(ops: Ops, program: Program, labels: map<string, nat>, caller: Value, value: Value)

  /** What one instruction leads to. */
  datatype Effect = Running(m: Machine) | Halted(result: Value, m: Machine) | Faulted(fault: Fault)

  datatype Result = Done(result: Value, state: State, gas: nat) | Failed(fault: Fault)

  function Decode(op: string): Opcode {
    if op == "PUSH" then PUSH
    else if op == "POP" then POP
    else if op == "LOAD" then LOAD
    else if op == "STORE" then STORE
    else if op == "ADD" then BINARY(ADD)
    else if op == "SUB" then BINARY(SUB)
    else if op == "MUL" then BINARY(MUL)
    else if op == "DIV" then BINARY(DIV)
    else if op == "EQ" then BINARY(EQ)
    else if op == "LT" then BINARY(LT)
    else if op == "GT" then BINARY(GT)
    else if op == "AND" then BINARY(AND)
    else if op == "OR" then BINARY(OR)
    else if op == "NOT" then NOT
    else if op == "ASSERT" then ASSERT
    else if op == "CALLER" then CALLER
    else if op == "VALUE" then VALUE
    else if op == "BALANCE" then BALANCE
    else if op == "TRANSFER" then TRANSFER
    else if op == "JUMP" then JUMP
    else if op == "JUMPI" then JUMPI
    else if op == "LABEL" then LABEL
    else if op == "RETURN" then RETURN
    else if op == "HALT" then HALT
    else UNKNOWN
  }

  // Labels

  /** The first pass, which knows only the upper-case opcode. It raises exactly when a LABEL has no
      name; otherwise it lists just the names of LABELs, each with its last position. */
  function Labels(program: Program): (r: Option<map<string, nat>>)
    ensures r.None? <==> exists i :: 0 <= i < |program| && program[i][0] == "LABEL" && |program[i]| < 2
    ensures r.Some? ==> forall l :: l in r.value ==> r.value[l] < |program| && Named(program[r.value[l]], l)
    ensures r.Some? ==> forall i :: 0 <= i < |program| && program[i][0] == "LABEL" ==>
              program[i][1] in r.value && i <= r.value[program[i][1]]
  {
    if program == [] then Some(map[]) else
    var rest, last := Labels(program[..|program| - 1]), program[|program| - 1];
    if rest.None? || last[0] != "LABEL" then rest
    else if |last| < 2 then None
    else Some(rest.value[last[1] := |program| - 1])
  }

  predicate Named(instr: Instruction, name: string) {
    |instr| > 1 && instr[0] == "LABEL" && instr[1] == name
  }

  // One instruction

  /** The two operands of a binary instruction to its value. */
  function Calculate(ops: Ops, op: BinOp, a: Value, b: Value): (Option<Value>, Fault) {
    match op
    case EQ => (Some(Bool(ops.same(a, b))), Raised)
    case AND => (Some(Bool(ops.truth(a) && ops.truth(b))), Raised)
    case OR => (Some(Bool(ops.truth(a) || ops.truth(b))), Raised)
    case DIV => if ops.same(b, Int(0)) then (None, DivisionByZero) else (ops.binary(DIV, a, b), Raised)
    case _ => (ops.binary(op, a, b), Raised)
  }

  function StateGet(state: State, key: string, default: Value): Value {
    if key in state then state[key] else default
  }

  const BALANCE_KEY := "_contract_balance"

  function TransferKey(to: string): string { "_transfer_" + to }

  /** Moves an amount from the contract's balance to the recipient's entry. */
  function Transferred(ops: Ops, state: State, to: string, amount: Value): (Option<State>, Fault) {
    var balance := StateGet(state, BALANCE_KEY, Float(0.0));
    var short := ops.binary(LT, balance, amount);
    if short.None? then (None, Raised)
    else if ops.truth(short.value) then (None, InsufficientBalance) else
    var left := ops.binary(SUB, balance, amount);
    if left.None? then (None, Raised) else
    var state := state[BALANCE_KEY := left.value];
    var sum := ops.binary(ADD, StateGet(state, TransferKey(to), Float(0.0)), amount);
    if sum.None? then (None, Raised) else (Some(state[TransferKey(to) := sum.value]), Raised)
  }

  function Goto(labels: map<string, nat>, name: string, m: Machine): Effect {
    if name in labels then Running(m.(pc := labels[name] + 1)) else Faulted(UnknownLabel)
  }

  /** The effect of a decoded instruction on a machine whose gas and counter have moved on. */
  function Dispatch(c: Context, op: Opcode, instr: Instruction, m: Machine): Effect {
    if op.BINARY? then
      if |m.stack| < 2 then Faulted(Underflow) else
      var b, a := m.Top(), m.Popped().Top();
      var (r, fault) := Calculate(c.ops, op.op, a, b);
      if r.None? then Faulted(fault) else Running(m.Popped().Popped().Push(r.value))
    else if op in {PUSH, LOAD, STORE, TRANSFER, JUMP, JUMPI} && |instr| < 2 then Faulted(Raised)
    else if op in {POP, STORE, NOT, ASSERT, JUMPI} && m.stack == [] then Faulted(Underflow)
    else
      match op
      case PUSH => Running(m.Push(c.ops.literal(instr[1])))
      case POP => Running(m.Popped())
      case LOAD => Running(m.Push(StateGet(m.state, instr[1], Int(0))))
      case STORE => Running(m.Popped().(state := m.state[instr[1] := m.Top()]))
      case NOT => Running(m.Popped().Push(Bool(!c.ops.truth(m.Top()))))
      case ASSERT => if c.ops.truth(m.Top()) then Running(m.Popped()) else Faulted(AssertionFailed)
      case CALLER => Running(m.Push(c.caller))
      case VALUE => Running(m.Push(c.value))
      case BALANCE =>
        if |instr| > 1 then Running(m.Push(StateGet(m.state, "_balance_" + instr[1], Float(0.0))))
        else if m.stack == [] then Faulted(Raised)
        else Running(m.Popped().Push(StateGet(m.state, "_balance_" + c.ops.show(m.Top()), Float(0.0))))
      case TRANSFER => Transfer(c.ops, instr, m)
      case JUMP => Goto(c.labels, instr[1], m)
      case JUMPI => if c.ops.truth(m.Top()) then Goto(c.labels, instr[1], m.Popped()) else Running(m.Popped())
      case LABEL => Running(m)
      case RETURN => if m.stack == [] then Halted(Nothing, m) else Halted(m.Top(), m.Popped())
      case HALT => Halted(Nothing, m)
      case _ => Faulted(UnknownOpcode)
  }

  function Transfer(ops: Ops, instr: Instruction, m: Machine): Effect
    requires |instr| > 1
  {
    var amount := if |instr| > 2 then ops.float(instr[2]) else if m.stack == [] then None else Some(m.Top());
    if amount.None? then Faulted(Raised) else
    var (state, fault) := Transferred(ops, m.state, instr[1], amount.value);
    if state.None? then Faulted(fault) else
    Running((if |instr| > 2 then m else m.Popped()).(state := state.value))
  }

  function Step(c: Context, m: Machine): (r: Effect)
    requires m.pc < |c.program|
    ensures !r.Faulted? ==> r.m.gas == m.gas + 1
  {
    var instr := c.program[m.pc];
    Dispatch(c, Decode(c.ops.upper(instr[0])), instr, m.(pc := m.pc + 1, gas := m.gas + 1))
  }

  // Whole runs

  /** The gas is checked before every instruction, and never at the end. */
  function Run(c: Context, m: Machine, limit: int): Result
    decreases limit - m.gas
  {
    if m.pc >= |c.program| then Done(Nothing, m.state, m.gas)
    else if m.gas >= limit then Failed(GasExceeded)
    else
      match Step(c, m)
      case Running(n) => Run(c, n, limit)
      case Halted(v, n) => Done(v, n.state, n.gas)
      case Faulted(fault) => Failed(fault)
  }

  /** If a run succeeds with some gas, it succeeds under another limit exactly when the limit is at
      least that gas, and then with the same result; otherwise it runs out of gas. */
  lemma {:induction false} GasLimitNeverMatters(c: Context, m: Machine, limit: int, other: int)
    requires Run(c, m, limit).Done? && m.gas <= other
    ensures m.gas <= Run(c, m, limit).gas
    ensures Run(c, m, other) == if Run(c, m, limit).gas <= other then Run(c, m, limit) else Failed(GasExceeded)
    decreases limit - m.gas
  {
    if m.pc < |c.program| {
      hide Step;
      var r := Step(c, m);
      if r.Running? && m.gas < other {
        GasLimitNeverMatters(c, r.m, limit, other);
      } else if r.Running? {
        GasLimitNeverMatters(c, r.m, limit, r.m.gas);
      }
    }
  }

  /** Any failure but running out of gas is there under every larger limit too. */
  lemma {:induction false} FaultsPersist(c: Context, m: Machine, limit: int, larger: int)
    requires Run(c, m, limit).Failed? && !Run(c, m, limit).fault.GasExceeded? && limit <= larger
    ensures Run(c, m, larger) == Run(c, m, limit)
    decreases limit - m.gas
  {
    hide Step;
    var r := Step(c, m);
    if r.Running? {
      FaultsPersist(c, r.m, limit, larger);
    }
  }

  // Forward jumps

  /** The labels are where the program puts them. */
  predicate WellLabelled(c: Context) {
    forall l :: l in c.labels ==> c.labels[l] < |c.program|
  }

  /** The run never continues at or before the instruction it has just done. */
  predicate GoesForward(c: Context, m: Machine, limit: int)
    decreases limit - m.gas
  {
    m.pc < |c.program| && m.gas < limit && Step(c, m).Running? ==>
      m.pc < Step(c, m).m.pc && GoesForward(c, Step(c, m).m, limit)
  }

  /** Every jump's target stands behind the jump. */
  predicate JumpsForward(c: Context) {
    forall i :: 0 <= i < |c.program| ==>
      var instr := c.program[i];
      Decode(c.ops.upper(instr[0])) in {JUMP, JUMPI} && |instr| > 1 && instr[1] in c.labels ==> i < c.labels[instr[1]]
  }

  /** A program that only goes forward uses at most one unit of gas per instruction. */
  lemma {:induction false} ForwardRunsAreShort(c: Context, m: Machine, limit: int)
    requires GoesForward(c, m, limit) && WellLabelled(c) && m.gas <= m.pc <= |c.program|
    ensures Run(c, m, limit).Done? ==> Run(c, m, limit).gas <= |c.program|
    ensures limit >= |c.program| ==> Run(c, m, limit) != Failed(GasExceeded)
    decreases limit - m.gas
  {
    if m.pc < |c.program| && m.gas < limit {
      hide Dispatch;
      NextInstruction(c, m);
      NoGasFault(c, m);
      if Step(c, m).Running? {
        ForwardRunsAreShort(c, Step(c, m).m, limit);
      }
    }
  }

  /** An instruction is followed by the next one, or by a label's successor after a jump. */
  lemma NextInstruction(c: Context, m: Machine)
    requires m.pc < |c.program|
    ensures var r, instr := Step(c, m), c.program[m.pc];
            r.Running? && r.m.pc != m.pc + 1 ==>
              && Decode(c.ops.upper(instr[0])) in {JUMP, JUMPI} && |instr| > 1
              && instr[1] in c.labels && r.m.pc == c.labels[instr[1]] + 1
  {
    hide Decode, Calculate, Transferred, StateGet;
  }

  lemma NoGasFault(c: Context, m: Machine)
    requires m.pc < |c.program|
    ensures Step(c, m) != Faulted(GasExceeded)
  {
    hide Decode, StateGet;
  }

  lemma {:induction false} ForwardJumpsGoForward(c: Context, m: Machine, limit: int)
    requires JumpsForward(c)
    ensures GoesForward(c, m, limit)
    decreases limit - m.gas
  {
    if m.pc < |c.program| && m.gas < limit {
      hide Dispatch;
      NextInstruction(c, m);
      if Step(c, m).Running? {
        ForwardJumpsGoForward(c, Step(c, m).m, limit);
      }
    }
  }

  // The state difference

  /** The entries that are not equal to what they were; a missing entry counts as None. */
  function Diff(ops: Ops, original: State, final: State): State {
    map k | k in final && !ops.same(StateGet(original, k, Nothing), final[k]) :: final[k]
  }

  function Start(args: seq<Value>, state: State): Machine {
    Machine(args, state, 0, 0)
  }

  datatype Execution = Success(result: Value, diff: State, gas: nat) | Failure(fault: Fault)

  function Executed(ops: Ops, program: Program, args: seq<Value>, caller: Value, value: Value, state: State,
                    limit: int): Execution
  {
    var labels := Labels(program);
    if labels.None? then Failure(Raised) else
    Reported(ops, state, Run(Context(ops, program, labels.value, caller, value), Start(args, state), limit))
  }

  /** A run's result, with the state as a difference to the original one. */
  function Reported(ops: Ops, original: State, r: Result): Execution {
    match r
    case Done(v, final, gas) => Success(v, Diff(ops, original, final), gas)
    case Failed(fault) => Failure(fault)
  }

  /** The limit a call runs under never changes what a successful call returns. */
  lemma ExecutionIgnoresLimit(ops: Ops, program: Program, args: seq<Value>, caller: Value, value: Value, state: State,
                              limit: int, other: nat)
    requires Executed(ops, program, args, caller, value, state, limit).Success?
    ensures var r := Executed(ops, program, args, caller, value, state, limit);
            Executed(ops, program, args, caller, value, state, other)
              == if r.gas <= other then r else Failure(GasExceeded)
  {
    hide Run, Diff, Labels;
    var c := Context(ops, program, Labels(program).value, caller, value);
    GasLimitNeverMatters(c, Start(args, state), limit, other);
  }

  /** A program whose jumps all go forward never runs out of gas under a limit of its length. */
  lemma ForwardProgramsFit(ops: Ops, program: Program, args: seq<Value>, caller: Value, value: Value, state: State, limit: int)
    requires Labels(program).Some? && JumpsForward(Context(ops, program, Labels(program).value, caller, value))
    requires limit >= |program|
    ensures var r := Executed(ops, program, args, caller, value, state, limit);
            r != Failure(GasExceeded) && (r.Success? ==> r.gas <= |program|)
  {
    hide Run, Diff, JumpsForward, GoesForward;
    var c := Context(ops, program, Labels(program).value, caller, value);
    ForwardJumpsGoForward(c, Start(args, state), limit);
    ForwardRunsAreShort(c, Start(args, state), limit);
  }

  method FindLabels(program: Program) returns (labels: Option<map<string, nat>>)
    ensures labels == Labels(program)
  {
    labels := Some(map[]);
    for i := 0 to |program|
      invariant labels.Some? && labels == Labels(program[..i])
    {
      assert program[..i + 1][..i] == program[..i];
      if program[i][0] == "LABEL" {
        if |program[i]| < 2 {
          NamelessStays(program, i + 1);
          return None;
        }
        labels := Some(labels.value[program[i][1] := i]);
      }
    }
    assert program[..|program|] == program;
  }

  lemma {:induction false} NamelessStays(program: Program, n: nat)
    requires n <= |program| && Labels(program[..n]).None?
    ensures Labels(program).None?
  {
    if n < |program| {
      assert program[..|program| - 1][..n] == program[..n];
      NamelessStays(program[..|program| - 1], n);
    } else {
      assert program[..n] == program;
    }
  }

  /** One round of the loop, and its two ways out. */
  lemma RunStep(c: Context, m: Machine, limit: int)
    ensures m.pc >= |c.program| ==> Run(c, m, limit) == Done(Nothing, m.state, m.gas)
    ensures m.pc < |c.program| && m.gas >= limit ==> Run(c, m, limit) == Failed(GasExceeded)
    ensures m.pc < |c.program| && m.gas < limit ==>
              var instr := c.program[m.pc];
              var r := Dispatch(c, Decode(c.ops.upper(instr[0])), instr, m.(pc := m.pc + 1, gas := m.gas + 1));
              Run(c, m, limit) == if r.Running? then Run(c, r.m, limit)
                                  else if r.Halted? then Done(r.result, r.m.state, r.m.gas)
                                  else Failed(r.fault)
  {
    hide Dispatch, Decode;
  }

  method Execute(ops: Ops, program: Program, args: seq<Value>, caller: Value, value: Value, initial: State, limit: int)
    returns (r: Execution)
    ensures r == Executed(ops, program, args, caller, value, initial, limit)
  {
    hide Run, Labels, Diff;
    var labels := FindLabels(program);
    if labels.None? { return Failure(Raised); }
    r := Interpret(ops, program, labels.value, args, caller, value, initial, limit);
  }

  /** The loop over the instructions. */
  method Interpret(ops: Ops, program: Program, labels: map<string, nat>, args: seq<Value>, caller: Value, value: Value,
                   initial: State, limit: int) returns (r: Execution)
    ensures r == Reported(ops, initial, Run(Context(ops, program, labels, caller, value), Start(args, initial), limit))
  {
    hide Run, Decode, Calculate, Transferred, Diff;
    ghost var c := Context(ops, program, labels, caller, value);
    var stack, state := args, initial;
    var gas: nat, pc: nat := 0, 0;
    var result := Nothing;
    while pc < |program|
      invariant Run(c, Machine(stack, state, pc, gas), limit) == Run(c, Start(args, initial), limit)
      decreases limit - gas
    {
      RunStep(c, Machine(stack, state, pc, gas), limit);
      if gas >= limit { return Failure(GasExceeded); }
      var instr := program[pc];
      var op := Decode(ops.upper(instr[0]));
      gas := gas + 1;
      pc := pc + 1;
      match op {
        case BINARY(o) =>
          if |stack| < 2 { return Failure(Underflow); }
          var b, a := stack[|stack| - 1], stack[|stack| - 2];
          var (v, fault) := Calculate(ops, o, a, b);
          if v.None? { return Failure(fault); }
          assert stack[..|stack| - 1][..|stack| - 2] == stack[..|stack| - 2];
          stack := stack[..|stack| - 2] + [v.value];
        case PUSH =>
          if |instr| < 2 { return Failure(Raised); }
          stack := stack + [ops.literal(instr[1])];
        case POP =>
          if stack == [] { return Failure(Underflow); }
          stack := stack[..|stack| - 1];
        case LOAD =>
          if |instr| < 2 { return Failure(Raised); }
          stack := stack + [StateGet(state, instr[1], Int(0))];
        case STORE =>
          if |instr| < 2 { return Failure(Raised); }
          if stack == [] { return Failure(Underflow); }
          state := state[instr[1] := stack[|stack| - 1]];
          stack := stack[..|stack| - 1];
        case NOT =>
          if stack == [] { return Failure(Underflow); }
          stack := stack[..|stack| - 1] + [Bool(!ops.truth(stack[|stack| - 1]))];
        case ASSERT =>
          if stack == [] { return Failure(Underflow); }
          if !ops.truth(stack[|stack| - 1]) { return Failure(AssertionFailed); }
          stack := stack[..|stack| - 1];
        case CALLER =>
          stack := stack + [caller];
        case VALUE =>
          stack := stack + [value];
        case BALANCE =>
          var address := if |instr| > 1 then instr[1] else "";
          if |instr| == 1 {
            if stack == [] { return Failure(Raised); }
            address := ops.show(stack[|stack| - 1]);
            stack := stack[..|stack| - 1];
          }
          stack := stack + [StateGet(state, "_balance_" + address, Float(0.0))];
        case TRANSFER =>
          if |instr| < 2 { return Failure(Raised); }
          var amount;
          if |instr| > 2 {
            amount := ops.float(instr[2]);
            if amount.None? { return Failure(Raised); }
          } else {
            if stack == [] { return Failure(Raised); }
            amount := Some(stack[|stack| - 1]);
            stack := stack[..|stack| - 1];
          }
          var (moved, fault) := Transferred(ops, state, instr[1], amount.value);
          if moved.None? { return Failure(fault); }
          state := moved.value;
        case JUMP =>
          if |instr| < 2 { return Failure(Raised); }
          if instr[1] !in labels { return Failure(UnknownLabel); }
          pc := labels[instr[1]] + 1;
        case JUMPI =>
          if |instr| < 2 { return Failure(Raised); }
          if stack == [] { return Failure(Underflow); }
          var taken := ops.truth(stack[|stack| - 1]);
          stack := stack[..|stack| - 1];
          if taken {
            if instr[1] !in labels { return Failure(UnknownLabel); }
            pc := labels[instr[1]] + 1;
          }
        case LABEL =>
        case RETURN =>
          if stack != [] {
            result := stack[|stack| - 1];
          }
          return Success(result, Diff(ops, initial, state), gas);
        case HALT =>
          return Success(result, Diff(ops, initial, state), gas);
        case UNKNOWN =>
          return Failure(UnknownOpcode);
      }
    }
    RunStep(c, Machine(stack, state, pc, gas), limit);
    r := Success(result, Diff(ops, initial, state), gas);
  }

  /** Contract storage and the engine's entry points. A function's own code, if it has any, takes
      the place of the contract's. */
  datatype Contract = Contract(code: Program, abi: map<string, Option<Program>>) {
    function CodeOf(name: string): Program
      requires name in abi
    {
      if abi[name].Some? then abi[name].value else code
    }
  }

  datatype Response = Response(success: bool, result: Value, gas: nat, diff: State)

  const Refused := Response(false, Nothing, 0, map[])

  function Called(ops: Ops, contracts: map<string, Contract>, address: string, name: string, args: seq<Value>,
                  caller: Value, value: Value, state: State): Response
  {
    if address !in contracts || name !in contracts[address].abi then Refused else
    match Executed(ops, contracts[address].CodeOf(name), args, caller, value, state, CONTRACT_GAS_LIMIT)
    case Success(result, diff, gas) => Response(true, result, gas, diff)
    case Failure(_) => Refused
  }

  /** A function's own code comes before the contract's. */
  lemma CodeExactly(contract: Contract, name: string)
    requires name in contract.abi
    ensures forall own :: contract.abi[name] == Some(own) ==> contract.CodeOf(name) == own
    ensures contract.abi[name] == None ==> contract.CodeOf(name) == contract.code
  {}

  /** A call succeeds exactly when the contract has the function and its code succeeds under some limit
      with at most a million units of gas; the answer is then what the code returns under every limit
      it succeeds under. Every other call is refused without a trace. */
  lemma CallSucceedsExactly(ops: Ops, contracts: map<string, Contract>, address: string, name: string, args: seq<Value>,
                            caller: Value, value: Value, state: State)
    ensures var r := Called(ops, contracts, address, name, args, caller, value, state);
            && (r.success <==>
                  address in contracts && name in contracts[address].abi &&
                  exists limit: int ::
                    var run := Executed(ops, contracts[address].CodeOf(name), args, caller, value, state, limit);
                    run.Success? && run.gas <= CONTRACT_GAS_LIMIT)
            && (r.success ==>
                  forall limit: int ::
                    var run := Executed(ops, contracts[address].CodeOf(name), args, caller, value, state, limit);
                    run.Success? ==> run == Success(r.result, r.diff, r.gas))
            && (!r.success ==> r == Refused)
  {
    hide Executed;
    if address in contracts && name in contracts[address].abi {
      var code := contracts[address].CodeOf(name);
      forall limit: int | Executed(ops, code, args, caller, value, state, limit).Success?
        ensures var run := Executed(ops, code, args, caller, value, state, limit);
                Executed(ops, code, args, caller, value, state, CONTRACT_GAS_LIMIT)
                  == if run.gas <= CONTRACT_GAS_LIMIT then run else Failure(GasExceeded)
      {
        ExecutionIgnoresLimit(ops, code, args, caller, value, state, limit, CONTRACT_GAS_LIMIT);
      }
      if Executed(ops, code, args, caller, value, state, CONTRACT_GAS_LIMIT).Success? {
        GasWithinLimit(ops, code, args, caller, value, state, CONTRACT_GAS_LIMIT);
      }
    }
  }

  lemma GasWithinLimit(ops: Ops, program: Program, args: seq<Value>, caller: Value, value: Value, state: State, limit: nat)
    requires Executed(ops, program, args, caller, value, state, limit).Success?
    ensures Executed(ops, program, args, caller, value, state, limit).gas <= limit
  {
    hide Executed;
    ExecutionIgnoresLimit(ops, program, args, caller, value, state, limit, limit);
  }

  class Engine {
    const ops: Ops
    var contracts: map<string, Contract>

    constructor (ops: Ops)
      ensures this.ops == ops && contracts == map[]
    {
      this.ops, contracts := ops, map[];
    }

    method Deploy(code: Program, abi: map<string, Option<Program>>, address: string)
      modifies this
      ensures contracts == old(contracts)[address := Contract(code, abi)]
    {
      contracts := contracts[address := Contract(code, abi)];
    }

    method Call(address: string, name: string, args: seq<Value>, caller: Value, value: Value, state: State)
      returns (r: Response)
      ensures r == Called(ops, contracts, address, name, args, caller, value, state)
    {
      hide Executed;
      if address !in contracts { return Refused; }
      var contract := contracts[address];
      if name !in contract.abi { return Refused; }
      var own := contract.abi[name];
      var program := if own.Some? then own.value else contract.code;
      var run := Execute(ops, program, args, caller, value, state, CONTRACT_GAS_LIMIT);
      match run {
        case Success(result, diff, gas) => r := Response(true, result, gas, diff);
        case Failure(_) => r := Refused;
      }
    }
  }
}
