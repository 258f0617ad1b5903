/** What contract code means: structured programs, compiled to instructions, do what they say. */
module VMMeaning {
  import opened Collections
  import opened SimpleVM

  // Expressions

  datatype Expr =
    | Literal(text: string)
    | Entry(key: string)
    | Balance(address: string)
    | BalanceOf(holder: Expr)
    | Caller
    | Sent
    | Not(e: Expr)
    | Binary(op: BinOp, left: Expr, right: Expr)

  /** A value, or the fault that ends the execution. */
  datatype Answer = Yes(v: Value) | No(fault: Fault)

  /** What a binary operator gives for a left and a right operand. */
  function Operate(ops: Ops, op: BinOp, left: Value, right: Value): Answer {
    if op == EQ then Yes(Bool(ops.same(left, right)))
    else if op == AND then Yes(Bool(ops.truth(left) && ops.truth(right)))
    else if op == OR then Yes(Bool(ops.truth(left) || ops.truth(right)))
    else if op == DIV && ops.same(right, Int(0)) then No(DivisionByZero)
    else
      var r := ops.binary(op, left, right);
      if r.None? then No(Raised) else Yes(r.value)
  }

  function Or(state: State, key: string, default: Value): Value {
    if key in state then state[key] else default
  }

  /** The value of an expression, its left operand before its right one. */
  function Eval(c: Context, state: State, e: Expr): Answer {
    match e
    case Literal(text) => Yes(c.ops.literal(text))
    case Entry(key) => Yes(Or(state, key, Int(0)))
    case Balance(address) => Yes(Or(state, "_balance_" + address, Float(0.0)))
    case BalanceOf(holder) =>
      var r := Eval(c, state, holder);
      if r.No? then r else Yes(Or(state, "_balance_" + c.ops.show(r.v), Float(0.0)))
    case Caller => Yes(c.caller)
    case Sent => Yes(c.value)
    case Not(e) =>
      var r := Eval(c, state, e);
      if r.No? then r else Yes(Bool(!c.ops.truth(r.v)))
    case Binary(op, left, right) =>
      var a := Eval(c, state, left);
      if a.No? then a else
      var b := Eval(c, state, right);
      if b.No? then b else Operate(c.ops, op, a.v, b.v)
  }

  function OpName(op: BinOp): string {
    match op
    case ADD => "ADD" case SUB => "SUB" case MUL => "MUL" case DIV => "DIV" case EQ => "EQ"
    case LT => "LT" case GT => "GT" case AND => "AND" case OR => "OR"
  }

  /** Operands first, in order, then the operator. */
  function Code(e: Expr): Program {
    match e
    case Literal(text) => [["PUSH", text]]
    case Entry(key) => [["LOAD", key]]
    case Balance(address) => [["BALANCE", address]]
    case BalanceOf(holder) => Code(holder) + [["BALANCE"]]
    case Caller => [["CALLER"]]
    case Sent => [["VALUE"]]
    case Not(e) => Code(e) + [["NOT"]]
    case Binary(op, left, right) => Code(left) + Code(right) + [[OpName(op)]]
  }

  // Statements

  datatype Stmt =
    | Skip
    | Then(first: Stmt, second: Stmt)
    | Set(key: string, e: Expr)
    | Require(e: Expr)
    | If(cond: Expr, yes: Stmt, no: Stmt, onYes: string, end: string)
    | While(cond: Expr, body: Stmt, again: string, exit: string)

  /** The state reached, the fault that ended the execution, or a loop that took more rounds than allowed. */
  datatype Ending = Ended(state: State) | Broken(fault: Fault) | Unfinished

  function Exec(c: Context, state: State, s: Stmt, rounds: nat): Ending
    decreases rounds, s
  {
    match s
    case Skip => Ended(state)
    case Then(first, second) =>
      var r := Exec(c, state, first, rounds);
      if r.Ended? then Exec(c, r.state, second, rounds) else r
    case Set(key, e) =>
      var r := Eval(c, state, e);
      if r.No? then Broken(r.fault) else Ended(state[key := r.v])
    case Require(e) =>
      var r := Eval(c, state, e);
      if r.No? then Broken(r.fault) else if c.ops.truth(r.v) then Ended(state) else Broken(AssertionFailed)
    case If(cond, yes, no, _, _) =>
      var r := Eval(c, state, cond);
      if r.No? then Broken(r.fault) else Exec(c, state, if c.ops.truth(r.v) then yes else no, rounds)
    case While(cond, body, _, _) =>
      var r := Eval(c, state, cond);
      if r.No? then Broken(r.fault)
      else if !c.ops.truth(r.v) then Ended(state)
      else if rounds == 0 then Unfinished
      else
        var one := Exec(c, state, body, rounds - 1);
        if one.Ended? then Exec(c, one.state, s, rounds - 1) else one
  }

  function Compiled(s: Stmt): Program {
    match s
    case Skip => []
    case Then(first, second) => Compiled(first) + Compiled(second)
    case Set(key, e) => Code(e) + [["STORE", key]]
    case Require(e) => Code(e) + [["ASSERT"]]
    case If(cond, yes, no, onYes, end) =>
      Code(cond) + [["JUMPI", onYes]] + Compiled(no) + [["JUMP", end], ["LABEL", onYes]] + Compiled(yes) + [["LABEL", end]]
    case While(cond, body, again, exit) =>
      [["LABEL", again]] + Code(cond) + [["NOT"], ["JUMPI", exit]] + Compiled(body) + [["JUMP", again], ["LABEL", exit]]
  }

  // The machine at a piece of code

  const NAMES := {"PUSH", "LOAD", "STORE", "BALANCE", "CALLER", "VALUE", "NOT", "ASSERT", "JUMP", "JUMPI", "LABEL", "RETURN",
                  "ADD", "SUB", "MUL", "DIV", "EQ", "LT", "GT", "AND", "OR"}

  /** Opcodes are what `upper` leaves alone, and a boolean is as true as it says. */
  ghost predicate Usual(ops: Ops) {
    (forall t | t in NAMES :: ops.upper(t) == t) && ops.truth(Bool(true)) && !ops.truth(Bool(false))
  }

  /** The program holds this piece of code at a place, and its labels are where it has them. */
  ghost predicate Holds(c: Context, at: nat, code: Program) {
    && at + |code| <= |c.program| && c.program[at..at + |code|] == code
    && forall i :: 0 <= i < |code| && code[i][0] == "LABEL" && |code[i]| > 1 ==>
         code[i][1] in c.labels && c.labels[code[i][1]] == at + i
  }

  lemma HoldsParts(c: Context, at: nat, a: Program, b: Program)
    requires Holds(c, at, a + b)
    ensures Holds(c, at, a) && Holds(c, at + |a|, b)
  {
    var code := a + b;
    assert c.program[at..at + |a|] == code[..|a|] == a;
    assert c.program[at + |a|..at + |a| + |b|] == code[|a|..] == b;
    forall i | 0 <= i < |a| && a[i][0] == "LABEL" && |a[i]| > 1 ensures a[i][1] in c.labels && c.labels[a[i][1]] == at + i {
      assert code[i] == a[i];
    }
    forall i | 0 <= i < |b| && b[i][0] == "LABEL" && |b[i]| > 1
      ensures b[i][1] in c.labels && c.labels[b[i][1]] == at + |a| + i
    {
      assert code[|a| + i] == b[i];
    }
  }

  lemma HoldsOne(c: Context, at: nat, instr: Instruction)
    requires Holds(c, at, [instr])
    ensures at < |c.program| && c.program[at] == instr
    ensures instr[0] == "LABEL" && |instr| > 1 ==> instr[1] in c.labels && c.labels[instr[1]] == at
  {
    assert c.program[at..at + 1][0] == instr && [instr][0] == instr;
  }

  /** The machine after one instruction that leaves a stack and a state. */
  function Moved(m: Machine, stack: seq<Value>, state: State, pc: nat): Machine {
    Machine(stack, state, pc, m.gas + 1)
  }

  // One instruction

  lemma PushStep(c: Context, m: Machine, text: string)
    requires Usual(c.ops) && m.pc < |c.program| && c.program[m.pc] == ["PUSH", text]
    ensures Step(c, m) == Running(Moved(m, m.stack + [c.ops.literal(text)], m.state, m.pc + 1))
  {
    assert "PUSH" in NAMES;
  }

  lemma LoadStep(c: Context, m: Machine, key: string)
    requires Usual(c.ops) && m.pc < |c.program| && c.program[m.pc] == ["LOAD", key]
    ensures Step(c, m) == Running(Moved(m, m.stack + [Or(m.state, key, Int(0))], m.state, m.pc + 1))
  {
    assert "LOAD" in NAMES;
  }

  lemma BalanceStep(c: Context, m: Machine, address: string)
    requires Usual(c.ops) && m.pc < |c.program| && c.program[m.pc] == ["BALANCE", address]
    ensures Step(c, m) == Running(Moved(m, m.stack + [Or(m.state, "_balance_" + address, Float(0.0))], m.state, m.pc + 1))
  {
    assert "BALANCE" in NAMES;
  }

  lemma BalanceOfStep(c: Context, m: Machine, stack: seq<Value>, holder: Value)
    requires Usual(c.ops) && m.pc < |c.program| && c.program[m.pc] == ["BALANCE"] && m.stack == stack + [holder]
    ensures Step(c, m)
              == Running(Moved(m, stack + [Or(m.state, "_balance_" + c.ops.show(holder), Float(0.0))], m.state, m.pc + 1))
  {
    assert "BALANCE" in NAMES && m.stack[..|m.stack| - 1] == stack;
  }

  lemma CallerStep(c: Context, m: Machine)
    requires Usual(c.ops) && m.pc < |c.program| && c.program[m.pc] == ["CALLER"]
    ensures Step(c, m) == Running(Moved(m, m.stack + [c.caller], m.state, m.pc + 1))
  {
    assert "CALLER" in NAMES;
  }

  lemma ValueStep(c: Context, m: Machine)
    requires Usual(c.ops) && m.pc < |c.program| && c.program[m.pc] == ["VALUE"]
    ensures Step(c, m) == Running(Moved(m, m.stack + [c.value], m.state, m.pc + 1))
  {
    assert "VALUE" in NAMES;
  }

  lemma NotStep(c: Context, m: Machine, stack: seq<Value>, v: Value)
    requires Usual(c.ops) && m.pc < |c.program| && c.program[m.pc] == ["NOT"] && m.stack == stack + [v]
    ensures Step(c, m) == Running(Moved(m, stack + [Bool(!c.ops.truth(v))], m.state, m.pc + 1))
  {
    assert "NOT" in NAMES && m.stack[..|m.stack| - 1] == stack;
  }

  lemma DecodeName(op: BinOp)
    ensures OpName(op) in NAMES && Decode(OpName(op)) == BINARY(op)
  {}

  lemma BinaryStep(c: Context, m: Machine, stack: seq<Value>, left: Value, right: Value, op: BinOp)
    requires Usual(c.ops) && m.pc < |c.program| && c.program[m.pc] == [OpName(op)] && m.stack == stack + [left, right]
    ensures var r := Operate(c.ops, op, left, right);
            Step(c, m) == if r.No? then Faulted(r.fault) else Running(Moved(m, stack + [r.v], m.state, m.pc + 1))
  {
    hide Decode, OpName;
    DecodeName(op);
    assert m.stack[..|m.stack| - 1] == stack + [left] && (stack + [left])[..|stack|] == stack;
  }

  lemma StoreStep(c: Context, m: Machine, key: string, stack: seq<Value>, v: Value)
    requires Usual(c.ops) && m.pc < |c.program| && c.program[m.pc] == ["STORE", key] && m.stack == stack + [v]
    ensures Step(c, m) == Running(Moved(m, stack, m.state[key := v], m.pc + 1))
  {
    assert "STORE" in NAMES && m.stack[..|m.stack| - 1] == stack;
  }

  lemma AssertStep(c: Context, m: Machine, stack: seq<Value>, v: Value)
    requires Usual(c.ops) && m.pc < |c.program| && c.program[m.pc] == ["ASSERT"] && m.stack == stack + [v]
    ensures Step(c, m) == if c.ops.truth(v) then Running(Moved(m, stack, m.state, m.pc + 1)) else Faulted(AssertionFailed)
  {
    assert "ASSERT" in NAMES && m.stack[..|m.stack| - 1] == stack;
  }

  lemma JumpStep(c: Context, m: Machine, l: string)
    requires Usual(c.ops) && m.pc < |c.program| && c.program[m.pc] == ["JUMP", l] && l in c.labels
    ensures Step(c, m) == Running(Moved(m, m.stack, m.state, c.labels[l] + 1))
  {
    assert "JUMP" in NAMES;
  }

  /** JUMPI takes the top value, and jumps exactly when it is true. */
  lemma JumpIfStep(c: Context, m: Machine, l: string, stack: seq<Value>, v: Value)
    requires Usual(c.ops) && m.pc < |c.program| && c.program[m.pc] == ["JUMPI", l] && l in c.labels
    requires m.stack == stack + [v]
    ensures Step(c, m) == Running(Moved(m, stack, m.state, if c.ops.truth(v) then c.labels[l] + 1 else m.pc + 1))
  {
    assert "JUMPI" in NAMES && m.stack[..|m.stack| - 1] == stack;
  }

  lemma LabelStep(c: Context, m: Machine, l: string)
    requires Usual(c.ops) && m.pc < |c.program| && c.program[m.pc] == ["LABEL", l]
    ensures Step(c, m) == Running(Moved(m, m.stack, m.state, m.pc + 1))
  {
    assert "LABEL" in NAMES;
  }

  lemma ReturnStep(c: Context, m: Machine)
    requires Usual(c.ops) && m.pc < |c.program| && c.program[m.pc] == ["RETURN"]
    ensures var r := Step(c, m);
            r.Halted? && r.m.state == m.state && r.m.gas == m.gas + 1
            && r.result == if m.stack == [] then Nothing else m.stack[|m.stack| - 1]
  {
    assert "RETURN" in NAMES;
  }

  lemma HaltStep(c: Context, m: Machine)
    requires m.pc < |c.program| && c.program[m.pc] == ["HALT"] && c.ops.upper("HALT") == "HALT"
    ensures var r := Step(c, m); r.Halted? && r.result == Nothing && r.m.state == m.state && r.m.gas == m.gas + 1
  {}

  // Faults

  const OPCODES := NAMES + {"POP", "TRANSFER", "HALT"}

  /** Exactly these words are opcodes; any other is a fault. */
  lemma UnknownExactly(c: Context, m: Machine)
    requires m.pc < |c.program|
    ensures Step(c, m) == Faulted(UnknownOpcode) <==> c.ops.upper(c.program[m.pc][0]) !in OPCODES
  {
    hide Calculate, Transferred, Decode, OPCODES, NAMES;
    var op := c.ops.upper(c.program[m.pc][0]);
    DecodesExactly(op);
    CalculateFaults(c.ops);
    TransferFaults(c.ops);
  }

  lemma DecodesExactly(op: string)
    ensures Decode(op) == UNKNOWN <==> op !in OPCODES
  {}

  lemma CalculateFaults(ops: Ops)
    ensures forall op, a, b :: Calculate(ops, op, a, b).1 in {Raised, DivisionByZero}
  {}

  lemma TransferFaults(ops: Ops)
    ensures forall state, to, amount :: Transferred(ops, state, to, amount).1 in {Raised, InsufficientBalance}
  {}

  /** An instruction without its operands on the stack is a fault, and changes nothing else. */
  lemma UnderflowExactly(c: Context, m: Machine, name: string)
    requires Usual(c.ops) && m.pc < |c.program|
    ensures (exists op :: c.program[m.pc] == [OpName(op)]) && |m.stack| < 2 ==> Step(c, m) == Faulted(Underflow)
    ensures c.program[m.pc] in {["NOT"], ["ASSERT"], ["STORE", name], ["JUMPI", name]} && m.stack == [] ==>
              Step(c, m) == Faulted(Underflow)
  {
    hide Calculate, Transferred, OpName, Decode;
    if op :| c.program[m.pc] == [OpName(op)] {
      DecodeName(op);
    }
    DecodesNamed();
    assert {"NOT", "ASSERT", "STORE", "JUMPI"} <= NAMES;
  }

  lemma DecodesNamed()
    ensures Decode("NOT") == Opcode.NOT && Decode("ASSERT") == ASSERT && Decode("STORE") == STORE && Decode("JUMPI") == JUMPI
    ensures Decode("JUMP") == JUMP
  {}

  /** A jump that is taken to a label the program does not have is a fault; one that is not taken goes on. */
  lemma UnknownLabelExactly(c: Context, m: Machine, l: string)
    requires Usual(c.ops) && m.pc < |c.program| && l !in c.labels
    ensures c.program[m.pc] == ["JUMP", l] ==> Step(c, m) == Faulted(UnknownLabel)
    ensures c.program[m.pc] == ["JUMPI", l] && m.stack != [] ==>
              Step(c, m) == if c.ops.truth(m.stack[|m.stack| - 1]) then Faulted(UnknownLabel)
                            else Running(Moved(m, m.stack[..|m.stack| - 1], m.state, m.pc + 1))
  {
    hide Calculate, Transferred, Decode;
    DecodesNamed();
    assert {"JUMP", "JUMPI"} <= NAMES;
  }

  // Several instructions

  /** With enough gas the run from one machine is the run from the other. */
  ghost predicate Leads(c: Context, m: Machine, n: Machine) {
    m.gas <= n.gas && forall limit | n.gas <= limit :: Run(c, m, limit) == Run(c, n, limit)
  }

  /** With `used` units of gas it ends in a fault. */
  ghost predicate Fails(c: Context, m: Machine, fault: Fault, used: nat) {
    forall limit | m.gas + used <= limit :: Run(c, m, limit) == Failed(fault)
  }

  lemma LeadsByStep(c: Context, m: Machine, n: Machine)
    requires m.pc < |c.program| && Step(c, m) == Running(n)
    ensures Leads(c, m, n)
  {
    hide Step;
  }

  lemma FailsByStep(c: Context, m: Machine, fault: Fault)
    requires m.pc < |c.program| && Step(c, m) == Faulted(fault)
    ensures Fails(c, m, fault, 1)
  {
    hide Step;
  }

  lemma LeadsOn(c: Context, m: Machine, n: Machine, k: Machine)
    requires Leads(c, m, n) && Leads(c, n, k)
    ensures Leads(c, m, k)
  {
    hide Run;
  }

  lemma FailsOn(c: Context, m: Machine, n: Machine, fault: Fault, used: nat)
    requires Leads(c, m, n) && Fails(c, n, fault, used)
    ensures Fails(c, m, fault, n.gas - m.gas + used)
  {
    hide Run;
  }

  lemma LeadsNowhere(c: Context, m: Machine)
    ensures Leads(c, m, m)
  {
    hide Run;
  }

  /** The machine with a value on its stack, after a piece of code. */
  function Pushed(m: Machine, v: Value, length: nat): Machine {
    Machine(m.stack + [v], m.state, m.pc + length, m.gas + length)
  }

  /** The code of an expression, wherever it stands and whatever is on the stack, leaves exactly the
      expression's value on top, with one unit of gas per instruction, or fails as the expression does. */
  lemma {:induction false} CodeMeans(c: Context, m: Machine, e: Expr)
    requires Usual(c.ops) && Holds(c, m.pc, Code(e))
    ensures var r := Eval(c, m.state, e);
            if r.Yes? then Leads(c, m, Pushed(m, r.v, |Code(e)|)) else Fails(c, m, r.fault, |Code(e)|)
    decreases e, 1
  {
    hide Step, Run, Leads, Fails, Holds, Usual, NAMES;
    match e
    case Literal(text) => HoldsOne(c, m.pc, ["PUSH", text]); PushStep(c, m, text); LeadsByStep(c, m, Pushed(m, c.ops.literal(text), 1));
    case Entry(key) =>
      HoldsOne(c, m.pc, ["LOAD", key]); LoadStep(c, m, key); LeadsByStep(c, m, Pushed(m, Or(m.state, key, Int(0)), 1));
    case Balance(address) =>
      HoldsOne(c, m.pc, ["BALANCE", address]);
      BalanceStep(c, m, address);
      LeadsByStep(c, m, Pushed(m, Or(m.state, "_balance_" + address, Float(0.0)), 1));
    case Caller => HoldsOne(c, m.pc, ["CALLER"]); CallerStep(c, m); LeadsByStep(c, m, Pushed(m, c.caller, 1));
    case Sent => HoldsOne(c, m.pc, ["VALUE"]); ValueStep(c, m); LeadsByStep(c, m, Pushed(m, c.value, 1));
    case BalanceOf(holder) => BalanceOfMeans(c, m, holder);
    case Not(e) => NotMeans(c, m, e);
    case Binary(op, left, right) => BinaryMeans(c, m, op, left, right);
  }

  lemma {:induction false} BalanceOfMeans(c: Context, m: Machine, holder: Expr)
    requires Usual(c.ops) && Holds(c, m.pc, Code(BalanceOf(holder)))
    ensures var e := BalanceOf(holder); var r := Eval(c, m.state, e);
            if r.Yes? then Leads(c, m, Pushed(m, r.v, |Code(e)|)) else Fails(c, m, r.fault, |Code(e)|)
    decreases BalanceOf(holder), 0
  {
    hide Step, Run, Leads, Fails, Holds, Usual, NAMES, Code;
    BalanceOfParts(c, m.pc, holder);
    HoldsOne(c, m.pc + |Code(holder)|, ["BALANCE"]);
    CodeMeans(c, m, holder);
    var r := Eval(c, m.state, holder);
    if r.Yes? {
      var n := Pushed(m, r.v, |Code(holder)|);
      BalanceOfStep(c, n, m.stack, r.v);
      var k := Pushed(m, Eval(c, m.state, BalanceOf(holder)).v, |Code(holder)| + 1);
      LeadsByStep(c, n, k);
      LeadsOn(c, m, n, k);
    } else {
      FailsLater(c, m, r.fault, |Code(holder)|, |Code(holder)| + 1);
    }
  }

  lemma BalanceOfParts(c: Context, at: nat, holder: Expr)
    requires Holds(c, at, Code(BalanceOf(holder)))
    ensures Holds(c, at, Code(holder)) && Holds(c, at + |Code(holder)|, [["BALANCE"]])
    ensures |Code(BalanceOf(holder))| == |Code(holder)| + 1
  {
    hide Holds;
    HoldsParts(c, at, Code(holder), [["BALANCE"]]);
  }

  lemma NotParts(c: Context, at: nat, arg: Expr)
    requires Holds(c, at, Code(Not(arg)))
    ensures Holds(c, at, Code(arg)) && Holds(c, at + |Code(arg)|, [["NOT"]])
    ensures |Code(Not(arg))| == |Code(arg)| + 1
  {
    hide Holds;
    HoldsParts(c, at, Code(arg), [["NOT"]]);
  }

  lemma NotValue(c: Context, state: State, arg: Expr)
    ensures var r := Eval(c, state, arg);
            Eval(c, state, Not(arg)) == if r.Yes? then Yes(Bool(!c.ops.truth(r.v))) else r
  {}

  lemma {:induction false} NotMeans(c: Context, m: Machine, arg: Expr)
    requires Usual(c.ops) && Holds(c, m.pc, Code(Not(arg)))
    ensures var e := Not(arg); var r := Eval(c, m.state, e);
            if r.Yes? then Leads(c, m, Pushed(m, r.v, |Code(e)|)) else Fails(c, m, r.fault, |Code(e)|)
    decreases Not(arg), 0
  {
    hide Step, Run, Leads, Fails, Holds, Usual, NAMES, Code, Eval;
    NotParts(c, m.pc, arg);
    NotValue(c, m.state, arg);
    HoldsOne(c, m.pc + |Code(arg)|, ["NOT"]);
    CodeMeans(c, m, arg);
    var r := Eval(c, m.state, arg);
    if r.Yes? {
      var n := Pushed(m, r.v, |Code(arg)|);
      NotStep(c, n, m.stack, r.v);
      var k := Pushed(m, Bool(!c.ops.truth(r.v)), |Code(arg)| + 1);
      LeadsByStep(c, n, k);
      LeadsOn(c, m, n, k);
    } else {
      FailsLater(c, m, r.fault, |Code(arg)|, |Code(arg)| + 1);
    }
  }

  lemma BinaryParts(c: Context, at: nat, op: BinOp, left: Expr, right: Expr)
    requires Holds(c, at, Code(Binary(op, left, right)))
    ensures Holds(c, at, Code(left)) && Holds(c, at + |Code(left)|, Code(right))
    ensures Holds(c, at + |Code(left)| + |Code(right)|, [[OpName(op)]])
    ensures |Code(Binary(op, left, right))| == |Code(left)| + |Code(right)| + 1
  {
    hide Holds, OpName;
    HoldsParts(c, at, Code(left) + Code(right), [[OpName(op)]]);
    HoldsParts(c, at, Code(left), Code(right));
  }

  lemma {:induction false} BinaryMeans(c: Context, m: Machine, op: BinOp, left: Expr, right: Expr)
    requires Usual(c.ops) && Holds(c, m.pc, Code(Binary(op, left, right)))
    ensures var e := Binary(op, left, right); var r := Eval(c, m.state, e);
            if r.Yes? then Leads(c, m, Pushed(m, r.v, |Code(e)|)) else Fails(c, m, r.fault, |Code(e)|)
    decreases Binary(op, left, right), 0
  {
    hide Step, Run, Leads, Fails, Holds, Usual, NAMES, Operate, OpName, Code;
    BinaryParts(c, m.pc, op, left, right);
    var length := |Code(left)| + |Code(right)| + 1;
    CodeMeans(c, m, left);
    var a := Eval(c, m.state, left);
    if a.No? {
      FailsLater(c, m, a.fault, |Code(left)|, length);
    } else {
      var n := Pushed(m, a.v, |Code(left)|);
      CodeMeans(c, n, right);
      var b := Eval(c, m.state, right);
      if b.No? {
        FailsOn(c, m, n, b.fault, |Code(right)|);
        FailsLater(c, m, b.fault, |Code(left)| + |Code(right)|, length);
      } else {
        var k := Pushed(n, b.v, |Code(right)|);
        LeadsOn(c, m, n, k);
        Operated(c, m, k, op, a.v, b.v, length);
      }
    }
  }

  /** The operator, once both operands are on the stack. */
  lemma Operated(c: Context, m: Machine, k: Machine, op: BinOp, left: Value, right: Value, length: nat)
    requires Usual(c.ops) && Leads(c, m, k) && Holds(c, k.pc, [[OpName(op)]])
    requires length > 0 && k == Machine(m.stack + [left] + [right], m.state, m.pc + length - 1, m.gas + length - 1)
    ensures var r := Operate(c.ops, op, left, right);
            if r.Yes? then Leads(c, m, Pushed(m, r.v, length)) else Fails(c, m, r.fault, length)
  {
    hide Step, Run, Leads, Fails, Holds, Usual, NAMES, Operate, OpName;
    HoldsOne(c, k.pc, [OpName(op)]);
    assert k.stack == m.stack + [left, right];
    BinaryStep(c, k, m.stack, left, right, op);
    var r := Operate(c.ops, op, left, right);
    if r.Yes? {
      LeadsByStep(c, k, Pushed(m, r.v, length));
      LeadsOn(c, m, k, Pushed(m, r.v, length));
    } else {
      FailsByStep(c, k, r.fault);
      FailsOn(c, m, k, r.fault, 1);
    }
  }

  lemma FailsLater(c: Context, m: Machine, fault: Fault, used: nat, more: nat)
    requires Fails(c, m, fault, used) && used <= more
    ensures Fails(c, m, fault, more)
  {
    hide Run;
  }

  // Statements

  /** The machine after a statement. */
  function AfterStmt(m: Machine, state: State, length: nat, gas: nat): Machine {
    Machine(m.stack, state, m.pc + length, gas)
  }

  /** What the code of a statement has to do from a machine: reach its end with the statement's state, with
      `used` units of gas, or fail as it fails. */
  ghost predicate Does(c: Context, m: Machine, code: Program, r: Ending, used: nat) {
    match r
    case Ended(state) => Leads(c, m, AfterStmt(m, state, |code|, m.gas + used))
    case Broken(fault) => Fails(c, m, fault, used)
    case Unfinished => true
  }

  /** A value is computed and then consumed by the next instruction. */
  lemma ValueThen(c: Context, m: Machine, e: Expr, n: Machine)
    requires Usual(c.ops) && Holds(c, m.pc, Code(e)) && Eval(c, m.state, e).Yes?
    requires m.pc + |Code(e)| < |c.program| && Step(c, Pushed(m, Eval(c, m.state, e).v, |Code(e)|)) == Running(n)
    ensures Leads(c, m, n)
  {
    hide Step, Run, Leads, Holds, Usual, NAMES;
    CodeMeans(c, m, e);
    var k := Pushed(m, Eval(c, m.state, e).v, |Code(e)|);
    LeadsByStep(c, k, n);
    LeadsOn(c, m, k, n);
  }

  lemma SetMeans(c: Context, m: Machine, key: string, e: Expr, rounds: nat)
    requires Usual(c.ops) && Holds(c, m.pc, Compiled(Set(key, e)))
    ensures Does(c, m, Compiled(Set(key, e)), Exec(c, m.state, Set(key, e), rounds), |Code(e)| + 1)
  {
    hide Step, Run, Leads, Fails, Holds, Usual, NAMES, Code;
    HoldsParts(c, m.pc, Code(e), [["STORE", key]]);
    HoldsOne(c, m.pc + |Code(e)|, ["STORE", key]);
    CodeMeans(c, m, e);
    var r := Eval(c, m.state, e);
    if r.Yes? {
      StoreStep(c, Pushed(m, r.v, |Code(e)|), key, m.stack, r.v);
      ValueThen(c, m, e, AfterStmt(m, m.state[key := r.v], |Code(e)| + 1, m.gas + |Code(e)| + 1));
    } else {
      FailsLater(c, m, r.fault, |Code(e)|, |Code(e)| + 1);
    }
  }

  lemma RequireMeans(c: Context, m: Machine, e: Expr, rounds: nat)
    requires Usual(c.ops) && Holds(c, m.pc, Compiled(Require(e)))
    ensures Does(c, m, Compiled(Require(e)), Exec(c, m.state, Require(e), rounds), |Code(e)| + 1)
  {
    hide Step, Run, Leads, Fails, Holds, Usual, NAMES, Code;
    HoldsParts(c, m.pc, Code(e), [["ASSERT"]]);
    HoldsOne(c, m.pc + |Code(e)|, ["ASSERT"]);
    CodeMeans(c, m, e);
    var r := Eval(c, m.state, e);
    if r.Yes? {
      var k := Pushed(m, r.v, |Code(e)|);
      AssertStep(c, k, m.stack, r.v);
      if c.ops.truth(r.v) {
        ValueThen(c, m, e, AfterStmt(m, m.state, |Code(e)| + 1, m.gas + |Code(e)| + 1));
      } else {
        FailsByStep(c, k, AssertionFailed);
        FailsOn(c, m, k, AssertionFailed, 1);
      }
    } else {
      FailsLater(c, m, r.fault, |Code(e)|, |Code(e)| + 1);
    }
  }

  lemma DoesOn(c: Context, m: Machine, n: Machine, code: Program, r: Ending, used: nat, whole: Program, end: Machine)
    requires Leads(c, m, n) && Does(c, n, code, r, used)
    requires r.Ended? ==> Leads(c, AfterStmt(n, r.state, |code|, n.gas + used), end) && end.stack == m.stack
                          && end.state == r.state && end.pc == m.pc + |whole|
    ensures r.Ended? ==> Does(c, m, whole, r, end.gas - m.gas)
    ensures r.Broken? ==> Does(c, m, whole, r, n.gas - m.gas + used)
  {
    hide Run;
    if r.Broken? { FailsOn(c, m, n, r.fault, used); }
  }

  lemma IfParts(c: Context, at: nat, cond: Expr, yes: Stmt, no: Stmt, onYes: string, end: string)
    requires Holds(c, at, Compiled(If(cond, yes, no, onYes, end)))
    ensures var a, b, d := |Code(cond)|, |Compiled(no)|, |Compiled(yes)|;
            && Holds(c, at, Code(cond)) && Holds(c, at + a, [["JUMPI", onYes]]) && Holds(c, at + a + 1, Compiled(no))
            && Holds(c, at + a + 1 + b, [["JUMP", end]]) && Holds(c, at + a + b + 2, [["LABEL", onYes]])
            && Holds(c, at + a + b + 3, Compiled(yes)) && Holds(c, at + a + b + 3 + d, [["LABEL", end]])
            && |Compiled(If(cond, yes, no, onYes, end))| == a + b + d + 4
  {
    hide Holds, Code;
    var jumpi, jump, mark, last := [["JUMPI", onYes]], [["JUMP", end]], [["LABEL", onYes]], [["LABEL", end]];
    assert jump + mark == [["JUMP", end], ["LABEL", onYes]];
    SixParts(c, at, Code(cond), jumpi, Compiled(no), jump + mark, Compiled(yes), last);
    HoldsParts(c, at + |Code(cond)| + 1 + |Compiled(no)|, jump, mark);
  }

  lemma SixParts(c: Context, at: nat, p: Program, q: Program, r: Program, s: Program, t: Program, u: Program)
    requires Holds(c, at, p + q + r + s + t + u)
    ensures Holds(c, at, p) && Holds(c, at + |p|, q) && Holds(c, at + |p| + |q|, r) && Holds(c, at + |p| + |q| + |r|, s)
    ensures Holds(c, at + |p| + |q| + |r| + |s|, t) && Holds(c, at + |p| + |q| + |r| + |s| + |t|, u)
  {
    hide Holds;
    HoldsParts(c, at, p + q + r + s + t, u);
    HoldsParts(c, at, p + q + r + s, t);
    HoldsParts(c, at, p + q + r, s);
    HoldsParts(c, at, p + q, r);
    HoldsParts(c, at, p, q);
  }

  lemma WhileParts(c: Context, at: nat, cond: Expr, body: Stmt, again: string, exit: string)
    requires Holds(c, at, Compiled(While(cond, body, again, exit)))
    ensures var a, b := |Code(cond)|, |Compiled(body)|;
            && Holds(c, at, [["LABEL", again]]) && Holds(c, at + 1, Code(cond)) && Holds(c, at + 1 + a, [["NOT"]])
            && Holds(c, at + a + 2, [["JUMPI", exit]]) && Holds(c, at + a + 3, Compiled(body))
            && Holds(c, at + a + 3 + b, [["JUMP", again]]) && Holds(c, at + a + b + 4, [["LABEL", exit]])
            && |Compiled(While(cond, body, again, exit))| == a + b + 5
  {
    hide Holds, Code;
    var first, not, jumpi, jump, mark := [["LABEL", again]], [["NOT"]], [["JUMPI", exit]], [["JUMP", again]], [["LABEL", exit]];
    assert not + jumpi == [["NOT"], ["JUMPI", exit]] && jump + mark == [["JUMP", again], ["LABEL", exit]];
    var code := first + Code(cond) + (not + jumpi) + Compiled(body) + (jump + mark);
    assert code + [] == code;
    SixParts(c, at, first, Code(cond), not + jumpi, Compiled(body), jump + mark, []);
    HoldsParts(c, at + 1 + |Code(cond)|, not, jumpi);
    HoldsParts(c, at + 3 + |Code(cond)| + |Compiled(body)|, jump, mark);
  }

  /** The code of a statement does what the statement says, wherever it stands and whatever is on the stack:
      its loops may take any number of rounds. */
  lemma {:induction false} CompiledMeans(c: Context, m: Machine, s: Stmt, rounds: nat) returns (used: nat)
    requires Usual(c.ops) && Holds(c, m.pc, Compiled(s))
    ensures Does(c, m, Compiled(s), Exec(c, m.state, s, rounds), used)
    decreases rounds, s, 1
  {
    hide Step, Run, Leads, Fails, Holds, Usual, NAMES, Does;
    match s
    case Skip => used := 0; SkipMeans(c, m, rounds);
    case Then(first, second) => used := ThenMeans(c, m, first, second, rounds);
    case Set(key, e) => SetMeans(c, m, key, e, rounds); used := |Code(e)| + 1;
    case Require(e) => RequireMeans(c, m, e, rounds); used := |Code(e)| + 1;
    case If(cond, yes, no, onYes, end) => used := IfMeans(c, m, cond, yes, no, onYes, end, rounds);
    case While(cond, body, again, exit) => used := WhileMeans(c, m, cond, body, again, exit, rounds);
  }

  lemma SkipMeans(c: Context, m: Machine, rounds: nat)
    ensures Does(c, m, Compiled(Skip), Exec(c, m.state, Skip, rounds), 0)
  {
    LeadsNowhere(c, m);
  }

  lemma {:induction false} ThenMeans(c: Context, m: Machine, first: Stmt, second: Stmt, rounds: nat) returns (used: nat)
    requires Usual(c.ops) && Holds(c, m.pc, Compiled(Then(first, second)))
    ensures Does(c, m, Compiled(Then(first, second)), Exec(c, m.state, Then(first, second), rounds), used)
    decreases rounds, Then(first, second), 0
  {
    hide Step, Run, Leads, Fails, Holds, Usual, NAMES;
    HoldsParts(c, m.pc, Compiled(first), Compiled(second));
    used := CompiledMeans(c, m, first, rounds);
    var r := Exec(c, m.state, first, rounds);
    if r.Ended? {
      var n := AfterStmt(m, r.state, |Compiled(first)|, m.gas + used);
      var more := CompiledMeans(c, n, second, rounds);
      var t := Exec(c, r.state, second, rounds);
      if t.Ended? {
        LeadsOn(c, m, n, AfterStmt(n, t.state, |Compiled(second)|, n.gas + more));
      } else if t.Broken? {
        FailsOn(c, m, n, t.fault, more);
      }
      used := used + more;
    }
  }

  lemma {:induction false} IfMeans(c: Context, m: Machine, cond: Expr, yes: Stmt, no: Stmt, onYes: string, end: string,
                                   rounds: nat) returns (used: nat)
    requires Usual(c.ops) && Holds(c, m.pc, Compiled(If(cond, yes, no, onYes, end)))
    ensures var s := If(cond, yes, no, onYes, end); Does(c, m, Compiled(s), Exec(c, m.state, s, rounds), used)
    decreases rounds, If(cond, yes, no, onYes, end), 0
  {
    hide Step, Run, Leads, Fails, Holds, Usual, NAMES, Code, Compiled, Eval;
    IfParts(c, m.pc, cond, yes, no, onYes, end);
    var a, b, d := |Code(cond)|, |Compiled(no)|, |Compiled(yes)|;
    var v := Eval(c, m.state, cond);
    if v.Yes? {
      var n := Chosen(c, m, cond, yes, no, onYes, end, v.v);
      if c.ops.truth(v.v) {
        HoldsOne(c, m.pc + a + b + 3 + d, ["LABEL", end]);
        var more := CompiledMeans(c, n, yes, rounds);
        used := Branch(c, m, n, yes, rounds, more, ["LABEL", end], m.pc + a + b + d + 4);
      } else {
        HoldsOne(c, m.pc + a + 1 + b, ["JUMP", end]);
        HoldsOne(c, m.pc + a + b + 3 + d, ["LABEL", end]);
        var more := CompiledMeans(c, n, no, rounds);
        used := Branch(c, m, n, no, rounds, more, ["JUMP", end], m.pc + a + b + d + 4);
      }
    } else {
      CodeMeans(c, m, cond);
      used := a;
    }
  }

  /** The condition of an if, and the jump to the branch it chooses. */
  lemma Chosen(c: Context, m: Machine, cond: Expr, yes: Stmt, no: Stmt, onYes: string, end: string, v: Value)
    returns (n: Machine)
    requires Usual(c.ops) && Holds(c, m.pc, Compiled(If(cond, yes, no, onYes, end))) && Eval(c, m.state, cond) == Yes(v)
    ensures var a := |Code(cond)|;
            n == AfterStmt(m, m.state, if c.ops.truth(v) then a + |Compiled(no)| + 3 else a + 1, m.gas + a + 1)
    ensures Leads(c, m, n)
  {
    hide Step, Run, Leads, Holds, Usual, NAMES, Code, Compiled;
    IfParts(c, m.pc, cond, yes, no, onYes, end);
    var a, b := |Code(cond)|, |Compiled(no)|;
    HoldsOne(c, m.pc + a, ["JUMPI", onYes]);
    HoldsOne(c, m.pc + a + b + 2, ["LABEL", onYes]);
    JumpIfStep(c, Pushed(m, v, a), onYes, m.stack, v);
    n := AfterStmt(m, m.state, if c.ops.truth(v) then a + b + 3 else a + 1, m.gas + a + 1);
    ValueThen(c, m, cond, n);
  }

  /** One branch, and the step from its end to a place behind the whole statement. */
  lemma Branch(c: Context, m: Machine, n: Machine, s: Stmt, rounds: nat, more: nat, last: Instruction, to: nat)
    returns (used: nat)
    requires Usual(c.ops) && Leads(c, m, n) && n.stack == m.stack && m.gas <= n.gas
    requires Does(c, n, Compiled(s), Exec(c, n.state, s, rounds), more)
    requires n.pc + |Compiled(s)| < |c.program| && c.program[n.pc + |Compiled(s)|] == last && |last| == 2
    requires if last[0] == "JUMP" then last[1] in c.labels && c.labels[last[1]] + 1 == to
             else last[0] == "LABEL" && n.pc + |Compiled(s)| + 1 == to
    ensures var r := Exec(c, n.state, s, rounds);
            && (r.Ended? ==> Leads(c, m, Machine(m.stack, r.state, to, m.gas + used)))
            && (r.Broken? ==> Fails(c, m, r.fault, used))
  {
    hide Step, Run, Leads, Fails, Usual, NAMES;
    var r := Exec(c, n.state, s, rounds);
    used := n.gas - m.gas + more;
    if r.Ended? {
      var k := AfterStmt(n, r.state, |Compiled(s)|, n.gas + more);
      var z := Machine(m.stack, r.state, to, k.gas + 1);
      assert last == [last[0], last[1]];
      if last[0] == "JUMP" { JumpStep(c, k, last[1]); } else { LabelStep(c, k, last[1]); }
      LeadsByStep(c, k, z);
      LeadsOn(c, m, n, k);
      LeadsOn(c, m, k, z);
      used := used + 1;
    } else if r.Broken? {
      FailsOn(c, m, n, r.fault, more);
    }
  }

  lemma {:induction false} WhileMeans(c: Context, m: Machine, cond: Expr, body: Stmt, again: string, exit: string, rounds: nat)
    returns (used: nat)
    requires Usual(c.ops) && Holds(c, m.pc, Compiled(While(cond, body, again, exit)))
    ensures var s := While(cond, body, again, exit); Does(c, m, Compiled(s), Exec(c, m.state, s, rounds), used)
    decreases rounds, While(cond, body, again, exit), 0
  {
    hide Step, Run, Leads, Fails, Holds, Usual, NAMES;
    WhileParts(c, m.pc, cond, body, again, exit);
    HoldsOne(c, m.pc, ["LABEL", again]);
    LabelStep(c, m, again);
    var n := AfterStmt(m, m.state, 1, m.gas + 1);
    LeadsByStep(c, m, n);
    used := LoopMeans(c, m.pc, n, cond, body, again, exit, rounds);
    var s := While(cond, body, again, exit);
    var r := Exec(c, m.state, s, rounds);
    if r.Ended? {
      LeadsOn(c, m, n, Machine(m.stack, r.state, m.pc + |Compiled(s)|, n.gas + used));
    } else if r.Broken? {
      FailsOn(c, m, n, r.fault, used);
    }
    used := used + 1;
  }

  /** The rounds of a loop that stands at `at`, from behind its first label. */
  lemma {:induction false} LoopMeans(c: Context, at: nat, n: Machine, cond: Expr, body: Stmt, again: string, exit: string,
                                     rounds: nat) returns (used: nat)
    requires Usual(c.ops) && Holds(c, at, Compiled(While(cond, body, again, exit))) && n.pc == at + 1
    ensures var s := While(cond, body, again, exit); var r := Exec(c, n.state, s, rounds);
            && (r.Ended? ==> Leads(c, n, Machine(n.stack, r.state, at + |Compiled(s)|, n.gas + used)))
            && (r.Broken? ==> Fails(c, n, r.fault, used))
    decreases rounds, cond, body, 0
  {
    hide Step, Run, Leads, Fails, Holds, Usual, NAMES, Code, Compiled, Eval;
    WhileParts(c, at, cond, body, again, exit);
    var a, b := |Code(cond)|, |Compiled(body)|;
    CodeMeans(c, n, cond);
    used := a;
    var v := Eval(c, n.state, cond);
    if v.Yes? {
      var k := LoopBranch(c, at, n, cond, body, again, exit, v.v);
      used := a + 2;
      if c.ops.truth(v.v) && rounds > 0 {
        var more := CompiledMeans(c, k, body, rounds - 1);
        HoldsOne(c, at + a + 3 + b, ["JUMP", again]);
        HoldsOne(c, at, ["LABEL", again]);
        used := Branch(c, n, k, body, rounds - 1, more, ["JUMP", again], at + 1);
        var one := Exec(c, n.state, body, rounds - 1);
        if one.Ended? {
          var z := Machine(n.stack, one.state, at + 1, n.gas + used);
          var rest := LoopMeans(c, at, z, cond, body, again, exit, rounds - 1);
          var r := Exec(c, one.state, While(cond, body, again, exit), rounds - 1);
          if r.Ended? {
            LeadsOn(c, n, z, Machine(n.stack, r.state, at + a + b + 5, z.gas + rest));
          } else if r.Broken? {
            FailsOn(c, n, z, r.fault, rest);
          }
          used := used + rest;
        }
      }
    }
  }

  /** A loop's condition, and the jump out of the loop when it is false. */
  lemma LoopBranch(c: Context, at: nat, n: Machine, cond: Expr, body: Stmt, again: string, exit: string, v: Value)
    returns (k: Machine)
    requires Usual(c.ops) && Holds(c, at, Compiled(While(cond, body, again, exit))) && n.pc == at + 1
    requires Eval(c, n.state, cond) == Yes(v)
    ensures var a, b := |Code(cond)|, |Compiled(body)|;
            k == Machine(n.stack, n.state, if c.ops.truth(v) then at + a + 3 else at + a + b + 5, n.gas + a + 2)
    ensures Leads(c, n, k)
  {
    hide Step, Run, Leads, Fails, Holds, NAMES, Code, Compiled;
    WhileParts(c, at, cond, body, again, exit);
    var a, b := |Code(cond)|, |Compiled(body)|;
    HoldsOne(c, at + 1 + a, ["NOT"]);
    HoldsOne(c, at + a + 2, ["JUMPI", exit]);
    HoldsOne(c, at + a + b + 4, ["LABEL", exit]);
    var p := Pushed(n, v, a);
    NotStep(c, p, n.stack, v);
    var q := Machine(n.stack + [Bool(!c.ops.truth(v))], n.state, at + a + 2, n.gas + a + 1);
    ValueThen(c, n, cond, q);
    JumpIfStep(c, q, exit, n.stack, Bool(!c.ops.truth(v)));
    k := Machine(n.stack, n.state, if c.ops.truth(v) then at + a + 3 else at + a + b + 5, n.gas + a + 2);
    LeadsByStep(c, q, k);
    LeadsOn(c, n, q, k);
  }

  // Whole programs

  /** A statement, and then the value to return. */
  function Whole(s: Stmt, e: Expr): Program {
    Compiled(s) + Code(e) + [["RETURN"]]
  }

  predicate IsLabel(instr: Instruction) { |instr| > 1 && instr[0] == "LABEL" }

  /** No two LABELs have one name. */
  predicate OnceEach(program: Program) {
    forall i, j :: 0 <= i < j < |program| && IsLabel(program[i]) && IsLabel(program[j]) ==> program[i][1] != program[j][1]
  }

  predicate Labelled(program: Program) {
    forall i :: 0 <= i < |program| && program[i][0] == "LABEL" ==> |program[i]| == 2
  }

  lemma LabelledJoin(a: Program, b: Program)
    requires Labelled(a) && Labelled(b)
    ensures Labelled(a + b)
  {}

  lemma OpNameApart(op: BinOp)
    ensures OpName(op) != "LABEL"
  {}

  lemma {:induction false} CodeLabelled(e: Expr)
    ensures Labelled(Code(e))
  {
    match e
    case BalanceOf(holder) => CodeLabelled(holder);
    case Not(arg) => CodeLabelled(arg);
    case Binary(op, left, right) =>
      hide OpName;
      CodeLabelled(left);
      CodeLabelled(right);
      OpNameApart(op);
      LabelledJoin(Code(left), Code(right));
      LabelledJoin(Code(left) + Code(right), [[OpName(op)]]);
    case _ =>
  }

  lemma {:induction false} CompiledLabelled(s: Stmt)
    ensures Labelled(Compiled(s))
  {
    hide Labelled, Code;
    match s
    case Skip => assert Labelled([]) by { EachLabelled([]); }
    case Then(first, second) =>
      CompiledLabelled(first);
      CompiledLabelled(second);
      LabelledJoin(Compiled(first), Compiled(second));
    case Set(key, e) => CodeLabelled(e); EachLabelled([["STORE", key]]); LabelledJoin(Code(e), [["STORE", key]]);
    case Require(e) => CodeLabelled(e); EachLabelled([["ASSERT"]]); LabelledJoin(Code(e), [["ASSERT"]]);
    case If(cond, yes, no, onYes, end) =>
      CodeLabelled(cond);
      CompiledLabelled(yes);
      CompiledLabelled(no);
      EachLabelled([["JUMPI", onYes]]);
      EachLabelled([["JUMP", end], ["LABEL", onYes]]);
      EachLabelled([["LABEL", end]]);
      LabelledSix(Code(cond), [["JUMPI", onYes]], Compiled(no), [["JUMP", end], ["LABEL", onYes]], Compiled(yes), [["LABEL", end]]);
    case While(cond, body, again, exit) =>
      CodeLabelled(cond);
      CompiledLabelled(body);
      EachLabelled([["LABEL", again]]);
      EachLabelled([["NOT"], ["JUMPI", exit]]);
      EachLabelled([["JUMP", again], ["LABEL", exit]]);
      EachLabelled([]);
      LabelledSix([["LABEL", again]], Code(cond), [["NOT"], ["JUMPI", exit]], Compiled(body), [["JUMP", again], ["LABEL", exit]], []);
      assert Compiled(s) + [] == Compiled(s);
  }

  lemma EachLabelled(program: Program)
    requires forall i :: 0 <= i < |program| && program[i][0] == "LABEL" ==> |program[i]| == 2
    ensures Labelled(program)
  {}

  lemma LabelledSix(p: Program, q: Program, r: Program, s: Program, t: Program, u: Program)
    requires Labelled(p) && Labelled(q) && Labelled(r) && Labelled(s) && Labelled(t) && Labelled(u)
    ensures Labelled(p + q + r + s + t + u)
  {
    hide Labelled;
    LabelledJoin(p, q);
    LabelledJoin(p + q, r);
    LabelledJoin(p + q + r, s);
    LabelledJoin(p + q + r + s, t);
    LabelledJoin(p + q + r + s + t, u);
  }

  /** With different names the labels are where they stand. */
  lemma LabelsStand(program: Program)
    requires Labelled(program) && OnceEach(program)
    ensures Labels(program).Some?
    ensures forall i :: 0 <= i < |program| && program[i][0] == "LABEL" ==>
              program[i][1] in Labels(program).value && Labels(program).value[program[i][1]] == i
  {
    if Labels(program).Some? {
      var labels := Labels(program).value;
      forall i | 0 <= i < |program| && program[i][0] == "LABEL" ensures program[i][1] in labels && labels[program[i][1]] == i {
        var j := labels[program[i][1]];
        assert Named(program[j], program[i][1]);
      }
    }
  }

  /** A structured program with different labels, run as a contract: it returns the value of its last
      expression in the state that its statement leads to, and that state's difference to the original one,
      or fails as the program does; under every limit that covers the gas it uses. */
  lemma ProgramMeans(ops: Ops, s: Stmt, e: Expr, args: seq<Value>, caller: Value, value: Value, state: State, rounds: nat)
    returns (used: nat)
    requires Usual(ops) && OnceEach(Whole(s, e))
    ensures Labels(Whole(s, e)).Some?
    ensures var c := Context(ops, Whole(s, e), Labels(Whole(s, e)).value, caller, value);
            var r := Exec(c, state, s, rounds);
            && (r.Broken? ==>
                  forall limit | used <= limit :: Executed(ops, Whole(s, e), args, caller, value, state, limit) == Failure(r.fault))
            && (r.Ended? ==>
                  var v := Eval(c, r.state, e);
                  forall limit | used <= limit ::
                    Executed(ops, Whole(s, e), args, caller, value, state, limit)
                      == if v.No? then Failure(v.fault) else Success(v.v, Diff(ops, state, r.state), used))
  {
    hide Labels, Step, Run, Leads, Fails, Code, Compiled, Holds, Diff, Usual, NAMES;
    var program := Whole(s, e);
    var labels := WholeLabels(s, e);
    var c := Context(ops, program, labels, caller, value);
    var m := Start(args, state);
    WholeHeld(c, s, e);
    used := CompiledMeans(c, m, s, rounds);
    var r := Exec(c, state, s, rounds);
    if r.Ended? {
      var n := AfterStmt(m, r.state, |Compiled(s)|, used);
      used := ReturnMeans(c, m, n, e);
    } else if r.Broken? {
      FailsRun(c, m, r.fault, used);
    }
  }

  lemma FailsRun(c: Context, m: Machine, fault: Fault, used: nat)
    requires Fails(c, m, fault, used)
    ensures forall limit | m.gas + used <= limit :: Run(c, m, limit) == Failed(fault)
  {
    hide Run;
  }

  lemma WholeLabels(s: Stmt, e: Expr) returns (labels: map<string, nat>)
    requires OnceEach(Whole(s, e))
    ensures Labels(Whole(s, e)) == Some(labels)
    ensures forall i :: 0 <= i < |Whole(s, e)| && Whole(s, e)[i][0] == "LABEL" ==>
              |Whole(s, e)[i]| == 2 && Whole(s, e)[i][1] in labels && labels[Whole(s, e)[i][1]] == i
  {
    hide Labels, Code, Compiled;
    CompiledLabelled(s);
    CodeLabelled(e);
    LabelledJoin(Compiled(s), Code(e));
    LabelledJoin(Compiled(s) + Code(e), [["RETURN"]]);
    LabelsStand(Whole(s, e));
    labels := Labels(Whole(s, e)).value;
  }

  lemma WholeHeld(c: Context, s: Stmt, e: Expr)
    requires c.program == Whole(s, e)
    requires forall i :: 0 <= i < |c.program| && c.program[i][0] == "LABEL" ==>
               |c.program[i]| == 2 && c.program[i][1] in c.labels && c.labels[c.program[i][1]] == i
    ensures Holds(c, 0, Compiled(s)) && Holds(c, |Compiled(s)|, Code(e)) && Holds(c, |Compiled(s)| + |Code(e)|, [["RETURN"]])
  {
    hide Code, Compiled;
    assert c.program[0..0 + |c.program|] == c.program;
    HoldsParts(c, 0, Compiled(s) + Code(e), [["RETURN"]]);
    HoldsParts(c, 0, Compiled(s), Code(e));
  }

  /** The value of an expression is returned. */
  lemma ReturnMeans(c: Context, m: Machine, n: Machine, e: Expr) returns (used: nat)
    requires Usual(c.ops) && Leads(c, m, n) && m.gas == 0 && Holds(c, n.pc, Code(e))
    requires Holds(c, n.pc + |Code(e)|, [["RETURN"]])
    ensures var v := Eval(c, n.state, e);
            forall limit | used <= limit :: Run(c, m, limit) == if v.No? then Failed(v.fault) else Done(v.v, n.state, used)
  {
    hide Step, Holds, Code, Usual, NAMES;
    CodeMeans(c, n, e);
    HoldsOne(c, n.pc + |Code(e)|, ["RETURN"]);
    var v := Eval(c, n.state, e);
    if v.Yes? {
      var k := Pushed(n, v.v, |Code(e)|);
      ReturnStep(c, k);
      LeadsOn(c, m, n, k);
      used := k.gas + 1;
      forall limit | used <= limit ensures Run(c, m, limit) == Done(v.v, n.state, used) {
        assert Run(c, m, limit) == Run(c, k, limit);
      }
    } else {
      used := n.gas + |Code(e)|;
      hide Run;
      FailsOn(c, m, n, v.fault, |Code(e)|);
    }
  }
}
