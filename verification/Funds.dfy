/** What contract calls keep: their funds, and a state difference that rebuilds the final state. */
module Funds {
  import opened Collections
  import opened SimpleVM
  import opened Supply

  // The state difference

  lemma EntriesStay(c: Context, m: Machine)
    requires m.pc < |c.program| && !Step(c, m).Faulted?
    ensures m.state.Keys <= Step(c, m).m.state.Keys
  {
    hide Decode, Calculate, StateGet;
  }

  /** Entries are never removed. */
  lemma {:induction false} RunKeepsEntries(c: Context, m: Machine, limit: int)
    requires Run(c, m, limit).Done?
    ensures m.state.Keys <= Run(c, m, limit).state.Keys
    decreases limit - m.gas
  {
    if m.pc < |c.program| {
      hide Step;
      EntriesStay(c, m);
      var r := Step(c, m);
      if r.Running? {
        RunKeepsEntries(c, r.m, limit);
      }
    }
  }

  /** Writing the difference over the original state gives, up to equality, the final one. */
  ghost predicate Rebuilds(ops: Ops, original: State, final: State) {
    var rebuilt := original + Diff(ops, original, final);
    && rebuilt.Keys == final.Keys
    && forall k | k in final :: rebuilt[k] == final[k] || ops.same(rebuilt[k], final[k])
  }

  /** Where entries only ever appear or change, it does exactly when no new one equals None. */
  lemma RebuildsWithoutNewNone(ops: Ops, original: State, final: State)
    requires original.Keys <= final.Keys
    ensures Rebuilds(ops, original, final) <==> forall k | k in final && k !in original :: !ops.same(Nothing, final[k])
  {
    var diff := Diff(ops, original, final);
    var rebuilt := original + diff;
    forall k | k in final && k !in original ensures k in rebuilt <==> !ops.same(Nothing, final[k]) {
      assert StateGet(original, k, Nothing) == Nothing;
    }
    if forall k | k in final && k !in original :: !ops.same(Nothing, final[k]) {
      assert rebuilt.Keys == final.Keys;
    } else {
      var k :| k in final && k !in original && ops.same(Nothing, final[k]);
      assert k !in rebuilt.Keys && k in final.Keys;
    }
  }

  /** It reports nothing but entries of the final state that differ from the original one. */
  lemma DiffOnlyChanges(ops: Ops, original: State, final: State, k: string)
    requires k in Diff(ops, original, final)
    ensures k in final && Diff(ops, original, final)[k] == final[k]
    ensures !ops.same(if k in original then original[k] else Nothing, final[k])
  {}

  // Inputs without None

  /** None equals only itself, no operation of the host language makes one, and the upper-case opcodes
      used below are what `upper` leaves alone. */
  ghost predicate Plain(ops: Ops) {
    && (forall v :: ops.same(Nothing, v) <==> v == Nothing)
    && (forall t :: ops.literal(t) != Nothing && ops.float(t) != Some(Nothing))
    && (forall op, a, b :: ops.binary(op, a, b) != Some(Nothing))
    && (forall t :: t in {"POP", "LOAD", "STORE", "CALLER", "VALUE"} ==> ops.upper(t) == t)
  }

  /** None is nowhere in what a call is given. */
  predicate NoNone(args: seq<Value>, caller: Value, value: Value, state: State) {
    Nothing !in args && caller != Nothing && value != Nothing && forall k :: k in state ==> state[k] != Nothing
  }

  lemma StepMakesNoNone(c: Context, m: Machine)
    requires Plain(c.ops) && NoNone(m.stack, c.caller, c.value, m.state)
    requires m.pc < |c.program| && !Step(c, m).Faulted?
    ensures NoNone(Step(c, m).m.stack, c.caller, c.value, Step(c, m).m.state)
  {
    hide Dispatch, Plain, Decode;
    var instr := c.program[m.pc];
    DispatchMakesNoNone(c, Decode(c.ops.upper(instr[0])), instr, m.(pc := m.pc + 1, gas := m.gas + 1));
  }

  lemma DispatchMakesNoNone(c: Context, op: Opcode, instr: Instruction, m: Machine)
    requires Plain(c.ops) && NoNone(m.stack, c.caller, c.value, m.state) && !Dispatch(c, op, instr, m).Faulted?
    ensures var next := Dispatch(c, op, instr, m).m; NoNone(next.stack, c.caller, c.value, next.state)
  {
    hide Transferred, Calculate;
    if op.BINARY? {
      CalculatesNoNone(c.ops, op.op, m.Popped().Top(), m.Top());
    } else if op == TRANSFER {
      var amount := if |instr| > 2 then c.ops.float(instr[2]).value else m.Top();
      TransferMakesNoNone(c.ops, m.state, instr[1], amount);
    }
  }

  lemma CalculatesNoNone(ops: Ops, op: BinOp, a: Value, b: Value)
    requires Plain(ops)
    ensures Calculate(ops, op, a, b).0 != Some(Nothing)
  {}

  lemma TransferMakesNoNone(ops: Ops, state: State, to: string, amount: Value)
    requires Plain(ops) && Transferred(ops, state, to, amount).0.Some? && forall k :: k in state ==> state[k] != Nothing
    ensures var after := Transferred(ops, state, to, amount).0.value; forall k :: k in after ==> after[k] != Nothing
  {
    hide TransferKey;
  }

  lemma {:induction false} RunMakesNoNone(c: Context, m: Machine, limit: int)
    requires Plain(c.ops) && NoNone(m.stack, c.caller, c.value, m.state) && Run(c, m, limit).Done?
    ensures forall k :: k in Run(c, m, limit).state ==> Run(c, m, limit).state[k] != Nothing
    decreases limit - m.gas
  {
    if m.pc < |c.program| {
      hide Step, Plain;
      StepMakesNoNone(c, m);
      if Step(c, m).Running? {
        RunMakesNoNone(c, Step(c, m).m, limit);
      }
    }
  }

  /** The state that a successful execution ends in. */
  function FinalState(ops: Ops, program: Program, args: seq<Value>, caller: Value, value: Value, state: State, limit: int): State
    requires Executed(ops, program, args, caller, value, state, limit).Success?
  {
    Run(Context(ops, program, Labels(program).value, caller, value), Start(args, state), limit).state
  }

  /** What every program reports about a call with these inputs is enough to rebuild its final state. */
  ghost predicate AlwaysRebuilds(ops: Ops, args: seq<Value>, caller: Value, value: Value, state: State) {
    forall program: Program, limit: int | Executed(ops, program, args, caller, value, state, limit).Success? ::
      Rebuilds(ops, state, FinalState(ops, program, args, caller, value, state, limit))
  }

  lemma CleanInputsRebuild(ops: Ops, program: Program, args: seq<Value>, caller: Value, value: Value, state: State, limit: int)
    requires Plain(ops) && NoNone(args, caller, value, state)
    requires Executed(ops, program, args, caller, value, state, limit).Success?
    ensures Rebuilds(ops, state, FinalState(ops, program, args, caller, value, state, limit))
  {
    hide Run, Labels, Rebuilds;
    var c := Context(ops, program, Labels(program).value, caller, value);
    RunKeepsEntries(c, Start(args, state), limit);
    RunMakesNoNone(c, Start(args, state), limit);
    RebuildsWithoutNewNone(ops, state, Run(c, Start(args, state), limit).state);
  }

  // A None that comes in can be lost

  /** A key that is not in use. */
  lemma FreshKey(state: State) returns (key: string)
    ensures key !in state
  {
    key := LongerThan(state.Keys);
  }

  lemma {:induction false} LongerThan(keys: set<string>) returns (key: string)
    ensures forall k :: k in keys ==> |k| < |key|
  {
    key := "x";
    if keys != {} {
      var k :| k in keys;
      var rest := LongerThan(keys - {k});
      key := rest + k + "x";
    }
  }

  /** The program ends by storing its top value under a new key; when that is None, the entry is lost. */
  lemma StoreLoses(ops: Ops, program: Program, args: seq<Value>, caller: Value, value: Value, state: State, key: string, m: Machine)
    requires Plain(ops) && Labels(program).Some? && key !in state
    requires m.pc == |program| - 1 && program[m.pc] == ["STORE", key] && m.stack != [] && m.Top() == Nothing
    requires m.state == state && m.gas < |program|
    requires Run(Context(ops, program, Labels(program).value, caller, value), Start(args, state), |program|)
               == Run(Context(ops, program, Labels(program).value, caller, value), m, |program|)
    ensures !AlwaysRebuilds(ops, args, caller, value, state)
  {
    hide Labels;
    var c := Context(ops, program, Labels(program).value, caller, value);
    StoreRuns(c, m, key, |program|);
    var final := state[key := Nothing];
    assert key !in Diff(ops, state, final) by { assert StateGet(state, key, Nothing) == Nothing; }
    assert Executed(ops, program, args, caller, value, state, |program|).Success?;
    assert FinalState(ops, program, args, caller, value, state, |program|) == final;
    assert key in final.Keys && key !in (state + Diff(ops, state, final)).Keys;
  }

  lemma StoreRuns(c: Context, m: Machine, key: string, limit: int)
    requires m.pc == |c.program| - 1 && c.program[m.pc] == ["STORE", key] && m.stack != [] && m.gas < limit
    requires c.ops.upper("STORE") == "STORE"
    ensures Run(c, m, limit) == Done(Nothing, m.state[key := m.Top()], m.gas + 1)
  {
    var n := m.Popped().(state := m.state[key := m.Top()], pc := m.pc + 1, gas := m.gas + 1);
    assert Step(c, m) == Running(n);
  }

  /** Discarding values one by one. */
  lemma {:induction false} PopsRun(c: Context, m: Machine, n: nat, limit: int)
    requires c.ops.upper("POP") == "POP" && n <= |m.stack| && m.pc + n <= |c.program| && m.gas + n <= limit
    requires forall i :: m.pc <= i < m.pc + n ==> c.program[i] == ["POP"]
    decreases n
    ensures Run(c, m, limit) == Run(c, Machine(m.stack[..|m.stack| - n], m.state, m.pc + n, m.gas + n), limit)
  {
    hide Step;
    if n == 0 {
      assert m.stack[..|m.stack|] == m.stack;
    } else {
      var next := Machine(m.stack[..|m.stack| - 1], m.state, m.pc + 1, m.gas + 1);
      PopStep(c, m);
      PopsRun(c, next, n - 1, limit);
      assert next.stack[..|next.stack| - (n - 1)] == m.stack[..|m.stack| - n];
    }
  }

  lemma PopStep(c: Context, m: Machine)
    requires c.ops.upper("POP") == "POP" && m.stack != [] && m.pc < |c.program| && c.program[m.pc] == ["POP"]
    ensures Step(c, m) == Running(Machine(m.stack[..|m.stack| - 1], m.state, m.pc + 1, m.gas + 1))
  {}

  /** Discards n values and stores the next one. */
  function Digging(n: nat, key: string): Program {
    seq(n, _ => ["POP"]) + [["STORE", key]]
  }

  lemma DiggingIs(n: nat, key: string)
    ensures var program := Digging(n, key);
            && |program| == n + 1 && program[n] == ["STORE", key] && Labels(program).Some?
            && forall i :: 0 <= i < n ==> program[i] == ["POP"]
  {}

  lemma ArgumentLost(ops: Ops, args: seq<Value>, caller: Value, value: Value, state: State, i: nat)
    requires Plain(ops) && i < |args| && args[i] == Nothing
    ensures !AlwaysRebuilds(ops, args, caller, value, state)
  {
    hide Run, AlwaysRebuilds, Labels, Step, Digging;
    var key := FreshKey(state);
    var n := |args| - 1 - i;
    var program := Digging(n, key);
    DiggingIs(n, key);
    var c := Context(ops, program, Labels(program).value, caller, value);
    PopsRun(c, Start(args, state), n, |program|);
    var m := Machine(args[..|args| - n], state, n, n);
    StoreLoses(ops, program, args, caller, value, state, key, m);
  }

  /** In a call with these inputs the instruction pushes None. */
  ghost predicate PushesNone(ops: Ops, caller: Value, value: Value, state: State, push: Instruction) {
    forall c: Context, m: Machine |
      c.ops == ops && c.caller == caller && c.value == value && m.state == state && m.pc < |c.program| && c.program[m.pc] == push
      :: Step(c, m) == Running(m.Push(Nothing).(pc := m.pc + 1, gas := m.gas + 1))
  }

  lemma PushedLost(ops: Ops, args: seq<Value>, caller: Value, value: Value, state: State, push: Instruction)
    requires Plain(ops) && push[0] != "LABEL" && PushesNone(ops, caller, value, state, push)
    ensures !AlwaysRebuilds(ops, args, caller, value, state)
  {
    hide Step, AlwaysRebuilds;
    var key := FreshKey(state);
    var program: Program := [push, ["STORE", key]];
    assert Labels(program).Some?;
    var c := Context(ops, program, Labels(program).value, caller, value);
    var m := Machine(args + [Nothing], state, 1, 1);
    assert Step(c, Start(args, state)) == Running(m);
    assert Run(c, Start(args, state), 2) == Run(c, m, 2);
    StoreLoses(ops, program, args, caller, value, state, key, m);
  }

  lemma CallerPushed(ops: Ops, value: Value, state: State)
    requires Plain(ops)
    ensures PushesNone(ops, Nothing, value, state, ["CALLER"])
  {}

  lemma ValuePushed(ops: Ops, caller: Value, state: State)
    requires Plain(ops)
    ensures PushesNone(ops, caller, Nothing, state, ["VALUE"])
  {}

  lemma EntryPushed(ops: Ops, caller: Value, value: Value, state: State, k: string)
    requires Plain(ops) && k in state && state[k] == Nothing
    ensures PushesNone(ops, caller, value, state, ["LOAD", k])
  {}

  /** The reported difference is enough for every program exactly when None is nowhere in the call's
      inputs: neither an argument, nor the caller, the value, or an entry of the contract's state. */
  lemma RebuildsExactly(ops: Ops, args: seq<Value>, caller: Value, value: Value, state: State)
    requires Plain(ops)
    ensures AlwaysRebuilds(ops, args, caller, value, state) <==> NoNone(args, caller, value, state)
  {
    hide Step, Executed, Rebuilds, Plain;
    if NoNone(args, caller, value, state) {
      forall program: Program, limit: int | Executed(ops, program, args, caller, value, state, limit).Success?
        ensures Rebuilds(ops, state, FinalState(ops, program, args, caller, value, state, limit))
      {
        CleanInputsRebuild(ops, program, args, caller, value, state, limit);
      }
    } else {
      NoneLost(ops, args, caller, value, state);
    }
  }

  lemma NoneLost(ops: Ops, args: seq<Value>, caller: Value, value: Value, state: State)
    requires Plain(ops) && !NoNone(args, caller, value, state)
    ensures !AlwaysRebuilds(ops, args, caller, value, state)
  {
    hide PushesNone, AlwaysRebuilds, Plain;
    if Nothing in args {
      var i :| 0 <= i < |args| && args[i] == Nothing;
      ArgumentLost(ops, args, caller, value, state, i);
    } else if caller == Nothing {
      CallerPushed(ops, value, state);
      PushedLost(ops, args, caller, value, state, ["CALLER"]);
    } else if value == Nothing {
      ValuePushed(ops, caller, state);
      PushedLost(ops, args, caller, value, state, ["VALUE"]);
    } else {
      var k :| k in state && state[k] == Nothing;
      EntryPushed(ops, caller, value, state, k);
      PushedLost(ops, args, caller, value, state, ["LOAD", k]);
    }
  }

  // Funds

  /** The number a value stands for. */
  function Number(v: Value): Option<real> {
    match v
    case Bool(b) => Some(if b then 1.0 else 0.0)
    case Int(i) => Some(i as real)
    case Float(x) => Some(x)
    case _ => None
  }

  function Fund(v: Value): real {
    if Number(v).Some? then Number(v).value else 0.0
  }

  /** Arithmetic is exact on numbers; only numbers can be subtracted, or have a number added. */
  ghost predicate Exact(ops: Ops) {
    && (forall a, b | ops.binary(SUB, a, b).Some? ::
          Number(a).Some? && Number(b).Some? && Number(ops.binary(SUB, a, b).value) == Some(Fund(a) - Fund(b)))
    && (forall a, b | ops.binary(ADD, a, b).Some? && Number(b).Some? ::
          Number(a).Some? && Number(ops.binary(ADD, a, b).value) == Some(Fund(a) + Fund(b)))
    && (forall a, b | ops.binary(LT, a, b).Some? && Number(a).Some? && Number(b).Some? ::
          ops.truth(ops.binary(LT, a, b).value) == (Fund(a) < Fund(b)))
  }

  predicate IsTransfer(key: string) { TransferKey("") <= key }

  function Transfers(state: State): map<string, real> {
    map k | k in state && IsTransfer(k) :: Fund(state[k])
  }

  function Held(state: State): real {
    Fund(StateGet(state, BALANCE_KEY, Float(0.0)))
  }

  /** The contract's balance and everything it has paid out. */
  ghost function FundsOf(state: State): real {
    Held(state) + Total(Transfers(state))
  }

  predicate Protected(key: string) {
    key == BALANCE_KEY || IsTransfer(key)
  }

  lemma KeysApart(to: string)
    ensures IsTransfer(TransferKey(to)) && !IsTransfer(BALANCE_KEY)
  {
    assert BALANCE_KEY[1] != TransferKey("")[1];
    assert TransferKey(to)[..10] == TransferKey("");
  }

  /** A transfer only moves funds, and never below zero. */
  lemma TransferConserves(ops: Ops, state: State, to: string, amount: Value)
    requires Exact(ops) && Transferred(ops, state, to, amount).0.Some?
    ensures var after := Transferred(ops, state, to, amount).0.value;
            FundsOf(after) == FundsOf(state) && (Held(state) >= 0.0 ==> Held(after) >= 0.0)
  {
    hide Total, IsTransfer, TransferKey;
    KeysApart(to);
    var after, key := Transferred(ops, state, to, amount).0.value, TransferKey(to);
    var before := Transfers(state);
    var sum := ops.binary(ADD, StateGet(state, key, Float(0.0)), amount).value;
    assert Transfers(after) == before[key := Fund(sum)];
    TotalSet(before, key, Fund(sum));
  }

  /** What a transfer moves, and when it does: the amount, from the balance to the recipient's entry, as long
      as the balance covers it; no other entry changes. */
  lemma TransferMoves(ops: Ops, state: State, to: string, amount: Value)
    requires Exact(ops) && Number(StateGet(state, BALANCE_KEY, Float(0.0))).Some? && Number(amount).Some?
    requires ops.binary(LT, StateGet(state, BALANCE_KEY, Float(0.0)), amount).Some?
    ensures var (after, fault) := Transferred(ops, state, to, amount);
            && (Held(state) < Fund(amount) ==> after.None? && fault == InsufficientBalance)
            && (after.Some? ==>
                  && Held(state) >= Fund(amount) && Held(after.value) == Held(state) - Fund(amount)
                  && TransferKey(to) in after.value
                  && Fund(after.value[TransferKey(to)]) == Fund(StateGet(state, TransferKey(to), Float(0.0))) + Fund(amount)
                  && forall k :: k != BALANCE_KEY && k != TransferKey(to) ==>
                       (k in after.value <==> k in state) && (k in state ==> after.value[k] == state[k]))
  {
    hide TransferKey;
    KeysApart(to);
  }

  /** The program never stores to the balance or to a transfer entry itself. */
  predicate NeverStoresFunds(c: Context) {
    forall i :: 0 <= i < |c.program| ==>
      var instr := c.program[i];
      Decode(c.ops.upper(instr[0])) == STORE && |instr| > 1 ==> !Protected(instr[1])
  }

  lemma StoreConserves(state: State, key: string, v: Value)
    requires !Protected(key)
    ensures FundsOf(state[key := v]) == FundsOf(state) && Held(state[key := v]) == Held(state)
  {
    hide Total, IsTransfer;
    assert Transfers(state[key := v]) == Transfers(state);
  }

  lemma StepConserves(c: Context, m: Machine)
    requires m.pc < |c.program| && Exact(c.ops) && NeverStoresFunds(c) && !Step(c, m).Faulted?
    ensures var after := Step(c, m).m.state;
            FundsOf(after) == FundsOf(m.state) && (Held(m.state) >= 0.0 ==> Held(after) >= 0.0)
  {
    hide Decode, Calculate, Transferred, StateGet, FundsOf, Held, Exact, Protected;
    var instr := c.program[m.pc];
    var op := Decode(c.ops.upper(instr[0]));
    if op == STORE {
      StoreConserves(m.state, instr[1], m.Top());
    } else if op == TRANSFER {
      var amount := if |instr| > 2 then c.ops.float(instr[2]).value else m.Top();
      TransferConserves(c.ops, m.state, instr[1], amount);
    }
  }

  /** Through a whole run the balance and the payments add up to the same sum, and the balance does
      not fall below zero. */
  lemma {:induction false} RunConserves(c: Context, m: Machine, limit: int)
    requires Exact(c.ops) && NeverStoresFunds(c) && Run(c, m, limit).Done?
    ensures FundsOf(Run(c, m, limit).state) == FundsOf(m.state)
    ensures Held(m.state) >= 0.0 ==> Held(Run(c, m, limit).state) >= 0.0
    decreases limit - m.gas
  {
    if m.pc < |c.program| {
      hide Step, FundsOf, Held, Exact, NeverStoresFunds;
      StepConserves(c, m);
      var r := Step(c, m);
      if r.Running? {
        RunConserves(c, r.m, limit);
      }
    }
  }

  lemma BalanceStored(state: State, x: real)
    ensures FundsOf(state[BALANCE_KEY := Float(x)]) == x + Total(Transfers(state))
  {
    hide Total, IsTransfer;
    KeysApart("");
    assert Transfers(state[BALANCE_KEY := Float(x)]) == Transfers(state);
  }

  /** A program that does store to them can leave any sum: one STORE of an argument is enough. */
  lemma OneStoreSetsFunds(ops: Ops, caller: Value, value: Value, state: State, sum: real)
    returns (program: Program, args: seq<Value>)
    requires ops.upper("STORE") == "STORE"
    ensures |program| == |args| == 1 && Executed(ops, program, args, caller, value, state, 1).Success?
    ensures FundsOf(FinalState(ops, program, args, caller, value, state, 1)) == sum
  {
    hide FundsOf, Step, Total, Transfers, Labels;
    var x := sum - Total(Transfers(state));
    program, args := [["STORE", BALANCE_KEY]], [Float(x)];
    Unlabelled(program);
    StoreRuns(Context(ops, program, Labels(program).value, caller, value), Start(args, state), BALANCE_KEY, 1);
    BalanceStored(state, x);
  }

  lemma Unlabelled(program: Program)
    requires forall i :: 0 <= i < |program| ==> program[i][0] != "LABEL"
    ensures Labels(program).Some?
  {}
}
