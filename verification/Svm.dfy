/** The Scheme virtual machine: instruction set (tools/compiler/src/SVM.hs) and the effect of
    every instruction on the registers, the evaluation stack and the continuation chain
    (tools/compiler/include/svm.h). */
module Svm {
  import opened Options
  import opened Exptype

  datatype Code =
    | FetchConst(datum: Datum)
    | MakeClosure(name: Sym, formals: Formals, body: seq<Code>)
    | LookupVar(sym: Sym)
    | Label(target: string)
    | NewBind(sym: Sym)
    | ReBind(sym: Sym)
    | LeaveProc
    | Apply
    | CallBuiltin(sym: Sym, argc: nat)
    | PushCont(target: string)
    | Push
    | MoveSp(count: nat)
    | AccStack(offset: nat)
    | IfTrue(thn: seq<Code>, els: seq<Code>)
    | IfFalse(thn: seq<Code>, els: seq<Code>)
    | Goto(target: string)
    | BlankLn
    | Nop

  datatype Value =
    | Data(datum: Datum)
    | Closure(envt: nat, name: Sym, formals: Formals, code: seq<Code>)
    | Unassigned

  predicate Truthy(v: Value) {
    v != Data(Boolean(false))
  }

  type Vars = map<Sym, Value>

  function Lookup(vars: Vars, sym: Sym): Value {
    if sym in vars then vars[sym] else Unassigned
  }

  // A continuation object. The resume address is the code that follows the resume label.
  datatype Cont = Cont(envt: nat, template: seq<Code>, pc: seq<Code>, stackTop: nat)

  // The program counter is the code still to run in the current procedure body: blocks of a
  // conditional fall through to what follows the conditional. The stack top is stack[0].
  datatype State = State(
    pc: seq<Code>,
    value: Value,
    envt: nat,
    envs: map<nat, Vars>,
    template: seq<Code>,
    stack: seq<Value>,
    cont: seq<Cont>)
  {
    function Bindings(): Vars {
      if envt in envs then envs[envt] else map[]
    }
  }

  datatype Why = EndOfCode | StackOverflow | Fault

  datatype Result = Next(state: State) | Exit(why: Why)

  // What a run is given: the program whose labels jumps refer to, the number of slots of the
  // evaluation stack, and the builtins as functions of their operands in source order.
  datatype Vm = Vm(prog: seq<Code>, capacity: nat, prims: (Sym, seq<Value>) -> Value)

  /** The code that runs after a jump to label l in `code`, when `rest` follows `code`.
      Labels are assembler labels: they are looked up in nested blocks and in closures too. */
  function Find(code: seq<Code>, l: string, rest: seq<Code>): Option<seq<Code>> {
    if code == [] then None
    else
      var here := FindHead(code[0], l, code[1..] + rest);
      if here.Some? then here else Find(code[1..], l, rest)
  }

  function FindHead(c: Code, l: string, after: seq<Code>): Option<seq<Code>> {
    match c
    case Label(m) => if m == l then Some(after) else None
    case IfTrue(a, b) =>
      var r := Find(a, l, after);
      if r.Some? then r else Find(b, l, after)
    case IfFalse(a, b) =>
      var r := Find(a, l, after);
      if r.Some? then r else Find(b, l, after)
    case MakeClosure(_, _, body) => Find(body, l, [])
    case _ => None
  }

  function Resolve(prog: seq<Code>, l: string): Option<seq<Code>> {
    Find(prog, l, [])
  }

  /** One instruction. */
  function Step(vm: Vm, s: State): Result {
    if s.pc == [] then Exit(EndOfCode)
    else
      var t := s.(pc := s.pc[1..]);
      match s.pc[0]
      case FetchConst(d) => Next(t.(value := Data(d)))
      case MakeClosure(name, formals, body) => Next(t.(value := Closure(s.envt, name, formals, body)))
      case LookupVar(sym) => Next(t.(value := Lookup(s.Bindings(), sym)))
      case NewBind(sym) => Next(t.(envs := s.envs[s.envt := s.Bindings()[sym := s.value]]))
      case ReBind(sym) => Next(t.(envs := s.envs[s.envt := s.Bindings()[sym := s.value]]))
      case Push =>
        if |s.stack| >= vm.capacity then Exit(StackOverflow)
        else Next(t.(stack := [s.value] + s.stack))
      case MoveSp(n) =>
        if n > |s.stack| then Exit(Fault) else Next(t.(stack := s.stack[n..]))
      case AccStack(i) =>
        if i >= |s.stack| then Exit(Fault) else Next(t.(value := s.stack[i]))
      case CallBuiltin(sym, argc) =>
        if argc > |s.stack| then Exit(Fault)
        else Next(t.(value := vm.prims(sym, s.stack[..argc])))
      case IfTrue(a, b) => Next(t.(pc := (if Truthy(s.value) then a else b) + t.pc))
      case IfFalse(a, b) => Next(t.(pc := (if Truthy(s.value) then b else a) + t.pc))
      case Goto(l) =>
        (match Resolve(vm.prog, l)
         case None => Exit(Fault)
         case Some(pc) => Next(t.(pc := pc)))
      case PushCont(l) =>
        (match Resolve(vm.prog, l)
         case None => Exit(Fault)
         case Some(pc) =>
           Next(t.(cont := [Cont(s.envt, s.template, pc, |s.stack|)] + s.cont)))
      case Apply =>
        if !s.value.Closure? then Exit(Fault)
        else Next(t.(template := s.value.code, envt := s.value.envt, pc := s.value.code))
      case LeaveProc =>
        if s.cont == [] then Exit(Fault)
        else
          var k := s.cont[0];
          Next(t.(envt := k.envt, template := k.template, pc := k.pc, cont := s.cont[1..]))
      case Label(_) => Next(t)
      case BlankLn => Next(t)
      case Nop => Next(t)
  }

  /** n instructions. */
  function Steps(vm: Vm, s: State, n: nat): Result
    decreases n
  {
    if n == 0 then Next(s)
    else
      match Step(vm, s)
      case Next(t) => Steps(vm, t, n - 1)
      case Exit(why) => Exit(why)
  }

  ghost predicate Runs(vm: Vm, s: State, t: State) {
    exists n: nat :: Steps(vm, s, n) == Next(t)
  }

  lemma {:induction false} StepsAdd(vm: Vm, s: State, m: nat, n: nat)
    requires Steps(vm, s, m).Next?
    ensures Steps(vm, s, m + n) == Steps(vm, Steps(vm, s, m).state, n)
    decreases m
  {
    if m > 0 {
      StepsAdd(vm, Step(vm, s).state, m - 1, n);
    }
  }

  lemma RunsTrans(vm: Vm, s: State, t: State, u: State)
    requires Runs(vm, s, t) && Runs(vm, t, u)
    ensures Runs(vm, s, u)
  {
    var m: nat :| Steps(vm, s, m) == Next(t);
    var n: nat :| Steps(vm, t, n) == Next(u);
    StepsAdd(vm, s, m, n);
  }

  lemma RunsRefl(vm: Vm, s: State)
    ensures Runs(vm, s, s)
  {
    assert Steps(vm, s, 0) == Next(s);
  }

  lemma RunsStep(vm: Vm, s: State, t: State, u: State)
    requires Step(vm, s) == Next(t) && Runs(vm, t, u)
    ensures Runs(vm, s, u)
  {
    var n: nat :| Steps(vm, t, n) == Next(u);
    assert Steps(vm, s, n + 1) == Next(u);
  }

  // ---- The stack -----------------------------------------------------------------------------

  /** No run writes outside the stack, and it ends by the overflow exit only where the stack is full. */
  lemma {:induction false} StackBounded(vm: Vm, s: State, n: nat)
    requires |s.stack| <= vm.capacity
    ensures Steps(vm, s, n).Next? ==> |Steps(vm, s, n).state.stack| <= vm.capacity
    ensures Steps(vm, s, n) == Exit(StackOverflow) ==>
      exists m: nat :: m < n && Steps(vm, s, m).Next? && |Steps(vm, s, m).state.stack| == vm.capacity
    decreases n
  {
    if n > 0 && Step(vm, s).Next? {
      var t := Step(vm, s).state;
      assert |t.stack| <= vm.capacity;
      hide Step;
      StackBounded(vm, t, n - 1);
      if Steps(vm, t, n - 1) == Exit(StackOverflow) {
        var m: nat :| m < n - 1 && Steps(vm, t, m).Next? && |Steps(vm, t, m).state.stack| == vm.capacity;
        assert Steps(vm, s, m + 1) == Steps(vm, t, m);
      }
    } else if n > 0 {
      assert Steps(vm, s, 0) == Next(s);
    }
  }
}
