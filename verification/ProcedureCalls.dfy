/** What calls do, over runs of compiled code: how a call reaches the code of its procedure, what a
    procedure is made of, how its parameters get the operands, and what it leaves behind when it returns. */
module ProcedureCalls {
  import opened Options
  import opened Exptype
  import opened Svm
  import opened Compiler
  import opened LabelPlaces
  import opened Semantics
  import opened CompilerCorrect

  /** A call of something that is no builtin, with parts that call no procedures themselves. */
  predicate SimpleCall(e: Expr) {
    e.ProcCall? && !IsBuiltin(e.func) && CallFree(e.func) && AllCallFree(e.operands)
  }

  /** The operator is evaluated behind the operands, with these on the stack. */
  function CallNeed(e: Expr): nat
    requires SimpleCall(e)
  {
    Max(NeedOperands(e.operands), |e.operands| + Need(e.func))
  }

  /** The operand values and the configuration, whose value is the operator's. */
  function CallParts(prims: Prims, e: Expr, c: Config): (seq<Value>, Config)
    requires SimpleCall(e)
  {
    var (args, c1) := EvalOperands(prims, e.operands, c);
    (args, Eval(prims, e.func, c1))
  }

  /** The machine at the start of procedure f, called from s: its code, its environment, its template,
      the operands on the stack. */
  function Entry(s: State, f: Value, vars: Vars, args: seq<Value>, chain: seq<Cont>): State
    requires f.Closure?
  {
    State(f.code, f, f.envt, s.envs[s.envt := vars], f.code, args + s.stack, chain)
  }

  lemma SimpleCallSupported(e: Expr)
    requires SimpleCall(e)
    ensures e.ProcCall? && Supported(e) && Supported(e.func) && AllSupported(e.operands)
  {
    CallFreeSupported(e.func);
    AllCallFreeSupported(e.operands);
  }

  /** The compiled call up to what surrounds it. */
  lemma CallForm(tail: bool, e: Expr, k: nat)
    requires SimpleCall(e) && Supported(e)
    ensures var k0 := if tail then k else k + 1;
            var (k1, codes) := CompileSeq(false, e.operands, k0);
            var core := PushAll(codes) + CompileExpr(false, e.func, k1).1 + [Apply];
            CompileExpr(tail, e, k).1 ==
            if tail then core + [BlankLn] else [PushCont(LabelName(k))] + (core + [Label(LabelName(k)), BlankLn])
  {
    hide CompileSeq, PushAll, CallFree, AllCallFree, AllSupported, LabelName;
    var k0 := if tail then k else k + 1;
    var (k1, codes) := CompileSeq(false, e.operands, k0);
    var operator := CompileExpr(false, e.func, k1).1;
    var core := PushAll(codes) + operator + [Apply];
    if tail {
      assert [] + PushAll(codes) + operator + [Apply] + [] + [BlankLn] == core + [BlankLn];
    } else {
      var l := LabelName(k);
      assert [PushCont(l)] + PushAll(codes) + operator + [Apply] + [Label(l)] + [BlankLn] ==
        [PushCont(l)] + (core + [Label(l), BlankLn]);
    }
  }

  /** Operands, operator, and the jump into the procedure. */
  lemma CoreRuns(vm: Vm, s: State, e: Expr, k: nat, rest: seq<Code>, c: Config)
    requires SimpleCall(e) && Supported(e) && Room(vm, s, CallNeed(e))
    requires var (k1, codes) := CompileSeq(false, e.operands, k);
             Located(vm.prog, PushAll(codes) + CompileExpr(false, e.func, k1).1 + [Apply], rest)
    requires CallParts(vm.prims, e, c).1.value.Closure?
    ensures var (k1, codes) := CompileSeq(false, e.operands, k);
            var core := PushAll(codes) + CompileExpr(false, e.func, k1).1 + [Apply];
            var (args, c2) := CallParts(vm.prims, e, c);
            Runs(vm, Load(s, core + rest, c), Entry(s, c2.value, c2.vars, args, s.cont))
  {
    hide CompileExpr, CompileSeq, PushAll, Runs, Located, Eval, EvalOperands, NeedOperands, Need;
    var (k1, codes) := CompileSeq(false, e.operands, k);
    var (push, operator) := (PushAll(codes), CompileExpr(false, e.func, k1).1);
    LocatedConcat(vm.prog, push + operator, [Apply], rest);
    LocatedConcat(vm.prog, push, operator, [Apply] + rest);
    var (args, c1) := EvalOperands(vm.prims, e.operands, c);
    var c2 := Eval(vm.prims, e.func, c1);
    var p := Pushed(s, args);
    OperandsCorrect(vm, s, e.operands, k, operator + ([Apply] + rest), c);
    ExprCorrect(vm, p, false, e.func, k1, [Apply] + rest, c1);
    RunsApply(vm, s, args, rest, c2);
    assert push + operator + [Apply] + rest == push + (operator + ([Apply] + rest));
    RunsTrans(vm, Load(s, push + (operator + ([Apply] + rest)), c), Load(p, operator + ([Apply] + rest), c1),
              Load(p, [Apply] + rest, c2));
    RunsTrans(vm, Load(s, push + (operator + ([Apply] + rest)), c), Load(p, [Apply] + rest, c2),
              Entry(s, c2.value, c2.vars, args, s.cont));
  }

  lemma RunsApply(vm: Vm, s: State, args: seq<Value>, rest: seq<Code>, c: Config)
    requires c.value.Closure?
    ensures Runs(vm, Load(Pushed(s, args), [Apply] + rest, c), Entry(s, c.value, c.vars, args, s.cont))
  {
    var t := Entry(s, c.value, c.vars, args, s.cont);
    RunsRefl(vm, t);
    RunsStep(vm, Load(Pushed(s, args), [Apply] + rest, c), t, t);
  }

  /** A call reaches the start of its procedure: in the environment the procedure was made in, the
      operands on the stack, the first on top. The chain is as it was in tail position, and otherwise
      one frame longer: the caller's environment, template and stack height, to resume behind the call. */
  lemma CallReaches(vm: Vm, s: State, tail: bool, e: Expr, k: nat, rest: seq<Code>, c: Config)
    requires SimpleCall(e) && Supported(e) && Located(vm.prog, CompileExpr(tail, e, k).1, rest)
    requires Room(vm, s, CallNeed(e)) && CallParts(vm.prims, e, c).1.value.Closure?
    ensures var (args, c2) := CallParts(vm.prims, e, c);
            var frame := Cont(s.envt, s.template, [BlankLn] + rest, |s.stack|);
            Runs(vm, Load(s, CompileExpr(tail, e, k).1 + rest, c),
                 Entry(s, c2.value, c2.vars, args, if tail then s.cont else [frame] + s.cont))
  {
    if tail {
      TailCallReaches(vm, s, e, k, rest, c);
    } else {
      FrameCallReaches(vm, s, e, k, rest, c);
    }
  }

  lemma TailCallReaches(vm: Vm, s: State, e: Expr, k: nat, rest: seq<Code>, c: Config)
    requires SimpleCall(e) && Supported(e) && Located(vm.prog, CompileExpr(true, e, k).1, rest)
    requires Room(vm, s, CallNeed(e)) && CallParts(vm.prims, e, c).1.value.Closure?
    ensures var (args, c2) := CallParts(vm.prims, e, c);
            Runs(vm, Load(s, CompileExpr(true, e, k).1 + rest, c), Entry(s, c2.value, c2.vars, args, s.cont))
  {
    hide *;
    SimpleCallSupported(e);
    CallForm(true, e, k);
    var (k1, codes) := CompileSeq(false, e.operands, k);
    var core := PushAll(codes) + CompileExpr(false, e.func, k1).1 + [Apply];
    LocatedConcat(vm.prog, core, [BlankLn], rest);
    CoreRuns(vm, s, e, k, [BlankLn] + rest, c);
    assert core + [BlankLn] + rest == core + ([BlankLn] + rest);
  }

  /** The core of a call stands between the push of its continuation and its own label. */
  lemma FrameParts(prog: seq<Code>, e: Expr, k: nat, rest: seq<Code>)
    requires SimpleCall(e) && Supported(e) && Located(prog, CompileExpr(false, e, k).1, rest)
    ensures var (k1, codes) := CompileSeq(false, e.operands, k + 1);
            var core := PushAll(codes) + CompileExpr(false, e.func, k1).1 + [Apply];
            var after := [Label(LabelName(k)), BlankLn] + rest;
            CompileExpr(false, e, k).1 + rest == [PushCont(LabelName(k))] + (core + after) &&
            Located(prog, core, after) && Resolve(prog, LabelName(k)) == Some([BlankLn] + rest)
  {
    hide *;
    SimpleCallSupported(e);
    CallForm(false, e, k);
    var (k1, codes) := CompileSeq(false, e.operands, k + 1);
    var core := PushAll(codes) + CompileExpr(false, e.func, k1).1 + [Apply];
    var l := LabelName(k);
    var end := [Label(l), BlankLn];
    LocatedConcat(prog, [PushCont(l)], core + end, rest);
    LocatedConcat(prog, core, end, rest);
    AfterCall(prog, l, rest);
    assert [PushCont(l)] + (core + end) + rest == [PushCont(l)] + (core + (end + rest));
  }

  lemma FrameCallReaches(vm: Vm, s: State, e: Expr, k: nat, rest: seq<Code>, c: Config)
    requires SimpleCall(e) && Supported(e) && Located(vm.prog, CompileExpr(false, e, k).1, rest)
    requires Room(vm, s, CallNeed(e)) && CallParts(vm.prims, e, c).1.value.Closure?
    ensures var (args, c2) := CallParts(vm.prims, e, c);
            var frame := Cont(s.envt, s.template, [BlankLn] + rest, |s.stack|);
            Runs(vm, Load(s, CompileExpr(false, e, k).1 + rest, c),
                 Entry(s, c2.value, c2.vars, args, [frame] + s.cont))
  {
    hide *;
    SimpleCallSupported(e);
    FrameParts(vm.prog, e, k, rest);
    var s1 := s.(cont := [Cont(s.envt, s.template, [BlankLn] + rest, |s.stack|)] + s.cont);
    var (k1, codes) := CompileSeq(false, e.operands, k + 1);
    var core := PushAll(codes) + CompileExpr(false, e.func, k1).1 + [Apply];
    var (args, c2) := CallParts(vm.prims, e, c);
    var after := [Label(LabelName(k)), BlankLn] + rest;
    SameRoomFor(vm, s, s1, CallNeed(e));
    CoreRuns(vm, s1, e, k + 1, after, c);
    EntryFrom(s, s1, c2.value, c2.vars, args, s1.cont);
    RunsPushCont(vm, s, LabelName(k), core + after, rest, c, Entry(s, c2.value, c2.vars, args, s1.cont));
  }

  lemma EntryFrom(s: State, s1: State, f: Value, vars: Vars, args: seq<Value>, chain: seq<Cont>)
    requires f.Closure? && s1 == s.(cont := s1.cont)
    ensures Entry(s1, f, vars, args, chain) == Entry(s, f, vars, args, chain)
  {
  }

  lemma SameRoomFor(vm: Vm, s: State, s1: State, need: nat)
    requires Room(vm, s, need) && s1.stack == s.stack
    ensures Room(vm, s1, need)
  {
  }

  lemma AfterCall(prog: seq<Code>, l: string, rest: seq<Code>)
    requires Located(prog, [Label(l), BlankLn], rest)
    ensures Resolve(prog, l) == Some([BlankLn] + rest)
  {
    assert [Label(l), BlankLn][1..] + rest == [BlankLn] + rest;
  }

  lemma RunsPushCont(vm: Vm, s: State, l: string, code: seq<Code>, rest: seq<Code>, c: Config, t: State)
    requires Resolve(vm.prog, l) == Some([BlankLn] + rest)
    requires Runs(vm, Load(s.(cont := [Cont(s.envt, s.template, [BlankLn] + rest, |s.stack|)] + s.cont), code, c), t)
    ensures Runs(vm, Load(s, [PushCont(l)] + code, c), t)
  {
    var u := Load(s, [PushCont(l)] + code, c);
    assert u.pc[1..] == code;
    RunsStep(vm, u, Load(s.(cont := [Cont(s.envt, s.template, [BlankLn] + rest, |s.stack|)] + s.cont), code, c), t);
  }

  // ---- What a procedure is made of -----------------------------------------------------------

  /** The code of a procedure: its parameters taken from the stack, its body in tail position, the return. */
  function ProcCode(params: seq<Sym>, exps: seq<Expr>, k: nat): seq<Code>
    requires AllSupported(exps)
  {
    ParameterHeader(params, 0) + Concat(CompileSeq(true, exps, k).1) + [LeaveProc]
  }

  predicate MakesProcedure(e: Expr) {
    e.Lambda? || e.Defun? || e.Defun2?
  }

  /** The procedure a lambda expression or a definition makes, in environment envt. */
  function Procedure(e: Expr, k: nat, envt: nat): Value
    requires MakesProcedure(e) && Supported(e)
  {
    match e
    case Lambda(formals, body) => Closure(envt, Nil, formals, ProcCode([], body.exps, k))
    case Defun(name, params, body) => Closure(envt, name, Args(params), ProcCode(params, body.exps, k))
    case Defun2(name, params, restParam, body) =>
      Closure(envt, name, Args2(params, restParam), ProcCode([], body.exps, k))
  }

  lemma ProcedureForm(tail: bool, e: Expr, k: nat, envt: nat)
    requires MakesProcedure(e) && Supported(e)
    ensures var f := Procedure(e, k, envt);
            CompileExpr(tail, e, k).1 ==
            [MakeClosure(f.name, f.formals, f.code)] + if e.Lambda? then [] else [NewBind(e.name), Nop]
  {
    var codes := CompileSeq(true, e.body.exps, k).1;
    assert [] + Concat(codes) + [LeaveProc] == Concat(codes) + [LeaveProc];
  }

  /** Procedures keep the environment in force where they are made; a definition binds the name to it. */
  lemma ProcedureMade(vm: Vm, s: State, tail: bool, e: Expr, k: nat, rest: seq<Code>, c: Config)
    requires MakesProcedure(e) && Supported(e) && Located(vm.prog, CompileExpr(tail, e, k).1, rest)
    ensures var f := Procedure(e, k, s.envt);
            Located(vm.prog, f.code, []) &&
            Runs(vm, Load(s, CompileExpr(tail, e, k).1 + rest, c),
                 Load(s, rest, Config(f, if e.Lambda? then c.vars else c.vars[e.name := f])))
  {
    hide CompileExpr, CompileSeq, ProcCode, Runs;
    ProcedureForm(tail, e, k, s.envt);
    var f := Procedure(e, k, s.envt);
    var make := MakeClosure(f.name, f.formals, f.code);
    var c1 := c.(value := f);
    if e.Lambda? {
      assert [make] + [] == [make];
      ComputesMake(vm, s, make, rest, c, f);
      RunsComputes(vm, s, [make], rest, c, c1);
    } else {
      var bind := [NewBind(e.name), Nop];
      ComputesMake(vm, s, make, bind + rest, c, f);
      ComputesBind(vm, s, bind[0], rest, c1, e.name);
      ComputesThen(vm, s, [make], bind, rest, c, c1, c1.(vars := c1.vars[e.name := f]));
      RunsComputes(vm, s, [make] + bind, rest, c, c1.(vars := c1.vars[e.name := f]));
    }
  }

  lemma ComputesMake(vm: Vm, s: State, make: Code, rest: seq<Code>, c: Config, f: Value)
    requires make.MakeClosure? && f == Closure(s.envt, make.name, make.formals, make.body)
    ensures Computes(vm, s, [make], rest, c, c.(value := f))
  {
    ComputesOne(vm, s, make, rest, c, c.(value := f));
  }

  // ---- Parameters ----------------------------------------------------------------------------

  /** Every parameter has its value, of two of the same name the later one; other variables are as before. */
  ghost predicate ParametersAre(vars: Vars, vars': Vars, params: seq<Sym>, vals: seq<Value>) {
    |vals| == |params| &&
    (forall j | 0 <= j < |params| && params[j] !in params[j + 1..] :: Lookup(vars', params[j]) == vals[j]) &&
    (forall x | x !in params :: Lookup(vars', x) == Lookup(vars, x)) &&
    forall x :: x in vars' <==> x in vars || x in params
  }

  /** The header leaves parameter j with the value of stack slot i + j. */
  lemma {:induction false} HeaderRuns(vm: Vm, s: State, params: seq<Sym>, i: nat, rest: seq<Code>, c: Config)
      returns (c': Config)
    requires i + |params| <= |s.stack|
    ensures Runs(vm, Load(s, ParameterHeader(params, i) + rest, c), Load(s, rest, c'))
    ensures ParametersAre(c.vars, c'.vars, params, s.stack[i..i + |params|])
    ensures c'.value == if params == [] then c.value else s.stack[i + |params| - 1]
  {
    hide *;
    HeaderForm(params, i, rest);
    if params == [] {
      c' := c;
      RunsRefl(vm, Load(s, rest, c));
      NoParameters(c.vars, s.stack[i..i]);
    } else {
      var v := s.stack[i];
      var more := ParameterHeader(params[1..], i + 1) + rest;
      var c1 := Config(v, c.vars[params[0] := v]);
      TakesParameter(vm, s, params[0], i, more, c);
      c' := HeaderRuns(vm, s, params[1..], i + 1, rest, c1);
      RunsTrans(vm, Load(s, [AccStack(i), ReBind(params[0])] + more, c), Load(s, more, c1), Load(s, rest, c'));
      var vals := s.stack[i..i + |params|];
      assert vals[1..] == s.stack[i + 1..i + 1 + |params[1..]|];
      NextParameter(c.vars, v, c'.vars, params, vals);
    }
  }

  lemma HeaderForm(params: seq<Sym>, i: nat, rest: seq<Code>)
    ensures ParameterHeader(params, i) + rest ==
      if params == [] then rest
      else [AccStack(i), ReBind(params[0])] + (ParameterHeader(params[1..], i + 1) + rest)
  {
    if params == [] {
      assert ParameterHeader(params, i) + rest == rest;
    } else {
      assert [AccStack(i), ReBind(params[0])] + ParameterHeader(params[1..], i + 1) + rest ==
        [AccStack(i), ReBind(params[0])] + (ParameterHeader(params[1..], i + 1) + rest);
    }
  }

  lemma NoParameters(vars: Vars, vals: seq<Value>)
    requires vals == []
    ensures ParametersAre(vars, vars, [], vals)
  {
  }

  lemma TakesParameter(vm: Vm, s: State, x: Sym, i: nat, rest: seq<Code>, c: Config)
    requires i < |s.stack|
    ensures Runs(vm, Load(s, [AccStack(i), ReBind(x)] + rest, c),
                 Load(s, rest, Config(s.stack[i], c.vars[x := s.stack[i]])))
  {
    var c1 := c.(value := s.stack[i]);
    var c2 := c1.(vars := c1.vars[x := s.stack[i]]);
    ComputesOne(vm, s, AccStack(i), [ReBind(x)] + rest, c, c1);
    var t := Load(s, [ReBind(x)] + rest, c1);
    assert t.pc[1..] == rest && t.envs[t.envt := t.Bindings()[x := t.value]] == s.envs[s.envt := c2.vars];
    ComputesOne(vm, s, ReBind(x), rest, c1, c2);
    ComputesThen(vm, s, [AccStack(i)], [ReBind(x)], rest, c, c1, c2);
    assert [AccStack(i)] + [ReBind(x)] == [AccStack(i), ReBind(x)];
  }

  lemma NextParameter(vars: Vars, v: Value, vars': Vars, params: seq<Sym>, vals: seq<Value>)
    requires params != [] && |vals| == |params| && vals[0] == v
    requires ParametersAre(vars[params[0] := v], vars', params[1..], vals[1..])
    ensures ParametersAre(vars, vars', params, vals)
  {
    forall j | 0 <= j < |params| && params[j] !in params[j + 1..]
      ensures Lookup(vars', params[j]) == vals[j]
    {
      if j > 0 {
        assert params[1..][j - 1] == params[j] && params[1..][j..] == params[j + 1..];
      }
    }
    assert forall x :: x in params <==> x == params[0] || x in params[1..];
  }

  // ---- Procedures that return ----------------------------------------------------------------

  /** A procedure without calls of its own runs to the continuation on top of the chain: with the value of
      its body, evaluated where its parameters have the values on the stack, and with the caller's
      environment and template. The stack is as the caller left it. */
  lemma ProcedureRuns(vm: Vm, s: State, params: seq<Sym>, exps: seq<Expr>, k: nat) returns (c: Config)
    requires AllCallFree(exps) && AllSupported(exps) && s.pc == ProcCode(params, exps, k)
    requires Located(vm.prog, s.pc, []) && s.envt in s.envs && s.cont != []
    requires |params| <= |s.stack| && Room(vm, s, NeedSeq(exps))
    ensures ParametersAre(s.envs[s.envt], c.vars, params, s.stack[..|params|])
    ensures c.value == if params == [] then s.value else s.stack[|params| - 1]
    ensures var c1 := EvalSeq(vm.prims, exps, c);
            var frame := s.cont[0];
            Runs(vm, s, State(frame.pc, c1.value, frame.envt, s.envs[s.envt := c1.vars], frame.template,
                              s.stack, s.cont[1..]))
  {
    hide *;
    ProcedureParts(vm.prog, params, exps, k);
    var body := Concat(CompileSeq(true, exps, k).1);
    var header := ParameterHeader(params, 0);
    var c0 := Config(s.value, s.envs[s.envt]);
    Loaded(s);
    c := HeaderRuns(vm, s, params, 0, body + [LeaveProc], c0);
    SeqCorrect(vm, s, true, exps, k, [LeaveProc], c);
    var c1 := EvalSeq(vm.prims, exps, c);
    RunsComputes(vm, s, body, [LeaveProc], c, c1);
    RunsLeave(vm, s, c1);
    assert s.stack[0..0 + |params|] == s.stack[..|params|];
    RunsTrans(vm, s, Load(s, body + [LeaveProc], c), Load(s, [LeaveProc], c1));
    RunsTrans(vm, s, Load(s, [LeaveProc], c1), Returned(s, c1));
    ReturnedIs(s, c1);
  }

  lemma ProcedureParts(prog: seq<Code>, params: seq<Sym>, exps: seq<Expr>, k: nat)
    requires AllSupported(exps) && Located(prog, ProcCode(params, exps, k), [])
    ensures var body := Concat(CompileSeq(true, exps, k).1);
            ProcCode(params, exps, k) == ParameterHeader(params, 0) + (body + [LeaveProc]) &&
            Located(prog, body, [LeaveProc])
  {
    hide CompileSeq, Concat, ParameterHeader, Located;
    var (header, body) := (ParameterHeader(params, 0), Concat(CompileSeq(true, exps, k).1));
    assert header + body + [LeaveProc] == header + (body + [LeaveProc]);
    LocatedConcat(prog, header + body, [LeaveProc], []);
    LocatedConcat(prog, header, body, [LeaveProc] + []);
    assert [LeaveProc] + [] == [LeaveProc];
  }

  lemma Loaded(s: State)
    requires s.envt in s.envs
    ensures Load(s, s.pc, Config(s.value, s.envs[s.envt])) == s
  {
    assert s.envs[s.envt := s.envs[s.envt]] == s.envs;
  }

  lemma ReturnedIs(s: State, c: Config)
    requires s.cont != []
    ensures var frame := s.cont[0];
            Returned(s, c) == State(frame.pc, c.value, frame.envt, s.envs[s.envt := c.vars], frame.template,
                                    s.stack, s.cont[1..])
  {
  }

  /** Machine s when its procedure has returned. */
  function Returned(s: State, c: Config): State
    requires s.cont != []
  {
    var frame := s.cont[0];
    State(frame.pc, c.value, frame.envt, s.envs[s.envt := c.vars], frame.template, s.stack, s.cont[1..])
  }

  lemma RunsLeave(vm: Vm, s: State, c: Config)
    requires s.cont != []
    ensures Runs(vm, Load(s, [LeaveProc], c), Returned(s, c))
  {
    RunsRefl(vm, Returned(s, c));
    RunsStep(vm, Load(s, [LeaveProc], c), Returned(s, c), Returned(s, c));
  }

  /** A whole call, not in tail position, of a procedure without calls of its own: the value of the body,
      evaluated in the procedure's environment with its parameters bound to the operands, and the effects
      of both. Caller's environment, template and chain are as before; the operands stay on the stack. */
  lemma CallReturns(vm: Vm, s: State, e: Expr, k: nat, rest: seq<Code>, c: Config,
                    params: seq<Sym>, exps: seq<Expr>, kf: nat) returns (entry: Config)
    requires SimpleCall(e) && Supported(e) && Located(vm.prog, CompileExpr(false, e, k).1, rest)
    requires Room(vm, s, CallNeed(e)) && AllCallFree(exps) && AllSupported(exps)
    requires var f := CallParts(vm.prims, e, c).1.value;
             f.Closure? && f.code == ProcCode(params, exps, kf) && Located(vm.prog, f.code, []) &&
             (f.envt in s.envs || f.envt == s.envt)
    requires |params| <= |e.operands| + |s.stack| && Room(vm, s, |e.operands| + NeedSeq(exps))
    ensures var (args, c2) := CallParts(vm.prims, e, c);
            var envs := s.envs[s.envt := c2.vars];
            ParametersAre(envs[c2.value.envt], entry.vars, params, (args + s.stack)[..|params|])
    ensures entry.value ==
      if params == [] then CallParts(vm.prims, e, c).1.value
      else (CallParts(vm.prims, e, c).0 + s.stack)[|params| - 1]
    ensures var (args, c2) := CallParts(vm.prims, e, c);
            var c3 := EvalSeq(vm.prims, exps, entry);
            Runs(vm, Load(s, CompileExpr(false, e, k).1 + rest, c),
                 State(rest, c3.value, s.envt, s.envs[s.envt := c2.vars][c2.value.envt := c3.vars],
                       s.template, args + s.stack, s.cont))
  {
    hide CompileExpr, EvalSeq, Runs, Located, ParametersAre, ProcCode, NeedSeq, CallParts, CallNeed, Eval;
    CallReaches(vm, s, false, e, k, rest, c);
    var (args, c2) := CallParts(vm.prims, e, c);
    ArgumentCount(vm.prims, e, c);
    var frame := Cont(s.envt, s.template, [BlankLn] + rest, |s.stack|);
    var t := Entry(s, c2.value, c2.vars, args, [frame] + s.cont);
    entry := ProcedureRuns(vm, t, params, exps, kf);
    var c3 := EvalSeq(vm.prims, exps, entry);
    var done := State(rest, c3.value, s.envt, t.envs[t.envt := c3.vars], s.template, t.stack, s.cont);
    BehindCall(vm, done.(pc := [BlankLn] + rest));
    RunsTrans(vm, t, done.(pc := [BlankLn] + rest), done);
    RunsTrans(vm, Load(s, CompileExpr(false, e, k).1 + rest, c), t, done);
  }

  lemma ArgumentCount(prims: Prims, e: Expr, c: Config)
    requires SimpleCall(e)
    ensures e.ProcCall? && |CallParts(prims, e, c).0| == |e.operands|
  {
  }

  lemma BehindCall(vm: Vm, s: State)
    requires s.pc != [] && s.pc[0] == BlankLn
    ensures Runs(vm, s, s.(pc := s.pc[1..]))
  {
    RunsRefl(vm, s.(pc := s.pc[1..]));
    RunsStep(vm, s, s.(pc := s.pc[1..]), s.(pc := s.pc[1..]));
  }

  // ---- Operands that stay --------------------------------------------------------------------

  /** A builtin g of two operands whose first is such a call: it sees the call's value and, on the stack
      below it, the first operand of that call in place of its own second one. So it gets its operands
      exactly when the call has none, or has that value first by chance. */
  lemma NestedOperand(vm: Vm, s: State, tail: bool, g: Sym, b: Expr, e: Expr, k: nat, rest: seq<Code>, c: Config,
                      params: seq<Sym>, exps: seq<Expr>, kf: nat) returns (entry: Config)
    requires IsBuiltin(Variable(g)) && CallFree(b) && Supported(b) && SimpleCall(e) && Supported(e)
    requires Supported(ProcCall(Variable(g), [b, e])) && AllCallFree(exps) && AllSupported(exps)
    requires Located(vm.prog, CompileExpr(tail, ProcCall(Variable(g), [b, e]), k).1, rest)
    requires Room(vm, s, Need(b)) && Room(vm, s, 2 + |e.operands| + CallNeed(e) + NeedSeq(exps))
    requires var f := CallParts(vm.prims, e, Eval(vm.prims, b, c)).1.value;
             f.Closure? && f.code == ProcCode(params, exps, kf) && Located(vm.prog, f.code, []) &&
             (f.envt in s.envs || f.envt == s.envt)
    requires |params| <= |e.operands|
    ensures var cb := Eval(vm.prims, b, c);
            var (args, c2) := CallParts(vm.prims, e, cb);
            var c3 := EvalSeq(vm.prims, exps, entry);
            var left := args + [cb.value];
            ParametersAre(s.envs[s.envt := c2.vars][c2.value.envt], entry.vars, params, args[..|params|]) &&
            Runs(vm, Load(s, CompileExpr(tail, ProcCall(Variable(g), [b, e]), k).1 + rest, c),
                 State(rest, vm.prims(g, [c3.value, left[0]]), s.envt,
                       s.envs[s.envt := c2.vars][c2.value.envt := c3.vars], s.template, left[1..] + s.stack, s.cont))
  {
    hide *;
    SimpleCallSupported(e);
    var k0 := if tail then k else k + 1;
    var (k1, code) := CompileExpr(false, b, k0);
    var inner := CompileExpr(false, e, k1).1;
    var last := [Push, BlankLn] + ([CallBuiltin(g, 2), MoveSp(2), BlankLn] + rest);
    NestedParts(vm.prog, tail, g, b, e, k, rest);
    var cb := Eval(vm.prims, b, c);
    var s1 := Pushed(s, [cb.value]);
    NestedRoom(vm, s, s1, cb.value, b, e, exps);
    ExprCorrect(vm, s, false, b, k0, [Push, BlankLn] + (inner + last), c);
    RunsComputes(vm, s, code, [Push, BlankLn] + (inner + last), c, cb);
    RunsPush(vm, s, inner + last, cb);
    entry := CallReturns(vm, s1, e, k1, last, cb, params, exps, kf);
    var (args, c2) := CallParts(vm.prims, e, cb);
    ArgumentCount(vm.prims, e, cb);
    var c3 := EvalSeq(vm.prims, exps, entry);
    var left := args + [cb.value];
    assert args + s1.stack == left + s.stack;
    assert (left + s.stack)[..|params|] == args[..|params|];
    var envs := s.envs[s.envt := c2.vars][c2.value.envt := c3.vars];
    var t := State(last, c3.value, s.envt, envs, s.template, left + s.stack, s.cont);
    PushesAndCalls(vm, t, g, rest);
    assert (left + s.stack)[1..] == left[1..] + s.stack;
    var from := Load(s, code + ([Push, BlankLn] + (inner + last)), c);
    RunsTrans(vm, from, Load(s, [Push, BlankLn] + (inner + last), cb), Load(s1, inner + last, cb));
    RunsTrans(vm, from, Load(s1, inner + last, cb), t);
    RunsTrans(vm, from, t, State(rest, vm.prims(g, [c3.value, left[0]]), s.envt, envs, s.template,
                                 left[1..] + s.stack, s.cont));
  }

  lemma NestedParts(prog: seq<Code>, tail: bool, g: Sym, b: Expr, e: Expr, k: nat, rest: seq<Code>)
    requires IsBuiltin(Variable(g)) && Supported(b) && Supported(e) && Supported(ProcCall(Variable(g), [b, e]))
    requires Located(prog, CompileExpr(tail, ProcCall(Variable(g), [b, e]), k).1, rest)
    ensures var (k1, code) := CompileExpr(false, b, if tail then k else k + 1);
            var inner := CompileExpr(false, e, k1).1;
            var last := [Push, BlankLn] + ([CallBuiltin(g, 2), MoveSp(2), BlankLn] + rest);
            CompileExpr(tail, ProcCall(Variable(g), [b, e]), k).1 + rest ==
            code + ([Push, BlankLn] + (inner + last)) &&
            Located(prog, code, [Push, BlankLn] + (inner + last)) && Located(prog, inner, last)
  {
    hide *;
    var (k1, code) := CompileExpr(false, b, if tail then k else k + 1);
    var inner := CompileExpr(false, e, k1).1;
    NestedForm(tail, g, b, e, k);
    var (push, call) := ([Push, BlankLn], [CallBuiltin(g, 2), MoveSp(2), BlankLn]);
    LocatedConcat(prog, code, push + (inner + (push + call)), rest);
    LocatedConcat(prog, push, inner + (push + call), rest);
    LocatedConcat(prog, inner, push + call, rest);
    assert push + call + rest == push + (call + rest);
    assert inner + (push + call) + rest == inner + (push + (call + rest));
    assert push + (inner + (push + call)) + rest == push + (inner + (push + (call + rest)));
    assert code + (push + (inner + (push + call))) + rest == code + (push + (inner + (push + (call + rest))));
  }

  lemma NestedForm(tail: bool, g: Sym, b: Expr, e: Expr, k: nat)
    requires IsBuiltin(Variable(g)) && Supported(b) && Supported(e) && Supported(ProcCall(Variable(g), [b, e]))
    ensures var (k1, code) := CompileExpr(false, b, if tail then k else k + 1);
            var inner := CompileExpr(false, e, k1).1;
            var (push, call) := ([Push, BlankLn], [CallBuiltin(g, 2), MoveSp(2), BlankLn]);
            CompileExpr(tail, ProcCall(Variable(g), [b, e]), k).1 == code + (push + (inner + (push + call)))
  {
    hide CompileExpr, Supported, IsBuiltin;
    var k0 := if tail then k else k + 1;
    var (k1, code) := CompileExpr(false, b, k0);
    var inner := CompileExpr(false, e, k1).1;
    var (push, call) := ([Push, BlankLn], [CallBuiltin(g, 2), MoveSp(2), BlankLn]);
    TwoOperands(b, e, k0);
    BuiltinForm(tail, g, [b, e], k);
    TwoPushes(code, inner);
    assert code + push + (inner + push) + call == code + (push + (inner + (push + call)));
  }

  lemma TwoOperands(b: Expr, e: Expr, k: nat)
    requires Supported(b) && Supported(e)
    ensures AllSupported([b, e])
    ensures var (k1, code) := CompileExpr(false, b, k);
            CompileSeq(false, [b, e], k).1 == [code, CompileExpr(false, e, k1).1]
  {
    hide CompileExpr, Supported;
    assert [b, e][1..] == [e] && [e][1..] == [];
    var (k1, code) := CompileExpr(false, b, k);
    assert CompileSeq(false, [e], k1).1 == [CompileExpr(false, e, k1).1];
  }

  lemma TwoPushes(a: seq<Code>, b: seq<Code>)
    ensures PushAll([a, b]) == a + [Push, BlankLn] + (b + [Push, BlankLn])
  {
    assert [a, b][1..] == [b] && [b][1..] == [];
    assert PushAll([b]) == b + [Push, BlankLn] + [];
  }

  lemma BuiltinForm(tail: bool, g: Sym, operands: seq<Expr>, k: nat)
    requires IsBuiltin(Variable(g)) && AllSupported(operands) && Supported(ProcCall(Variable(g), operands))
    ensures CompileExpr(tail, ProcCall(Variable(g), operands), k).1 ==
      PushAll(CompileSeq(false, operands, if tail then k else k + 1).1) +
      [CallBuiltin(g, |operands|), MoveSp(|operands|), BlankLn]
  {
    hide CompileSeq, PushAll;
  }

  lemma NestedRoom(vm: Vm, s: State, s1: State, v: Value, b: Expr, e: Expr, exps: seq<Expr>)
    requires CallFree(b) && SimpleCall(e) && e.ProcCall? && AllCallFree(exps) && s1 == Pushed(s, [v])
    requires Room(vm, s, 2 + |e.operands| + CallNeed(e) + NeedSeq(exps))
    ensures Room(vm, s1, CallNeed(e)) && Room(vm, s1, |e.operands| + NeedSeq(exps))
    ensures |s.stack| < vm.capacity && |s.stack| + 1 + |e.operands| < vm.capacity
    ensures s1.stack == [v] + s.stack && s1.envs == s.envs && s1.envt == s.envt
    ensures s1.template == s.template && s1.cont == s.cont
  {
    hide CallNeed, NeedSeq;
  }

  /** A value is pushed, and a builtin called on it and what is below. */
  lemma PushesAndCalls(vm: Vm, t: State, g: Sym, rest: seq<Code>)
    requires t.pc == [Push, BlankLn] + ([CallBuiltin(g, 2), MoveSp(2), BlankLn] + rest)
    requires 0 < |t.stack| < vm.capacity
    ensures Runs(vm, t, t.(pc := rest, value := vm.prims(g, [t.value, t.stack[0]]), stack := t.stack[1..]))
  {
    hide Step, Runs;
    var code := [CallBuiltin(g, 2), MoveSp(2), BlankLn] + rest;
    var u := t.(pc := code, stack := [t.value] + t.stack);
    PushStep(vm, t, code);
    var w := u.(pc := [MoveSp(2), BlankLn] + rest, value := vm.prims(g, [t.value, t.stack[0]]));
    CallStep(vm, u, g, w.pc);
    assert u.stack[..2] == [t.value, t.stack[0]] && code == [CallBuiltin(g, 2)] + w.pc;
    var x := w.(pc := rest, stack := t.stack[1..]);
    MoveStep(vm, w, rest);
    assert w.stack[2..] == t.stack[1..] && w.pc == [MoveSp(2)] + ([BlankLn] + rest);
    RunsTrans(vm, t, u, w);
    RunsTrans(vm, t, w, x);
  }

  lemma PushStep(vm: Vm, t: State, code: seq<Code>)
    requires t.pc == [Push, BlankLn] + code && |t.stack| < vm.capacity
    ensures Runs(vm, t, t.(pc := code, stack := [t.value] + t.stack))
  {
    var u := t.(pc := [BlankLn] + code, stack := [t.value] + t.stack);
    assert t.pc[1..] == u.pc && u.pc[1..] == code;
    BehindCall(vm, u);
    hide Runs;
    RunsStep(vm, t, u, u.(pc := code));
  }

  lemma CallStep(vm: Vm, t: State, g: Sym, rest: seq<Code>)
    requires t.pc == [CallBuiltin(g, 2)] + rest && 2 <= |t.stack|
    ensures Runs(vm, t, t.(pc := rest, value := vm.prims(g, t.stack[..2])))
  {
    var u := t.(pc := rest, value := vm.prims(g, t.stack[..2]));
    assert t.pc[1..] == rest;
    RunsRefl(vm, u);
    hide Runs;
    RunsStep(vm, t, u, u);
  }

  lemma MoveStep(vm: Vm, t: State, rest: seq<Code>)
    requires t.pc == [MoveSp(2)] + ([BlankLn] + rest) && 2 <= |t.stack|
    ensures Runs(vm, t, t.(pc := rest, stack := t.stack[2..]))
  {
    var u := t.(pc := [BlankLn] + rest, stack := t.stack[2..]);
    assert t.pc[1..] == u.pc && u.pc[1..] == rest;
    BehindCall(vm, u);
    hide Runs;
    RunsStep(vm, t, u, u.(pc := rest));
  }
}
