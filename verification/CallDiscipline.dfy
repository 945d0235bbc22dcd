/** Runs of compiled programs with procedure calls: a non-tail call that returns comes back to its
    own label with the registers of the caller, and tail calls do not grow the continuation chain. */
module CallDiscipline {
  import opened Options
  import opened Exptype
  import opened Svm
  import opened Compiler
  import opened CompilerLabels
  import opened LabelPlaces
  import opened CallTyping

  /** A body of the program that a closure may hold. */
  ghost predicate BodyOk(prog: seq<Code>, code: seq<Code>) {
    Typed(code, []) && Located(prog, code, [])
  }

  ghost predicate ValueOk(prog: seq<Code>, v: Value) {
    v.Closure? ==> BodyOk(prog, v.code)
  }

  ghost predicate ValuesOk(prog: seq<Code>, vs: seq<Value>) {
    forall i | 0 <= i < |vs| :: ValueOk(prog, vs[i])
  }

  ghost predicate EnvsOk(prog: seq<Code>, envs: map<nat, Vars>) {
    forall e, x | e in envs && x in envs[e] :: ValueOk(prog, envs[e][x])
  }

  /** Builtins hand back closures only if they were given closures of the program. */
  ghost predicate PrimsOk(vm: Vm) {
    forall f, args :: ValuesOk(vm.prog, args) ==> ValueOk(vm.prog, vm.prims(f, args))
  }

  /** The chain below an activation. The last activation is the code that started the program.
      acts[0] are the labels the running procedure has pushed and acts[i] those that the i-th caller
      has pushed and will still find when its call returns. All frames of one activation save the
      same environment and template. */
  ghost predicate ChainOk(prog: seq<Code>, acts: seq<seq<string>>, cont: seq<Cont>, envt: nat, template: seq<Code>)
    decreases cont
  {
    acts != [] &&
    if acts[0] != [] then
      |acts| > 1 && cont != [] && cont[0].envt == envt && cont[0].template == template &&
      Resolve(prog, acts[0][0]) == Some(cont[0].pc) &&
      Typed(cont[0].pc, acts[0][1..]) && Located(prog, cont[0].pc, []) &&
      ChainOk(prog, [acts[0][1..]] + acts[1..], cont[1..], envt, template)
    else if |acts| == 1 then cont == []
    else
      cont != [] && Typed(cont[0].pc, acts[1]) && Located(prog, cont[0].pc, []) &&
      (|acts| == 2 ==> cont[0].pc == []) &&
      ChainOk(prog, acts[1..], cont[1..], cont[0].envt, cont[0].template)
  }

  ghost predicate StateOk(prog: seq<Code>, s: State, acts: seq<seq<string>>) {
    ChainOk(prog, acts, s.cont, s.envt, s.template) &&
    Typed(s.pc, acts[0]) && Located(prog, s.pc, []) && (|acts| == 1 ==> s.pc == []) &&
    ValueOk(prog, s.value) && ValuesOk(prog, s.stack) && EnvsOk(prog, s.envs)
  }

  /** The activations after the next instruction. */
  ghost function Track(s: State, acts: seq<seq<string>>): seq<seq<string>>
    requires s.pc != [] && acts != []
  {
    match s.pc[0]
    case PushCont(l) => [[l] + acts[0]] + acts[1..]
    case Apply =>
      if IsTailCall(s.pc) || acts[0] == [] then [[]] + acts[1..] else [[], acts[0][1..]] + acts[1..]
    case LeaveProc => acts[1..]
    case _ => acts
  }

  lemma LocatedTail(prog: seq<Code>, pc: seq<Code>)
    requires pc != [] && Located(prog, pc, [])
    ensures Located(prog, pc[1..], []) && LocatedIn(prog, pc[0], pc[1..])
  {
    assert pc[1..] + [] == pc[1..];
  }

  lemma LocatedBlock(prog: seq<Code>, pc: seq<Code>, a: seq<Code>, b: seq<Code>)
    requires pc != [] && Located(prog, pc, []) && (pc[0] == IfTrue(a, b) || pc[0] == IfFalse(a, b))
    ensures Located(prog, a + pc[1..], []) && Located(prog, b + pc[1..], [])
  {
    LocatedTail(prog, pc);
    assert pc[1..] + [] == pc[1..];
    LocatedConcat(prog, a, pc[1..], []);
    LocatedConcat(prog, b, pc[1..], []);
  }

  lemma StepPushCont(vm: Vm, s: State, acts: seq<seq<string>>)
    requires StateOk(vm.prog, s, acts) && s.pc != [] && s.pc[0].PushCont?
    requires Step(vm, s).Next?
    ensures StateOk(vm.prog, Step(vm, s).state, Track(s, acts))
  {
    var l := s.pc[0].target;
    var t := Step(vm, s).state;
    var acts' := Track(s, acts);
    LocatedTail(vm.prog, s.pc);
    AfterResolve(vm.prog, s.pc[1..], l);
    assert acts'[0][1..] == acts[0] && [acts'[0][1..]] + acts'[1..] == acts && t.cont[1..] == s.cont;
  }

  lemma StepApply(vm: Vm, s: State, acts: seq<seq<string>>)
    requires StateOk(vm.prog, s, acts) && s.pc != [] && s.pc[0].Apply?
    requires Step(vm, s).Next?
    ensures StateOk(vm.prog, Step(vm, s).state, Track(s, acts))
    ensures IsTailCall(s.pc) <==> acts[0] == []
  {
    var t := Step(vm, s).state;
    var acts' := Track(s, acts);
    if IsTailCall(s.pc) {
      assert acts' == acts;
    } else {
      assert acts'[1..] == [acts[0][1..]] + acts[1..];
    }
  }

  lemma StepLeave(vm: Vm, s: State, acts: seq<seq<string>>)
    requires StateOk(vm.prog, s, acts) && s.pc != [] && s.pc[0].LeaveProc?
    requires Step(vm, s).Next?
    ensures StateOk(vm.prog, Step(vm, s).state, Track(s, acts))
    ensures acts[0] == [] && |acts| > 1
  {
  }

  /** Instructions that leave the chain and the jump structure alone. */
  ghost predicate Local(c: Code) {
    !c.PushCont? && !c.Apply? && !c.LeaveProc? && !c.Goto? && !c.IfTrue? && !c.IfFalse?
  }

  lemma StepLocal(vm: Vm, s: State, acts: seq<seq<string>>)
    requires PrimsOk(vm) && StateOk(vm.prog, s, acts) && s.pc != [] && Local(s.pc[0])
    requires Step(vm, s).Next?
    ensures StateOk(vm.prog, Step(vm, s).state, Track(s, acts))
  {
    LocatedTail(vm.prog, s.pc);
    match s.pc[0] {
      case CallBuiltin(_, n) =>
        assert ValuesOk(vm.prog, s.stack[..n]);
      case _ =>
    }
  }

  lemma StepJump(vm: Vm, s: State, acts: seq<seq<string>>)
    requires StateOk(vm.prog, s, acts) && s.pc != []
    requires s.pc[0].Goto? || s.pc[0].IfTrue? || s.pc[0].IfFalse?
    requires Step(vm, s).Next?
    ensures StateOk(vm.prog, Step(vm, s).state, Track(s, acts))
  {
    LocatedTail(vm.prog, s.pc);
    match s.pc[0] {
      case Goto(l) => AfterResolve(vm.prog, s.pc[1..], l);
      case IfTrue(a, b) => LocatedBlock(vm.prog, s.pc, a, b);
      case IfFalse(a, b) => LocatedBlock(vm.prog, s.pc, a, b);
    }
  }

  /** Every instruction keeps the discipline. */
  lemma StepOk(vm: Vm, s: State, acts: seq<seq<string>>)
    requires PrimsOk(vm) && StateOk(vm.prog, s, acts) && Step(vm, s).Next?
    ensures s.pc != [] && acts != [] && StateOk(vm.prog, Step(vm, s).state, Track(s, acts))
  {
    if Local(s.pc[0]) {
      StepLocal(vm, s, acts);
    } else {
      match s.pc[0] {
        case PushCont(_) => StepPushCont(vm, s, acts);
        case Apply => StepApply(vm, s, acts);
        case LeaveProc => StepLeave(vm, s, acts);
        case _ => StepJump(vm, s, acts);
      }
    }
  }

  /** The start of a compiled program: its code runs under the continuation that the generated
      entry function pushes, whose label stands at the end of that function. */
  ghost predicate Start(vm: Vm, es: seq<Expr>, s: State) {
    Compile(es) == Some(vm.prog) && PrimsOk(vm) && s.pc == vm.prog &&
    |s.cont| == 1 && s.cont[0].pc == [] &&
    ValueOk(vm.prog, s.value) && ValuesOk(vm.prog, s.stack) && EnvsOk(vm.prog, s.envs)
  }

  lemma StartOk(vm: Vm, es: seq<Expr>, s: State)
    requires Start(vm, es, s)
    ensures StateOk(vm.prog, s, [[], []])
  {
    ProgramLabels(es);
    ProgramLocated(vm.prog);
    TypedSeq(true, es, 0, [], []);
    assert vm.prog + [] == vm.prog;
    assert ChainOk(vm.prog, [[], []], s.cont, s.envt, s.template) by {
      var acts: seq<seq<string>> := [[], []];
      assert acts[1..] == [[]] && s.cont[1..] == [];
    }
  }

  ghost predicate Reachable(vm: Vm, es: seq<Expr>, s: State) {
    exists s0, n: nat :: Start(vm, es, s0) && Steps(vm, s0, n) == Next(s)
  }

  lemma {:induction false} StepsOk(vm: Vm, s: State, acts: seq<seq<string>>, n: nat) returns (acts': seq<seq<string>>)
    requires PrimsOk(vm) && StateOk(vm.prog, s, acts) && Steps(vm, s, n).Next?
    ensures StateOk(vm.prog, Steps(vm, s, n).state, acts')
    decreases n
  {
    if n == 0 {
      acts' := acts;
    } else {
      StepOk(vm, s, acts);
      acts' := StepsOk(vm, Step(vm, s).state, Track(s, acts), n - 1);
    }
  }

  lemma ReachableOk(vm: Vm, es: seq<Expr>, s: State) returns (acts: seq<seq<string>>)
    requires Reachable(vm, es, s)
    ensures PrimsOk(vm) && StateOk(vm.prog, s, acts)
  {
    var s0, n: nat :| Start(vm, es, s0) && Steps(vm, s0, n) == Next(s);
    StartOk(vm, es, s0);
    acts := StepsOk(vm, s0, [[], []], n);
  }

  /** At a non-tail call the continuation on top is the one this call pushed: its address is the
      code behind the call's own label, its registers are the caller's present ones. */
  lemma CallFrame(vm: Vm, es: seq<Expr>, s: State)
    requires Reachable(vm, es, s) && s.pc != [] && s.pc[0].Apply? && !IsTailCall(s.pc)
    ensures s.cont != [] && s.cont[0].pc == s.pc[2..]
    ensures s.cont[0].envt == s.envt && s.cont[0].template == s.template
    ensures Resolve(vm.prog, s.pc[1].target) == Some(s.pc[2..])
  {
    var acts := ReachableOk(vm, es, s);
    LocatedTail(vm.prog, s.pc);
    LocatedTail(vm.prog, s.pc[1..]);
    assert s.pc[1..][1..] == s.pc[2..];
  }

  /** No return ever finds the chain empty. */
  lemma LeaveHasFrame(vm: Vm, es: seq<Expr>, s: State)
    requires Reachable(vm, es, s) && s.pc != [] && s.pc[0].LeaveProc?
    ensures s.cont != []
  {
    var acts := ReachableOk(vm, es, s);
  }

  /** Jumps of a run always find their label. */
  lemma JumpsResolve(vm: Vm, es: seq<Expr>, s: State)
    requires Reachable(vm, es, s) && s.pc != [] && (s.pc[0].Goto? || s.pc[0].PushCont?)
    ensures Resolve(vm.prog, s.pc[0].target).Some?
    ensures |Resolve(vm.prog, s.pc[0].target).value| < |s.pc|
  {
    var acts := ReachableOk(vm, es, s);
    LocatedTail(vm.prog, s.pc);
    AfterResolve(vm.prog, s.pc[1..], s.pc[0].target);
    AfterShorter(s.pc[1..], s.pc[0].target);
  }

  lemma {:induction false} AfterShorter(code: seq<Code>, l: string)
    requires After(code, l).Some?
    ensures |After(code, l).value| < |code|
  {
    if code[0] != Label(l) {
      AfterShorter(code[1..], l);
    }
  }

  // ---- Returns match calls -------------------------------------------------------------------

  /** A non-tail call that returns: from the push of its continuation until the chain is for the
      first time as short as it was, and then everything the continuation saved is back. */
  lemma {:induction false} ReturnMatchesCall(vm: Vm, s: State, n: nat)
    requires s.pc != [] && s.pc[0].PushCont? && n > 0
    requires Steps(vm, s, n).Next? && |Steps(vm, s, n).state.cont| == |s.cont|
    requires forall i | 0 < i < n :: Steps(vm, s, i).Next? && |Steps(vm, s, i).state.cont| > |s.cont|
    ensures var t := Steps(vm, s, n).state;
            t.cont == s.cont && t.envt == s.envt && t.template == s.template &&
            Resolve(vm.prog, s.pc[0].target) == Some(t.pc)
  {
    StepsLast(vm, s, 1);
    var s1 := Steps(vm, s, 1).state;
    StepPush(vm, s);
    StepsLast(vm, s, n);
    var u := Steps(vm, s, n - 1).state;
    hide Step, Steps, Resolve;
    FrameStays(vm, s, s1.cont, n - 1);
    StepCont(vm, u);
    StepBack(vm, u, s1.cont);
  }

  lemma StepPush(vm: Vm, s: State)
    requires s.pc != [] && s.pc[0].PushCont? && Step(vm, s).Next?
    ensures var t := Step(vm, s).state;
            t.cont != [] && t.cont == [t.cont[0]] + s.cont && t.cont[0].envt == s.envt &&
            t.cont[0].template == s.template && Resolve(vm.prog, s.pc[0].target) == Some(t.cont[0].pc)
  {
  }

  /** Only a return makes the chain shorter, and it takes its registers from the first frame. */
  lemma StepBack(vm: Vm, s: State, chain: seq<Cont>)
    requires Step(vm, s).Next? && chain != [] && EndsIn(s.cont, chain)
    requires |Step(vm, s).state.cont| == |chain| - 1
    ensures var t := Step(vm, s).state;
            t.cont == chain[1..] && t.envt == chain[0].envt && t.template == chain[0].template && t.pc == chain[0].pc
  {
  }

  lemma StepsLast(vm: Vm, s: State, n: nat)
    requires n > 0 && Steps(vm, s, n).Next?
    ensures Steps(vm, s, n - 1).Next? && Step(vm, Steps(vm, s, n - 1).state) == Steps(vm, s, n)
    ensures Steps(vm, s, n - 1).state.pc != []
  {
    hide Step, Steps;
    StepsDefined(vm, s, n - 1, 1);
    StepsAdd(vm, s, n - 1, 1);
    OneStep(vm, Steps(vm, s, n - 1).state);
  }

  lemma OneStep(vm: Vm, u: State)
    ensures Steps(vm, u, 1) == Step(vm, u) && (Step(vm, u).Next? ==> u.pc != [])
  {
    if Step(vm, u).Next? {
      assert Steps(vm, Step(vm, u).state, 0) == Step(vm, u);
    }
  }

  /** A run that gets n + m instructions far got n far. */
  lemma {:induction false} StepsDefined(vm: Vm, s: State, n: nat, m: nat)
    requires Steps(vm, s, n + m).Next?
    ensures Steps(vm, s, n).Next?
    decreases n
  {
    hide Step;
    if n > 0 {
      StepsDefined(vm, Step(vm, s).state, n - 1, m);
    }
  }

  lemma {:induction false} FrameStays(vm: Vm, s: State, chain: seq<Cont>, n: nat)
    requires n > 0 && Steps(vm, s, 1).Next? && Steps(vm, s, 1).state.cont == chain
    requires forall i | 0 < i <= n :: Steps(vm, s, i).Next? && |Steps(vm, s, i).state.cont| >= |chain|
    ensures EndsIn(Steps(vm, s, n).state.cont, chain)
  {
    hide Step, Steps;
    if n > 1 {
      FrameStays(vm, s, chain, n - 1);
      StepsLast(vm, s, n);
      StepCont(vm, Steps(vm, s, n - 1).state);
    }
  }

  // ---- Tail calls ----------------------------------------------------------------------------

  /** Non-tail calls entered and not yet returned from, n instructions after s. */
  ghost function Level(vm: Vm, s: State, n: nat): int
    decreases n
  {
    if n == 0 || s.pc == [] || Step(vm, s).Exit? then 0
    else
      var here := if s.pc[0].LeaveProc? then -1
                  else if s.pc[0].Apply? && !IsTailCall(s.pc) then 1 else 0;
      here + Level(vm, Step(vm, s).state, n - 1)
  }

  function Total(acts: seq<seq<string>>): nat {
    if acts == [] then 0 else |acts[0]| + Total(acts[1..])
  }

  lemma {:induction false} TotalConcat(a: seq<seq<string>>, b: seq<seq<string>>)
    ensures Total(a + b) == Total(a) + Total(b)
  {
    if a == [] {
      assert a + b == b;
    } else {
      assert (a + b)[1..] == a[1..] + b;
      TotalConcat(a[1..], b);
    }
  }

  /** The length of the chain: what all activations have pushed, one frame per call included. */
  lemma {:induction false} ChainLength(prog: seq<Code>, acts: seq<seq<string>>, cont: seq<Cont>, envt: nat,
                                       template: seq<Code>)
    requires ChainOk(prog, acts, cont, envt, template)
    ensures |cont| == Total(acts) + |acts| - 1
    decreases cont
  {
    if acts[0] != [] {
      var less := [acts[0][1..]] + acts[1..];
      assert less[1..] == acts[1..];
      ChainLength(prog, less, cont[1..], envt, template);
    } else if |acts| > 1 {
      ChainLength(prog, acts[1..], cont[1..], cont[0].envt, cont[0].template);
    }
  }

  lemma StepCont(vm: Vm, s: State)
    requires s.pc != [] && Step(vm, s).Next?
    ensures var t := Step(vm, s).state;
            if s.pc[0].PushCont? then t.cont != [] && t.cont == [t.cont[0]] + s.cont
            else if s.pc[0].LeaveProc? then s.cont != [] && t.cont == s.cont[1..]
            else t.cont == s.cont
  {
  }

  lemma TrackCallers(vm: Vm, s: State, acts: seq<seq<string>>, top: seq<seq<string>>, callers: seq<seq<string>>)
    returns (top1: seq<seq<string>>)
    requires PrimsOk(vm) && StateOk(vm.prog, s, acts) && Step(vm, s).Next?
    requires acts == top + callers && top != [] && |top| + Level(vm, s, 1) > 0
    ensures Track(s, acts) == top1 + callers && |top1| == |top| + Level(vm, s, 1)
  {
    var t := Step(vm, s).state;
    assert Level(vm, t, 0) == 0;
    if s.pc[0].Apply? {
      StepApply(vm, s, acts);
    } else if s.pc[0].LeaveProc? {
      StepLeave(vm, s, acts);
    }
    var acts1 := Track(s, acts);
    assert |acts1| == |acts| + Level(vm, s, 1);
    top1 := acts1[..|acts1| - |callers|];
    assert acts1 == top1 + callers;
  }

  /** While no call at or below the present level returns, the callers' part of the chain stays. */
  lemma {:induction false} CallersStay(vm: Vm, s: State, acts: seq<seq<string>>, top: seq<seq<string>>,
                                       callers: seq<seq<string>>, chain: seq<Cont>, n: nat)
      returns (acts': seq<seq<string>>, top': seq<seq<string>>)
    requires PrimsOk(vm) && StateOk(vm.prog, s, acts) && Steps(vm, s, n).Next?
    requires acts == top + callers && top != [] && |chain| == Total(callers) + |callers|
    requires EndsIn(s.cont, chain)
    requires forall i | 0 <= i <= n :: |top| + Level(vm, s, i) > 0
    ensures StateOk(vm.prog, Steps(vm, s, n).state, acts')
    ensures acts' == top' + callers && |top'| == |top| + Level(vm, s, n)
    ensures EndsIn(Steps(vm, s, n).state.cont, chain)
    decreases n
  {
    hide StateOk, PrimsOk, Step, Track, EndsIn;
    if n == 0 {
      acts', top' := acts, top;
    } else {
      var t := Step(vm, s).state;
      StepOk(vm, s, acts);
      var acts1 := Track(s, acts);
      var top1 := TrackCallers(vm, s, acts, top, callers);
      ChainKept(vm, s, acts, acts1, top1, callers, chain);
      forall i | 0 <= i <= n - 1
        ensures |top1| + Level(vm, t, i) > 0
      {
        LevelStep(vm, s, i);
      }
      LevelStep(vm, s, n - 1);
      acts', top' := CallersStay(vm, t, acts1, top1, callers, chain, n - 1);
    }
  }

  lemma LevelStep(vm: Vm, s: State, i: nat)
    requires Step(vm, s).Next?
    ensures Level(vm, s, i + 1) == Level(vm, s, 1) + Level(vm, Step(vm, s).state, i)
  {
    assert Level(vm, Step(vm, s).state, 0) == 0;
  }

  ghost predicate EndsIn<T>(s: seq<T>, end: seq<T>) {
    |end| <= |s| && s[|s| - |end|..] == end
  }

  lemma ChainAtLeast(prog: seq<Code>, s: State, acts: seq<seq<string>>, top: seq<seq<string>>,
                     callers: seq<seq<string>>)
    requires StateOk(prog, s, acts) && acts == top + callers && top != []
    ensures |s.cont| >= Total(callers) + |callers|
  {
    ChainLength(prog, acts, s.cont, s.envt, s.template);
    TotalConcat(top, callers);
  }

  lemma ChainKept(vm: Vm, s: State, acts: seq<seq<string>>, acts1: seq<seq<string>>, top1: seq<seq<string>>,
                  callers: seq<seq<string>>, chain: seq<Cont>)
    requires PrimsOk(vm) && StateOk(vm.prog, s, acts) && Step(vm, s).Next?
    requires acts1 == Track(s, acts) == top1 + callers && top1 != [] && |chain| == Total(callers) + |callers|
    requires EndsIn(s.cont, chain)
    ensures EndsIn(Step(vm, s).state.cont, chain)
  {
    hide StateOk, PrimsOk, Step, Track, Total;
    StepOk(vm, s, acts);
    ChainAtLeast(vm.prog, Step(vm, s).state, acts1, top1, callers);
    StepCont(vm, s);
  }

  /** The state right after a procedure was entered. */
  ghost predicate JustEntered(vm: Vm, es: seq<Expr>, s: State) {
    Start(vm, es, s) ||
    exists r :: Reachable(vm, es, r) && r.pc != [] && r.pc[0].Apply? && Step(vm, r) == Next(s)
  }

  lemma EnteredOk(vm: Vm, es: seq<Expr>, s: State) returns (acts: seq<seq<string>>)
    requires JustEntered(vm, es, s)
    ensures PrimsOk(vm) && StateOk(vm.prog, s, acts) && acts[0] == []
  {
    if Start(vm, es, s) {
      StartOk(vm, es, s);
      acts := [[], []];
    } else {
      var r :| Reachable(vm, es, r) && r.pc != [] && r.pc[0].Apply? && Step(vm, r) == Next(s);
      var before := ReachableOk(vm, es, r);
      StepOk(vm, r, before);
      acts := Track(r, before);
    }
  }

  /** Tail calls run in constant continuation space. From the entry of a procedure on, as long as
      every non-tail call made meanwhile is matched by its return, each tail call happens with
      exactly the chain the first procedure was entered with, so the procedure it enters gets that
      same chain; and a return at that level returns on it. */
  lemma TailCallsConstantSpace(vm: Vm, es: seq<Expr>, s: State, n: nat)
    requires JustEntered(vm, es, s) && Steps(vm, s, n).Next?
    requires Level(vm, s, n) == 0 && forall i | 0 <= i <= n :: Level(vm, s, i) >= 0
    ensures var t := Steps(vm, s, n).state;
            t.pc != [] && (IsTailCall(t.pc) || t.pc[0].LeaveProc?) ==> t.cont == s.cont
    ensures |Steps(vm, s, n).state.cont| >= |s.cont|
  {
    var acts := EnteredOk(vm, es, s);
    var callers := acts[1..];
    assert acts == [[]] + callers;
    ChainLength(vm.prog, acts, s.cont, s.envt, s.template);
    TotalConcat([[]], callers);
    assert EndsIn(s.cont, s.cont);
    var acts', top' := CallersStay(vm, s, acts, [[]], callers, s.cont, n);
    var t := Steps(vm, s, n).state;
    assert top' == [acts'[0]];
    ChainLength(vm.prog, acts', t.cont, t.envt, t.template);
    TotalConcat(top', callers);
    if acts'[0] == [] {
      assert |t.cont| == |s.cont|;
    }
  }
}
