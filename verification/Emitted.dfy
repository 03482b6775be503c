/** A whole emitted function: its runs follow the runs of the register machine, through the dropped
    jumps and labels, and it returns with everything restored. */
module Emitted {
  import opened Values
  import opened Words
  import opened StaticIr
  import opened X86
  import opened Emission
  import opened Simulation
  import opened Frames

  // ----- where the code of an instruction stands -----

  function CodeOf(f: Fn, body: seq<Insn>): seq<XInsn> {
    FunctionCode(f.al, f.fr, body)
  }

  function PosOf(f: Fn, body: seq<Insn>, k: nat): nat
    requires k <= |body|
  {
    |Prologue(f.fr)| + |CodeUpTo(f.al, f.fr, body, k)|
  }

  lemma {:induction false} UpToPrefix(f: Fn, body: seq<Insn>, k: nat, m: nat)
    requires k <= m <= |body|
    ensures CodeUpTo(f.al, f.fr, body, k) <= CodeUpTo(f.al, f.fr, body, m)
    decreases m
  {
    hide CodeAt;
    if k < m {
      UpToPrefix(f, body, k, m - 1);
    }
  }

  lemma CodeHere(f: Fn, body: seq<Insn>, k: nat)
    requires k < |body|
    ensures HasX(CodeOf(f, body), PosOf(f, body, k), CodeAt(f.al, f.fr, body, k))
    ensures PosOf(f, body, k + 1) == PosOf(f, body, k) + |CodeAt(f.al, f.fr, body, k)|
  {
    hide CodeAt, Prologue, Epilogue;
    UpToPrefix(f, body, k + 1, |body|);
    var whole := CodeUpTo(f.al, f.fr, body, |body|);
    var upto, here := CodeUpTo(f.al, f.fr, body, k), CodeAt(f.al, f.fr, body, k);
    var rest := whole[|upto| + |here|..];
    assert whole == upto + here + rest;
    var tail := if !body[|body| - 1].Ret? then Epilogue(f.fr) else [];
    var pre := Prologue(f.fr) + upto;
    assert CodeOf(f, body) == pre + here + (rest + tail);
    HasXMiddle(pre, here, rest + tail);
  }

  lemma HasXMiddle(a: seq<XInsn>, b: seq<XInsn>, c: seq<XInsn>)
    ensures HasX(a + b + c, |a|, b)
  {
  }

  // ----- labels -----

  function CountX(code: seq<XInsn>, l: nat): nat {
    if code == [] then 0 else (if code[0] == XLabel(l) then 1 else 0) + CountX(code[1..], l)
  }

  lemma {:induction false} CountXAppend(a: seq<XInsn>, b: seq<XInsn>, l: nat)
    ensures CountX(a + b, l) == CountX(a, l) + CountX(b, l)
  {
    if a == [] {
      assert a + b == b;
    } else {
      assert (a + b)[1..] == a[1..] + b;
      CountXAppend(a[1..], b, l);
    }
  }

  lemma {:induction false} CountXAt(code: seq<XInsn>, k: nat, l: nat)
    requires k < |code| && code[k] == XLabel(l)
    ensures CountX(code, l) >= 1
  {
    if k > 0 {
      CountXAt(code[1..], k - 1, l);
    }
  }

  lemma {:induction false} FindXAt(code: seq<XInsn>, k: nat, l: nat)
    requires CountX(code, l) <= 1 && k < |code| && code[k] == XLabel(l)
    ensures FindX(code, l) == Some(k)
  {
    if k > 0 {
      CountXAt(code[1..], k - 1, l);
      FindXAt(code[1..], k - 1, l);
    }
  }

  predicate NoLabels(code: seq<XInsn>) {
    forall k :: 0 <= k < |code| ==> !code[k].XLabel?
  }

  lemma {:induction false} CountXNone(code: seq<XInsn>, l: nat)
    requires NoLabels(code)
    ensures CountX(code, l) == 0
  {
    if code != [] {
      CountXNone(code[1..], l);
    }
  }

  /** Neither labels, jumps nor `ret`. */
  predicate Dull(code: seq<XInsn>) {
    NoLabels(code) && AllPlain(code)
  }

  lemma DullAppend(a: seq<XInsn>, b: seq<XInsn>)
    requires Dull(a) && Dull(b)
    ensures Dull(a + b)
  {
  }

  lemma LoadDull(al: Alloc, o: Operand, r: Gpr)
    ensures Dull(Load(al, o, r))
  {
  }

  lemma StoreDull(al: Alloc, k: nat, r: Gpr)
    ensures Dull(Store(al, k, r))
  {
  }

  lemma {:induction false} PushArgsDull(al: Alloc, args: seq<Operand>)
    ensures Dull(PushArgs(al, args))
    decreases |args|
  {
    if |args| > 6 {
      LoadDull(al, args[|args| - 1], Rax);
      PushArgsDull(al, args[..|args| - 1]);
    }
  }

  lemma {:induction false} LoadArgsDull(al: Alloc, args: seq<Operand>, k: nat)
    requires k <= |args|
    ensures Dull(LoadArgs(al, args, k))
    decreases |args| - k
  {
    if k < |args| && k < 6 {
      LoadDull(al, args[k], ARGUMENTS[k]);
      LoadArgsDull(al, args, k + 1);
    }
  }

  lemma OneDull(i: XInsn)
    requires !i.XLabel? && Plain(i)
    ensures Dull([i])
  {
  }

  lemma CallDull(al: Alloc, dst: Option<nat>, g: Runtime, args: seq<Operand>)
    ensures Dull(CallCode(al, dst, g, args))
  {
    hide Load, Store, PushArgs, LoadArgs, AddStackBy, SubStackBy, Dull, StackArgs, Padding;
    var n := |args|;
    var sub := SubStackBy(Padding(n));
    StackDull(Padding(n));
    StackDull(StackArgs(n) * 8);
    PushArgsDull(al, args);
    LoadArgsDull(al, args, 0);
    OneDull(Zero(Rax));
    OneDull(CallRuntime(g));
    DullAppend(sub, PushArgs(al, args));
    DullAppend(sub + PushArgs(al, args), LoadArgs(al, args, 0));
    DullAppend(sub + PushArgs(al, args) + LoadArgs(al, args, 0), [Zero(Rax)]);
    DullAppend(AddStackBy(StackArgs(n) * 8), AddStackBy(Padding(n)));
    DullAppend(BeforeCall(al, args), [CallRuntime(g)]);
    DullAppend(BeforeCall(al, args) + [CallRuntime(g)], AfterCall(n));
    var head := BeforeCall(al, args) + [CallRuntime(g)] + AfterCall(n);
    if dst.Some? {
      StoreDull(al, dst.value, Rax);
      DullAppend(head, Store(al, dst.value, Rax));
    } else {
      assert CallCode(al, dst, g, args) == head;
    }
  }

  lemma FrameDull(fr: Frame)
    ensures Dull(Prologue(fr)) && Dull(Teardown(fr)) && Epilogue(fr) == Teardown(fr) + [RetNear] && NoLabels(Epilogue(fr))
  {
    hide AddStackBy, SubStackBy;
    StackDull(fr.size);
    StackDull(PadOf(fr));
    assert Dull(Pushes(fr.saved)) && Dull(Pops(fr.saved));
    assert [PopBase, RetNear] == [PopBase] + [RetNear];
    assert AddStackBy(fr.size) + AddStackBy(PadOf(fr)) + Pops(fr.saved) + ([PopBase] + [RetNear])
        == AddStackBy(fr.size) + AddStackBy(PadOf(fr)) + Pops(fr.saved) + [PopBase] + [RetNear];
  }

  lemma StackDull(n: nat)
    ensures Dull(AddStackBy(n)) && Dull(SubStackBy(n))
  {
  }

  lemma CompareDull(al: Alloc, lhs: Operand, rhs: Operand)
    ensures Dull(Load(al, lhs, Rax) + CompareCode(al, rhs))
  {
    hide Load;
    LoadDull(al, lhs, Rax);
    LoadDull(al, rhs, Rcx);
  }

  lemma ApplyDull(al: Alloc, op: ArithOp, d: Gpr, rhs: Operand)
    ensures Dull(Apply(al, op, d, rhs))
  {
    hide Load;
    LoadDull(al, rhs, Rcx);
  }

  lemma DivideDull(al: Alloc, op: ArithOp, dst: nat, lhs: Operand, rhs: Operand)
    ensures Dull(DivideCode(al, op, dst, lhs, rhs))
  {
    hide Load, Store, Dull;
    LoadDull(al, lhs, Rax);
    LoadDull(al, rhs, Rcx);
    StoreDull(al, dst, Rax);
    DivideSplit(al, op, dst, lhs, rhs);
    assert Dull([Cqo]) && Dull([Cqo, MovImm(Rcx, if rhs.ImmI64? then rhs.i else 0)]) && Dull(DivideTail(op)) by { DivideParts(op, if rhs.ImmI64? then rhs.i else 0); }
    DullAppend(Load(al, lhs, Rax), [Cqo, MovImm(Rcx, if rhs.ImmI64? then rhs.i else 0)]);
    DullAppend(Load(al, lhs, Rax), Load(al, lhs, Rax));
    DullAppend(Load(al, lhs, Rax) + Load(al, lhs, Rax), Load(al, rhs, Rcx));
    DullAppend(Load(al, lhs, Rax) + Load(al, lhs, Rax) + Load(al, rhs, Rcx), [Cqo]);
    DullAppend(DivideTail(op), Store(al, dst, Rax));
    DullAppend(FetchCode(al, lhs, rhs), DivideTail(op) + Store(al, dst, Rax));
  }

  lemma DivideParts(op: ArithOp, v: i64)
    ensures Dull([Cqo]) && Dull([Cqo, MovImm(Rcx, v)]) && Dull(DivideTail(op))
  {
  }

  lemma BinDull(al: Alloc, op: ArithOp, dst: nat, lhs: Operand, rhs: Operand)
    ensures Dull(BinCode(al, op, dst, lhs, rhs))
  {
    hide Load, Store, Apply, Dull, DivideCode;
    LoadDull(al, lhs, Rax);
    StoreDull(al, dst, Rax);
    ApplyDull(al, op, Rax, rhs);
    DivideDull(al, op, dst, lhs, rhs);
    if dst in al {
      LoadDull(al, lhs, al[dst]);
      ApplyDull(al, op, al[dst], rhs);
      DullAppend(Load(al, lhs, al[dst]), Apply(al, op, al[dst], rhs));
    }
    DullAppend(Load(al, lhs, Rax), Apply(al, op, Rax, rhs));
    DullAppend(Load(al, lhs, Rax) + Apply(al, op, Rax, rhs), Store(al, dst, Rax));
  }

  lemma StraightDull(al: Alloc, fr: Frame, i: Insn)
    requires Straight(i) && !i.Label?
    ensures Dull(InsnCode(al, fr, i))
  {
    hide Load, Store, BinCode, CallCode, CompareCode;
    match i
    case Comment =>
    case Mov(dst, src) =>
      LoadDull(al, src, Rax);
      StoreDull(al, dst, Rax);
      if dst in al {
        LoadDull(al, src, al[dst]);
      }
    case Box(dst, src, _) => ConvertDull(al, dst, src);
    case Unbox(dst, src, _) => ConvertDull(al, dst, src);
    case Bin(op, dst, lhs, rhs) => BinDull(al, op, dst, lhs, rhs);
    case DynBin(op, dst, lhs, rhs) => CallDull(al, Some(dst), ValueOp(op), [lhs, rhs]);
    case Neg(dst, src) => ConvertDull(al, dst, src);
    case Not(dst, src) => ConvertDull(al, dst, src);
    case Cmp(dst, k, lhs, rhs) =>
      CompareDull(al, lhs, rhs);
      StoreDull(al, dst, Rax);
    case Call(dst, g, args) => CallDull(al, dst, g, args);
  }

  lemma ConvertDull(al: Alloc, dst: nat, src: Operand)
    ensures Dull(Load(al, src, Rax)) && Dull(Load(al, src, Rdi)) && Dull(Store(al, dst, Rax))
  {
    LoadDull(al, src, Rax);
    LoadDull(al, src, Rdi);
    StoreDull(al, dst, Rax);
  }

  /** Only the code of a label holds a label. */
  lemma InsnLabels(al: Alloc, fr: Frame, i: Insn)
    requires !i.Label?
    ensures NoLabels(InsnCode(al, fr, i))
  {
    hide Load, CompareCode, Epilogue;
    if Straight(i) {
      StraightDull(al, fr, i);
    } else {
      match i
      case Branch(_, lhs, rhs, _) => CompareDull(al, lhs, rhs);
      case BranchTrue(v, _) => LoadDull(al, v, Rax);
      case Jump(_) =>
      case Ret(v) =>
        LoadDull(al, v, Rax);
        FrameDull(fr);
    }
  }

  lemma {:induction false} CountUpTo(f: Fn, body: seq<Insn>, k: nat, l: nat)
    requires k <= |body|
    ensures CountX(CodeUpTo(f.al, f.fr, body, k), l) <= Count(body[..k], l)
    decreases k
  {
    hide InsnCode, Dropped;
    if k > 0 {
      CountUpTo(f, body, k - 1, l);
      var here := CodeAt(f.al, f.fr, body, k - 1);
      CountXAppend(CodeUpTo(f.al, f.fr, body, k - 1), here, l);
      assert body[..k] == body[..k - 1] + [body[k - 1]];
      CountAppend(body[..k - 1], [body[k - 1]], l);
      CountHere(f, body, k - 1, l);
    }
  }

  lemma CountHere(f: Fn, body: seq<Insn>, k: nat, l: nat)
    requires k < |body|
    ensures CountX(CodeAt(f.al, f.fr, body, k), l) <= Count([body[k]], l)
  {
    hide Dropped;
    var i := body[k];
    if Dropped(body, k) {
    } else if i.Label? {
      assert CountX([XLabel(i.l)], l) <= Count([i], l);
    } else {
      InsnLabels(f.al, f.fr, i);
      CountXNone(InsnCode(f.al, f.fr, i), l);
    }
  }

  /** A label that is jumped to is defined once in the code, where its instruction stands. */
  lemma TargetFound(f: Fn, body: seq<Insn>, k: nat, l: nat)
    requires Distinct(body) && k < |body| && body[k] == Label(l) && Referenced(body, l)
    ensures FindX(CodeOf(f, body), l) == Some(PosOf(f, body, k))
  {
    hide Prologue, Epilogue, CodeUpTo, FindX, CountX, Count;
    var code := CodeOf(f, body);
    var mid := CodeUpTo(f.al, f.fr, body, |body|);
    var tail := if body == [] || !body[|body| - 1].Ret? then Epilogue(f.fr) else [];
    FrameDull(f.fr);
    CountXNone(Prologue(f.fr), l);
    CountXNone(tail, l);
    CountXAppend(Prologue(f.fr) + mid, tail, l);
    CountXAppend(Prologue(f.fr), mid, l);
    CountUpTo(f, body, |body|, l);
    assert body[..|body|] == body;
    CodeHere(f, body, k);
    assert CodeAt(f.al, f.fr, body, k) == [XLabel(l)];
    HasXAt(code, PosOf(f, body, k), [XLabel(l)], 0);
    FindXAt(code, PosOf(f, body, k), l);
  }

  lemma {:induction false} FindSound(body: seq<Insn>, l: nat)
    ensures Find(body, l).Some? ==> Find(body, l).value < |body| && body[Find(body, l).value] == Label(l)
  {
    if body != [] && body[0] != Label(l) {
      FindSound(body[1..], l);
    }
  }

  // ----- one step -----

  ghost predicate BodyOk(f: Fn, body: seq<Insn>) {
    Distinct(body) && forall k :: 0 <= k < |body| ==> InsnOk(body[k], f.n)
  }

  ghost predicate FnOk(f: Fn) {
    && (forall r :: r in f.fr.saved ==> r !in CALLER_SAVED)
    && (forall a, b :: 0 <= a < b < |f.fr.saved| ==> f.fr.saved[a] != f.fr.saved[b])
  }

  /** The processor stands where the register machine stands, and holds what it holds. */
  ghost predicate Stands(f: Fn, body: seq<Insn>, c: IrConfig, x: Cpu) {
    Inv(f, c.regs, x) && x.out == c.out && c.pc <= |body| && x.pc == PosOf(f, body, c.pc)
  }

  ghost predicate ReachesX(code: seq<XInsn>, x: Cpu, m: nat, s: XStatus) {
    RunX(code, XGoing(x), m) == s
  }

  lemma FollowX(code: seq<XInsn>, x: Cpu, m: nat, y: Cpu, n: nat, s: XStatus)
    requires ReachesX(code, x, m, XGoing(y)) && ReachesX(code, y, n, s)
    ensures ReachesX(code, x, m + n, s)
  {
    RunXAdd(code, XGoing(x), m, n);
  }

  lemma OneStepX(code: seq<XInsn>, x: Cpu)
    ensures ReachesX(code, x, 1, StepX(code, XGoing(x)))
  {
    assert RunX(code, XGoing(x), 1) == RunX(code, StepX(code, XGoing(x)), 0);
  }

  /** What the processor does for one step of the register machine. Where it does nothing, the
      register machine has moved forwards. */
  ghost predicate Matched(f: Fn, body: seq<Insn>, c: IrConfig, x: Cpu, m: nat, t: XStatus)
    requires c.pc < |body|
  {
    && ReachesX(CodeOf(f, body), x, m, t)
    && match StepInsn(body, body[c.pc], c)
       case Going(c1) => t.XGoing? && Stands(f, body, c1, t.x) && (m == 0 ==> c1.pc == c.pc + 1)
       case Trapped(out) => t == XFault(out)
       case Returned(v, out) => t.XReturned? && t.x.out == out && Rax in t.x.regs && t.x.regs[Rax] == v && Returned2(f, t.x)
       case Unknown => true
  }

  /** Back in the caller, with the return address taken off the stack. */
  ghost predicate Returned2(f: Fn, y: Cpu) {
    Restored(f.entry, y.(rsp := y.rsp - 8))
  }

  lemma InvMoved(f: Fn, regs: map<nat, i64>, x: Cpu, y: Cpu)
    requires Inv(f, regs, x) && y == x.(pc := y.pc, flags := y.flags)
    ensures Inv(f, regs, y)
  {
    forall i | 0 <= i < |f.fr.saved| ensures Saved(f, y, i) {
      assert Saved(f, x, i);
    }
  }

  lemma StepFacts(i: Insn, body: seq<Insn>, c: IrConfig)
    requires Straight(i)
    ensures StepInsn(body, i, c).Going? ==> StepInsn(body, i, c).c.pc == c.pc + 1
    ensures !StepInsn(body, i, c).Returned?
  {
    hide Arith, Traps, Wrap, CondHolds, Invoke;
  }

  lemma StraightStep(f: Fn, body: seq<Insn>, c: IrConfig, x: Cpu) returns (m: nat, t: XStatus)
    requires Stands(f, body, c, x) && BodyOk(f, body) && c.pc < |body| && Straight(body[c.pc]) && !Dropped(body, c.pc)
    ensures Matched(f, body, c, x, m, t)
  {
    hide Inv, EffectsOf, RunX, Count, StepInsn, InsnOk, InsnCode, Dropped, CodeUpTo, Prologue, CodeOf, Distinct;
    var i := body[c.pc];
    var code := CodeOf(f, body);
    var here := InsnCode(f.al, f.fr, i);
    CodeHere(f, body, c.pc);
    assert HasX(code, x.pc, here);
    InsnSim(f, i, body, c, x);
    StepFacts(i, body, c);
    HerePlain(f, i);
    PlainRuns(code, here, x);
    m, t := |here|, After(x, EffectsOf(here, x), |here|);
    var s := StepInsn(body, i, c);
    if s.Going? {
      InvMoved(f, s.c.regs, EffectsOf(here, x).x, t.x);
    }
  }

  lemma HerePlain(f: Fn, i: Insn)
    requires Straight(i)
    ensures AllPlain(InsnCode(f.al, f.fr, i))
  {
    hide InsnCode;
    if i.Label? {
      LabelCode(f, i);
    } else {
      StraightDull(f.al, f.fr, i);
    }
  }

  lemma LabelCode(f: Fn, i: Insn)
    requires i.Label?
    ensures InsnCode(f.al, f.fr, i) == [XLabel(i.l)] && AllPlain([XLabel(i.l)])
  {
  }

  /** A dropped instruction moves the register machine one place on and changes nothing. */
  lemma DroppedStep(f: Fn, body: seq<Insn>, c: IrConfig, x: Cpu) returns (m: nat, t: XStatus)
    requires Stands(f, body, c, x) && BodyOk(f, body) && c.pc < |body| && Dropped(body, c.pc)
    ensures Matched(f, body, c, x, m, t)
  {
    hide Inv, RunX, Count, InsnOk, InsnCode, CodeUpTo, Prologue, CodeOf, Find;
    CodeHere(f, body, c.pc);
    m, t := 0, XGoing(x);
    NoSteps(CodeOf(f, body), x);
    if body[c.pc].Jump? {
      FindAt(body, c.pc + 1, body[c.pc].target);
    }
  }

  lemma NoSteps(code: seq<XInsn>, x: Cpu)
    ensures ReachesX(code, x, 0, XGoing(x))
  {
  }

  /** The jump itself, once the flags or nothing stand in its way. */
  lemma JumpStep(f: Fn, body: seq<Insn>, l: nat, c: IrConfig, x: Cpu) returns (t: XStatus)
    requires BodyOk(f, body) && Referenced(body, l) && Find(body, l).Some? && Inv(f, c.regs, x) && x.out == c.out
    ensures t == JumpTo(CodeOf(f, body), x, l) && t.XGoing?
    ensures Stands(f, body, c.(pc := Find(body, l).value), t.x)
  {
    hide Inv, RunX, Count, InsnOk, InsnCode, CodeUpTo, Prologue, CodeOf, Find, FindX, Distinct;
    FindSound(body, l);
    TargetFound(f, body, Find(body, l).value, l);
    t := JumpTo(CodeOf(f, body), x, l);
    InvMoved(f, c.regs, x, t.x);
  }

  /** A conditional jump after code that sets the flags. */
  lemma CondStep(f: Fn, body: seq<Insn>, c: IrConfig, x: Cpu, head: seq<XInsn>, y: Cpu, k: Cond, l: nat, a: i64, b: i64)
    returns (m: nat, t: XStatus)
    requires Stands(f, body, c, x) && BodyOk(f, body) && c.pc < |body| && Referenced(body, l)
    requires HasX(CodeOf(f, body), x.pc, head + [Jcc(k, l)]) && PosOf(f, body, c.pc + 1) == x.pc + |head| + 1 && AllPlain(head)
    requires EffectsOf(head, x) == Next(y) && SameBut(x, y, {Rax, Rcx}) && y.flags == Compared(a, b)
    requires StepInsn(body, body[c.pc], c)
          == if CondHolds(k, a, b) then Goto(body, c, l) else Going(c.(pc := c.pc + 1))
    ensures Matched(f, body, c, x, m, t)
  {
    hide Inv, EffectsOf, RunX, Count, StepInsn, InsnOk, InsnCode, CodeUpTo, Prologue, CodeOf, Find, FindX,
      Distinct, CondHolds;
    var code := CodeOf(f, body);
    HasXSplit(code, x.pc, head, [Jcc(k, l)]);
    PlainRuns(code, head, x);
    var z := y.(pc := x.pc + |head|);
    InvScratch(f, c.regs, x, y, {Rax, Rcx});
    InvMoved(f, c.regs, y, z);
    HasXAt(code, z.pc, [Jcc(k, l)], 0);
    OneStepX(code, z);
    m := |head| + 1;
    if !CondHolds(k, a, b) {
      t := XGoing(z.(pc := z.pc + 1));
      InvMoved(f, c.regs, z, t.x);
    } else if Find(body, l).Some? {
      t := JumpStep(f, body, l, c, z);
    } else {
      t := JumpTo(code, z, l);
    }
    FollowX(code, x, |head|, z, 1, t);
  }

  lemma BranchingStep(f: Fn, body: seq<Insn>, c: IrConfig, x: Cpu) returns (m: nat, t: XStatus)
    requires Stands(f, body, c, x) && BodyOk(f, body) && c.pc < |body| && (body[c.pc].Branch? || body[c.pc].BranchTrue?)
    ensures Matched(f, body, c, x, m, t)
  {
    hide Inv, EffectsOf, RunX, Count, CodeUpTo, Prologue, CodeOf, Find, FindX, Distinct, CondHolds, Load,
      CompareCode, OpValue, Fits32,
      Effects, Stands, Matched, HasX, PosOf, Goto;
    var i := body[c.pc];
    CodeHere(f, body, c.pc);
    assert Inv(f, c.regs, x) && x.pc == PosOf(f, body, c.pc) by { StandsParts(f, body, c, x); }
    assert Targets(i, i.target);
    if i.Branch? {
      var head := Load(f.al, i.lhs, Rax) + CompareCode(f.al, i.rhs);
      var y := CompareRuns(f, i.lhs, i.rhs, c.regs, x);
      CompareDull(f.al, i.lhs, i.rhs);
      m, t := CondStep(f, body, c, x, head, y, i.cond, i.target, OpValue(i.lhs, c.regs), OpValue(i.rhs, c.regs));
    } else {
      var head := Load(f.al, i.cnd, Rax) + [Test(Rax)];
      var x1 := LoadRuns(f, i.cnd, Rax, c.regs, x);
      Chain(Load(f.al, i.cnd, Rax), [Test(Rax)], x, x1);
      FlagsOf(0, x1);
      var y := x1.(flags := Compared(x1.regs[Rax], 0));
      OneRuns(Test(Rax), x1, y);
      LoadDull(f.al, i.cnd, Rax);
      assert head + [Jcc(CondNe, i.target)] == InsnCode(f.al, f.fr, i);
      NotZero(OpValue(i.cnd, c.regs));
      m, t := CondStep(f, body, c, x, head, y, CondNe, i.target, OpValue(i.cnd, c.regs), 0);
    }
  }

  lemma NotZero(a: i64)
    ensures CondHolds(CondNe, a, 0) <==> a != 0
  {
  }

  lemma StandsParts(f: Fn, body: seq<Insn>, c: IrConfig, x: Cpu)
    requires Stands(f, body, c, x)
    ensures Inv(f, c.regs, x) && x.out == c.out && c.pc <= |body| && x.pc == PosOf(f, body, c.pc)
  {
  }

  lemma JumpingStep(f: Fn, body: seq<Insn>, c: IrConfig, x: Cpu) returns (m: nat, t: XStatus)
    requires Stands(f, body, c, x) && BodyOk(f, body) && c.pc < |body| && body[c.pc].Jump? && !Dropped(body, c.pc)
    ensures Matched(f, body, c, x, m, t)
  {
    hide Inv, EffectsOf, RunX, Count, CodeUpTo, Prologue, CodeOf, Find, FindX, Distinct, Dropped, PosOf, InsnOk;
    var l := body[c.pc].target;
    var code := CodeOf(f, body);
    CodeHere(f, body, c.pc);
    HasXAt(code, x.pc, [Jmp(l)], 0);
    assert Targets(body[c.pc], l);
    OneStepX(code, x);
    m, t := 1, JumpTo(code, x, l);
    if Find(body, l).Some? {
      t := JumpStep(f, body, l, c, x);
    }
  }

  lemma ReturnStep(f: Fn, body: seq<Insn>, c: IrConfig, x: Cpu) returns (m: nat, t: XStatus)
    requires Stands(f, body, c, x) && BodyOk(f, body) && FnOk(f) && c.pc < |body| && body[c.pc].Ret?
    ensures Matched(f, body, c, x, m, t)
  {
    hide Inv, EffectsOf, RunX, Count, CodeUpTo, Prologue, CodeOf, Distinct, PosOf, Load, Teardown, Epilogue,
      OpValue, Effects;
    var v := body[c.pc].value;
    var code := CodeOf(f, body);
    CodeHere(f, body, c.pc);
    FrameDull(f.fr);
    LoadDull(f.al, v, Rax);
    assert InsnOk(body[c.pc], f.n);
    var head := Load(f.al, v, Rax) + Teardown(f.fr);
    assert Load(f.al, v, Rax) + (Teardown(f.fr) + [RetNear]) == head + [RetNear];
    HasXSplit(code, x.pc, head, [RetNear]);
    var x1 := LoadRuns(f, v, Rax, c.regs, x);
    InvScratch(f, c.regs, x, x1, {Rax});
    var y := EpilogueRuns(f, c.regs, x1);
    Chain(Load(f.al, v, Rax), Teardown(f.fr), x, x1);
    DullAppend(Load(f.al, v, Rax), Teardown(f.fr));
    PlainRuns(code, head, x);
    var z := y.(pc := x.pc + |head|);
    HasXAt(code, z.pc, [RetNear], 0);
    OneStepX(code, z);
    m, t := |head| + 1, XReturned(z.(rsp := z.rsp + 8));
    FollowX(code, x, |head|, z, 1, t);
  }

  lemma StepMatched(f: Fn, body: seq<Insn>, c: IrConfig, x: Cpu) returns (m: nat, t: XStatus)
    requires Stands(f, body, c, x) && BodyOk(f, body) && FnOk(f) && c.pc < |body|
    ensures Matched(f, body, c, x, m, t)
  {
    hide Stands, BodyOk, FnOk, Matched, Dropped;
    var i := body[c.pc];
    if Dropped(body, c.pc) {
      m, t := DroppedStep(f, body, c, x);
    } else if i.Branch? || i.BranchTrue? {
      m, t := BranchingStep(f, body, c, x);
    } else if i.Jump? {
      m, t := JumpingStep(f, body, c, x);
    } else if i.Ret? {
      m, t := ReturnStep(f, body, c, x);
    } else {
      m, t := StraightStep(f, body, c, x);
    }
  }

  // ----- whole runs -----

  /** The processor's status for a status of the register machine, after `m` steps. */
  ghost predicate StandsFor(f: Fn, body: seq<Insn>, s: IrStatus, t: XStatus) {
    match s
    case Going(c) => t.XGoing? && Stands(f, body, c, t.x)
    case Trapped(out) => t == XFault(out)
    case Returned(v, out) => t.XReturned? && t.x.out == out && Rax in t.x.regs && t.x.regs[Rax] == v && Returned2(f, t.x)
    case Unknown => true
  }

  /** A run of `n` steps of the register machine is matched, and a run that goes on for long keeps
      the processor going for long: dropped instructions only ever move forwards. */
  lemma {:induction false} RunMatched(f: Fn, body: seq<Insn>, c: IrConfig, x: Cpu, n: nat) returns (m: nat, t: XStatus)
    requires Stands(f, body, c, x) && BodyOk(f, body) && FnOk(f)
    ensures ReachesX(CodeOf(f, body), x, m, t) && StandsFor(f, body, Run(body, Going(c), n), t)
    ensures Run(body, Going(c), n).Going? ==> c.pc + n <= Run(body, Going(c), n).c.pc + m * (|body| + 1)
    decreases n
  {
    hide BodyOk, FnOk, RunX, CodeOf, PosOf, Inv, StepInsn, Returned2;
    if n == 0 {
      m, t := 0, XGoing(x);
      NoSteps(CodeOf(f, body), x);
    } else if c.pc >= |body| {
      m, t := 0, XGoing(x);
      NoSteps(CodeOf(f, body), x);
      RunStopped(body, Unknown, n - 1);
    } else {
      m, t := StepMatched(f, body, c, x);
      var s := Step(body, Going(c));
      if s.Going? {
        var k, u := RunMatched(f, body, s.c, t.x, n - 1);
        FollowX(CodeOf(f, body), x, m, t.x, k, u);
        Budget(m, k, |body| + 1);
        m, t := m + k, u;
      } else {
        RunStopped(body, s, n - 1);
      }
    }
  }

  lemma Budget(m: nat, k: nat, b: nat)
    ensures (m + k) * b == m * b + k * b
    ensures m > 0 ==> m * b >= b
  {
    if m > 0 {
      assert m * b == b + (m - 1) * b;
    }
  }
}
