/** Compiler correctness: the emitted bytes, run on the stack machine, have exactly the
    effects and the value of the direct evaluator, and stay within the stack. */
module FinshCorrect {
  import opened Options
  import opened FinshMachine
  import opened FinshSyntax
  import opened FinshCompiler

  function Code(e: Expr): seq<Byte> { Emit(TypeCheck(Tree(e, Null), false)) }
  function PlaceCode(p: Place): seq<Byte> { Emit(TypeCheck(PlaceTree(p, Null), true)) }
  function ArgCode(args: Args): seq<Byte> { Emit(TypeCheck(ArgTree(args), false)) }
  function Size(e: Expr): nat { Nodes(Tree(e, Null)) }
  function PlaceSize(p: Place): nat { Nodes(PlaceTree(p, Null)) }
  function ArgsSize(args: Args): nat { Nodes(ArgTree(args)) }

  // ---- shape of the emitted code ----

  /** Replacing the sibling of a node changes neither its own code nor its children's. */
  lemma NodeShape(n: Node, sib: Node, addr: bool)
    requires n.Node?
    ensures var c, alone := TypeCheck(n.(sibling := sib), addr), TypeCheck(n.(sibling := Null), addr);
            && c.(sibling := Null) == alone && c.sibling == TypeCheck(sib, false)
            && Emit(c) == Emit(alone) + Emit(TypeCheck(sib, false))
            && Emit(alone) == Emit(alone.child) + Own(alone)
    ensures Nodes(n.(sibling := sib)) == Nodes(n.(sibling := Null)) + Nodes(sib)
  {
    hide Own;
    var c, alone := TypeCheck(n.(sibling := sib), addr), TypeCheck(n.(sibling := Null), addr);
    assert Emit(alone) == Emit(alone.child) + Own(alone) + [];
    OwnCode(c);
  }

  lemma OwnCode(n: Node)
    requires n.Node?
    ensures Own(n) == Own(n.(sibling := Null))
  {
  }

  /** A following sibling only appends its own code and its own nodes. */
  lemma SiblingLast(e: Expr, sib: Node)
    ensures Emit(TypeCheck(Tree(e, sib), false)) == Code(e) + Emit(TypeCheck(sib, false))
    ensures Nodes(Tree(e, sib)) == Size(e) + Nodes(sib) && 1 <= Size(e)
    ensures var c := TypeCheck(Tree(e, sib), false);
            c.sibling == TypeCheck(sib, false) && c.(sibling := Null) == TypeCheck(Tree(e, Null), false)
  {
    TreeShape(e, sib);
    NodeShape(Tree(e, Null), sib, false);
  }

  lemma TreeShape(e: Expr, sib: Node)
    ensures Tree(e, Null).Node? && Tree(e, sib) == Tree(e, Null).(sibling := sib)
  {
    if e.Load? { match e.place { case Variable(_) => case Target(_) => } }
  }

  lemma PlaceSibling(p: Place, sib: Node, addr: bool)
    ensures Emit(TypeCheck(PlaceTree(p, sib), addr))
         == Emit(TypeCheck(PlaceTree(p, Null), addr)) + Emit(TypeCheck(sib, false))
    ensures Nodes(PlaceTree(p, sib)) == PlaceSize(p) + Nodes(sib)
  {
    assert PlaceTree(p, Null).Node? && PlaceTree(p, sib) == PlaceTree(p, Null).(sibling := sib);
    NodeShape(PlaceTree(p, Null), sib, addr);
  }

  /** The type pass gives a node the type of its leftmost leaf. */
  lemma {:induction false} LeftmostType(e: Expr, sib: Node, addr: bool)
    ensures TypeCheck(Tree(e, sib), addr).dataType == if Typed(e) then Dword else Void
    decreases e, 1
  {
    match e
    case Const(_) =>
    case Function(_) =>
    case Load(p) => PlaceType(p, sib, addr);
    case AddressOf(p) => PlaceType(p, Null, true);
    case Assign(p, v) => PlaceType(p, Tree(v, Null), true);
    case Binary(_, l, r) => LeftmostType(l, Tree(r, Null), addr);
    case Not(e1) => LeftmostType(e1, Null, addr);
    case Increment(prefix, _, at) => assert TypeCheck(Fresh(IdVar(at), Null, Null), addr || prefix).dataType == Dword;
    case Call(f, args) => LeftmostType(f, ArgTree(args), addr);
  }

  lemma {:induction false} PlaceType(p: Place, sib: Node, addr: bool)
    ensures TypeCheck(PlaceTree(p, sib), addr).dataType == if TypedPlace(p) then Dword else Void
    decreases p, 0
  {
    if p.Target? { LeftmostType(p.pointer, Null, false); }
  }

  /** An operator's instruction is emitted exactly when its left operand is typed: the code of
      `f() + 1` for a system call f ends after loading 1, and leaves two values on the stack. */
  lemma OperatorEmittedIffTyped(op: BinOp, l: Expr, r: Expr)
    ensures Code(Binary(op, l, r)) == Code(l) + Code(r) + (if Typed(l) then [OpCode(op)] else [])
  {
    SiblingLast(l, Tree(r, Null));
    LeftmostType(l, Tree(r, Null), false);
    NodeShape(Tree(Binary(op, l, r), Null), Null, false);
  }

  lemma UnaryCode(e: Expr)
    ensures Code(Not(e)) == Code(e) + (if Typed(e) then [BITWISE] else [])
    ensures Code(Load(Target(e))) == Code(e) + (if Typed(e) then [LD_VALUE_STACK] else [])
    ensures Size(Not(e)) == 1 + Size(e)
  {
    LeftmostType(e, Null, false);
    NodeShape(Tree(Not(e), Null), Null, false);
    NodeShape(PlaceTree(Target(e), Null), Null, false);
  }

  lemma TargetCode(e: Expr)
    ensures PlaceCode(Target(e)) == Code(e) && PlaceSize(Target(e)) == 1 + Size(e)
  {
    NodeShape(PlaceTree(Target(e), Null), Null, true);
  }

  lemma AssignCode(p: Place, v: Expr)
    ensures Code(Assign(p, v)) == PlaceCode(p) + Code(v) + (if TypedPlace(p) then [ST_DWORD] + [LD_VALUE_STACK] else [])
    ensures Size(Assign(p, v)) == 1 + PlaceSize(p) + Size(v)
  {
    PlaceSibling(p, Tree(v, Null), true);
    PlaceType(p, Tree(v, Null), true);
    NodeShape(Tree(Assign(p, v), Null), Null, false);
  }

  lemma AddressCode(p: Place)
    ensures Code(AddressOf(p)) == PlaceCode(p)
  {
    NodeShape(Tree(AddressOf(p), Null), Null, false);
  }

  lemma {:induction false} ArgSiblings(args: Args)
    ensures Siblings(TypeCheck(ArgTree(args), false)) == Count(args)
  {
    if args.Arg? {
      SiblingLast(args.first, ArgTree(args.rest));
      ArgSiblings(args.rest);
    }
  }

  lemma NoArgsCode()
    ensures ArgCode(NoArgs) == [] && ArgsSize(NoArgs) == 0
  {
  }

  lemma CallCode(f: Expr, args: Args)
    ensures Code(Call(f, args)) == Code(f) + ArgCode(args) + ([SYSCALL] + [Count(args) % 256])
    ensures Size(Call(f, args)) == 1 + Size(f) + ArgsSize(args)
  {
    SiblingLast(f, ArgTree(args));
    ArgSiblings(args);
    NodeShape(Tree(Call(f, args), Null), Null, false);
  }

  lemma IncrementCode(prefix: bool, up: bool, at: Word)
    ensures Code(Increment(prefix, up, at)) ==
            if prefix then [LD_DWORD] + Set32(at) + Bump(at, up) + [LD_VALUE_STACK]
            else [LD_VALUE] + Set32(at) + ([LD_DWORD] + Set32(at) + Bump(at, up) + [POP])
  {
    LeafCode(at);
    NodeShape(Tree(Increment(prefix, up, at), Null), Null, false);
  }

  /** A variable loads its address where one is wanted, its value elsewhere. */
  lemma LeafCode(at: Word)
    ensures Code(Load(Variable(at))) == [LD_VALUE] + Set32(at)
    ensures PlaceCode(Variable(at)) == [LD_DWORD] + Set32(at)
    ensures Code(Const(at)) == Code(Function(at)) == [LD_DWORD] + Set32(at)
  {
    NodeShape(PlaceTree(Variable(at), Null), Null, false);
    NodeShape(PlaceTree(Variable(at), Null), Null, true);
    NodeShape(Tree(Const(at), Null), Null, false);
    NodeShape(Tree(Function(at), Null), Null, false);
  }

  // ---- single instructions ----

  ghost predicate CodeAt(text: seq<Byte>, pc: nat, c: seq<Byte>) {
    pc + |c| <= |text| && text[pc..pc + |c|] == c
  }

  lemma CodeSplit(text: seq<Byte>, pc: nat, a: seq<Byte>, b: seq<Byte>)
    requires CodeAt(text, pc, a + b)
    ensures CodeAt(text, pc, a) && CodeAt(text, pc + |a|, b)
  {
    assert text[pc..pc + |a|] == (a + b)[..|a|];
    assert text[pc + |a|..pc + |a + b|] == (a + b)[|a|..];
  }

  lemma ExecLoad(text: seq<Byte>, env: Env, st: State, op: Byte, v: Word)
    requires op == LD_DWORD || op == LD_VALUE
    requires CodeAt(text, st.pc, [op] + Set32(v)) && |st.stack| < STACK_MAX
    ensures Exec(text, env, st) ==
            Exec(text, env, State(st.stack + [if op == LD_DWORD then v else Load32(st.mem, v)], st.pc + 5, st.mem))
  {
    var c := text[st.pc..st.pc + 5];
    assert c == [op] + Set32(v);
    OperandRoundTrip(v, 0, 0, 0, 0);
    assert text[st.pc] == c[0] == op;
    assert forall i :: 0 <= i < 4 ==> text[st.pc + 1 + i] == c[1 + i] == Set32(v)[i];
    assert Operand(text, st.pc + 1) == v;
  }

  lemma ExecOne(text: seq<Byte>, env: Env, st: State, op: Byte)
    requires CodeAt(text, st.pc, [op])
    ensures text[st.pc] == op
    ensures Exec(text, env, st) ==
            match Step(text, env, st) case Fault => Fault case Ok(s) => Exec(text, env, s)
  {
    assert text[st.pc..st.pc + 1][0] == op;
  }

  lemma ExecPop(text: seq<Byte>, env: Env, stk: seq<Word>, v: Word, pc: nat, m: Mem)
    requires CodeAt(text, pc, [POP])
    ensures Exec(text, env, State(stk + [v], pc, m)) == Exec(text, env, State(stk, pc + 1, m))
  {
    ExecOne(text, env, State(stk + [v], pc, m), POP);
    assert (stk + [v])[..|stk|] == stk;
  }

  lemma ExecDeref(text: seq<Byte>, env: Env, stk: seq<Word>, v: Word, pc: nat, m: Mem)
    requires CodeAt(text, pc, [LD_VALUE_STACK])
    ensures Exec(text, env, State(stk + [v], pc, m)) == Exec(text, env, State(stk + [Load32(m, v)], pc + 1, m))
  {
    ExecOne(text, env, State(stk + [v], pc, m), LD_VALUE_STACK);
    assert (stk + [v])[..|stk|] == stk;
  }

  lemma ExecNot(text: seq<Byte>, env: Env, stk: seq<Word>, v: Word, pc: nat, m: Mem)
    requires CodeAt(text, pc, [BITWISE])
    ensures Exec(text, env, State(stk + [v], pc, m)) == Exec(text, env, State(stk + [Complement(v)], pc + 1, m))
  {
    ExecOne(text, env, State(stk + [v], pc, m), BITWISE);
    assert (stk + [v])[..|stk|] == stk;
  }

  lemma ExecStore(text: seq<Byte>, env: Env, stk: seq<Word>, a: Word, v: Word, pc: nat, m: Mem)
    requires CodeAt(text, pc, [ST_DWORD])
    ensures Exec(text, env, State(stk + [a] + [v], pc, m)) == Exec(text, env, State(stk + [a], pc + 1, Store32(m, a, v)))
  {
    ExecOne(text, env, State(stk + [a] + [v], pc, m), ST_DWORD);
    assert (stk + [a] + [v])[..|stk| + 1] == stk + [a];
  }

  lemma ExecBinary(text: seq<Byte>, env: Env, op: BinOp, stk: seq<Word>, a: Word, b: Word, pc: nat, m: Mem)
    requires CodeAt(text, pc, [OpCode(op)])
    ensures Exec(text, env, State(stk + [a] + [b], pc, m)) ==
            match Alu(op, a, b) case None => Fault case Some(v) => Exec(text, env, State(stk + [v], pc + 1, m))
  {
    hide Alu;
    var st := State(stk + [a] + [b], pc, m);
    ExecOne(text, env, st, OpCode(op));
    assert Decode(OpCode(op)) == Some(op);
    assert Step(text, env, st) == FinshMachine.Binary(op, st.(pc := pc + 1));
    assert (stk + [a] + [b])[..|stk|] == stk;
  }

  lemma ExecCall(text: seq<Byte>, env: Env, stk: seq<Word>, f: Word, vs: seq<Word>, pc: nat, m: Mem)
    requires |vs| <= ARGS_MAX
    requires CodeAt(text, pc, [SYSCALL] + [|vs|])
    ensures Exec(text, env, State(stk + [f] + vs, pc, m)) ==
            var (r, m1) := env(f, Passed(vs), m); Exec(text, env, State(stk + [r], pc + 2, m1))
  {
    var st := State(stk + [f] + vs, pc, m);
    CodeSplit(text, pc, [SYSCALL], [|vs|]);
    ExecOne(text, env, st, SYSCALL);
    assert text[pc + 1..pc + 2][0] == |vs|;
    assert Step(text, env, st) == FinshMachine.Call(env, st.(pc := pc + 2), |vs|);
    assert st.stack[|stk| + 1..] == vs && st.stack[..|stk|] == stk && st.stack[|stk|] == f;
  }

  // ---- simulation ----

  /** Running Code(e) from a stack with room for 2 * Size(e) cells. */
  ghost predicate Simulates(text: seq<Byte>, env: Env, stk: seq<Word>, pc: nat, m: Mem, r: Value, len: nat) {
    Exec(text, env, State(stk, pc, m)) ==
    match r case Trap => Fault case Val(v, m1) => Exec(text, env, State(stk + [v], pc + len, m1))
  }

  lemma SimulateIncrement(text: seq<Byte>, env: Env, e: Expr, stk: seq<Word>, pc: nat, m: Mem)
    requires e.Increment? && CodeAt(text, pc, Code(e)) && |stk| + 4 <= STACK_MAX
    ensures Simulates(text, env, stk, pc, m, Eval(e, env, m), |Code(e)|)
  {
    hide Exec, Emit, TypeCheck, Alu, Load32, Store32, Set32, Wrap, CodeAt;
    IncrementCode(e.prefix, e.up, e.at);
    if e.prefix { SimulatePrefix(text, env, e.up, e.at, stk, pc, m); } else { SimulatePostfix(text, env, e.up, e.at, stk, pc, m); }
  }

  function Changed(m: Mem, a: Word, up: bool): Word {
    Wrap(if up then Load32(m, a) + 1 else Load32(m, a) - 1)
  }

  lemma SimulatePrefix(text: seq<Byte>, env: Env, up: bool, a: Word, stk: seq<Word>, pc: nat, m: Mem)
    requires CodeAt(text, pc, [LD_DWORD] + Set32(a) + Bump(a, up) + [LD_VALUE_STACK]) && |stk| + 4 <= STACK_MAX
    ensures Exec(text, env, State(stk, pc, m)) ==
            Exec(text, env, State(stk + [Changed(m, a, up)], pc + 18, Store32(m, a, Changed(m, a, up))))
  {
    hide Exec, Alu, Load32, Store32, Set32, Wrap, CodeAt;
    var after := Changed(m, a, up);
    LoadAfterStore(m, a, after);
    CodeSplit(text, pc, [LD_DWORD] + Set32(a) + Bump(a, up), [LD_VALUE_STACK]);
    CodeSplit(text, pc, [LD_DWORD] + Set32(a), Bump(a, up));
    ExecLoad(text, env, State(stk, pc, m), LD_DWORD, a);
    SimulateBump(text, env, a, up, stk, pc + 5, m);
    ExecDeref(text, env, stk, a, pc + 17, Store32(m, a, after));
  }

  lemma SimulatePostfix(text: seq<Byte>, env: Env, up: bool, a: Word, stk: seq<Word>, pc: nat, m: Mem)
    requires CodeAt(text, pc, [LD_VALUE] + Set32(a) + ([LD_DWORD] + Set32(a) + Bump(a, up) + [POP])) && |stk| + 4 <= STACK_MAX
    ensures Exec(text, env, State(stk, pc, m)) ==
            Exec(text, env, State(stk + [Load32(m, a)], pc + 23, Store32(m, a, Changed(m, a, up))))
  {
    hide Exec, Alu, Load32, Store32, Set32, Wrap, CodeAt;
    var before: int := Load32(m, a);
    CodeSplit(text, pc, [LD_VALUE] + Set32(a), [LD_DWORD] + Set32(a) + Bump(a, up) + [POP]);
    CodeSplit(text, pc + 5, [LD_DWORD] + Set32(a) + Bump(a, up), [POP]);
    CodeSplit(text, pc + 5, [LD_DWORD] + Set32(a), Bump(a, up));
    ExecLoad(text, env, State(stk, pc, m), LD_VALUE, a);
    ExecLoad(text, env, State(stk + [before], pc + 5, m), LD_DWORD, a);
    SimulateBump(text, env, a, up, stk + [before], pc + 10, m);
    ExecPop(text, env, stk + [before], a, pc + 22, Store32(m, a, Changed(m, a, up)));
  }

  lemma AluStep(v: Word, up: bool)
    ensures Alu(if up then Add else Sub, v, 1) == Some(Wrap(if up then v + 1 as int else v - 1 as int))
  {
  }

  lemma SimulateBump(text: seq<Byte>, env: Env, a: Word, up: bool, stk: seq<Word>, pc: nat, m: Mem)
    requires CodeAt(text, pc, Bump(a, up)) && |stk| + 3 <= STACK_MAX
    ensures Exec(text, env, State(stk + [a], pc, m)) == Exec(text, env, State(stk + [a], pc + 12, Store32(m, a, Changed(m, a, up))))
  {
    hide Exec, Emit, TypeCheck, Alu, Load32, Store32, Set32, Wrap;
    var v, op := Load32(m, a), if up then Add else Sub;
    AluStep(v, up);
    var c := [LD_VALUE] + Set32(a) + [LD_DWORD] + Set32(1);
    CodeSplit(text, pc, c + [OpCode(op)], [ST_DWORD]);
    CodeSplit(text, pc, c, [OpCode(op)]);
    assert c == ([LD_VALUE] + Set32(a)) + ([LD_DWORD] + Set32(1));
    CodeSplit(text, pc, [LD_VALUE] + Set32(a), [LD_DWORD] + Set32(1));
    ExecLoad(text, env, State(stk + [a], pc, m), LD_VALUE, a);
    ExecLoad(text, env, State(stk + [a] + [v], pc + 5, m), LD_DWORD, 1);
    ExecBinary(text, env, op, stk + [a], v, 1, pc + 10, m);
    ExecStore(text, env, stk, a, Alu(op, v, 1).value, pc + 11, m);
  }

  /** Compiler correctness for one expression in any context. */
  lemma {:induction false} Simulate(text: seq<Byte>, env: Env, e: Expr, stk: seq<Word>, pc: nat, m: Mem)
    requires WellTyped(e) && CodeAt(text, pc, Code(e)) && |stk| + 2 * Size(e) <= STACK_MAX
    ensures Simulates(text, env, stk, pc, m, Eval(e, env, m), |Code(e)|)
    decreases e, 1
  {
    hide Exec, Emit, TypeCheck, Alu, Load32, Store32, Set32, Wrap;
    SiblingLast(e, Null);
    match e
    case Const(v) => LeafCode(v); ExecLoad(text, env, State(stk, pc, m), LD_DWORD, v);
    case Function(f) => LeafCode(f); ExecLoad(text, env, State(stk, pc, m), LD_DWORD, f);
    case Load(p) => SimulateLoad(text, env, p, stk, pc, m);
    case AddressOf(p) =>
      AddressCode(p);
      SimulatePlace(text, env, p, stk, pc, m);
    case Not(e1) =>
      UnaryCode(e1);
      CodeSplit(text, pc, Code(e1), [BITWISE]);
      Simulate(text, env, e1, stk, pc, m);
      var r := Eval(e1, env, m);
      if r.Val? { ExecNot(text, env, stk, r.v, pc + |Code(e1)|, r.mem); }
    case Binary(op, l, r) => SimulateBinary(text, env, op, l, r, stk, pc, m);
    case Assign(p, v) => SimulateAssign(text, env, p, v, stk, pc, m);
    case Increment(_, _, _) => SimulateIncrement(text, env, e, stk, pc, m);
    case Call(f, args) => SimulateCall(text, env, f, args, stk, pc, m);
  }

  lemma {:induction false} SimulateLoad(text: seq<Byte>, env: Env, p: Place, stk: seq<Word>, pc: nat, m: Mem)
    requires TypedPlace(p) && WellTypedPlace(p) && CodeAt(text, pc, Code(Load(p))) && |stk| + 2 * PlaceSize(p) <= STACK_MAX
    ensures Simulates(text, env, stk, pc, m, Eval(Load(p), env, m), |Code(Load(p))|)
    decreases p, 2
  {
    hide Exec, Emit, TypeCheck, Alu, Load32, Store32, Set32, Wrap;
    match p
    case Variable(a) => LeafCode(a); ExecLoad(text, env, State(stk, pc, m), LD_VALUE, a);
    case Target(e) =>
      UnaryCode(e);
      TargetCode(e);
      CodeSplit(text, pc, Code(e), [LD_VALUE_STACK]);
      Simulate(text, env, e, stk, pc, m);
      var r := Eval(e, env, m);
      if r.Val? { ExecDeref(text, env, stk, r.v, pc + |Code(e)|, r.mem); }
  }

  lemma {:induction false} SimulatePlace(text: seq<Byte>, env: Env, p: Place, stk: seq<Word>, pc: nat, m: Mem)
    requires WellTypedPlace(p) && CodeAt(text, pc, PlaceCode(p)) && |stk| + 2 * PlaceSize(p) <= STACK_MAX
    ensures Simulates(text, env, stk, pc, m, EvalPlace(p, env, m), |PlaceCode(p)|)
    decreases p, 0
  {
    hide Exec, Emit, TypeCheck, Alu, Load32, Store32, Set32, Wrap;
    match p
    case Variable(a) => LeafCode(a); ExecLoad(text, env, State(stk, pc, m), LD_DWORD, a);
    case Target(e) =>
      TargetCode(e);
      Simulate(text, env, e, stk, pc, m);
  }

  lemma {:induction false} SimulateBinary(text: seq<Byte>, env: Env, op: BinOp, l: Expr, r: Expr,
                                          stk: seq<Word>, pc: nat, m: Mem)
    requires var e := Expr.Binary(op, l, r);
             WellTyped(e) && CodeAt(text, pc, Code(e)) && |stk| + 2 * Size(e) <= STACK_MAX
    ensures var e := Expr.Binary(op, l, r); Simulates(text, env, stk, pc, m, Eval(e, env, m), |Code(e)|)
    decreases Expr.Binary(op, l, r), 0
  {
    hide Exec, Emit, TypeCheck, Alu, Load32, Store32, Set32, Wrap;
    OperatorEmittedIffTyped(op, l, r);
    SiblingLast(l, Tree(r, Null));
    CodeSplit(text, pc, Code(l) + Code(r), [OpCode(op)]);
    CodeSplit(text, pc, Code(l), Code(r));
    Simulate(text, env, l, stk, pc, m);
    var a := Eval(l, env, m);
    if a.Val? {
      Simulate(text, env, r, stk + [a.v], pc + |Code(l)|, a.mem);
      var b := Eval(r, env, a.mem);
      if b.Val? { ExecBinary(text, env, op, stk, a.v, b.v, pc + |Code(l)| + |Code(r)|, b.mem); }
    }
  }

  lemma {:induction false} SimulateAssign(text: seq<Byte>, env: Env, p: Place, v: Expr, stk: seq<Word>, pc: nat, m: Mem)
    requires var e := Assign(p, v);
             WellTyped(e) && CodeAt(text, pc, Code(e)) && |stk| + 2 * Size(e) <= STACK_MAX
    ensures var e := Assign(p, v); Simulates(text, env, stk, pc, m, Eval(e, env, m), |Code(e)|)
    decreases Assign(p, v), 0
  {
    hide Exec, Emit, TypeCheck, Alu, Load32, Store32, Set32, Wrap;
    AssignCode(p, v);
    PlaceSibling(p, Tree(v, Null), true);
    var c := PlaceCode(p) + Code(v);
    assert c + ([ST_DWORD] + [LD_VALUE_STACK]) == c + [ST_DWORD] + [LD_VALUE_STACK];
    CodeSplit(text, pc, c + [ST_DWORD], [LD_VALUE_STACK]);
    CodeSplit(text, pc, c, [ST_DWORD]);
    CodeSplit(text, pc, PlaceCode(p), Code(v));
    SimulatePlace(text, env, p, stk, pc, m);
    var a := EvalPlace(p, env, m);
    if a.Val? {
      Simulate(text, env, v, stk + [a.v], pc + |PlaceCode(p)|, a.mem);
      var b := Eval(v, env, a.mem);
      if b.Val? {
        ExecStore(text, env, stk, a.v, b.v, pc + |c|, b.mem);
        ExecDeref(text, env, stk, a.v, pc + |c| + 1, Store32(b.mem, a.v, b.v));
        LoadAfterStore(b.mem, a.v, b.v);
      }
    }
  }

  lemma {:induction false} SimulateCall(text: seq<Byte>, env: Env, f: Expr, args: Args, stk: seq<Word>, pc: nat, m: Mem)
    requires var e := Expr.Call(f, args);
             WellTyped(e) && CodeAt(text, pc, Code(e)) && |stk| + 2 * Size(e) <= STACK_MAX
    ensures var e := Expr.Call(f, args); Simulates(text, env, stk, pc, m, Eval(e, env, m), |Code(e)|)
    decreases Expr.Call(f, args), 0
  {
    hide Exec, Emit, TypeCheck, Alu, Load32, Store32, Set32, Wrap;
    CallCode(f, args);
    SiblingLast(f, ArgTree(args));
    var c := Code(f) + ArgCode(args);
    var tail := [SYSCALL] + [Count(args)];
    assert Code(Expr.Call(f, args)) == c + tail;
    CodeSplit(text, pc, c, tail);
    CodeSplit(text, pc, Code(f), ArgCode(args));
    Simulate(text, env, f, stk, pc, m);
    var a := Eval(f, env, m);
    if a.Val? {
      SimulateArgs(text, env, args, stk + [a.v], pc + |Code(f)|, a.mem);
      var b := EvalArgs(args, env, a.mem);
      if b.Vals? { ExecCall(text, env, stk, a.v, b.vs, pc + |c|, b.mem); }
    }
  }

  lemma {:induction false} SimulateArgs(text: seq<Byte>, env: Env, args: Args, stk: seq<Word>, pc: nat, m: Mem)
    requires WellTypedArgs(args) && CodeAt(text, pc, ArgCode(args)) && |stk| + 2 * ArgsSize(args) <= STACK_MAX
    ensures var r := EvalArgs(args, env, m);
            && Exec(text, env, State(stk, pc, m)) ==
               (match r case TrapAll => Fault
                        case Vals(vs, m1) => Exec(text, env, State(stk + vs, pc + |ArgCode(args)|, m1)))
            && (r.Vals? ==> |r.vs| == Count(args))
    decreases args, 0
  {
    hide Exec, Emit, TypeCheck, Alu, Load32, Store32, Set32, Wrap;
    match args
    case NoArgs =>
      NoArgsCode();
      assert stk + [] == stk;
    case Arg(e, rest) =>
      SiblingLast(e, ArgTree(rest));
      CodeSplit(text, pc, Code(e), ArgCode(rest));
      Simulate(text, env, e, stk, pc, m);
      var a := Eval(e, env, m);
      if a.Val? {
        SimulateArgs(text, env, rest, stk + [a.v], pc + |Code(e)|, a.mem);
        var b := EvalArgs(rest, env, a.mem);
        if b.Vals? { assert stk + [a.v] + b.vs == stk + ([a.v] + b.vs); }
      }
  }

  // ---- whole statement lists ----

  function ListCode(es: seq<Expr>): seq<Byte> { EmitList(TypeCheck(ListTree(es), false)) }

  lemma ListCodeStep(es: seq<Expr>)
    requires es != []
    ensures ListCode(es) == Code(es[0]) + (if |es| == 1 then [] else [POP] + ListCode(es[1..]))
    ensures Nodes(ListTree(es)) == Size(es[0]) + Nodes(ListTree(es[1..]))
  {
    var e, rest := es[0], ListTree(es[1..]);
    SiblingLast(e, rest);
    if |es| > 1 { SiblingLast(es[1], ListTree(es[1..][1..])); }
  }

  /** A statement, POP, and the statements after it. */
  lemma Chain(text: seq<Byte>, env: Env, pc: nat, m: Mem, r: Value, n: nat, r2: Value, n2: nat)
    requires Simulates(text, env, [], pc, m, r, n) && CodeAt(text, pc + n, [POP])
    requires r.Val? ==> Simulates(text, env, [], pc + n + 1, r.mem, r2, n2)
    ensures Simulates(text, env, [], pc, m, if r.Trap? then Trap else r2, n + 1 + n2)
  {
    hide Exec;
    if r.Val? { ExecPop(text, env, [], r.v, pc + n, r.mem); }
  }

  lemma {:induction false} SimulateList(text: seq<Byte>, env: Env, es: seq<Expr>, pc: nat, m: Mem)
    requires es != [] && (forall e :: e in es ==> WellTyped(e))
    requires CodeAt(text, pc, ListCode(es)) && 2 * Nodes(ListTree(es)) <= STACK_MAX
    ensures Simulates(text, env, [], pc, m, EvalAll(es, env, m), |ListCode(es)|)
  {
    hide Simulates, Exec, Code, ListCode, ListTree, Nodes, Eval, WellTyped;
    ListCodeStep(es);
    var c, r := Code(es[0]), Eval(es[0], env, m);
    if |es| == 1 {
      assert ListCode(es) == c;
      Simulate(text, env, es[0], [], pc, m);
    } else {
      CodeSplit(text, pc, c, [POP] + ListCode(es[1..]));
      CodeSplit(text, pc + |c|, [POP], ListCode(es[1..]));
      Simulate(text, env, es[0], [], pc, m);
      if r.Val? {
        SimulateList(text, env, es[1..], pc + |c| + 1, r.mem);
        Chain(text, env, pc, m, r, |c|, EvalAll(es[1..], env, r.mem), |ListCode(es[1..])|);
      } else {
        Chain(text, env, pc, m, r, |c|, Trap, |ListCode(es[1..])|);
      }
    }
  }

  lemma {:induction false} NoopTail(text: seq<Byte>, env: Env, st: State)
    requires st.pc <= |text| && forall i :: st.pc <= i < |text| ==> text[i] == NOOP
    ensures Exec(text, env, st) == Ok(st.(pc := |text|))
    decreases |text| - st.pc
  {
    if st.pc < |text| { NoopTail(text, env, st.(pc := st.pc + 1)); }
  }

  /** The text segment after finsh_compiler_run: the code, then the cleared bytes. */
  function Segment(code: seq<Byte>): (text: seq<Byte>)
    requires |code| <= TEXT_MAX
    ensures |text| == TEXT_MAX
  {
    code + seq(TEXT_MAX - |code|, _ => NOOP)
  }

  /** Running a compiled statement list of at most 16 nodes performs exactly the effects of
      the statements in order and leaves the last value alone at the stack bottom; it stops
      early only where the direct evaluation is undefined. */
  lemma CompilerCorrect(es: seq<Expr>, env: Env, m: Mem)
    requires es != [] && (forall e :: e in es ==> WellTyped(e))
    requires Nodes(ListTree(es)) <= 16 && |ListCode(es)| <= TEXT_MAX
    ensures Exec(Segment(ListCode(es)), env, State([], 0, m)) ==
            match EvalAll(es, env, m)
            case Trap => Fault
            case Val(v, m1) => Ok(State([v], TEXT_MAX, m1))
  {
    var c := ListCode(es);
    var text := Segment(c);
    assert text[0..|c|] == c;
    SimulateList(text, env, es, 0, m);
    var r := EvalAll(es, env, m);
    if r.Val? {
      assert [] + [r.v] == [r.v];
      NoopTail(text, env, State([r.v], |c|, r.mem));
    }
  }

  lemma AtStart(c: seq<Byte>)
    requires |c| <= TEXT_MAX
    ensures CodeAt(Segment(c), 0, c)
  {
    assert Segment(c)[0..|c|] == c;
  }

  /** Code of two operands without their operator: both values stay on the stack. */
  lemma TwoValues(l: Expr, r: Expr, env: Env, m: Mem)
    requires WellTyped(l) && WellTyped(r) && Size(l) + Size(r) <= 16 && |Code(l) + Code(r)| <= TEXT_MAX
    requires var a := Eval(l, env, m); a.Val? && Eval(r, env, a.mem).Val?
    ensures var a := Eval(l, env, m); var b := Eval(r, env, a.mem);
            Exec(Segment(Code(l) + Code(r)), env, State([], 0, m)) == Ok(State([a.v, b.v], TEXT_MAX, b.mem))
  {
    hide Exec, Eval, Code, Nodes, WellTyped, Tree, CodeAt;
    var c := Code(l) + Code(r);
    var text := Segment(c);
    AtStart(c);
    SiblingLast(l, Null);
    CodeSplit(text, 0, Code(l), Code(r));
    Simulate(text, env, l, [], 0, m);
    var a := Eval(l, env, m);
    assert [] + [a.v] == [a.v];
    Simulate(text, env, r, [a.v], |Code(l)|, a.mem);
    var b := Eval(r, env, a.mem);
    assert [a.v] + [b.v] == [a.v, b.v];
    NoopTail(text, env, State([a.v, b.v], |c|, b.mem));
  }

  /** One well-typed expression alone. */
  lemma OneValue(e: Expr, env: Env, m: Mem)
    requires WellTyped(e) && Size(e) <= 16 && |Code(e)| <= TEXT_MAX && Eval(e, env, m).Val?
    ensures Exec(Segment(Code(e)), env, State([], 0, m)) == Ok(State([Eval(e, env, m).v], TEXT_MAX, Eval(e, env, m).mem))
  {
    hide Exec, Alu, TypeCheck, Emit;
    assert [e][1..] == [];
    ListCodeStep([e]);
    CompilerCorrect([e], env, m);
    assert ListCode([e]) == Code(e);
  }

  /** The machine ends as the evaluator says: its value alone on the stack. */
  ghost predicate RunsRight(e: Expr, env: Env, m: Mem)
    requires Eval(e, env, m).Val? && |Code(e)| <= TEXT_MAX
  {
    Exec(Segment(Code(e)), env, State([], 0, m)) == Ok(State([Eval(e, env, m).v], TEXT_MAX, Eval(e, env, m).mem))
  }

  /** Two operands of the fragment joined by an operator end with the evaluator's result, alone on the
      stack, exactly when the left one is typed; otherwise both operands stay there. */
  lemma OperatorCorrectIffTyped(op: BinOp, l: Expr, r: Expr, env: Env, m: Mem)
    requires WellTyped(l) && WellTyped(r)
    requires var e := Expr.Binary(op, l, r); Size(e) <= 16 && |Code(e)| <= TEXT_MAX && Eval(e, env, m).Val?
    ensures RunsRight(Expr.Binary(op, l, r), env, m) <==> Typed(l)
  {
    hide Exec, Alu, TypeCheck, Emit;
    var e := Expr.Binary(op, l, r);
    SiblingLast(l, Tree(r, Null));
    OperatorEmittedIffTyped(op, l, r);
    if Typed(l) {
      OneValue(e, env, m);
    } else {
      assert Code(e) == Code(l) + Code(r);
      TwoValues(l, r, env, m);
    }
  }

  /** The complement, whose instruction is missing behind an untyped operand, is never its operand. */
  lemma NotCorrectIffTyped(x: Expr, env: Env, m: Mem)
    requires WellTyped(x) && Size(Not(x)) <= 16 && |Code(Not(x))| <= TEXT_MAX && Eval(Not(x), env, m).Val?
    ensures RunsRight(Not(x), env, m) <==> Typed(x)
  {
    hide Exec, Alu, TypeCheck, Emit;
    UnaryCode(x);
    if Typed(x) {
      OneValue(Not(x), env, m);
    } else {
      assert Code(Not(x)) == Code(x);
      OneValue(x, env, m);
    }
  }

  /** What an untyped pointer points to is not loaded, which is right only where it points to its own value. */
  lemma LoadCorrectIff(x: Expr, env: Env, m: Mem)
    requires WellTyped(x) && Size(x) < 16 && |Code(Load(Target(x)))| <= TEXT_MAX && Eval(x, env, m).Val?
    ensures var a := Eval(x, env, m); RunsRight(Load(Target(x)), env, m) <==> Typed(x) || Load32(a.mem, a.v) == a.v
  {
    hide Exec, Alu, TypeCheck, Emit, Load32;
    UnaryCode(x);
    TargetCode(x);
    LoadSize(x);
    if Typed(x) {
      OneValue(Load(Target(x)), env, m);
    } else {
      assert Code(Load(Target(x))) == Code(x);
      OneValue(x, env, m);
      var a := Eval(x, env, m);
      assert Eval(Load(Target(x)), env, m) == Val(Load32(a.mem, a.v), a.mem);
      assert [Load32(a.mem, a.v)][0] == Load32(a.mem, a.v);
    }
  }

  lemma LoadSize(x: Expr)
    ensures Size(Load(Target(x))) == 1 + Size(x)
  {
    TargetCode(x);
    assert Size(Load(Target(x))) == PlaceSize(Target(x));
  }

  /** Nothing is stored through an untyped pointer. */
  lemma AssignCorrectIffTyped(p: Place, v: Expr, env: Env, m: Mem)
    requires WellTypedPlace(p) && WellTyped(v)
    requires var e := Assign(p, v); Size(e) <= 16 && |Code(e)| <= TEXT_MAX && Eval(e, env, m).Val?
    ensures RunsRight(Assign(p, v), env, m) <==> TypedPlace(p)
  {
    hide Exec, Alu, TypeCheck, Emit, Store32;
    AssignCode(p, v);
    if TypedPlace(p) {
      OneValue(Assign(p, v), env, m);
    } else {
      TargetCode(p.pointer);
      assert Code(Assign(p, v)) == Code(p.pointer) + Code(v);
      TwoValues(p.pointer, v, env, m);
    }
  }
}
