/** FinSH syntax: the expressions of the language with their direct meaning, and the
    child/sibling node trees that the parser builds from them. */
module FinshSyntax {
  import opened Options
  import opened FinshMachine

  /** An assignable place: a shell or system variable, or what a pointer points to. */
  datatype Place = Variable(at: Word) | Target(pointer: Expr)

  datatype Expr =
    | Const(v: Word)
    | Load(place: Place)
    | Function(entry: Word)
    | Binary(op: BinOp, left: Expr, right: Expr)
    | Not(e: Expr)
    | Assign(dest: Place, value: Expr)
    | AddressOf(place: Place)
    | Increment(prefix: bool, up: bool, at: Word)
    | Call(callee: Expr, args: Args)

  datatype Args = NoArgs | Arg(first: Expr, rest: Args)

  // ---- direct meaning ----

  datatype Value = Val(v: Word, mem: Mem) | Trap
  datatype Values = Vals(vs: seq<Word>, mem: Mem) | TrapAll

  function Eval(e: Expr, env: Env, m: Mem): Value
    decreases e, 1
  {
    match e
    case Const(v) => Val(v, m)
    case Function(entry) => Val(entry, m)
    case Load(place) => (
      match EvalPlace(place, env, m)
      case Trap => Trap
      case Val(a, m1) => Val(Load32(m1, a), m1))
    case AddressOf(place) => EvalPlace(place, env, m)
    case Binary(op, l, r) => (
      match Eval(l, env, m)
      case Trap => Trap
      case Val(a, m1) =>
        match Eval(r, env, m1)
        case Trap => Trap
        case Val(b, m2) =>
          match Alu(op, a, b)
          case None => Trap
          case Some(v) => Val(v, m2))
    case Not(e1) => (
      match Eval(e1, env, m)
      case Trap => Trap
      case Val(v, m1) => Val(Complement(v), m1))
    case Assign(dest, value) => (
      match EvalPlace(dest, env, m)
      case Trap => Trap
      case Val(a, m1) =>
        match Eval(value, env, m1)
        case Trap => Trap
        case Val(v, m2) => Val(v, Store32(m2, a, v)))
    case Increment(prefix, up, at) =>
      var before := Load32(m, at);
      var after := Wrap(if up then before + 1 else before - 1);
      Val(if prefix then after else before, Store32(m, at, after))
    case Call(callee, args) =>
      match Eval(callee, env, m)
      case Trap => Trap
      case Val(f, m1) =>
        match EvalArgs(args, env, m1)
        case TrapAll => Trap
        case Vals(vs, m2) =>
          var (r, m3) := env(f, if vs == [] then [0] else vs, m2);
          Val(r, m3)
  }

  function EvalPlace(p: Place, env: Env, m: Mem): Value
    decreases p, 0
  {
    match p
    case Variable(at) => Val(at, m)
    case Target(pointer) => Eval(pointer, env, m)
  }

  function EvalArgs(args: Args, env: Env, m: Mem): Values
    decreases args, 0
  {
    match args
    case NoArgs => Vals([], m)
    case Arg(e, rest) =>
      match Eval(e, env, m)
      case Trap => TrapAll
      case Val(v, m1) =>
        match EvalArgs(rest, env, m1)
        case TrapAll => TrapAll
        case Vals(vs, m2) => Vals([v] + vs, m2)
  }

  /** A statement list: effects in order, the value of the last statement. */
  function EvalAll(es: seq<Expr>, env: Env, m: Mem): Value
    requires es != []
  {
    if |es| == 1 then Eval(es[0], env, m)
    else match Eval(es[0], env, m)
      case Trap => Trap
      case Val(_, m1) => EvalAll(es[1..], env, m1)
  }

  // ---- which expressions the DWORD code generator handles ----

  /** The leftmost leaf is typed: it is not the name of a system call. */
  predicate Typed(e: Expr)
    decreases e, 1
  {
    match e
    case Const(_) => true
    case Function(_) => false
    case Load(p) => TypedPlace(p)
    case AddressOf(p) => TypedPlace(p)
    case Assign(p, _) => TypedPlace(p)
    case Binary(_, l, _) => Typed(l)
    case Not(e1) => Typed(e1)
    case Increment(_, _, _) => true
    case Call(f, _) => Typed(f)
  }

  predicate TypedPlace(p: Place)
    decreases p, 0
  {
    p.Target? ==> Typed(p.pointer)
  }

  /** Every operator, dereference and store has a typed leftmost leaf, and calls take at most 16 arguments. */
  predicate WellTyped(e: Expr)
    decreases e, 1
  {
    match e
    case Const(_) => true
    case Function(_) => true
    case Load(p) => TypedPlace(p) && WellTypedPlace(p)
    case AddressOf(p) => WellTypedPlace(p)
    case Assign(p, v) => TypedPlace(p) && WellTypedPlace(p) && WellTyped(v)
    case Binary(_, l, r) => Typed(l) && WellTyped(l) && WellTyped(r)
    case Not(e1) => Typed(e1) && WellTyped(e1)
    case Increment(_, _, _) => true
    case Call(f, args) => WellTyped(f) && WellTypedArgs(args) && Count(args) <= ARGS_MAX
  }

  predicate WellTypedPlace(p: Place)
    decreases p, 0
  {
    p.Target? ==> WellTyped(p.pointer)
  }

  predicate WellTypedArgs(args: Args)
    decreases args, 0
  {
    args.Arg? ==> WellTyped(args.first) && WellTypedArgs(args.rest)
  }

  function Count(args: Args): nat {
    if args.NoArgs? then 0 else 1 + Count(args.rest)
  }

  // ---- parser trees ----

  datatype DataType = Void | Dword

  datatype Kind =
    | IdVar(at: Word) | IdCall(entry: Word) | Number(v: Word)
    | Op(op: BinOp) | Bitwise | Func | Assigns
    | PreInc | PreDec | Inc | Dec | GetValue | GetAddr

  /** finsh_node: isAddr is the ADDRESS bit of idtype. */
  datatype Node = Null | Node(kind: Kind, isAddr: bool, dataType: DataType, child: Node, sibling: Node)

  function Fresh(kind: Kind, child: Node, sibling: Node): Node {
    Node(kind, false, Void, child, sibling)
  }

  /** The tree built for an expression, linked to a following sibling. */
  function Tree(e: Expr, sib: Node): (n: Node)
    ensures n.Node? && n.sibling == sib
    decreases e, 1
  {
    match e
    case Const(v) => Fresh(Number(v), Null, sib)
    case Function(entry) => Fresh(IdCall(entry), Null, sib)
    case Load(p) => PlaceTree(p, sib)
    case AddressOf(p) => Fresh(GetAddr, PlaceTree(p, Null), sib)
    case Assign(p, v) => Fresh(Assigns, PlaceTree(p, Tree(v, Null)), sib)
    case Binary(op, l, r) => Fresh(Op(op), Tree(l, Tree(r, Null)), sib)
    case Not(e1) => Fresh(Bitwise, Tree(e1, Null), sib)
    case Increment(prefix, up, at) =>
      var kind := if prefix then (if up then PreInc else PreDec) else (if up then Inc else Dec);
      Fresh(kind, Fresh(IdVar(at), Null, Null), sib)
    case Call(f, args) => Fresh(Func, Tree(f, ArgTree(args)), sib)
  }

  function PlaceTree(p: Place, sib: Node): (n: Node)
    ensures n.Node? && n.sibling == sib
    decreases p, 0
  {
    match p
    case Variable(at) => Fresh(IdVar(at), Null, sib)
    case Target(pointer) => Fresh(GetValue, Tree(pointer, Null), sib)
  }

  function ArgTree(args: Args): Node
    decreases args, 0
  {
    match args
    case NoArgs => Null
    case Arg(e, rest) => Tree(e, ArgTree(rest))
  }

  function ListTree(es: seq<Expr>): Node {
    if es == [] then Null else Tree(es[0], ListTree(es[1..]))
  }

  /** Number of nodes in a tree and its siblings. */
  function Nodes(n: Node): nat {
    if n.Null? then 0 else 1 + Nodes(n.child) + Nodes(n.sibling)
  }
}

/** The two passes of the FinSH compiler over node trees. */
module FinshCompiler {
  import opened Options
  import opened FinshMachine
  import opened FinshSyntax

  /** finsh_type_check: marks the nodes whose address is wanted and lets every inner
      node inherit the data type of its first child. */
  function TypeCheck(n: Node, isAddr: bool): (r: Node)
    ensures r.Null? <==> n.Null?
  {
    match n
    case Null => Null
    case Node(kind, flag, dataType, child, sibling) =>
      var forChild :=
        if kind in {Assigns, PreInc, PreDec, GetAddr} then true
        else if kind == GetValue && isAddr then false
        else isAddr;
      var c := TypeCheck(child, forChild);
      var own :=
        if c.Node? then c.dataType
        else if kind.IdVar? || kind.Number? then Dword
        else dataType;
      Node(kind, if kind.IdCall? then flag else flag || isAddr, own, c, TypeCheck(sibling, false))
  }

  function Siblings(n: Node): nat {
    if n.Null? then 0 else 1 + Siblings(n.sibling)
  }

  /** The step by one of the increment nodes: load, load 1, add or subtract, store back. */
  function Bump(at: Word, up: bool): seq<Byte> {
    [LD_VALUE] + Set32(at) + [LD_DWORD] + Set32(1) + [OpCode(if up then Add else Sub)] + [ST_DWORD]
  }

  /** Code of the node itself, after its children's code. */
  function Own(n: Node): seq<Byte>
    requires n.Node?
  {
    match n.kind
    case IdCall(entry) => [LD_DWORD] + Set32(entry)
    case IdVar(at) => [if n.isAddr then LD_DWORD else LD_VALUE] + Set32(at)
    case Number(v) => [LD_DWORD] + Set32(v)
    case Op(op) => if n.dataType == Dword then [OpCode(op)] else []
    case Bitwise => if n.dataType == Dword then [BITWISE] else []
    case Func =>
      if n.child.Null? then [] else [SYSCALL] + [Siblings(n.child.sibling) % 256]
    case Assigns =>
      if n.child.Node? && (n.child.kind.IdVar? || n.child.kind.IdCall? || n.child.kind.GetValue?) &&
         n.child.dataType == Dword
      then [ST_DWORD] + [LD_VALUE_STACK] else []
    case PreInc => if Stepped(n) then Bump(n.child.kind.at, true) + [LD_VALUE_STACK] else []
    case PreDec => if Stepped(n) then Bump(n.child.kind.at, false) + [LD_VALUE_STACK] else []
    case Inc => if Stepped(n) then [LD_DWORD] + Set32(n.child.kind.at) + Bump(n.child.kind.at, true) + [POP] else []
    case Dec => if Stepped(n) then [LD_DWORD] + Set32(n.child.kind.at) + Bump(n.child.kind.at, false) + [POP] else []
    case GetValue => if !n.isAddr && n.dataType == Dword then [LD_VALUE_STACK] else []
    case GetAddr => []
  }

  predicate Stepped(n: Node)
    requires n.Node?
  {
    n.child.Node? && n.child.kind.IdVar? && n.dataType == Dword
  }

  /** finsh_compile: children, then the node, then its siblings. */
  function Emit(n: Node): seq<Byte> {
    if n.Null? then [] else Emit(n.child) + Own(n) + Emit(n.sibling)
  }

  /** finsh_compiler_run after the type pass: one statement at a time, POP between them. */
  function EmitList(n: Node): seq<Byte> {
    if n.Null? then []
    else Emit(n.(sibling := Null)) + (if n.sibling.Null? then [] else [POP] + EmitList(n.sibling))
  }
}
