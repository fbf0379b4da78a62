/** The compiler and the virtual machine on their fixed arrays: text_segment,
    finsh_vm_stack, finsh_compile_pc, finsh_sp and finsh_pc. */
module FinshVm {
  import opened Options
  import opened FinshMachine
  import opened FinshSyntax
  import opened FinshCompiler
  import opened FinshCorrect

  function Overwrite(was: seq<Byte>, k: nat, bytes: seq<Byte>): (now: seq<Byte>)
    requires k + |bytes| <= |was|
    ensures |now| == |was|
  {
    was[..k] + bytes + was[k + |bytes|..]
  }

  class Compiler {
    const text: array<Byte>
    var pc: nat

    constructor ()
      ensures fresh(text) && text.Length == TEXT_MAX && pc == 0
    {
      text := new Byte[TEXT_MAX](_ => 0);
      pc := 0;
    }

    /** finsh_code_byte and finsh_code_dword: bytes in order at finsh_compile_pc. */
    method Put(bytes: seq<Byte>)
      requires pc + |bytes| <= text.Length
      modifies this, text
      ensures pc == old(pc) + |bytes|
      ensures text[..] == Overwrite(old(text[..]), old(pc), bytes)
    {
      ghost var was, start := text[..], pc;
      for i := 0 to |bytes|
        invariant pc == start + i
        invariant text[..] == was[..start] + bytes[..i] + was[start + i..]
      {
        text[pc] := bytes[i];
        pc := pc + 1;
      }
    }

    /** finsh_compile: the source writes without looking at the segment's size, so the code must fit. */
    method Compile(n: Node)
      requires pc + |Emit(n)| <= text.Length
      modifies this, text
      ensures pc == old(pc) + |Emit(n)|
      ensures text[..] == Overwrite(old(text[..]), old(pc), Emit(n))
      decreases n
    {
      hide Own, Overwrite;
      ghost var was, start := text[..], pc;
      OverwriteAll(was, start, [], [], []);
      if n.Node? {
        Compile(n.child);
        Put(Own(n));
        Compile(n.sibling);
        OverwriteAll(was, start, Emit(n.child), Own(n), Emit(n.sibling));
      }
    }

    static lemma OverwriteAll(was: seq<Byte>, k: nat, a: seq<Byte>, b: seq<Byte>, c: seq<Byte>)
      requires k + |a| + |b| + |c| <= |was|
      ensures var t := Overwrite(Overwrite(was, k, a), k + |a|, b);
              Overwrite(t, k + |a| + |b|, c) == Overwrite(was, k, a + b + c)
      ensures Overwrite(was, k, []) == was
    {
    }

    /** One statement of the list, and POP when another follows. */
    method CompileStatement(current: Node, ghost all: seq<Byte>, next: Node)
      requires text.Length == TEXT_MAX && pc <= |all| <= TEXT_MAX
      requires text[..] == all[..pc] + seq(TEXT_MAX - pc, _ => NOOP)
      requires all[pc..] == Emit(current) + (if next.Node? then [POP] + EmitList(next) else [])
      modifies this, text
      ensures pc == old(pc) + |Emit(current)| + (if next.Node? then 1 else 0) <= |all|
      ensures text[..] == all[..pc] + seq(TEXT_MAX - pc, _ => NOOP)
      ensures all[pc..] == if next.Node? then EmitList(next) else []
    {
      hide Emit, EmitList;
      ghost var start, code := pc, Emit(current);
      assert all == all[..start] + all[start..];
      Compile(current);
      assert text[..] == all[..pc] + seq(TEXT_MAX - pc, _ => NOOP);
      if next.Node? {
        Put([POP]);
        assert all[..pc] == all[..pc - 1] + [POP];
      }
    }

    /** finsh_compiler_run: type pass, cleared segment, statements with POP between them. */
    method Run(root: Node)
      requires text.Length == TEXT_MAX && |EmitList(TypeCheck(root, false))| <= TEXT_MAX
      modifies this, text
      ensures text[..] == Segment(EmitList(TypeCheck(root, false)))
    {
      hide TypeCheck, Emit;
      var next := TypeCheck(root, false);
      ghost var all := EmitList(next);
      pc := 0;
      forall i | 0 <= i < text.Length { text[i] := 0; }
      assert text[..] == [] + seq(TEXT_MAX, _ => NOOP);
      while next.Node?
        invariant pc + |EmitList(next)| == |all| && all[pc..] == EmitList(next)
        invariant text[..] == all[..pc] + seq(TEXT_MAX - pc, _ => NOOP)
        decreases next
      {
        var current := next.(sibling := Null);
        next := next.sibling;
        CompileStatement(current, all, next);
      }
    }
  }

  class Machine {
    const stack: array<Word>
    var sp: nat
    var pc: nat
    var mem: Mem
    var fault: bool

    constructor (mem: Mem)
      ensures fresh(stack) && stack.Length == STACK_MAX && this.mem == mem
    {
      stack := new Word[STACK_MAX](_ => 0);
      this.mem := mem;
      sp, pc, fault := 0, 0, false;
    }

    ghost predicate Valid()
      reads this
    {
      stack.Length == STACK_MAX && sp <= STACK_MAX
    }

    ghost function Current(): Outcome
      reads this, stack
      requires Valid()
    {
      if fault then Fault else Ok(State(stack[..sp], pc, mem))
    }

    method Push(v: Word)
      requires Valid() && !fault
      modifies this, stack
      ensures Valid() && pc == old(pc) && mem == old(mem)
      ensures Current() == FinshMachine.Push(old(State(stack[..sp], pc, mem)), v)
    {
      if sp < STACK_MAX {
        stack[sp] := v;
        sp := sp + 1;
        assert stack[..sp] == old(stack[..sp]) + [v];
      } else {
        fault := true;
      }
    }

    /** The pop loop of OP_call: arguments come off the stack last to first. */
    method PopArgs(params: nat) returns (parameterv: seq<Word>)
      requires Valid() && !fault && params <= ARGS_MAX && params < sp
      modifies this`sp
      ensures sp == old(sp) - params && |parameterv| == ARGS_MAX
      ensures parameterv[..params] == stack[sp..old(sp)]
    {
      parameterv := seq(ARGS_MAX, _ => 0);
      var i := 0;
      while i < params
        invariant 0 <= i <= params && |parameterv| == ARGS_MAX && sp == old(sp) - i
        invariant parameterv[params - i..params] == stack[sp..old(sp)]
      {
        sp := sp - 1;
        parameterv := parameterv[params - 1 - i := stack[sp]];
        i := i + 1;
        assert stack[sp..old(sp)] == [stack[sp]] + stack[sp + 1..old(sp)];
      }
      assert parameterv[..params] == parameterv[0..params];
    }

    /** OP_call: the cell below the arguments holds the function address and receives the result. */
    method CallFunction(params: Byte, env: Env)
      requires Valid() && !fault
      modifies this, stack
      ensures Valid()
      ensures Current() == FinshMachine.Call(env, old(State(stack[..sp], pc, mem)), params)
    {
      if params > ARGS_MAX || sp < params + 1 {
        fault := true;
        return;
      }
      ghost var cells := stack[..sp];
      var parameterv := PopArgs(params);
      assert parameterv[..params] == cells[sp..];
      var r, m := Invoke(env, stack[sp - 1], if params == 0 then [0] else parameterv[..params]);
      mem := m;
      stack[sp - 1] := r;
      assert stack[..sp] == cells[..sp - 1] + [r];
    }

    method Invoke(env: Env, f: Word, args: seq<Word>) returns (r: Word, m: Mem)
      ensures (r, m) == env(f, args, mem)
    {
      var p := env(f, args, mem);
      r, m := p.0, p.1;
    }

    /** One round of the loop in finsh_vm_run. */
    method Dispatch(text: array<Byte>, env: Env)
      requires Valid() && !fault && pc < text.Length
      modifies this, stack
      ensures Valid() && unchanged(text)
      ensures Current() == Step(old(text[..]), env, old(State(stack[..sp], pc, mem)))
    {
      hide Load32, StackStep, FinshMachine.Call;
      var op := text[pc];
      pc := pc + 1;
      if op == NOOP {
      } else if op == LD_DWORD || op == LD_VALUE {
        if pc + 4 > text.Length { fault := true; return; }
        var v := Get32(text[pc], text[pc + 1], text[pc + 2], text[pc + 3]);
        pc := pc + 4;
        Push(if op == LD_DWORD then v else Load32(mem, v));
      } else if op == SYSCALL {
        if pc >= text.Length { fault := true; return; }
        pc := pc + 1;
        CallFunction(text[pc - 1], env);
      } else {
        StackOp(op);
      }
    }

    /** The instructions on the top cells. */
    method StackOp(op: Byte)
      requires Valid() && !fault
      modifies this, stack
      ensures Valid()
      ensures Current() == StackStep(op, old(State(stack[..sp], pc, mem)))
    {
      hide Alu, Complement, Load32, Store32;
      if sp == 0 {
        fault := true;
      } else if op == POP {
        sp := sp - 1;
        assert stack[..sp] == old(stack[..sp])[..sp];
      } else if op == BITWISE {
        stack[sp - 1] := Complement(stack[sp - 1]);
        assert stack[..sp] == old(stack[..sp])[..sp - 1] + [stack[sp - 1]];
      } else if op == LD_VALUE_STACK {
        stack[sp - 1] := Load32(mem, stack[sp - 1]);
        assert stack[..sp] == old(stack[..sp])[..sp - 1] + [stack[sp - 1]];
      } else if sp == 1 {
        fault := true;
      } else if op == ST_DWORD {
        mem := Store32(mem, stack[sp - 2], stack[sp - 1]);
        sp := sp - 1;
        assert stack[..sp] == old(stack[..sp])[..sp];
      } else {
        BinaryOp(op);
      }
    }

    /** The OP_BIN_DWORD instructions. */
    method BinaryOp(op: Byte)
      requires Valid() && !fault && 2 <= sp
      modifies this, stack
      ensures Valid()
      ensures Current() == match Decode(op) case None => Fault
                           case Some(b) => FinshMachine.Binary(b, old(State(stack[..sp], pc, mem)))
    {
      hide Alu;
      match Decode(op)
      case None => fault := true;
      case Some(b) =>
        match Alu(b, stack[sp - 2], stack[sp - 1])
        case None => fault := true;
        case Some(v) =>
          stack[sp - 2] := v;
          sp := sp - 1;
          assert stack[..sp] == old(stack[..sp])[..sp - 1] + [v];
    }

    /** finsh_vm_run. */
    method Run(text: array<Byte>, env: Env)
      requires stack.Length == STACK_MAX && text.Length == TEXT_MAX
      modifies this, stack
      ensures Valid() && unchanged(text)
      ensures Current() == Exec(text[..], env, State([], 0, old(mem)))
    {
      hide Step;
      sp, pc, fault := 0, 0, false;
      assert stack[..0] == [];
      ghost var goal := Exec(text[..], env, State([], 0, mem));
      while !fault && pc < TEXT_MAX
        invariant Valid() && unchanged(text)
        invariant if fault then goal == Fault else goal == Exec(text[..], env, State(stack[..sp], pc, mem))
        decreases if fault then 0 else 1 + TEXT_MAX - pc
      {
        Dispatch(text, env);
      }
    }

    /** One shell line: compile the statements, run them, read finsh_stack_bottom(). */
    method Line(es: seq<Expr>, env: Env) returns (r: Value)
      requires stack.Length == STACK_MAX
      requires es != [] && (forall e :: e in es ==> WellTyped(e))
      requires Nodes(ListTree(es)) <= 16 && |ListCode(es)| <= TEXT_MAX
      modifies this, stack
      ensures r == EvalAll(es, env, old(mem))
      ensures r.Val? ==> mem == r.mem && stack[0] == r.v
    {
      hide Exec, EvalAll, EmitList, TypeCheck;
      var c := new Compiler();
      c.Run(ListTree(es));
      CompilerCorrect(es, env, mem);
      ghost var want := EvalAll(es, env, mem);
      Run(c.text, env);
      if fault {
        r := Trap;
      } else {
        assert want.Val? && stack[..sp] == [want.v];
        r := Val(stack[0], mem);
      }
    }
  }
}
