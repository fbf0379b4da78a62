/** What each FinSH operator computes, said of signed 32-bit numbers and of single bits, and which bytes of
    memory a word occupies. */
module FinshArith {
  import opened Options
  import opened FinshMachine
  import opened ReadyIndex

  // ---- numbers ----

  predicate Congruent(i: int, j: int) {
    (i - j) % 0x1_0000_0000 == 0
  }

  /** The result of an operator that is always defined. */
  function Result(op: BinOp, a: Word, b: Word): Word
    requires op == Add || op == Sub || op == Mul
  {
    Alu(op, a, b).value
  }

  lemma Multiple(i: int, j: int, k: int)
    requires i == j + k * 0x1_0000_0000
    ensures Congruent(i, j)
  {
  }

  lemma SignedIs(w: Word)
    ensures Congruent(Signed(w), w) && -0x8000_0000 <= Signed(w) < 0x8000_0000 && Wrap(Signed(w)) == w
  {
  }

  lemma WrapIs(i: int)
    ensures Congruent(Signed(Wrap(i)), i)
    ensures -0x8000_0000 <= i < 0x8000_0000 ==> Signed(Wrap(i)) == i
  {
    var k := i / 0x1_0000_0000;
    Multiple(Signed(Wrap(i)), i, if Wrap(i) < 0x8000_0000 then -k else -k - 1);
  }

  lemma Unfold(a: Word, b: Word)
    ensures Result(Add, a, b) == Wrap(a + b) && Result(Sub, a, b) == Wrap(a - b) && Result(Mul, a, b) == Wrap(a * b)
  {
  }

  /** Addition and subtraction of signed numbers, up to multiples of 2^32. */
  lemma AddSub(a: Word, b: Word)
    ensures Congruent(Signed(Result(Add, a, b)), Signed(a) + Signed(b))
    ensures Congruent(Signed(Result(Sub, a, b)), Signed(a) - Signed(b))
    ensures Result(Sub, Result(Add, a, b), b) == a
  {
    hide Alu, Wrap, Signed, Congruent, Result;
    Unfold(a, b);
    Unfold(Result(Add, a, b), b);
    WrapIs(a + b);
    WrapIs(a - b);
    Sums(Signed(Wrap(a + b)), a + b, a, b, 1);
    Sums(Signed(Wrap(a - b)), a - b, a, b, -1);
    Undone(a, b);
  }

  lemma Undone(a: Word, b: Word)
    ensures Wrap(Wrap(a + b) - b) == a
  {
  }

  lemma Sums(r: int, i: int, a: Word, b: Word, k: int)
    requires Congruent(r, i) && i == a + k * b && (k == 1 || k == -1)
    ensures Congruent(r, Signed(a) + k * Signed(b))
  {
    var x, y := if a < 0x8000_0000 then 0 else 1, if b < 0x8000_0000 then 0 else 1;
    Multiple(i, Signed(a) + k * Signed(b), x + k * y);
    Chain3(r, i, Signed(a) + k * Signed(b));
  }

  /** Multiplication of signed numbers, up to multiples of 2^32. */
  lemma Times(a: Word, b: Word)
    ensures Congruent(Signed(Result(Mul, a, b)), Signed(a) * Signed(b))
  {
    hide Alu, Result, Wrap;
    Unfold(a, b);
    WrapIs(a * b);
    var x, y := if a < 0x8000_0000 then 0 else 1, if b < 0x8000_0000 then 0 else 1;
    assert Signed(a) == a - x * 0x1_0000_0000 && Signed(b) == b - y * 0x1_0000_0000;
    Product(a, b, x, y);
    Chain3(Signed(Result(Mul, a, b)), a * b, Signed(a) * Signed(b));
  }

  lemma Product(a: int, b: int, x: int, y: int)
    ensures Congruent(a * b, (a - x * 0x1_0000_0000) * (b - y * 0x1_0000_0000))
  {
    var m := 0x1_0000_0000;
    Multiple(a * b, (a - x * m) * (b - y * m), a * y + x * b - x * y * m);
  }

  lemma Chain3(i: int, j: int, k: int)
    requires Congruent(i, j) && Congruent(j, k)
    ensures Congruent(i, k)
  {
    Multiple(i, k, (i - j) / 0x1_0000_0000 + (j - k) / 0x1_0000_0000);
  }

  /** Multiplication is repeated addition. */
  lemma TimesLaws(a: Word, b: Word, c: Word)
    ensures Result(Mul, a, 0) == 0 && Result(Mul, a, 1) == a
    ensures Result(Mul, a, Result(Add, b, c)) == Result(Add, Result(Mul, a, b), Result(Mul, a, c))
  {
    hide Alu, Result, Wrap;
    Unfold(a, 0);
    Unfold(a, 1);
    Units(a);
    Unfold(b, c);
    Unfold(a, b);
    Unfold(a, c);
    Unfold(a, Result(Add, b, c));
    Unfold(Result(Mul, a, b), Result(Mul, a, c));
    Distribute(a, b, c);
  }

  lemma Units(a: Word)
    ensures Wrap(a * 0) == 0 && Wrap(a * 1) == a
  {
  }

  lemma Distribute(a: int, b: int, c: int)
    ensures Wrap(a * Wrap(b + c)) == Wrap(Wrap(a * b) + Wrap(a * c))
  {
    var m := 0x1_0000_0000;
    var q, r, s := (b + c) / m, (a * b) / m, (a * c) / m;
    assert Wrap(b + c) == b + c - q * m && Wrap(a * b) == a * b - r * m && Wrap(a * c) == a * c - s * m;
    assert a * Wrap(b + c) == a * b + a * c - a * q * m;
    SameWrap(a * Wrap(b + c), Wrap(a * b) + Wrap(a * c), r + s - a * q);
  }

  lemma SameWrap(i: int, j: int, k: int)
    requires i == j + k * 0x1_0000_0000
    ensures Wrap(i) == Wrap(j)
  {
  }

  /** Quotient and remainder of C: the dividend is quotient times divisor plus remainder, the remainder is
      smaller than the divisor and has the sign of the dividend. Only the least number by -1 overflows. */
  lemma DivMod(a: Word, b: Word)
    ensures b == 0 <==> Alu(Div, a, b) == None
    ensures b == 0 <==> Alu(Mod, a, b) == None
    ensures b != 0 && !(a == 0x8000_0000 && b == 0xFFFF_FFFF) ==>
              var q, r := Signed(Alu(Div, a, b).value), Signed(Alu(Mod, a, b).value);
              Signed(a) == q * Signed(b) + r && Abs(r) < Abs(Signed(b)) && (r != 0 ==> (r < 0 <==> Signed(a) < 0))
    ensures a == 0x8000_0000 && b == 0xFFFF_FFFF ==> Alu(Div, a, b) == Some(a) && Alu(Mod, a, b) == Some(0)
  {
    hide Alu, TruncDiv, Wrap, Abs;
    Quotients(a, b);
    if b != 0 && !(a == 0x8000_0000 && b == 0xFFFF_FFFF) {
      var i, j := Signed(a), Signed(b);
      Truncation(i, j);
      InRange(a, b);
      WrapIs(TruncDiv(i, j));
      WrapIs(i - j * TruncDiv(i, j));
    }
    if a == 0x8000_0000 && b == 0xFFFF_FFFF { Overflow(a, b); }
  }

  lemma Overflow(a: Word, b: Word)
    requires Signed(a) == -0x8000_0000 && Signed(b) == -1
    ensures Alu(Div, a, b) == Some(a) && Alu(Mod, a, b) == Some(0)
  {
    hide Alu, TruncDiv;
    Unit(Signed(a), Signed(b));
    Quotients(a, b);
  }

  lemma InRange(a: Word, b: Word)
    requires b != 0 && !(a == 0x8000_0000 && b == 0xFFFF_FFFF)
    ensures var q := TruncDiv(Signed(a), Signed(b)); var r := Signed(a) - Signed(b) * q;
            -0x8000_0000 <= q < 0x8000_0000 && -0x8000_0000 <= r < 0x8000_0000
  {
    var i, j := Signed(a), Signed(b);
    Truncation(i, j);
    hide TruncDiv;
    if Abs(j) == 1 { assert TruncDiv(i, j) == i || TruncDiv(i, j) == -i by { Unit(i, j); } }
  }

  lemma Unit(i: int, j: int)
    requires Abs(j) == 1
    ensures TruncDiv(i, j) == if j == 1 then i else -i
  {
  }

  lemma Quotients(a: Word, b: Word)
    ensures b == 0 ==> Alu(Div, a, b) == None && Alu(Mod, a, b) == None
    ensures b != 0 ==> Alu(Div, a, b) == Some(Wrap(TruncDiv(Signed(a), Signed(b))))
    ensures b != 0 ==> Alu(Mod, a, b) == Some(Wrap(Signed(a) - Signed(b) * TruncDiv(Signed(a), Signed(b))))
  {
  }

  lemma Truncation(i: int, j: int)
    requires j != 0
    ensures var q := TruncDiv(i, j); var r := i - j * q;
            Abs(r) < Abs(j) && (r != 0 ==> (r < 0 <==> i < 0)) && Abs(q) <= Abs(i) && (Abs(j) > 1 && i != 0 ==> Abs(q) < Abs(i))
  {
    hide TruncDiv;
    Euclid(Abs(i), Abs(j));
    TruncIs(i, j);
    Parts(i, j, Abs(i) / Abs(j), Abs(i) % Abs(j), TruncDiv(i, j));
  }

  lemma Parts(i: int, j: int, d: int, m: int, q: int)
    requires j != 0 && Abs(i) == d * Abs(j) + m && 0 <= m < Abs(j) && q == if (i < 0) == (j < 0) then d else -d
    ensures var r := i - j * q;
            Abs(r) < Abs(j) && (r != 0 ==> (r < 0 <==> i < 0)) && Abs(q) <= Abs(i) && (Abs(j) > 1 && i != 0 ==> Abs(q) < Abs(i))
  {
    Quotient(Abs(i), Abs(j), d, m);
    Signs(i, j, d, q, Abs(j));
    Ends(i, j, d, m, q, d * Abs(j), j * q);
  }

  lemma Quotient(u: int, v: int, d: int, m: int)
    requires u >= 0 && u == d * v + m && 0 <= m < v
    ensures 0 <= d <= d * v && (v > 1 && d > 0 ==> d < d * v)
  {
    if d < 0 {
      Mono(d, -1, v);
      assert false;
    }
    Smaller(d, v);
  }

  lemma TruncIs(i: int, j: int)
    requires j != 0
    ensures TruncDiv(i, j) == if (i < 0) == (j < 0) then Abs(i) / Abs(j) else -(Abs(i) / Abs(j))
  {
  }

  lemma Ends(i: int, j: int, d: int, m: int, q: int, dv: int, jq: int)
    requires Abs(i) == dv + m && m < Abs(j) && (q == d || q == -d) && jq == if i < 0 then -dv else dv
    requires 0 <= m && 0 <= d <= dv && (Abs(j) > 1 && d > 0 ==> d < dv)
    ensures var r := i - jq; Abs(r) < Abs(j) && (r != 0 ==> (r < 0 <==> i < 0)) && Abs(q) <= Abs(i) && (Abs(j) > 1 && i != 0 ==> Abs(q) < Abs(i))
  {
  }

  lemma Signs(i: int, j: int, d: int, q: int, v: int)
    requires v == Abs(j) && q == if (i < 0) == (j < 0) then d else -d
    ensures j * q == if i < 0 then -(d * v) else d * v
  {
    if j < 0 { assert v == -j; } else { assert v == j; }
  }

  lemma Smaller(d: nat, v: nat)
    requires 0 < v
    ensures d <= d * v && (v > 1 && d > 0 ==> d < d * v)
  {
  }

  /** A left shift doubles, a right shift halves the signed number and rounds down. */
  lemma Shifts(a: Word, n: nat)
    ensures Alu(Shl, a, 0) == Some(a) && Alu(Shr, a, 0) == Some(a)
    ensures n < 31 ==> var r := Alu(Shl, a, n); r.Some? && Alu(Shl, a, n + 1) == Some(Result(Add, r.value, r.value))
    ensures n < 31 ==> var r := Alu(Shr, a, n); r.Some? && Alu(Shr, a, n + 1).Some? && Signed(Alu(Shr, a, n + 1).value) == Signed(r.value) / 2
    ensures 32 <= n < 0x1_0000_0000 ==> Alu(Shl, a, n) == None && Alu(Shr, a, n) == None
  {
    hide Alu, Wrap, Signed, Result, Pow2, Shift;
    ShiftIs(a, 0);
    ShiftNone(a, n);
    if n < 31 {
      ShiftIs(a, n);
      ShiftIs(a, n + 1);
      var p := Pow2(n);
      Unfold(Wrap(a * p), Wrap(a * p));
      Doubled(a, p);
      Halved(Signed(a), p);
      SignedIs(a);
      Halves(Signed(a), p);
      Halves(Signed(a), 2 * p);
      WrapIs(Signed(a) / p);
      WrapIs(Signed(a) / (2 * p));
    }
  }

  lemma ShiftNone(a: Word, n: nat)
    ensures 32 <= n < 0x1_0000_0000 ==> Alu(Shl, a, n) == None && Alu(Shr, a, n) == None
  {
  }

  lemma Doubled(a: int, p: int)
    ensures Wrap(a * (2 * p)) == Wrap(Wrap(a * p) + Wrap(a * p))
  {
    var m := a * p;
    assert a * (2 * p) == 2 * m;
    SameWrap(2 * m, Wrap(m) + Wrap(m), 2 * (m / 0x1_0000_0000));
  }

  lemma ShiftIs(a: Word, n: nat)
    requires n < 32
    ensures Pow2(n) > 0 && Pow2(n + 1) == 2 * Pow2(n) && Pow2(0) == 1
    ensures Alu(Shl, a, n) == Some(Wrap(a * Pow2(n))) && Alu(Shr, a, n) == Some(Wrap(Signed(a) / Pow2(n)))
    ensures Alu(Shl, a, 0) == Some(a) && Alu(Shr, a, 0) == Some(a)
  {
    ShiftDef(a, n);
    ShiftDef(a, 0);
    SignedIs(a);
    hide Alu, Signed, Wrap, Shift;
    assert Pow2(0) == 1 && a * 1 == a && Signed(a) / 1 == Signed(a);
    WrapWord(a);
  }

  lemma WrapWord(a: Word)
    ensures Wrap(a) == a
  {
  }

  lemma ShiftDef(a: Word, n: nat)
    requires n < 32
    ensures Alu(Shl, a, n) == Some(Wrap(a * Pow2(n))) && Alu(Shr, a, n) == Some(Shift(a, Pow2(n)))
  {
    hide Wrap, Pow2, Shift;
  }

  lemma Halves(i: int, p: int)
    requires p > 0 && -0x8000_0000 <= i < 0x8000_0000
    ensures -0x8000_0000 <= i / p < 0x8000_0000
  {
    Euclid(i, p);
    var k := i / p;
    assert (k + 1) * p == k * p + p;
    if k >= 0 { Mono(1, p, k); } else { Mono(1, p, -(k + 1)); }
  }

  lemma Halved(i: int, p: int)
    requires p > 0
    ensures i / p / 2 == i / (2 * p)
  {
    var k, h := i / p, i / p / 2;
    Euclid(i, p);
    var r, t := i % p, k % 2;
    assert k == 2 * h + t;
    assert k * p == h * (2 * p) + t * p;
    assert t * p == 0 || t * p == p;
    DivIs(i, 2 * p, h, t * p + r);
  }

  // ---- bits ----

  /** Bit p of a number. */
  predicate BitOf(w: Word, p: nat) {
    w / Pow2(p) % 2 == 1
  }

  lemma BitVec(w: Word, p: nat)
    requires p < 32
    ensures BitOf(w, p) <==> Bit(Vec(w), p)
  {
    hide Bit;
    BitIs(Vec(w), p);
    ToNumber(w);
  }

  lemma BitsBack(x: bv32)
    ensures Vec(Bits(x)) == x
  {
  }

  lemma BitOfBits(x: bv32, p: nat)
    requires p < 32
    ensures BitOf(Bits(x), p) <==> Bit(x, p)
  {
    BitVec(Bits(x), p);
    BitsBack(x);
    hide Bits, Bit, Vec, BitOf;
  }

  lemma AndOf(a: Word, b: Word, p: nat)
    requires p < 32
    ensures BitOf(BitAnd(a, b), p) <==> BitOf(a, p) && BitOf(b, p)
  {
    hide Bits, Bit, Vec, BitOf;
    BitVec(a, p);
    BitVec(b, p);
    BitOfBits(Vec(a) & Vec(b), p);
    AndBit(Vec(a), Vec(b), p);
  }

  lemma OrOf(a: Word, b: Word, p: nat)
    requires p < 32
    ensures BitOf(BitOr(a, b), p) <==> BitOf(a, p) || BitOf(b, p)
  {
    hide Bits, Bit, Vec, BitOf;
    BitVec(a, p);
    BitVec(b, p);
    BitOfBits(Vec(a) | Vec(b), p);
    OrBit(Vec(a), Vec(b), p);
  }

  lemma XorOf(a: Word, b: Word, p: nat)
    requires p < 32
    ensures BitOf(BitXor(a, b), p) <==> BitOf(a, p) != BitOf(b, p)
  {
    hide Bits, Bit, Vec, BitOf;
    BitVec(a, p);
    BitVec(b, p);
    BitOfBits(Vec(a) ^ Vec(b), p);
    XorBit(Vec(a), Vec(b), p);
  }

  lemma NotOf(a: Word, p: nat)
    requires p < 32
    ensures BitOf(Complement(a), p) <==> !BitOf(a, p)
  {
    hide Bits, Bit, Vec, BitOf;
    BitVec(a, p);
    BitOfBits(!Vec(a), p);
    NotBit(Vec(a), p);
  }

  /** The bitwise operators, one bit at a time. */
  lemma Bitwise(a: Word, b: Word, p: nat)
    requires p < 32
    ensures Alu(And, a, b).Some? && (BitOf(Alu(And, a, b).value, p) <==> BitOf(a, p) && BitOf(b, p))
    ensures Alu(Or, a, b).Some? && (BitOf(Alu(Or, a, b).value, p) <==> BitOf(a, p) || BitOf(b, p))
    ensures Alu(Xor, a, b).Some? && (BitOf(Alu(Xor, a, b).value, p) <==> BitOf(a, p) != BitOf(b, p))
    ensures BitOf(Complement(a), p) <==> !BitOf(a, p)
  {
    hide BitOf, BitAnd, BitOr, BitXor, Complement;
    AndOf(a, b, p);
    OrOf(a, b, p);
    XorOf(a, b, p);
    NotOf(a, p);
  }

  // ---- words in memory ----

  /** The least significant byte comes first. */
  lemma LittleEndian(v: Word)
    ensures var b: seq<int> := Set32(v); v == b[0] + 0x100 * b[1] + 0x1_0000 * b[2] + 0x100_0000 * b[3]
  {
  }

  /** A store writes the bytes of the word to four addresses, around the end of the address space, and no other. */
  lemma StoreFrame(m: Mem, a: Word, v: Word, x: Word)
    ensures var b, s := Set32(v), Store32(m, a, v);
            ByteAt(s, a) == b[0] && ByteAt(s, a + 1) == b[1] && ByteAt(s, a + 2) == b[2] && ByteAt(s, a + 3) == b[3]
    ensures Wrap(x - a) >= 4 ==> ByteAt(Store32(m, a, v), x) == ByteAt(m, x)
  {
    hide Set32, Wrap;
    Stored(m, a, v);
    WrapWord(x);
    WrapWord(a);
    if Wrap(x - a) >= 4 {
      Offset(a, x, 0); Offset(a, x, 1); Offset(a, x, 2); Offset(a, x, 3);
    }
  }

  lemma Stored(m: Mem, a: Word, v: Word)
    ensures var b, s := Set32(v), Store32(m, a, v);
            ByteAt(s, a) == b[0] && ByteAt(s, a + 1) == b[1] && ByteAt(s, a + 2) == b[2] && ByteAt(s, a + 3) == b[3]
  {
    WrapDiffers(a, a + 1); WrapDiffers(a, a + 2); WrapDiffers(a, a + 3);
    WrapDiffers(a + 1, a + 2); WrapDiffers(a + 1, a + 3); WrapDiffers(a + 2, a + 3);
    WrapWord(a);
    hide Set32, Wrap;
  }

  lemma Offset(a: Word, x: Word, i: nat)
    requires i < 4 && Wrap(x - a) >= 4
    ensures x != Wrap(a + i)
  {
  }
}
