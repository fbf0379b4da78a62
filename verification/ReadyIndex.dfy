/** scheduler.c, kservice.c: the bit index of the ready lists. Up to 32 priorities are one
    word; up to 256 are a group word over 32 bytes of eight priorities each. */
module ReadyIndex {
  import opened Options

  /** 1 << p in 32 bits. */
  function Mask(p: nat): bv32 {
    if p == 0 then 1 else Mask(p - 1) << 1
  }

  predicate Meets(v: bv32, m: bv32) {
    v & m != 0
  }

  function Set(v: bv32, m: bv32): bv32 {
    v | m
  }

  function Clear(v: bv32, m: bv32): bv32 {
    v & !m
  }

  ghost predicate Bit(v: bv32, p: nat) {
    Meets(v, Mask(p))
  }

  lemma {:induction false} MasksApart(p: nat, q: nat)
    requires p < q
    ensures Mask(p) & Mask(q) == 0
  {
    MaskStep(q);
    if p > 0 {
      MaskStep(p);
      MasksApart(p - 1, q - 1);
      var a, b := Mask(p - 1), Mask(q - 1);
      hide Mask;
      ShiftApart(a, b);
    } else {
      ShiftEven(Mask(q - 1));
    }
  }

  lemma MaskStep(p: nat)
    requires p > 0
    ensures Mask(p) == Mask(p - 1) << 1
  {
  }

  lemma ShiftApart(a: bv32, b: bv32)
    requires a & b == 0
    ensures (a << 1) & (b << 1) == 0
  {
  }

  lemma ShiftEven(a: bv32)
    ensures 1 & (a << 1) == 0
  {
  }

  lemma MaskValues()
    ensures Mask(0) == 0x1 && Mask(1) == 0x2 && Mask(2) == 0x4 && Mask(3) == 0x8
    ensures Mask(4) == 0x10 && Mask(5) == 0x20 && Mask(6) == 0x40 && Mask(7) == 0x80
    ensures Mask(8) == 0x100 && Mask(9) == 0x200 && Mask(10) == 0x400 && Mask(11) == 0x800
    ensures Mask(12) == 0x1000 && Mask(13) == 0x2000 && Mask(14) == 0x4000 && Mask(15) == 0x8000
    ensures Mask(16) == 0x1_0000 && Mask(17) == 0x2_0000 && Mask(18) == 0x4_0000 && Mask(19) == 0x8_0000
    ensures Mask(20) == 0x10_0000 && Mask(21) == 0x20_0000 && Mask(22) == 0x40_0000 && Mask(23) == 0x80_0000
    ensures Mask(24) == 0x100_0000 && Mask(25) == 0x200_0000 && Mask(26) == 0x400_0000 && Mask(27) == 0x800_0000
    ensures Mask(28) == 0x1000_0000 && Mask(29) == 0x2000_0000 && Mask(30) == 0x4000_0000 && Mask(31) == 0x8000_0000
  {
  }

  /** Setting and clearing one bit leaves the others. */
  lemma SetClear(v: bv32, p: nat, q: nat)
    requires p < 32
    ensures Bit(Set(v, Mask(p)), q) <==> q == p || Bit(v, q)
    ensures Bit(Clear(v, Mask(p)), q) <==> q != p && Bit(v, q)
  {
    hide Meets, Set, Clear, Mask;
    if p == q {
      MaskNonZero(p);
      Same(v, Mask(p));
    } else {
      Distant(p, q);
      Other(v, Mask(p), Mask(q));
    }
  }

  lemma Distant(p: nat, q: nat)
    requires p != q
    ensures Mask(p) & Mask(q) == 0
  {
    hide Mask;
    if p < q { MasksApart(p, q); } else { MasksApart(q, p); }
    MeetSym(Mask(p), Mask(q));
  }

  lemma Same(v: bv32, a: bv32)
    requires a != 0
    ensures Meets(Set(v, a), a) && !Meets(Clear(v, a), a)
  {
  }

  lemma SetOther(v: bv32, a: bv32, b: bv32)
    requires a & b == 0
    ensures Set(v, a) & b == v & b
  {
  }

  lemma ClearOther(v: bv32, a: bv32, b: bv32)
    requires a & b == 0
    ensures Clear(v, a) & b == v & b
  {
  }

  lemma Other(v: bv32, a: bv32, b: bv32)
    requires a & b == 0
    ensures Meets(Set(v, a), b) <==> Meets(v, b)
    ensures Meets(Clear(v, a), b) <==> Meets(v, b)
  {
    hide Set, Clear;
    SetOther(v, a, b);
    ClearOther(v, a, b);
  }

  lemma MeetSym(a: bv32, b: bv32)
    ensures a & b == b & a
  {
  }

  lemma MaskNonZero(p: nat)
    requires p < 32
    ensures Mask(p) != 0
  {
    MaskValues();
  }

  // ---- __rt_ffs ----

  /** A row of __lowest_bit_bitmap behind its first entry. */
  function Row(i: bv32): nat {
    if i == 1 || i == 3 || i == 5 || i == 7 || i == 9 || i == 11 || i == 13 || i == 15 then 0
    else if i == 2 || i == 6 || i == 10 || i == 14 then 1
    else if i == 4 || i == 12 then 2
    else if i == 8 then 3
    else 0
  }

  /** __lowest_bit_bitmap: the sixteen rows differ in their first entries only. */
  function Table(i: bv32): nat {
    if i & 0xF != 0 then Row(i & 0xF) else if i == 0 then 0 else 4 + Row(i >> 4)
  }

  /** __rt_ffs */
  function Ffs(v: bv32): nat {
    if v == 0 then 0
    else if v & 0xFF != 0 then Table(v & 0xFF) + 1
    else if v & 0xFF00 != 0 then Table((v & 0xFF00) >> 8) + 9
    else if v & 0xFF0000 != 0 then Table((v & 0xFF0000) >> 16) + 17
    else Table((v & 0xFF000000) >> 24) + 25
  }

  lemma TableLow(i: bv32)
    requires 0 < i < 0x100
    ensures Table(i) < 8
    ensures Table(i) == 0 <==> i & 1 != 0
    ensures Table(i) == 1 <==> i & 3 == 2
    ensures Table(i) == 2 <==> i & 7 == 4
    ensures Table(i) == 3 <==> i & 0xF == 8
    ensures Table(i) == 4 <==> i & 0x1F == 0x10
    ensures Table(i) == 5 <==> i & 0x3F == 0x20
    ensures Table(i) == 6 <==> i & 0x7F == 0x40
    ensures Table(i) == 7 <==> i & 0xFF == 0x80
  {
  }

  lemma Byte0(v: bv32)
    requires v & 0xFF != 0
    ensures var i := 0 + Table(v & 0xFF); i < 8 && Bit(v, i) && forall q :: 0 <= q < i ==> !Bit(v, q)
  {
    MaskValues();
    TableLow(v & 0xFF);
  }

  lemma Byte1(v: bv32)
    requires v & 0xFF00 != 0 && v & 0xFF == 0
    ensures var i := 8 + Table((v & 0xFF00) >> 8); i < 16 && Bit(v, i) && forall q :: 0 <= q < i ==> !Bit(v, q)
  {
    MaskValues();
    TableLow((v & 0xFF00) >> 8);
  }

  lemma Byte2(v: bv32)
    requires v & 0xFF0000 != 0 && v & 0xFFFF == 0
    ensures var i := 16 + Table((v & 0xFF0000) >> 16); i < 24 && Bit(v, i) && forall q :: 0 <= q < i ==> !Bit(v, q)
  {
    MaskValues();
    TableLow((v & 0xFF0000) >> 16);
  }

  lemma Byte3(v: bv32)
    requires v & 0xFF000000 != 0 && v & 0xFFFFFF == 0
    ensures var i := 24 + Table((v & 0xFF000000) >> 24); i < 32 && Bit(v, i) && forall q :: 0 <= q < i ==> !Bit(v, q)
  {
    MaskValues();
    TableLow((v & 0xFF000000) >> 24);
  }

  /** Ffs - 1 is the lowest set bit, and 0 means there is none. */
  lemma FfsLowest(v: bv32)
    ensures Ffs(v) == 0 <==> v == 0
    ensures Ffs(v) <= 32
    ensures v != 0 ==> Bit(v, Ffs(v) - 1) && forall q :: 0 <= q < Ffs(v) - 1 ==> !Bit(v, q)
  {
    hide Table, Bit;
    if v & 0xFF != 0 { Byte0(v); }
    else if v & 0xFF00 != 0 { Byte1(v); }
    else if v & 0xFF0000 != 0 { Byte2(v); }
    else if v != 0 { Byte3(v); }
  }

  // ---- the two forms of the index ----

  /** rt_thread_ready_priority_group and rt_thread_ready_table. */
  datatype Index = Index(group: bv32, table: seq<bv32>)

  /** number, number_mask and high_mask of a thread. */
  datatype Attr = Attr(number: nat, numberMask: bv32, highMask: bv32)

  function Limit(wide: bool): nat {
    if wide then 256 else 32
  }

  function AttrOf(wide: bool, p: nat): Attr {
    if wide then Attr(p / 8, Mask(p / 8), Mask(p % 8)) else Attr(0, Mask(p), 0)
  }

  /** The index update of rt_schedule_insert_thread. */
  function Mark(ix: Index, wide: bool, a: Attr): Index
    requires |ix.table| == 32 && a.number < 32
  {
    Index(Set(ix.group, a.numberMask),
          if wide then ix.table[a.number := Set(ix.table[a.number], a.highMask)] else ix.table)
  }

  /** The index update of rt_schedule_remove_thread, for a ready list that became empty. */
  function Unmark(ix: Index, wide: bool, a: Attr): Index
    requires |ix.table| == 32 && a.number < 32
  {
    if wide then
      var row := Clear(ix.table[a.number], a.highMask);
      Index(if row == 0 then Clear(ix.group, a.numberMask) else ix.group, ix.table[a.number := row])
    else
      Index(Clear(ix.group, a.numberMask), ix.table)
  }

  /** The priority that rt_schedule computes. */
  function Highest(ix: Index, wide: bool): int {
    var n := Ffs(ix.group) - 1;
    if wide && 0 <= n < |ix.table| then n * 8 + Ffs(ix.table[n]) - 1 else n
  }

  function Level(g: nat, r: nat): nat {
    g * 8 + r
  }

  predicate IsByte(v: bv32) {
    v < 0x100
  }

  /** One bit for each priority whose ready list is not empty. */
  ghost predicate Agrees(ix: Index, wide: bool, busy: set<nat>) {
    && |ix.table| == 32 && (forall p :: p in busy ==> p < Limit(wide))
    && (!wide ==> forall p :: 0 <= p < 32 ==> (Bit(ix.group, p) <==> p in busy))
    && (wide ==> forall g :: 0 <= g < 32 ==> Group(ix, g) && Row8(ix.table[g], g, busy))
  }

  ghost predicate Group(ix: Index, g: nat)
    requires g < |ix.table|
  {
    IsByte(ix.table[g]) && (Bit(ix.group, g) <==> ix.table[g] != 0)
  }

  ghost predicate Row8(row: bv32, g: nat, busy: set<nat>) {
    forall r :: 0 <= r < 8 ==> (Bit(row, r) <==> Level(g, r) in busy)
  }

  lemma MarkAgrees(ix: Index, wide: bool, busy: set<nat>, p: nat)
    requires Agrees(ix, wide, busy) && p < Limit(wide)
    ensures AttrOf(wide, p).number < 32 && Agrees(Mark(ix, wide, AttrOf(wide, p)), wide, busy + {p})
  {
    hide Mask, Bit, Set, Clear, IsByte;
    var ix' := Mark(ix, wide, AttrOf(wide, p));
    if !wide {
      forall q | 0 <= q < 32 ensures Bit(ix'.group, q) <==> q in busy + {p} { SetClear(ix.group, p, q); }
    } else {
      var n, s := p / 8, p % 8;
      ByteSet(ix.table[n], s);
      forall g | 0 <= g < 32 ensures Group(ix', g) && Row8(ix'.table[g], g, busy + {p}) {
        SetClear(ix.group, n, g);
        forall r | 0 <= r < 8 ensures Bit(ix'.table[g], r) <==> Level(g, r) in busy + {p} {
          SetClear(ix.table[n], s, r);
        }
      }
    }
  }

  lemma UnmarkAgrees(ix: Index, wide: bool, busy: set<nat>, p: nat)
    requires Agrees(ix, wide, busy) && p < Limit(wide)
    ensures AttrOf(wide, p).number < 32 && Agrees(Unmark(ix, wide, AttrOf(wide, p)), wide, busy - {p})
  {
    hide Mask, Bit, Set, Clear, IsByte;
    var ix' := Unmark(ix, wide, AttrOf(wide, p));
    if !wide {
      forall q | 0 <= q < 32 ensures Bit(ix'.group, q) <==> q in busy - {p} { SetClear(ix.group, p, q); }
    } else {
      var n, s := p / 8, p % 8;
      ByteClear(ix.table[n], s);
      ClearZero(Mask(s));
      forall g | 0 <= g < 32 ensures Group(ix', g) && Row8(ix'.table[g], g, busy - {p}) {
        SetClear(ix.group, n, g);
        forall r | 0 <= r < 8 ensures Bit(ix'.table[g], r) <==> Level(g, r) in busy - {p} {
          SetClear(ix.table[n], s, r);
        }
      }
    }
  }

  /** __rt_ffs on the index finds the numerically lowest priority with a ready thread. */
  lemma HighestLowest(ix: Index, wide: bool, busy: set<nat>)
    requires Agrees(ix, wide, busy) && busy != {}
    ensures Highest(ix, wide) in busy && forall q :: q in busy ==> Highest(ix, wide) <= q
  {
    hide Mask, Bit, Ffs, IsByte;
    var p :| p in busy;
    FfsLowest(ix.group);
    if !wide {
      ZeroBit(p);
    } else {
      Slot(ix, busy, p);
      ZeroBit(p / 8);
      var n := Ffs(ix.group) - 1;
      assert Group(ix, n) && Row8(ix.table[n], n, busy);
      FfsLowest(ix.table[n]);
      FfsByte(ix.table[n]);
      assert Level(n, Ffs(ix.table[n]) - 1) in busy;
      forall q | q in busy ensures Highest(ix, wide) <= q {
        Slot(ix, busy, q);
        assert Level(q / 8, q % 8) == q;
      }
    }
  }

  lemma Slot(ix: Index, busy: set<nat>, q: nat)
    requires Agrees(ix, true, busy) && q in busy
    ensures Bit(ix.group, q / 8) && Bit(ix.table[q / 8], q % 8)
  {
    hide Mask, Bit, IsByte;
    assert Level(q / 8, q % 8) == q;
    assert Group(ix, q / 8) && Row8(ix.table[q / 8], q / 8, busy);
    ZeroBit(q % 8);
  }

  lemma ZeroBit(p: nat)
    ensures !Bit(0, p)
  {
  }

  lemma ByteSet(v: bv32, r: nat)
    requires IsByte(v) && r < 8
    ensures IsByte(Set(v, Mask(r))) && Set(v, Mask(r)) != 0
  {
    MaskValues();
  }

  lemma ByteClear(v: bv32, r: nat)
    requires IsByte(v)
    ensures IsByte(Clear(v, Mask(r)))
  {
    BelowAnd(v, !Mask(r));
  }

  lemma ClearZero(m: bv32)
    ensures Clear(0, m) == 0
  {
  }

  lemma BelowAnd(v: bv32, m: bv32)
    requires v < 0x100
    ensures v & m < 0x100
  {
  }

  lemma FfsByte(v: bv32)
    requires IsByte(v)
    ensures Ffs(v) <= 8
  {
    if v != 0 {
      LowByte(v);
      TableLow(v & 0xFF);
    }
  }

  lemma LowByte(v: bv32)
    requires 0 < v < 0x100
    ensures v & 0xFF == v
  {
  }

  // ---- words as sets of bits ----

  predicate Single(m: bv32) {
    m != 0 && m & (m - 1) == 0
  }

  lemma SingleMask(p: nat)
    requires p < 32
    ensures Single(Mask(p))
  {
    MaskValues();
  }

  lemma AndAt(v: bv32, w: bv32, m: bv32)
    requires Single(m)
    ensures Meets(v & w, m) <==> Meets(v, m) && Meets(w, m)
  {
  }

  lemma OrAt(v: bv32, w: bv32, m: bv32)
    ensures Meets(v | w, m) <==> Meets(v, m) || Meets(w, m)
  {
    OrSpread(v, w, m);
    OrZero(v & m, w & m);
  }

  lemma OrSpread(v: bv32, w: bv32, m: bv32)
    ensures (v | w) & m == (v & m) | (w & m)
  {
  }

  lemma OrZero(a: bv32, b: bv32)
    ensures a | b == 0 <==> a == 0 && b == 0
  {
  }

  lemma XorAt(v: bv32, w: bv32, m: bv32)
    requires Single(m)
    ensures Meets(v ^ w, m) <==> Meets(v, m) != Meets(w, m)
  {
  }

  lemma NotAt(v: bv32, m: bv32)
    requires Single(m)
    ensures Meets(!v, m) <==> !Meets(v, m)
  {
  }

  function Inverse(w: bv32): bv32 {
    !w
  }

  lemma ClearIs(v: bv32, w: bv32)
    ensures Clear(v, w) == v & Inverse(w)
  {
  }

  lemma InverseAt(v: bv32, m: bv32)
    requires Single(m)
    ensures Meets(Inverse(v), m) <==> !Meets(v, m)
  {
    NotAt(v, m);
    hide Meets, Single;
  }

  lemma ClearAt(v: bv32, w: bv32, m: bv32)
    requires Single(m)
    ensures Meets(Clear(v, w), m) <==> Meets(v, m) && !Meets(w, m)
  {
    hide Meets, Single, Clear, Inverse;
    ClearIs(v, w);
    InverseAt(w, m);
    AndAt(v, Inverse(w), m);
  }

  lemma AndBit(v: bv32, w: bv32, p: nat)
    requires p < 32
    ensures Bit(v & w, p) <==> Bit(v, p) && Bit(w, p)
  {
    hide Mask, Meets, Single;
    SingleMask(p);
    AndAt(v, w, Mask(p));
  }

  lemma OrBit(v: bv32, w: bv32, p: nat)
    ensures Bit(v | w, p) <==> Bit(v, p) || Bit(w, p)
  {
    hide Mask, Meets;
    OrAt(v, w, Mask(p));
  }

  lemma XorBit(v: bv32, w: bv32, p: nat)
    requires p < 32
    ensures Bit(v ^ w, p) <==> Bit(v, p) != Bit(w, p)
  {
    hide Mask, Meets, Single;
    SingleMask(p);
    XorAt(v, w, Mask(p));
  }

  lemma NotBit(v: bv32, p: nat)
    requires p < 32
    ensures Bit(!v, p) <==> !Bit(v, p)
  {
    hide Mask, Meets, Single;
    SingleMask(p);
    NotAt(v, Mask(p));
  }

  lemma ClearBit(v: bv32, w: bv32, p: nat)
    requires p < 32
    ensures Bit(Clear(v, w), p) <==> Bit(v, p) && !Bit(w, p)
  {
    hide Mask, Meets, Single, Clear;
    SingleMask(p);
    ClearAt(v, w, Mask(p));
  }

  /** Zero is the word without bits. */
  lemma NoBit(v: bv32)
    ensures v == 0 <==> forall p :: 0 <= p < 32 ==> !Bit(v, p)
  {
    hide Ffs, Mask, Meets;
    if v == 0 {
      forall p | 0 <= p < 32 ensures !Bit(v, p) { ZeroBit(p); }
    } else {
      FfsLowest(v);
      var p := Ffs(v) - 1;
      assert Bit(v, p);
    }
  }

  // ---- words as numbers ----

  function Value(v: bv32): nat {
    v as nat
  }

  function Half(v: bv32): bv32 {
    v >> 1
  }

  predicate Odd(v: bv32) {
    v & 1 == 1
  }

  function Appended(h: bv32, odd: bool): bv32 {
    if odd then (h << 1) | 1 else h << 1
  }

  predicate Small(h: bv32) {
    h < 0x8000_0000
  }

  lemma AppendValue(h: bv32, odd: bool)
    requires Small(h)
    ensures Value(Appended(h, odd)) == 2 * Value(h) + if odd then 1 else 0
  {
    if odd { AppendOne(h); } else { AppendZero(h); }
    hide Value, Small;
  }

  lemma AppendZero(h: bv32)
    requires Small(h)
    ensures Value(h << 1) == 2 * Value(h)
  {
  }

  lemma AppendOne(h: bv32)
    requires Small(h)
    ensures Value((h << 1) | 1) == 2 * Value(h) + 1
  {
  }

  lemma SmallValue(v: bv32)
    requires Value(v) < 0x8000_0000
    ensures Small(v)
  {
  }

  lemma HalfSmall(v: bv32)
    ensures Small(Half(v))
  {
  }

  lemma HalfParts(v: bv32)
    ensures v == Appended(Half(v), Odd(v))
  {
    if Odd(v) { OddParts(v); } else { EvenParts(v); }
    hide Odd;
  }

  lemma OddParts(v: bv32)
    requires v & 1 == 1
    ensures v == (v >> 1 << 1) | 1
  {
  }

  lemma EvenParts(v: bv32)
    requires v & 1 != 1
    ensures v == v >> 1 << 1
  {
  }

  lemma LowestBit(v: bv32)
    ensures Bit(v, 0) <==> Odd(v)
  {
    assert Mask(0) == 1;
    OneOrNone(v);
  }

  lemma OneOrNone(v: bv32)
    ensures v & 1 == 0 || v & 1 == 1
  {
  }

  lemma HalfValue(v: bv32)
    ensures Value(v) == 2 * Value(Half(v)) + (if Odd(v) then 1 else 0) && (Bit(v, 0) <==> Odd(v))
  {
    HalfSmall(v);
    HalfParts(v);
    LowestBit(v);
    AppendValue(Half(v), Odd(v));
    hide Value, Half, Odd, Appended, Small, Bit;
  }

  /** Every number below 2^32 is the value of a word. */
  lemma {:induction false} WordOf(n: nat) returns (v: bv32)
    requires n < 0x1_0000_0000
    ensures Value(v) == n
  {
    if n == 0 { return 0; }
    var h := WordOf(n / 2);
    SmallValue(h);
    AppendValue(h, n % 2 == 1);
    hide Value, Appended, Small;
    return Appended(h, n % 2 == 1);
  }

  lemma FromNumber(n: nat, v: bv32)
    requires Value(v) == n
    ensures n as bv32 == v
  {
  }

  lemma ToNumber(n: nat)
    requires n < 0x1_0000_0000
    ensures Value(n as bv32) == n
  {
    var v := WordOf(n);
    FromNumber(n, v);
  }

  lemma BitHalf(v: bv32, p: nat)
    requires 0 < p < 32
    ensures Bit(v, p) <==> Bit(Half(v), p - 1)
  {
    LowMask(p - 1);
    HalfMeets(v, Mask(p - 1));
    hide Mask, Meets, Half;
  }

  lemma LowMask(q: nat)
    requires q < 31
    ensures Small(Mask(q)) && Mask(q + 1) == Appended(Mask(q), false)
  {
    MaskValues();
    MaskStep(q + 1);
  }

  lemma HalfMeets(v: bv32, m: bv32)
    requires Small(m)
    ensures Meets(v, Appended(m, false)) <==> Meets(Half(v), m)
  {
    ShiftMeets(v, m);
    hide Meets;
  }

  lemma ShiftMeets(v: bv32, m: bv32)
    requires Small(m)
    ensures Meets(v, m << 1) <==> Meets(v >> 1, m)
  {
    assert ((v >> 1) & m) << 1 == v & (m << 1);
    ShiftZero((v >> 1) & m);
    assert ((v >> 1) & m) & 0x8000_0000 == 0;
  }

  lemma ShiftZero(a: bv32)
    requires a & 0x8000_0000 == 0
    ensures a << 1 == 0 <==> a == 0
  {
  }

  /** Bit p of a number. */
  lemma {:induction false} BitIs(v: bv32, p: nat)
    requires p < 32
    ensures Pow2(p) > 0 && (Bit(v, p) <==> Value(v) / Pow2(p) % 2 == 1)
    decreases p
  {
    hide Bit, Value, Half, Odd;
    HalfValue(v);
    if p > 0 {
      BitIs(Half(v), p - 1);
      BitHalf(v, p);
      HalfFirst(Value(v), Value(Half(v)), Pow2(p - 1));
    }
  }

  lemma HalfFirst(n: nat, h: nat, k: nat)
    requires k > 0 && n / 2 == h
    ensures h / k == n / (2 * k)
  {
    Euclid(h, k);
    assert h / k * (2 * k) == 2 * (h / k * k);
    DivIs(n, 2 * k, h / k, 2 * (h % k) + n % 2);
  }

  lemma {:induction false} MaskNumber(p: nat)
    requires p < 32
    ensures Value(Mask(p)) == Pow2(p)
  {
    if p > 0 {
      MaskNumber(p - 1);
      LowMask(p - 1);
      AppendValue(Mask(p - 1), false);
      hide Mask, Appended, Small, Value;
    }
  }

  /** A word with a single bit is the mask of that bit. */
  lemma SingleIs(v: bv32)
    requires Single(v)
    ensures 1 <= Ffs(v) <= 32 && v == Mask(Ffs(v) - 1)
  {
    FfsLowest(v);
    var p := Ffs(v) - 1;
    SingleMask(p);
    BothSingle(v, Mask(p));
    hide Mask, Ffs, Single;
  }

  lemma BothSingle(v: bv32, m: bv32)
    requires Single(v) && Single(m) && Meets(v, m)
    ensures v == m
  {
  }

  /** The numbers whose word has a single bit are the powers of two. */
  lemma SingleNumber(n: nat)
    requires n < 0x1_0000_0000
    ensures Single(n as bv32) <==> exists p :: 0 <= p < 32 && n == Pow2(p)
  {
    ToNumber(n);
    var v := n as bv32;
    if Single(v) {
      SingleIs(v);
      MaskNumber(Ffs(v) - 1);
    }
    hide Mask, Ffs, Single, Value;
    if p :| 0 <= p < 32 && n == Pow2(p) {
      MaskNumber(p);
      FromNumber(n, Mask(p));
      SingleMask(p);
    }
  }
}
