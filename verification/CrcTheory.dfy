/** A byte survives the trip through an eight-bit word. */
module ByteWord {
  lemma Next(x: bv8)
    ensures x != 255 ==> (x + 1) as int == x as int + 1
    ensures x == 255 <==> x as int == 255
  {
  }

  /** Every byte is the value of a word. */
  lemma {:induction false} WordOf(b: int) returns (x: bv8)
    requires 0 <= b < 256
    ensures x as int == b
  {
    if b == 0 {
      x := 0;
    } else {
      x := WordOf(b - 1);
      Next(x);
      x := x + 1;
    }
  }

  lemma WordBack(x: bv8)
    ensures (x as int) as bv8 == x
  {
  }

  lemma ByteBack(b: int)
    requires 0 <= b < 256
    ensures (b as bv8) as int == b
  {
    var x := WordOf(b);
    WordBack(x);
  }
}

/** What the bitwise CRC is, and which alterations it cannot miss. */
module CrcTheory {
  import opened Bytes
  import opened Crc
  import opened CrcAlgebra
  import ByteWord

  function Xor(a: bv32, b: bv32): bv32 { a ^ b }
  function Low(x: bv32): bv32 { x & 0xff }
  function Rest(x: bv32): bv32 { x >> 8 }
  predicate Low8(x: bv32) { x < 0x100 }
  predicate Low16(x: bv32) { x < 0x1_0000 }
  predicate Low24(x: bv32) { x < 0x100_0000 }

  /* Section 8 of RFC 1952: the table-driven form. */

  function TableStep(c: bv32): bv32 {
    if c & 1 == 1 then POLY ^ (c >> 1) else c >> 1
  }

  /** make_crc_table's entry for `n`. */
  function TableEntry(n: bv32): bv32 {
    TableStep(TableStep(TableStep(TableStep(TableStep(TableStep(TableStep(TableStep(n))))))))
  }

  /** One turn of update_crc's loop. */
  function TableAbsorb(c: bv32, b: byte): bv32 {
    Xor(TableEntry(Low(Xor(c, Wide(b)))), Rest(c))
  }

  /** crc(buf, len) of that section. */
  function Rfc1952Crc(s: Bytes): bv32 {
    Feed(TableAbsorb, ALL_ONES, s) ^ ALL_ONES
  }

  /** The byte step as a register of the algebra sees it. */
  function Mix(c: bv32, b: byte): bv32 {
    TableEntry(Xor(c, Wide(b)))
  }

  lemma LowBit(c: bv32)
    ensures c & 1 == 0 || c & 1 == 1
  {
  }

  lemma StepIsTableStep(c: bv32)
    ensures Step(c) == TableStep(c)
  {
    LowBit(c);
    if c & 1 == 0 {
      assert 0 - (c & 1) == 0;
      assert POLY & 0 == 0;
    } else {
      assert 0 - (c & 1) == ALL_ONES;
      assert POLY & ALL_ONES == POLY;
    }
  }

  lemma Step8IsEntry(c: bv32)
    ensures Step8(c) == TableEntry(c)
  {
    StepIsTableStep(c);
    var c1 := TableStep(c);
    StepIsTableStep(c1);
    var c2 := TableStep(c1);
    StepIsTableStep(c2);
    var c3 := TableStep(c2);
    StepIsTableStep(c3);
    var c4 := TableStep(c3);
    StepIsTableStep(c4);
    var c5 := TableStep(c4);
    StepIsTableStep(c5);
    var c6 := TableStep(c5);
    StepIsTableStep(c6);
    var c7 := TableStep(c6);
    StepIsTableStep(c7);
  }

  lemma AbsorbIsMix(c: bv32, b: byte)
    ensures Absorb(c, b) == Mix(c, b)
  {
    hide Step8, TableEntry;
    Step8IsEntry(c ^ Wide(b));
  }

  /* The step splits over exclusive or. */

  lemma ShiftXor(a: bv32, b: bv32)
    ensures (a ^ b) >> 1 == (a >> 1) ^ (b >> 1) && (a ^ b) & 1 == (a & 1) ^ (b & 1)
  {
  }

  lemma XorMoves(p: bv32, x: bv32, y: bv32)
    ensures (p ^ x) ^ (p ^ y) == x ^ y
    ensures p ^ (x ^ y) == (p ^ x) ^ y == x ^ (p ^ y)
  {
  }

  lemma XorAssociates(a: bv32, b: bv32, c: bv32)
    ensures Xor(Xor(a, b), c) == Xor(a, Xor(b, c))
  {
  }

  lemma XorCommutes(a: bv32, b: bv32)
    ensures Xor(a, b) == Xor(b, a)
  {
  }

  ghost predicate Associates<W>(op: (W, W) -> W, a: W, b: W, c: W) {
    op(op(a, b), c) == op(a, op(b, c))
  }

  lemma MiddleSwaps<W(!new)>(op: (W, W) -> W, c: W, x: W, d: W, y: W)
    requires forall a, b, e :: Associates(op, a, b, e)
    requires op(x, d) == op(d, x)
    ensures op(op(c, x), op(d, y)) == op(op(c, d), op(x, y))
  {
    assert Associates(op, c, x, op(d, y)) && Associates(op, x, d, y);
    assert Associates(op, d, x, y) && Associates(op, c, d, op(x, y));
  }

  ghost predicate StepSplits<W>(f: W -> W, xor: (W, W) -> W, x: W, y: W) {
    f(xor(x, y)) == xor(f(x), f(y))
  }

  lemma TableStepSplits(a: bv32, b: bv32)
    ensures StepSplits(TableStep, Xor, a, b)
  {
    LowBit(a);
    LowBit(b);
    ShiftXor(a, b);
    if a & 1 == 0 && b & 1 == 0 {
      assert TableStep(a ^ b) == (a >> 1) ^ (b >> 1);
    } else if a & 1 == 0 {
      assert TableStep(a ^ b) == POLY ^ ((a >> 1) ^ (b >> 1));
      XorMoves(POLY, a >> 1, b >> 1);
    } else if b & 1 == 0 {
      assert TableStep(a ^ b) == POLY ^ ((a >> 1) ^ (b >> 1));
      XorMoves(POLY, a >> 1, b >> 1);
    } else {
      assert TableStep(a ^ b) == (a >> 1) ^ (b >> 1);
      XorMoves(POLY, a >> 1, b >> 1);
    }
  }

  function Eight<W>(f: W -> W, c: W): W {
    f(f(f(f(f(f(f(f(c))))))))
  }

  lemma EightSplits<W(!new)>(f: W -> W, xor: (W, W) -> W, a: W, b: W)
    requires forall x, y :: StepSplits(f, xor, x, y)
    ensures Eight(f, xor(a, b)) == xor(Eight(f, a), Eight(f, b))
  {
    var a1, b1 := f(a), f(b);
    var a2, b2 := f(a1), f(b1);
    var a3, b3 := f(a2), f(b2);
    var a4, b4 := f(a3), f(b3);
    var a5, b5 := f(a4), f(b4);
    var a6, b6 := f(a5), f(b5);
    var a7, b7 := f(a6), f(b6);
    assert StepSplits(f, xor, a, b) && StepSplits(f, xor, a1, b1);
    assert StepSplits(f, xor, a2, b2) && StepSplits(f, xor, a3, b3);
    assert StepSplits(f, xor, a4, b4) && StepSplits(f, xor, a5, b5);
    assert StepSplits(f, xor, a6, b6) && StepSplits(f, xor, a7, b7);
  }

  lemma EntrySplits(a: bv32, b: bv32)
    ensures TableEntry(Xor(a, b)) == Xor(TableEntry(a), TableEntry(b))
  {
    forall x, y ensures StepSplits(TableStep, Xor, x, y) {
      TableStepSplits(x, y);
    }
    EightSplits(TableStep, Xor, a, b);
    EntryIsEight(a);
    EntryIsEight(b);
    EntryIsEight(Xor(a, b));
  }

  lemma EntryIsEight(c: bv32)
    ensures TableEntry(c) == Eight(TableStep, c)
  {
  }

  /* The table step, from the splitting of a word at its low byte. */

  lemma EntryOfHigh(x: bv32)
    ensures TableEntry(x & 0xffff_ff00) == x >> 8
  {
  }

  lemma LowHigh(x: bv32)
    ensures x == Xor(Low(x), x & 0xffff_ff00)
  {
  }

  lemma EntryOfLow(x: bv32)
    ensures TableEntry(x) == Xor(TableEntry(Low(x)), Rest(x))
  {
    LowHigh(x);
    EntrySplits(Low(x), x & 0xffff_ff00);
    EntryOfHigh(x);
  }

  lemma WordIsLow(b: byte)
    ensures Low8(Wide(b))
  {
  }

  lemma XorRest(c: bv32, x: bv32)
    requires Low8(x)
    ensures Rest(Xor(c, x)) == Rest(c)
  {
  }

  lemma TableFromParts<W(!new)>(turn: W -> W, xor: (W, W) -> W, low: W -> W, rest: W -> W, c: W, x: W)
    requires forall y :: turn(y) == xor(turn(low(y)), rest(y))
    requires rest(xor(c, x)) == rest(c)
    ensures turn(xor(c, x)) == xor(turn(low(xor(c, x))), rest(c))
  {
  }

  lemma MixIsTableAbsorb(c: bv32, b: byte)
    ensures Mix(c, b) == TableAbsorb(c, b)
  {
    forall y ensures TableEntry(y) == Xor(TableEntry(Low(y)), Rest(y)) {
      EntryOfLow(y);
    }
    WordIsLow(b);
    XorRest(c, Wide(b));
    TableFromParts(TableEntry, Xor, Low, Rest, c, Wide(b));
  }

  /** The bitwise loop computes the CRC of section 8 of RFC 1952. */
  lemma Crc32IsRfc1952(s: Bytes)
    ensures Crc32(s) == Rfc1952Crc(s)
  {
    forall c, b ensures Absorb(c, b) == TableAbsorb(c, b) {
      AbsorbIsMix(c, b);
      MixIsTableAbsorb(c, b);
    }
    FeedAgrees(Absorb, TableAbsorb, ALL_ONES, s);
  }

  /* The laws of the register. */

  function TheRegister(): Register<bv32> {
    Register(TableEntry, Xor, 0, Wide, Low8, Low16, Low24)
  }

  lemma XorSwaps(c: bv32, d: bv32, x: bv32, y: bv32)
    ensures Xor(Xor(c, x), Xor(d, y)) == Xor(Xor(c, d), Xor(x, y))
  {
    forall a, b, e ensures Associates(Xor, a, b, e) {
      XorAssociates(a, b, e);
    }
    XorCommutes(x, d);
    MiddleSwaps(Xor, c, x, d, y);
  }

  lemma XorSelf(x: bv32)
    ensures Xor(x, x) == 0
  {
  }

  lemma XorZero(x: bv32)
    ensures Xor(0, x) == x
  {
  }

  lemma XorCancels(x: bv32, y: bv32)
    ensures (Xor(x, y) == 0 <==> x == y) && Xor(0, x) == x
  {
    hide Xor;
    XorZero(x);
    XorZero(y);
    XorSelf(y);
    XorAssociates(x, y, y);
    XorCommutes(x, 0);
  }

  lemma XorLow(x: bv32, y: bv32)
    requires Low8(x) && Low8(y)
    ensures Low8(Xor(x, y))
  {
  }

  lemma WordInjective(x: bv8, y: bv8)
    requires x as bv32 == y as bv32
    ensures x == y
  {
  }

  lemma WordTells(b: byte, c: byte)
    ensures Low8(Xor(Wide(b), Wide(c))) && (Wide(b) == Wide(c) ==> b == c)
  {
    WordIsLow(b);
    WordIsLow(c);
    XorLow(Wide(b), Wide(c));
    if Wide(b) == Wide(c) {
      WordInjective(b as bv8, c as bv8);
      ByteWord.ByteBack(b);
      ByteWord.ByteBack(c);
    }
  }

  lemma EntryVanishes(d: bv32, e: bv32)
    ensures TableEntry(Xor(d, e)) == 0 ==> d == e
  {
  }

  lemma LowRises(d: bv32)
    ensures (Low8(d) ==> Low16(d)) && (Low16(d) ==> Low24(d))
  {
  }

  lemma EntryFalls8(d: bv32, e: bv32)
    requires e < 0x100 && TableEntry(d ^ e) < 0x100
    ensures d < 0x1_0000
  {
  }

  lemma EntryFalls16(d: bv32, e: bv32)
    requires e < 0x100 && TableEntry(d ^ e) < 0x1_0000
    ensures d < 0x100_0000
  {
  }

  lemma EntryFalls24(e: bv32)
    ensures Low8(e) && Low24(TableEntry(e)) ==> e == 0
  {
  }

  lemma ZeroStays()
    ensures TableEntry(0) == 0
  {
  }

  lemma RegisterIsLawful()
    ensures Lawful(TheRegister())
  {
    var r := TheRegister();
    forall p, q ensures r.Splits(p, q) { EntrySplits(p, q); }
    forall c, d, x, y ensures r.Swaps(c, d, x, y) { XorSwaps(c, d, x, y); }
    forall x, y ensures r.Cancels(x, y) { XorCancels(x, y); }
    forall b, c ensures r.Tells(b, c) { WordTells(b, c); }
    forall d, e ensures r.Vanishes(d, e) { EntryVanishes(d, e); }
    forall d ensures r.Rises(d) { LowRises(d); }
    forall d, e ensures r.Falls8(d, e) {
      if Low8(e) && Low8(TableEntry(Xor(d, e))) { EntryFalls8(d, e); }
    }
    forall d, e ensures r.Falls16(d, e) {
      if Low8(e) && Low16(TableEntry(Xor(d, e))) { EntryFalls16(d, e); }
    }
    forall e ensures r.Falls24(e) { EntryFalls24(e); }
    ZeroStays();
  }

  lemma AbsorbAgrees(c: bv32, b: byte)
    ensures Absorb(c, b) == TheRegister().Mix(c, b)
  {
    AbsorbIsMix(c, b);
  }

  lemma SameBeforeXor(c: bv32, d: bv32)
    requires c ^ ALL_ONES == d ^ ALL_ONES
    ensures c == d
  {
  }

  lemma SameFeed(s: Bytes, t: Bytes)
    requires Crc32(s) == Crc32(t)
    ensures Feed(Absorb, ALL_ONES, s) == Feed(Absorb, ALL_ONES, t)
  {
    SameBeforeXor(Feed(Absorb, ALL_ONES, s), Feed(Absorb, ALL_ONES, t));
  }

  /** The CRC tells apart any two strings that differ only within four consecutive bytes. */
  lemma BurstDetected(s: Bytes, t: Bytes, i: nat)
    requires DifferWithin(s, t, i) && Crc32(s) == Crc32(t)
    ensures s == t
  {
    RegisterIsLawful();
    forall c, b ensures Absorb(c, b) == TheRegister().Mix(c, b) {
      AbsorbAgrees(c, b);
    }
    SameFeed(s, t);
    BurstShows(TheRegister(), Absorb, ALL_ONES, s, t, i);
  }
}
