/** A blob is accepted exactly when it is the canonical encoding of a well-formed plan. */
module Codec {
  import opened Bytes
  import opened Blob
  import opened Check

  /* One unit. */

  /** The pinned offsets of struct nw_unit, and its end. */
  const CUTS: seq<nat> := [0, 32, 160, 192, 224, 225, 226, 227, 228, 236, 244, 252, 260, 262, 263, 264, 268,
                           270, 271, 275, 279, 287, 288]

  ghost predicate EndsAt(fs: seq<Bytes>, k: nat)
    requires |fs| == 22 && k < 22
  {
    CUTS[k + 1] == CUTS[k] + |fs[k]|
  }

  lemma TextsFit(x: Unit)
    requires Packable(x) && |x.brick| == BRICK_HASH
    ensures forall k :: 0 <= k < 8 ==> EndsAt(UnitFields(x), k)
  {
    hide Le, Pad, Signed, Pow256;
  }

  lemma NumbersFit(x: Unit)
    requires Packable(x) && |x.brick| == BRICK_HASH
    ensures forall k :: 8 <= k < 16 ==> EndsAt(UnitFields(x), k)
  {
    hide Le, Pad, Signed, Pow256;
  }

  lemma RestFits(x: Unit)
    requires Packable(x) && |x.brick| == BRICK_HASH
    ensures forall k :: 16 <= k < 22 ==> EndsAt(UnitFields(x), k)
  {
    hide Le, Pad, Signed, Pow256;
  }

  lemma UnitFits(x: Unit)
    requires Packable(x) && |x.brick| == BRICK_HASH
    ensures Fits(UnitFields(x), CUTS)
  {
    hide UnitFields, Packable;
    TextsFit(x);
    NumbersFit(x);
    RestFits(x);
    forall k | 0 <= k < 22 ensures CUTS[k + 1] == CUTS[k] + |UnitFields(x)[k]| {
      assert EndsAt(UnitFields(x), k);
    }
  }

  lemma EncodedUnitSize(x: Unit)
    requires Packable(x) && |x.brick| == BRICK_HASH
    ensures |EncodeUnit(x)| == UNIT_SIZE
  {
    UnitFits(x);
    JoinLength(UnitFields(x), CUTS);
  }

  /** Field `k` of an encoded unit. */
  lemma UnitField(x: Unit, k: nat)
    requires Packable(x) && |x.brick| == BRICK_HASH && k < 22
    ensures CUTS[k] <= CUTS[k + 1] <= |EncodeUnit(x)| == UNIT_SIZE
    ensures EncodeUnit(x)[CUTS[k]..CUTS[k + 1]] == UnitFields(x)[k]
  {
    hide UnitFields, Join;
    UnitFits(x);
    EncodedUnitSize(x);
    FieldAt(UnitFields(x), CUTS, k);
  }

  lemma ByteOfLe(v: nat)
    requires v < 256
    ensures Le(v, 1) == [v]
  {
    assert Le(v / 256, 0) == [];
  }

  lemma SignedByte(v: int)
    requires -128 <= v < 128
    ensures |Signed(v, 1)| == 1 && Int8(Signed(v, 1)[0]) == v
  {
    Pow256Values();
    ByteOfLe(if v < 0 then v + 256 else v);
  }

  lemma SignedWord(v: int)
    requires -32768 <= v < 32768
    ensures Int16(LeVal(Signed(v, 2))) == v
  {
    Pow256Values();
    LeValLe(if v < 0 then v + 65536 else v, 2);
  }

  /** One byte of an encoded unit. */
  lemma UnitByte(x: Unit, k: nat, v: nat)
    requires Packable(x) && |x.brick| == BRICK_HASH && k < 22
    requires CUTS[k + 1] == CUTS[k] + 1 && UnitFields(x)[k] == Le(v, 1) && v < 256
    ensures |EncodeUnit(x)| == UNIT_SIZE && EncodeUnit(x)[CUTS[k]] == v
  {
    UnitField(x, k);
    ByteOfLe(v);
    assert EncodeUnit(x)[CUTS[k]] == EncodeUnit(x)[CUTS[k]..CUTS[k + 1]][0];
  }

  /** One number of an encoded unit. */
  lemma UnitNum(x: Unit, k: nat, v: nat, w: nat)
    requires Packable(x) && |x.brick| == BRICK_HASH && k < 22
    requires UnitFields(x)[k] == Le(v, w) && v < Pow256(w)
    ensures |EncodeUnit(x)| == UNIT_SIZE && CUTS[k + 1] == CUTS[k] + w <= UNIT_SIZE
    ensures Num(EncodeUnit(x), CUTS[k], w) == v
  {
    UnitField(x, k);
    UnitFits(x);
    LeValLe(v, w);
  }

  lemma TextFields(x: Unit)
    requires UnitOk(x)
    ensures |EncodeUnit(x)| == UNIT_SIZE
    ensures Name(EncodeUnit(x)) == Pad(x.name, NAME_LEN) && ExecPath(EncodeUnit(x)) == Pad(x.execPath, PATH_LEN)
    ensures Brick(EncodeUnit(x)) == x.brick && Layer(EncodeUnit(x)) == Pad(x.layer, NAME_LEN)
  {
    hide EncodeUnit, Le, Signed, Pad;
    UnitField(x, 0);
    UnitField(x, 1);
    UnitField(x, 2);
    UnitField(x, 3);
  }

  lemma ByteFields(x: Unit)
    requires UnitOk(x)
    ensures |EncodeUnit(x)| == UNIT_SIZE
    ensures var u := EncodeUnit(x);
            u[224] == x.kind && u[225] == x.budget && u[226] == x.lids && u[227] == x.lock
  {
    hide EncodeUnit, UnitOk;
    KindAndBudget(x);
    LidsAndLock(x);
  }

  lemma KindAndBudget(x: Unit)
    requires UnitOk(x)
    ensures |EncodeUnit(x)| == UNIT_SIZE && EncodeUnit(x)[224] == x.kind && EncodeUnit(x)[225] == x.budget
  {
    hide EncodeUnit, Le, Signed, Pad, Split;
    UnitByte(x, 4, x.kind);
    UnitByte(x, 5, x.budget);
  }

  lemma LidsAndLock(x: Unit)
    requires UnitOk(x)
    ensures |EncodeUnit(x)| == UNIT_SIZE && EncodeUnit(x)[226] == x.lids && EncodeUnit(x)[227] == x.lock
  {
    hide EncodeUnit, Le, Signed, Pad, Split;
    UnitByte(x, 6, x.lids);
    UnitByte(x, 7, x.lock);
  }

  lemma LateByteFields(x: Unit)
    requires UnitOk(x)
    ensures |EncodeUnit(x)| == UNIT_SIZE
    ensures var u := EncodeUnit(x);
            u[263] == x.res.schedPolicy && u[270] == x.stopSignal && u[287] == x.supervisorDeathPolicy
  {
    hide EncodeUnit, Le, Signed, Pad, Split;
    UnitByte(x, 14, x.res.schedPolicy);
    UnitByte(x, 17, x.stopSignal);
    UnitByte(x, 21, x.supervisorDeathPolicy);
  }

  lemma NumFields(x: Unit)
    requires UnitOk(x)
    ensures |EncodeUnit(x)| == UNIT_SIZE
    ensures var u := EncodeUnit(x);
            && Num(u, 228, 8) == x.res.cpuMask && Num(u, 236, 8) == x.res.memHigh
            && Num(u, 244, 8) == x.res.memMax && Num(u, 252, 8) == x.res.layerBytes
            && Num(u, 260, 2) == x.res.cpuWeight
  {
    hide EncodeUnit, Le, LeVal, Signed, Pad, Pow256, Split;
    Pow256Values();
    UnitNum(x, 8, x.res.cpuMask, 8);
    UnitNum(x, 9, x.res.memHigh, 8);
    UnitNum(x, 10, x.res.memMax, 8);
    UnitNum(x, 11, x.res.layerBytes, 8);
    UnitNum(x, 12, x.res.cpuWeight, 2);
  }

  lemma LateNumFields(x: Unit)
    requires UnitOk(x)
    ensures |EncodeUnit(x)| == UNIT_SIZE
    ensures var u := EncodeUnit(x);
            && Num(u, 264, 4) == x.res.taskCap && Num(u, 271, 4) == x.gracePeriod
            && Num(u, 275, 4) == x.nofile && Num(u, 279, 8) == x.capabilities
  {
    hide EncodeUnit, Le, LeVal, Signed, Pad, Pow256, Split;
    Pow256Values();
    UnitNum(x, 15, x.res.taskCap, 4);
    UnitNum(x, 18, x.gracePeriod, 4);
    UnitNum(x, 19, x.nofile, 4);
    UnitNum(x, 20, x.capabilities, 8);
  }

  lemma SignedFields(x: Unit)
    requires UnitOk(x)
    ensures |EncodeUnit(x)| == UNIT_SIZE
    ensures Int8(EncodeUnit(x)[262]) == x.res.nice && Int16(Num(EncodeUnit(x), 268, 2)) == x.res.oomScoreAdj
  {
    hide EncodeUnit, Le, LeVal, Signed, Pad, Int8, Int16;
    UnitField(x, 13);
    UnitField(x, 16);
    SignedByte(x.res.nice);
    SignedWord(x.res.oomScoreAdj);
    assert EncodeUnit(x)[262] == EncodeUnit(x)[262..263][0];
  }

  lemma NameNoNul(s: Bytes)
    requires NameOk(s)
    ensures NoNul(s)
  {
  }

  lemma PathNoNul(s: Bytes)
    requires PathOk(s)
    ensures NoNul(s)
  {
  }

  lemma PadCanonical(s: Bytes, n: nat)
    requires NoNul(s) && |s| <= n
    ensures Canonical(Pad(s, n)) && CStr(Pad(s, n)) == s
  {
    CStrPad(s, n);
  }

  lemma TextsBack(x: Unit)
    requires UnitOk(x)
    ensures Canonical(Pad(x.name, NAME_LEN)) && CStr(Pad(x.name, NAME_LEN)) == x.name
    ensures Canonical(Pad(x.execPath, PATH_LEN)) && CStr(Pad(x.execPath, PATH_LEN)) == x.execPath
    ensures Canonical(Pad(x.layer, NAME_LEN)) && CStr(Pad(x.layer, NAME_LEN)) == x.layer
  {
    NameNoNul(x.name);
    PathNoNul(x.execPath);
    if x.layer != [] { NameNoNul(x.layer); }
    PadCanonical(x.name, NAME_LEN);
    PadCanonical(x.execPath, PATH_LEN);
    PadCanonical(x.layer, NAME_LEN);
  }

  /** Decoding an encoded unit gives the unit back. */
  lemma DecodeEncodedUnit(x: Unit)
    requires UnitOk(x)
    ensures |EncodeUnit(x)| == UNIT_SIZE && DecodeUnit(EncodeUnit(x)) == x
  {
    hide EncodeUnit, CStr, Pad, Canonical, Int8, Int16, LeVal, PathOk, NameOk;
    TextFields(x);
    ByteFields(x);
    LateByteFields(x);
    NumFields(x);
    LateNumFields(x);
    SignedFields(x);
    TextsBack(x);
  }

  /** An encoded unit breaks no rule. */
  lemma EncodedUnitPasses(x: Unit)
    requires UnitOk(x)
    ensures |EncodeUnit(x)| == UNIT_SIZE && UnitErr(EncodeUnit(x)) == OK
    ensures Layer(EncodeUnit(x))[0] != 0 <==> x.layer != []
  {
    hide EncodeUnit, CStr, Pad, Canonical, Int8, Int16, LeVal, PathOk, NameOk;
    DecodeEncodedUnit(x);
    TextFields(x);
    ByteFields(x);
    LateByteFields(x);
    TextsBack(x);
    LayerFlag(x.layer);
  }

  lemma LayerFlag(layer: Bytes)
    requires layer == [] || NameOk(layer)
    ensures Pad(layer, NAME_LEN)[0] != 0 <==> layer != []
    ensures HasBrick(Pad(layer, NAME_LEN)) <==> layer != []
  {
    if layer != [] {
      assert Pad(layer, NAME_LEN)[0] == layer[0];
      assert NameChar(layer[0]);
    }
  }

  /* The other way. */

  lemma OneByte(u: RawUnit, at: nat, v: nat)
    requires at < UNIT_SIZE && u[at] == v
    ensures Le(v, 1) == u[at..at + 1]
  {
    ByteOfLe(v);
  }

  lemma SomeBytes(u: RawUnit, at: nat, w: nat)
    requires at + w <= UNIT_SIZE
    ensures Le(Num(u, at, w), w) == u[at..at + w] && Num(u, at, w) < Pow256(w)
  {
    LeLeVal(u[at..at + w]);
  }

  lemma OneSigned(u: RawUnit, at: nat)
    requires at < UNIT_SIZE
    ensures -128 <= Int8(u[at]) < 128 && Signed(Int8(u[at]), 1) == u[at..at + 1]
  {
    Pow256Values();
    ByteOfLe(u[at]);
  }

  lemma TwoSigned(u: RawUnit, at: nat)
    requires at + 2 <= UNIT_SIZE
    ensures -32768 <= Int16(Num(u, at, 2)) < 32768 && Signed(Int16(Num(u, at, 2)), 2) == u[at..at + 2]
  {
    Pow256Values();
    SomeBytes(u, at, 2);
  }

  lemma TextBack(f: Bytes)
    requires Canonical(f)
    ensures |CStr(f)| <= |f| && Pad(CStr(f), |f|) == f
  {
    PadCStr(f);
  }

  lemma NoTextBack(f: Bytes)
    requires f != [] && f[0] == 0 && !HasBrick(f)
    ensures CStr(f) == [] && Pad([], |f|) == f
  {
    assert Canonical(f);
    PadCStr(f);
  }

  lemma AcceptedTexts(u: RawUnit)
    requires UnitErr(u) == OK
    ensures var x := DecodeUnit(u);
            && |x.name| <= NAME_LEN && Pad(x.name, NAME_LEN) == Name(u) && NameOk(x.name)
            && |x.execPath| <= PATH_LEN && Pad(x.execPath, PATH_LEN) == ExecPath(u) && PathOk(x.execPath)
            && |x.layer| <= NAME_LEN && Pad(x.layer, NAME_LEN) == Layer(u)
            && (x.layer == [] || NameOk(x.layer)) && (x.layer != [] <==> Layer(u)[0] != 0)
  {
    hide Pad, HasBrick, PathOk, NameOk, ResErr, TailErr;
    TextBack(Name(u));
    TextBack(ExecPath(u));
    if Layer(u)[0] != 0 {
      TextBack(Layer(u));
    } else {
      NoTextBack(Layer(u));
    }
  }

  /** A unit that breaks no rule decodes to a well-formed one. */
  lemma AcceptedUnitOk(u: RawUnit)
    requires UnitErr(u) == OK
    ensures UnitOk(DecodeUnit(u))
  {
    AcceptedTexts(u);
    AcceptedNums(u);
    hide PathOk, NameOk, CStr, Pad, HasBrick, Canonical;
    assert ResErr(ResOf(u), Layer(u)[0] != 0) == OK && TailErr(u) == OK && LayerErr(u) == OK && TextErr(u) == OK;
  }

  lemma AcceptedNums(u: RawUnit)
    ensures var r := ResOf(u);
            && r.cpuMask < 0x1_0000_0000_0000_0000 && r.memHigh < 0x1_0000_0000_0000_0000
            && r.memMax < 0x1_0000_0000_0000_0000 && r.layerBytes < 0x1_0000_0000_0000_0000
            && r.taskCap < 0x1_0000_0000
    ensures Num(u, 275, 4) < 0x1_0000_0000 && Num(u, 279, 8) < 0x1_0000_0000_0000_0000
  {
    hide Pow256, LeVal, Le;
    Pow256Values();
    SomeBytes(u, 228, 8);
    SomeBytes(u, 236, 8);
    SomeBytes(u, 244, 8);
    SomeBytes(u, 252, 8);
    SomeBytes(u, 264, 4);
    SomeBytes(u, 275, 4);
    SomeBytes(u, 279, 8);
  }

  ghost predicate PieceIs(u: RawUnit, fs: seq<Bytes>, k: nat)
    requires |fs| == 22 && k < 22
  {
    CUTS[k] <= CUTS[k + 1] <= UNIT_SIZE && fs[k] == u[CUTS[k]..CUTS[k + 1]]
  }

  lemma TextPieces(u: RawUnit)
    requires UnitErr(u) == OK && Packable(DecodeUnit(u))
    ensures var fs := UnitFields(DecodeUnit(u));
            PieceIs(u, fs, 0) && PieceIs(u, fs, 1) && PieceIs(u, fs, 2) && PieceIs(u, fs, 3)
  {
    hide UnitErr, Pad, Le, Signed, CStr, LeVal, Int8, Int16, PathOk, NameOk, Packable;
    AcceptedTexts(u);
  }

  lemma EarlyPieces(u: RawUnit)
    requires Packable(DecodeUnit(u))
    ensures var fs := UnitFields(DecodeUnit(u));
            PieceIs(u, fs, 4) && PieceIs(u, fs, 5)
  {
    hide Pad, Le, Signed, CStr, LeVal, Int8, Int16, Pow256;
    OneByte(u, 224, u[224]);
    OneByte(u, 225, u[225]);
  }

  lemma LidsPieces(u: RawUnit)
    requires Packable(DecodeUnit(u))
    ensures var fs := UnitFields(DecodeUnit(u));
            PieceIs(u, fs, 6) && PieceIs(u, fs, 7)
  {
    hide Pad, Le, Signed, CStr, LeVal, Int8, Int16, Pow256;
    OneByte(u, 226, u[226]);
    OneByte(u, 227, u[227]);
  }

  lemma MiddlePieces(u: RawUnit)
    requires Packable(DecodeUnit(u))
    ensures var fs := UnitFields(DecodeUnit(u));
            PieceIs(u, fs, 8) && PieceIs(u, fs, 9)
  {
    hide Pad, Le, Signed, CStr, LeVal, Int8, Int16, Pow256;
    SomeBytes(u, 228, 8);
    SomeBytes(u, 236, 8);
  }

  lemma MemoryPieces(u: RawUnit)
    requires Packable(DecodeUnit(u))
    ensures var fs := UnitFields(DecodeUnit(u));
            PieceIs(u, fs, 10) && PieceIs(u, fs, 11)
  {
    hide Pad, Le, Signed, CStr, LeVal, Int8, Int16, Pow256;
    SomeBytes(u, 244, 8);
    SomeBytes(u, 252, 8);
  }

  lemma SchedPieces(u: RawUnit)
    requires Packable(DecodeUnit(u))
    ensures var fs := UnitFields(DecodeUnit(u));
            PieceIs(u, fs, 12) && PieceIs(u, fs, 13) && PieceIs(u, fs, 14)
  {
    hide Pad, Le, Signed, CStr, LeVal, Int8, Int16, Pow256;
    SomeBytes(u, 260, 2);
    OneSigned(u, 262);
    OneByte(u, 263, u[263]);
  }

  lemma LatePieces(u: RawUnit)
    requires Packable(DecodeUnit(u))
    ensures var fs := UnitFields(DecodeUnit(u));
            && PieceIs(u, fs, 15) && PieceIs(u, fs, 16) && PieceIs(u, fs, 17) && PieceIs(u, fs, 18)
            && PieceIs(u, fs, 19) && PieceIs(u, fs, 20) && PieceIs(u, fs, 21)
  {
    hide Pad, Le, Signed, CStr, LeVal, Int8, Int16, Pow256;
    SomeBytes(u, 264, 4);
    TwoSigned(u, 268);
    OneByte(u, 270, u[270]);
    SomeBytes(u, 271, 4);
    SomeBytes(u, 275, 4);
    SomeBytes(u, 279, 8);
    OneByte(u, 287, u[287]);
  }

  lemma PackableDecoded(u: RawUnit)
    requires UnitErr(u) == OK
    ensures Packable(DecodeUnit(u))
  {
    AcceptedTexts(u);
    hide UnitErr;
    OneSigned(u, 262);
    TwoSigned(u, 268);
  }

  /** Fields that are the pieces of a unit join to it. */
  lemma PiecesJoin(u: RawUnit, fs: seq<Bytes>)
    requires |fs| == 22
    requires PieceIs(u, fs, 0) && PieceIs(u, fs, 1) && PieceIs(u, fs, 2) && PieceIs(u, fs, 3)
    requires PieceIs(u, fs, 4) && PieceIs(u, fs, 5) && PieceIs(u, fs, 6) && PieceIs(u, fs, 7)
    requires PieceIs(u, fs, 8) && PieceIs(u, fs, 9) && PieceIs(u, fs, 10) && PieceIs(u, fs, 11)
    requires PieceIs(u, fs, 12) && PieceIs(u, fs, 13) && PieceIs(u, fs, 14)
    requires PieceIs(u, fs, 15) && PieceIs(u, fs, 16) && PieceIs(u, fs, 17) && PieceIs(u, fs, 18)
    requires PieceIs(u, fs, 19) && PieceIs(u, fs, 20) && PieceIs(u, fs, 21)
    ensures Join(fs) == u
  {
    CutsAreBorders();
    hide PieceIs, Join, Borders;
    var ps := Pieces(u, CUTS, 0);
    forall k | 0 <= k < 22 ensures fs[k] == ps[k] {
      PieceAt(u, CUTS, 0, k);
      assert PieceIs(u, fs, k);
      PieceIsSlice(u, fs, k);
    }
    assert fs == ps;
    JoinPieces(u, CUTS, 0);
  }

  lemma CutsAreBorders()
    ensures Borders(CUTS, UNIT_SIZE)
  {
  }

  lemma PieceIsSlice(u: RawUnit, fs: seq<Bytes>, k: nat)
    requires |fs| == 22 && k < 22 && PieceIs(u, fs, k)
    ensures CUTS[k] <= CUTS[k + 1] <= UNIT_SIZE && fs[k] == u[CUTS[k]..CUTS[k + 1]]
  {
  }

  /** Encoding the decoded unit gives its bytes back. */
  lemma EncodeDecodedUnit(u: RawUnit)
    requires UnitErr(u) == OK
    ensures Packable(DecodeUnit(u)) && EncodeUnit(DecodeUnit(u)) == u
  {
    hide UnitFields, UnitErr, DecodeUnit, Join, PieceIs;
    PackableDecoded(u);
    TextPieces(u);
    EarlyPieces(u);
    LidsPieces(u);
    MiddlePieces(u);
    MemoryPieces(u);
    SchedPieces(u);
    LatePieces(u);
    PiecesJoin(u, UnitFields(DecodeUnit(u)));
  }
}
