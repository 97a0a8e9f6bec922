/** bakery/nw-cc.py: for which cities bake writes a blob, rule by rule and value by value. */
module BakerRules {
  import opened Bytes
  import opened Blob
  import opened Baker
  import opened Spelling

  /** Absolute, ASCII, at most 127 characters, and without a way up. */
  predicate BakedPath(p: Text) {
    && 1 <= |p| <= 127 && p[0] == 47
    && (forall i :: 0 <= i < |p| ==> 0 <= p[i] < 128)
    && Stays(p)
  }

  /** 64 digits from 0 to 9 and a to f, not all of them 0. */
  predicate GoodHash(s: Text) {
    && |s| == 64 && (forall i :: 0 <= i < 64 ==> 48 <= s[i] <= 57 || 97 <= s[i] <= 102)
    && exists i :: 0 <= i < 64 && s[i] != 48
  }

  /** At most 31 ASCII characters. */
  predicate GoodLayer(s: Text) {
    |s| <= 31 && forall i :: 0 <= i < |s| ==> 0 <= s[i] < 128
  }

  predicate GoodBlock(r: Block, layered: bool) {
    && 0 <= r.cpuMask < 0x1_0000_0000_0000_0000 && 0 <= r.memHigh < 0x1_0000_0000_0000_0000
    && 0 <= r.memMax < 0x1_0000_0000_0000_0000 && 0 <= r.layerBytes < 0x1_0000_0000_0000_0000
    && 0 <= r.cpuWeight < 0x1_0000 && -128 <= r.nice <= 127 && 0 <= r.schedPolicy <= 255
    && 0 <= r.taskCap < 0x1_0000_0000 && -32768 <= r.oomScoreAdj <= 32767
    && (r.memHigh > 0 && r.memMax > 0 ==> r.memHigh < r.memMax)
    && (r.nice != 0 ==> r.schedPolicy == 1)
    && (r.layerBytes > 0 ==> layered)
  }

  /** Lids: landlock is 2 and needs a brick, newns is 4 and a brick needs it. */
  predicate GoodHouse(h: House) {
    && GoodName(h.name) && BakedPath(h.exec) && GoodLayer(h.layer)
    && (h.kind == 0 || h.kind == 1) && 0 <= h.budget <= 255 && 0 <= h.lids <= 15
    && (h.lids in {2, 3, 6, 7, 10, 11, 14, 15} ==> h.brick != [])
    && (h.brick != [] ==> GoodHash(h.brick) && h.lids in {4, 5, 6, 7, 12, 13, 14, 15})
    && (h.brick != [] <==> h.layer != []) && (h.brick == [] ==> h.binds == [])
    && (forall p :: p in h.binds ==> BakedPath(p))
    && GoodBlock(h.res, h.layer != [])
    && 0 <= h.lock <= 255 && 0 <= h.stopSignal <= 255 && 0 <= h.gracePeriod < 0x1_0000_0000
    && 0 <= h.nofile < 0x1_0000_0000 && 0 <= h.capabilities < 0x1_0000_0000_0000_0000
    && 0 <= h.supervisorDeathPolicy <= 255
  }

  predicate Named(hs: seq<House>, s: Text) {
    exists i :: 0 <= i < |hs| && hs[i].name == s
  }

  /** Between two houses, neither of them unlocked. */
  predicate GoodWire(hs: seq<House>, w: Wire) {
    && Named(hs, w.a) && Named(hs, w.b) && w.a != w.b
    && forall i :: 0 <= i < |hs| && (hs[i].name == w.a || hs[i].name == w.b) ==> hs[i].lock != 1
  }

  predicate SameWire(v: Wire, w: Wire) {
    (v.a == w.a && v.b == w.b) || (v.a == w.b && v.b == w.a)
  }

  function BindCount(hs: seq<House>, n: nat): nat
    requires n <= |hs|
  {
    if n == 0 then 0 else BindCount(hs, n - 1) + |hs[n - 1].binds|
  }

  predicate GoodWires(hs: seq<House>, ws: seq<Wire>) {
    && (forall k :: 0 <= k < |ws| ==> GoodWire(hs, ws[k]))
    && (forall j, k :: 0 <= j < k < |ws| ==> !SameWire(ws[j], ws[k]))
  }

  predicate GoodCity(hs: seq<House>, ws: seq<Wire>) {
    && 1 <= |hs| <= 64 && BindCount(hs, |hs|) <= 128 && |ws| <= 128
    && (forall i, j :: 0 <= i < j < |hs| ==> hs[i].name != hs[j].name)
    && (forall i, j :: 0 <= i < j < |hs| && hs[j].layer != [] ==> hs[i].layer != hs[j].layer)
    && (forall i :: 0 <= i < |hs| ==> GoodHouse(hs[i]))
    && GoodWires(hs, ws)
  }

  /* One house. */

  lemma PathIff(p: Text)
    ensures BakedPath(p) <==> PathClean(p) && Paddable(p, PATH_LEN)
  {
    hide Split, Stays;
    if p != [] && p[0] == SLASH && Ascii(p) {
      SplitIff(Ascii8(p));
    }
  }

  lemma NameIff(alnum: int -> bool, s: Text)
    requires IsAlnum(alnum)
    ensures GoodName(s) <==> NameShape(alnum, s) && Paddable(s, NAME_LEN)
  {
    forall i | 0 <= i < |s| && 0 <= s[i] < 128 ensures alnum(s[i]) <==> LetterOrDigit(s[i]) {
    }
  }

  lemma HashIff(s: Text)
    ensures GoodHash(s) <==> IsHex64(s) && !ZeroHash(s)
  {
  }

  lemma LidsIff(lids: int)
    requires 0 <= lids <= 15
    ensures HasLandlock(lids) <==> lids in {2, 3, 6, 7, 10, 11, 14, 15}
    ensures HasNewns(lids) <==> lids in {4, 5, 6, 7, 12, 13, 14, 15}
  {
  }

  predicate BindsClean(h: House) {
    forall p :: p in h.binds ==> PathClean(p) && Paddable(p, PATH_LEN)
  }

  lemma HouseIff(alnum: int -> bool, h: House)
    requires IsAlnum(alnum)
    ensures GoodHouse(h) <==> Checked(alnum, h) && Encodable(h) && BindsClean(h)
  {
    NameIff(alnum, h.name);
    PathIff(h.exec);
    HashIff(h.brick);
    forall p ensures BakedPath(p) <==> PathClean(p) && Paddable(p, PATH_LEN) {
      PathIff(p);
    }
    hide NameShape, PathClean, BakedPath, GoodName, GoodHash, IsHex64, ZeroHash, HasLandlock, HasNewns, IsAlnum;
    if 0 <= h.lids <= 15 {
      LidsIff(h.lids);
    }
  }

  /* The binds. */

  lemma {:induction false} MountsIff(hs: seq<House>, n: nat)
    requires n <= |hs|
    ensures |Mounts(hs, n)| == BindCount(hs, n)
    ensures var ms := Mounts(hs, n);
            (forall k :: 0 <= k < |ms| ==> PathClean(ms[k].path) && Paddable(ms[k].path, PATH_LEN))
            <==> forall i :: 0 <= i < n ==> BindsClean(hs[i])
    decreases n
  {
    hide PathClean, Paddable;
    if n > 0 {
      var ms, own := Mounts(hs, n - 1), hs[n - 1].binds;
      MountsIff(hs, n - 1);
      assert forall k :: 0 <= k < |ms| ==> Mounts(hs, n)[k] == ms[k];
      assert forall k :: 0 <= k < |own| ==> Mounts(hs, n)[|ms| + k].path == own[k];
    }
  }

  /* The wires. */

  lemma NamedIff(hs: seq<House>, s: Text)
    ensures Named(hs, s) <==> s in Index(hs, |hs|)
    ensures DistinctNames(hs) && Named(hs, s) ==>
              forall i :: 0 <= i < |hs| ==> (hs[i].name == s <==> i == Index(hs, |hs|)[s])
  {
  }

  lemma WireIff(hs: seq<House>, w: Wire)
    requires DistinctNames(hs)
    ensures var idx := Index(hs, |hs|);
            GoodWire(hs, w) <==> WireEnds(idx, w) && NoneUnlocked(hs, EdgeOf(idx, w))
  {
    NamedIff(hs, w.a);
    NamedIff(hs, w.b);
    hide Index, DistinctNames;
  }

  lemma PairIff(idx: map<Text, nat>, v: Wire, w: Wire)
    requires WireEnds(idx, v) && WireEnds(idx, w)
    requires forall s, t :: s in idx && t in idx && idx[s] == idx[t] ==> s == t
    ensures Pair(EdgeOf(idx, v)) == Pair(EdgeOf(idx, w)) <==> SameWire(v, w)
  {
    var e, f := EdgeOf(idx, v), EdgeOf(idx, w);
    if Pair(e) == Pair(f) {
      assert e.a in Pair(f) && e.b in Pair(f) && f.a in Pair(e) && f.b in Pair(e);
    }
  }

  lemma EndsIff(hs: seq<House>, ws: seq<Wire>)
    requires DistinctNames(hs)
    ensures var idx := Index(hs, |hs|);
            (forall k :: 0 <= k < |ws| ==> GoodWire(hs, ws[k])) <==>
              && AllWireEnds(idx, ws)
              && forall k :: 0 <= k < |ws| ==> NoneUnlocked(hs, EdgesOf(idx, ws)[k])
  {
    var idx := Index(hs, |hs|);
    hide Index, GoodWire, WireEnds, NoneUnlocked, EdgeOf, DistinctNames, EdgesOf;
    if forall k :: 0 <= k < |ws| ==> GoodWire(hs, ws[k]) {
      forall k | 0 <= k < |ws| ensures WireEnds(idx, ws[k]) {
        WireIff(hs, ws[k]);
      }
      forall k | 0 <= k < |ws| ensures NoneUnlocked(hs, EdgesOf(idx, ws)[k]) {
        WireIff(hs, ws[k]);
      }
    }
    if AllWireEnds(idx, ws) && forall k :: 0 <= k < |ws| ==> NoneUnlocked(hs, EdgesOf(idx, ws)[k]) {
      forall k | 0 <= k < |ws| ensures GoodWire(hs, ws[k]) {
        WireIff(hs, ws[k]);
        assert EdgesOf(idx, ws)[k] == EdgeOf(idx, ws[k]);
      }
    }
  }

  lemma ApartIff(idx: map<Text, nat>, ws: seq<Wire>)
    requires AllWireEnds(idx, ws) && forall s, t :: s in idx && t in idx && idx[s] == idx[t] ==> s == t
    ensures Apart(EdgesOf(idx, ws)) <==> forall j, k :: 0 <= j < k < |ws| ==> !SameWire(ws[j], ws[k])
  {
    hide WireEnds, EdgeOf, SameWire, Pair;
    forall j, k | 0 <= j < k < |ws|
      ensures Pair(EdgesOf(idx, ws)[j]) == Pair(EdgesOf(idx, ws)[k]) <==> SameWire(ws[j], ws[k])
    {
      PairIff(idx, ws[j], ws[k]);
    }
  }

  lemma WiresIff(hs: seq<House>, ws: seq<Wire>)
    requires DistinctNames(hs)
    ensures var idx := Index(hs, |hs|);
            GoodWires(hs, ws) <==>
              && WiresResolve(idx, ws)
              && forall k :: 0 <= k < |ws| ==> NoneUnlocked(hs, EdgesOf(idx, ws)[k])
  {
    var idx := Index(hs, |hs|);
    hide Index, GoodWire, NoneUnlocked, EdgesOf, SameWire, Apart, AllWireEnds;
    EndsIff(hs, ws);
    if AllWireEnds(idx, ws) {
      ApartIff(idx, ws);
    }
  }

  /* The city. */

  /** bake writes a blob exactly for a city that meets the rules. */
  lemma AcceptsIff(alnum: int -> bool, hs: seq<House>, ws: seq<Wire>)
    requires IsAlnum(alnum)
    ensures Accepts(alnum, hs, ws) <==> GoodCity(hs, ws)
  {
    hide GoodHouse, GoodWires, Checked, Encodable, PathClean, Paddable, Index, Mounts, EdgesOf, NoneUnlocked,
      WiresResolve, BindsClean, BindCount, IsAlnum;
    MountsIff(hs, |hs|);
    forall i | 0 <= i < |hs|
      ensures GoodHouse(hs[i]) <==> Checked(alnum, hs[i]) && Encodable(hs[i]) && BindsClean(hs[i])
    {
      HouseIff(alnum, hs[i]);
    }
    if DistinctNames(hs) {
      WiresIff(hs, ws);
    }
  }
}
