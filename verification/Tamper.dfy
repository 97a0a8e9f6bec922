/** What the checksum of a blob rules out. */
module Tamper {
  import opened Bytes
  import opened Blob
  import opened Check
  import opened CrcAlgebra
  import Crc
  import CrcTheory

  /** What the checksum is taken over. */
  function Covered(b: Bytes): Bytes
    requires |b| >= HDR_SIZE
  {
    ZeroedHeader(b) + b[HDR_SIZE..]
  }

  lemma SameWord(x: bv32, y: bv32)
    requires x as nat == y as nat
    ensures x == y
  {
    assert (x as nat) as bv32 == x && (y as nat) as bv32 == y;
  }

  lemma AcceptedChecksum(b: Bytes)
    requires Verdict(b) == OK
    ensures |b| >= HDR_SIZE && Crc.Crc32(Covered(b)) as nat == Num(b, 20, 4)
  {
  }

  /** Four bytes outside the checksum field differ: so do the covered strings, at the same place. */
  lemma CoveredDiffers(b: Bytes, c: Bytes, i: nat)
    requires |b| >= HDR_SIZE && DifferWithin(b, c, i) && (i + 4 <= 20 || HDR_SIZE <= i)
    ensures DifferWithin(Covered(b), Covered(c), i)
    ensures Covered(b) == Covered(c) ==> b == c
    ensures Num(b, 20, 4) == Num(c, 20, 4)
  {
    var x, y := Covered(b), Covered(c);
    forall k | 0 <= k < |b| && !(i <= k < i + 4) ensures b[k] == c[k] && x[k] == y[k] {
      if k < i {
        assert b[..i][k] == c[..i][k];
      } else {
        assert b[i + 4..][k - i - 4] == c[i + 4..][k - i - 4];
      }
    }
    assert b[20..24] == c[20..24];
    assert forall k :: 0 <= k < |b| && !(20 <= k < 24) ==> x[k] == b[k] && y[k] == c[k];
    if x == y {
      assert forall k :: 0 <= k < |b| ==> b[k] == c[k];
    }
  }

  /** Only the checksum field differs: the covered strings are the same. */
  lemma FieldDiffers(b: Bytes, c: Bytes)
    requires |b| >= HDR_SIZE && DifferWithin(b, c, 20)
    ensures Covered(b) == Covered(c)
    ensures Num(b, 20, 4) == Num(c, 20, 4) ==> b == c
  {
    if Num(b, 20, 4) == Num(c, 20, 4) {
      LeLeVal(b[20..24]);
      LeLeVal(c[20..24]);
      assert b == b[..20] + b[20..24] + b[24..] && c == c[..20] + c[20..24] + c[24..];
    }
  }

  /** nw_check never accepts both a blob and a copy altered within four consecutive bytes that
      lie inside the checksum field or clear of it. */
  lemma AlterationRefused(b: Bytes, c: Bytes, i: nat)
    requires DifferWithin(b, c, i) && b != c
    requires i + 4 <= 20 || i == 20 || HDR_SIZE <= i
    requires Verdict(b) == OK
    ensures Verdict(c) != OK
  {
    hide Verdict, Crc.Crc32, ZeroedHeader, Num;
    AcceptedChecksum(b);
    if Verdict(c) == OK {
      AcceptedChecksum(c);
      if i == 20 {
        FieldDiffers(b, c);
      } else {
        CoveredDiffers(b, c, i);
        SameWord(Crc.Crc32(Covered(b)), Crc.Crc32(Covered(c)));
        CrcTheory.BurstDetected(Covered(b), Covered(c), i);
      }
    }
  }
}
