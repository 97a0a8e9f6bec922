/** How names and paths may be spelled, by the character. */
module Spelling {
  import opened Bytes
  import opened Blob
  import opened Check

  /** 1 to 31 letters, digits, '_' or '-'. */
  predicate GoodName(s: seq<int>) {
    1 <= |s| <= 31 && forall i :: 0 <= i < |s| ==>
      48 <= s[i] <= 57 || 65 <= s[i] <= 90 || 97 <= s[i] <= 122 || s[i] == 95 || s[i] == 45
  }

  /** Nowhere "/.." before a slash or the end. */
  predicate Stays(p: seq<int>) {
    forall i :: 0 <= i < |p| - 2 && p[i] == 47 && p[i + 1] == 46 && p[i + 2] == 46 ==> i + 3 < |p| && p[i + 3] != 47
  }

  lemma StaysIff(b: Bytes)
    ensures Stays(b) <==> !HasClimb(b)
  {
    if Stays(b) {
      forall i: nat ensures !Climbs(b, i) {
      }
    } else {
      var i :| 0 <= i < |b| - 2 && b[i] == 47 && b[i + 1] == 46 && b[i + 2] == 46 && (i + 3 == |b| || b[i + 3] == 47);
      assert Climbs(b, i);
    }
  }

  /** No component is "..", of a path that begins with a slash. */
  lemma SplitIff(b: Bytes)
    requires b != [] && b[0] == SLASH
    ensures DOTDOT !in Split(b) <==> Stays(b)
  {
    SplitScan(b);
    StaysIff(b);
    hide Split, HasClimb, Stays;
    assert Split(b) == [Split(b)[0]] + Split(b)[1..];
  }

  lemma NameIff(s: Bytes)
    ensures GoodName(s) <==> NameOk(s)
  {
  }

  /** What the checker asks of a path. */
  predicate GoodPath(p: Bytes) {
    2 <= |p| <= 127 && p[0] == 47 && Stays(p) && forall i :: 0 <= i < |p| ==> p[i] >= 32 && p[i] != 127
  }

  lemma PathIff(p: Bytes)
    ensures GoodPath(p) <==> PathOk(p)
  {
    hide Split, Stays;
    if p != [] && p[0] == SLASH {
      SplitIff(p);
    }
  }
}
