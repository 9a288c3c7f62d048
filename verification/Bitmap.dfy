/** The block and inode bitmaps of kernel/fs/fs.c: sectors of 64 words of 64 bits. */
module Bitmap {
  import opened Arithmetic

  const NBITS_PER_SECTOR := 4096

  /** A uint64_t, least significant bit first. */
  type Word = w: seq<bool> | |w| == 64 witness seq(64, _ => false)

  type Sector = s: seq<Word> | |s| == 64 witness seq(64, _ => seq(64, _ => false))

  /** Where the bit of block n is: bit n - 1 of the whole map. */
  function SectorOf(n: nat): int {
    (n - 1) / NBITS_PER_SECTOR
  }

  function WordOf(n: nat): (j: nat)
    requires n > 0
    ensures j < 64
  {
    (n - 1) % NBITS_PER_SECTOR / 64
  }

  function BitOf(n: nat): (t: nat)
    requires n > 0
    ensures t < 64
  {
    (n - 1) % 64
  }

  predicate InMap(s: seq<Sector>, n: nat) {
    0 < n <= NBITS_PER_SECTOR * |s|
  }

  lemma InSectors(s: seq<Sector>, n: nat)
    requires InMap(s, n)
    ensures 0 <= SectorOf(n) < |s|
  {
  }

  lemma MulMono(d: nat, a: int, b: int)
    requires a <= b
    ensures d * a <= d * b
  {
    if a < b {
      MulOrder(d, a, b);
    }
  }

  predicate Used(s: seq<Sector>, n: nat) {
    InMap(s, n) && (InSectors(s, n); s[SectorOf(n)][WordOf(n)][BitOf(n)])
  }

  function SetBit(s: seq<Sector>, n: nat, v: bool): (s': seq<Sector>)
    requires InMap(s, n)
    ensures |s'| == |s|
  {
    InSectors(s, n);
    var i, j := SectorOf(n), WordOf(n);
    s[i := s[i][j := s[i][j][BitOf(n) := v]]]
  }

  /** The number of the bit t of word j of sector i, counted from one. */
  function Num(i: nat, j: nat, t: nat): nat {
    NBITS_PER_SECTOR * i + 64 * j + t + 1
  }

  lemma NumParts(i: nat, j: nat, t: nat)
    requires j < 64 && t < 64
    ensures SectorOf(Num(i, j, t)) == i && WordOf(Num(i, j, t)) == j && BitOf(Num(i, j, t)) == t
  {
    DivUnique(Num(i, j, t) - 1, NBITS_PER_SECTOR, i, 64 * j + t);
    DivUnique(64 * j + t, 64, j, t);
    DivUnique(Num(i, j, t) - 1, 64, 64 * i + j, t);
  }

  /** Every number is some bit. */
  lemma PartsNum(n: nat)
    requires n > 0
    ensures SectorOf(n) >= 0 && n == Num(SectorOf(n), WordOf(n), BitOf(n))
  {
    var x := n - 1;
    var r := x % NBITS_PER_SECTOR;
    assert x == NBITS_PER_SECTOR * SectorOf(n) + r;
    DivUnique(x, 64, 64 * SectorOf(n) + r / 64, r % 64);
  }

  lemma SetBitUsed(s: seq<Sector>, n: nat, v: bool, m: nat)
    requires InMap(s, n)
    ensures Used(SetBit(s, n, v), m) <==> if m == n then v else Used(s, m)
  {
    if InMap(s, m) {
      InSectors(s, n);
      InSectors(s, m);
      PartsNum(n);
      PartsNum(m);
    }
  }

  /** Everything numbered below the bit t of word j of sector i is used. */
  ghost predicate AllUsedBelow(s: seq<Sector>, n: nat) {
    forall m | 0 < m < n :: Used(s, m)
  }

  lemma UsedNext(s: seq<Sector>, i: nat, j: nat, t: nat)
    requires i < |s| && j < 64 && t < 64 && AllUsedBelow(s, Num(i, j, t))
    ensures InMap(s, Num(i, j, t)) && (Used(s, Num(i, j, t)) <==> s[i][j][t])
    ensures s[i][j][t] ==> AllUsedBelow(s, Num(i, j, t) + 1)
  {
    NumParts(i, j, t);
    MulMono(NBITS_PER_SECTOR, i + 1, |s|);
  }

  lemma {:induction false} UsedWord(s: seq<Sector>, i: nat, j: nat, t: nat)
    requires i < |s| && j < 64 && t <= 64 && AllUsedBelow(s, Num(i, j, t)) && forall u | t <= u < 64 :: s[i][j][u]
    ensures AllUsedBelow(s, Num(i, j, 64))
    decreases 64 - t
  {
    if t < 64 {
      UsedNext(s, i, j, t);
      UsedWord(s, i, j, t + 1);
    }
  }

  function Ones(): Word {
    seq(64, _ => true)
  }

  /** val >>= 1 */
  function ShiftRight(val: Word): Word {
    val[1..] + [false]
  }

  /** The 64-bit one shifted left by k, as the bitmaps need it. */
  function Shifted(k: nat): Word {
    seq(64, t => t == k)
  }

  function Or(a: Word, b: Word): Word {
    seq(64, t requires 0 <= t < 64 => a[t] || b[t])
  }

  function AndNot(a: Word, b: Word): Word {
    seq(64, t requires 0 <= t < 64 => a[t] && !b[t])
  }

  lemma SomeZero(w: Word) returns (u: nat)
    requires w != Ones()
    ensures u < 64 && !w[u]
  {
    assert (forall u: nat | u < 64 :: w[u]) ==> w == Ones();
    u :| u < 64 && !w[u];
  }

  /** while (val & 1) { val >>= 1; bnum++; } */
  method TrailingOnes(w: Word) returns (t: nat)
    requires w != Ones()
    ensures t < 64 && !w[t] && forall u | 0 <= u < t :: w[u]
  {
    var val := w;
    t := 0;
    ghost var zero := SomeZero(w);
    while val[0]
      invariant t <= zero && forall u | 0 <= u < 64 - t :: val[u] == w[t + u]
      invariant forall u | 0 <= u < t :: w[u]
      decreases 64 - t
    {
      assert w[t];
      val := ShiftRight(val);
      t := t + 1;
    }
    assert !w[t + 0];
  }

  /** alloc_block and alloc_inode with a 64-bit shift: the first free bit is taken; a full map is left alone. */
  method Alloc(s: seq<Sector>) returns (s': seq<Sector>, num: nat)
    ensures num > 0 && AllUsedBelow(s, num) && !Used(s, num)
    ensures if InMap(s, num) then s' == SetBit(s, num, true) else s' == s && num == NBITS_PER_SECTOR * |s| + 1
  {
    s' := s;
    var bnum := 0;
    var i := 0;
    while i < |s|
      invariant i <= |s| && bnum == NBITS_PER_SECTOR * i && s' == s && AllUsedBelow(s, bnum + 1)
    {
      var sector := s[i];
      var j := 0;
      while j < 64
        invariant j <= 64 && bnum == NBITS_PER_SECTOR * i + 64 * j && AllUsedBelow(s, bnum + 1)
        invariant s' == s && sector == s[i]
      {
        if sector[j] == Ones() {
          UsedWord(s, i, j, 0);
          bnum := bnum + 64;
          j := j + 1;
        } else {
          var t := TrailingOnes(sector[j]);
          UsedPrefix(s, i, j, t, 0);
          UsedNext(s, i, j, t);
          bnum := bnum + t;
          assert bnum % 64 == t by { DivUnique(bnum, 64, 64 * i + j, t); }
          sector := sector[j := Or(sector[j], Shifted(bnum % 64))];
          s' := s'[i := sector];
          num := bnum + 1;
          NumParts(i, j, t);
          assert sector[j] == s[i][j][t := true];
          return;
        }
      }
      i := i + 1;
    }
    num := bnum + 1;
  }

  lemma {:induction false} UsedPrefix(s: seq<Sector>, i: nat, j: nat, t: nat, u: nat)
    requires i < |s| && j < 64 && u <= t < 64 && AllUsedBelow(s, Num(i, j, u)) && forall v | 0 <= v < t :: s[i][j][v]
    ensures AllUsedBelow(s, Num(i, j, t))
    decreases t - u
  {
    if u < t {
      UsedNext(s, i, j, u);
      UsedPrefix(s, i, j, t, u + 1);
    }
  }

  /** free_block and free_inode with the bit of block n at n - 1. */
  method Free(s: seq<Sector>, n: nat) returns (s': seq<Sector>)
    requires InMap(s, n)
    ensures s' == SetBit(s, n, false)
  {
    InSectors(s, n);
    var i, j := SectorOf(n), WordOf(n);
    var sector := s[i];
    sector := sector[j := AndNot(sector[j], Shifted(BitOf(n)))];
    s' := s[i := sector];
    assert sector[j] == s[i][j][BitOf(n) := false];
  }

  // ---------------------------------------------------------------- the 32-bit shift of the code as it stands

  /**
   What (uint64_t)(1 << k) is on RV64, where the shift is an sllw: the low five bits of k count, and
   bit 31 is the sign that fills the upper half.
   */
  function IntShifted(k: int): Word {
    seq(64, t requires 0 <= t < 64 => if k % 32 == 31 then t >= 31 else t == k % 32)
  }

  /**
   With the int shift, taking the first free bit k of a word is right exactly for k below 31, for 63,
   and for 31 when the upper half is already full.
   */
  lemma AllocAsWritten(w: Word, k: nat)
    requires k < 64 && !w[k] && forall u | 0 <= u < k :: w[u]
    ensures Or(w, IntShifted(k)) == Or(w, Shifted(k)) <==>
            k < 31 || k == 63 || (k == 31 && forall u | 32 <= u < 64 :: w[u])
  {
    var a, b := Or(w, IntShifted(k)), Or(w, Shifted(k));
    if k < 31 || k == 63 {
      assert a == b;
    } else if k == 31 {
      if forall u | 32 <= u < 64 :: w[u] {
        assert a == b;
      } else {
        var u :| 32 <= u < 64 && !w[u];
        assert a[u] && !b[u];
      }
    } else {
      assert b[k] && !a[k];
    }
  }

  /** From 32 on the bit is not even set: the next allocation returns the same block again. */
  lemma AllocTwice(w: Word, k: nat)
    requires 32 <= k < 63 && !w[k] && forall u | 0 <= u < k :: w[u]
    ensures Or(w, IntShifted(k)) == w
  {
  }

  /** free_block as it stands: word n / 64, bit n % 64 - 1, int shift. */
  function FreeAsWritten(s: seq<Sector>, n: nat): seq<Sector>
    requires n / NBITS_PER_SECTOR < |s|
  {
    var i, j := n / NBITS_PER_SECTOR, n % NBITS_PER_SECTOR / 64;
    s[i := s[i][j := AndNot(s[i][j], IntShifted(n % NBITS_PER_SECTOR % 64 - 1))]]
  }

  lemma SameWord(n: nat)
    requires n % 64 != 0
    ensures SectorOf(n) == n / NBITS_PER_SECTOR && WordOf(n) == n % NBITS_PER_SECTOR / 64 && BitOf(n) == n % 64 - 1
    ensures n % NBITS_PER_SECTOR % 64 == n % 64
  {
    var i, r := n / NBITS_PER_SECTOR, n % NBITS_PER_SECTOR;
    DivUnique(n, 64, 64 * i + r / 64, r % 64);
    DivUnique(n - 1, NBITS_PER_SECTOR, i, r - 1);
    DivUnique(r - 1, 64, r / 64, r % 64 - 1);
    DivUnique(n - 1, 64, 64 * i + r / 64, r % 64 - 1);
  }

  /**
   free_block as it stands frees its block and nothing else, whatever the map of count sectors and the
   sector behind it hold, exactly when 1 <= n % 64 <= 31. For the last block of the map it is the sector
   behind it that is changed.
   */
  lemma FreeAsWrittenRight(count: nat, n: nat)
    requires 0 < n <= NBITS_PER_SECTOR * count
    ensures n / NBITS_PER_SECTOR < count + 1
    ensures (forall s: seq<Sector> | |s| == count + 1 :: FreeAsWritten(s, n) == SetBit(s, n, false)) <==> 1 <= n % 64 <= 31
  {
    if 1 <= n % 64 <= 31 {
      forall s: seq<Sector> | |s| == count + 1
        ensures FreeAsWritten(s, n) == SetBit(s, n, false)
      {
        SameWord(n);
        InSectors(s, n);
        var i, j := SectorOf(n), WordOf(n);
        assert AndNot(s[i][j], IntShifted(n % 64 - 1)) == s[i][j][BitOf(n) := false];
      }
    } else {
      var s: seq<Sector> := seq(count + 1, _ => seq(64, _ => Ones()));
      InSectors(s, n);
      FreeGoesWrong(s, n);
    }
  }

  /** Freeing the last block leaves the map as it is and clears bits 31 to 63 of the word behind it. */
  lemma FreeLastAsWritten(s: seq<Sector>, count: nat)
    requires count > 0 && |s| == count + 1
    ensures var s' := FreeAsWritten(s, NBITS_PER_SECTOR * count);
            && s'[..count] == s[..count]
            && s'[count] == s[count][0 := AndNot(s[count][0], seq(64, t => t >= 31))]
  {
    DivUnique(NBITS_PER_SECTOR * count, NBITS_PER_SECTOR, count, 0);
    assert IntShifted(-1) == seq(64, t => t >= 31);
  }

  lemma FreeGoesWrong(s: seq<Sector>, n: nat)
    requires InMap(s, n) && n / NBITS_PER_SECTOR < |s| && (forall i, j | 0 <= i < |s| && 0 <= j < 64 :: s[i][j] == Ones())
    requires n % 64 == 0 || n % 64 > 31
    ensures FreeAsWritten(s, n) != SetBit(s, n, false)
  {
    InSectors(s, n);
    var a, b := FreeAsWritten(s, n), SetBit(s, n, false);
    var i, j := n / NBITS_PER_SECTOR, n % NBITS_PER_SECTOR / 64;
    if n % 64 == 0 {
      PartsNum(n);
      var r := n % NBITS_PER_SECTOR;
      DivUnique(n, 64, 64 * i + r / 64, r % 64);
      assert BitOf(n) == 63 by { DivUnique(n - 1, 64, n / 64 - 1, 63); }
      assert !a[i][j][31];
      assert b[i][j][31];
    } else {
      SameWord(n);
      var k := n % 64 - 1;
      var low := if k == 31 then 32 else k % 32;
      assert !a[i][j][low];
      assert b[i][j][low];
    }
  }
}
