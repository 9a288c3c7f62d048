/** Directory entries as bytes of a block: dentry_t of include/os/fs.h, 36 bytes with its padding. */
module Dentries {
  import opened Bytes
  import opened BlockMap
  import opened Directories

  const DENTRY_SIZE := 36

  /** The C string at the beginning of s. */
  function CString(s: seq<Byte>): seq<Byte> {
    if s == [] || s[0] == 0 then [] else [s[0]] + CString(s[1..])
  }

  lemma {:induction false} CStringIs(s: seq<Byte>, name: seq<Byte>)
    requires |name| < |s| && s[..|name| + 1] == name + [0] && 0 !in name
    ensures CString(s) == name
    decreases |name|
  {
    assert s[0] == s[..|name| + 1][0];
    if name != [] {
      assert name[0] in name;
      assert s[1..][..|name[1..]| + 1] == s[..|name| + 1][1..] == name[1..] + [0];
      assert forall x | x in name[1..] :: x in name;
      CStringIs(s[1..], name[1..]);
    }
  }

  /** valid at 0, inum at 4, name at 8. */
  function DentryOf(w: seq<Byte>): Dentry
    requires |w| == DENTRY_SIZE
  {
    Dentry(w[0] != 0, Decode(w[4..8]), CString(w[8..35]))
  }

  function DentryAt(b: Block, j: nat): Dentry
    requires j < NSLOTS
  {
    DentryOf(b[DENTRY_SIZE * j..DENTRY_SIZE * j + DENTRY_SIZE])
  }

  function AllEntries(b: Block): (ds: seq<Dentry>)
    ensures |ds| == NSLOTS
  {
    seq(NSLOTS, j requires 0 <= j < NSLOTS => DentryAt(b, j))
  }

  /** dentry->inum = inum; dentry->valid = 1; strcpy(dentry->name, name) */
  function Enter(b: Block, j: nat, inum: nat, name: seq<Byte>): Block
    requires j < NSLOTS && |name| <= DENTRY_NAME_LEN
  {
    var at := DENTRY_SIZE * j;
    Stored(Stored(Stored(b, at + 4, Le(inum, 4)), at, [1]), at + 8, name + [0])
  }

  /** dentry->valid = 0 */
  function Invalidate(b: Block, j: nat): Block
    requires j < NSLOTS
  {
    Stored(b, DENTRY_SIZE * j, [0])
  }

  /** A store inside a window, seen in the window. */
  lemma StoredWindow(s: seq<Byte>, at: nat, d: seq<Byte>, lo: nat, hi: nat)
    requires lo <= at && at + |d| <= hi <= |s|
    ensures Stored(s, at, d)[lo..hi] == Stored(s[lo..hi], at - lo, d)
  {
  }

  /** A store inside the slot j leaves the other slots alone. */
  lemma OtherSlot(b: seq<Byte>, at: nat, d: seq<Byte>, j: nat, i: nat)
    requires |b| == NBYTES_PER_BLOCK && j < NSLOTS && i < NSLOTS && i != j
    requires DENTRY_SIZE * j <= at && at + |d| <= DENTRY_SIZE * j + DENTRY_SIZE
    ensures var lo := DENTRY_SIZE * i; Stored(b, at, d)[lo..lo + DENTRY_SIZE] == b[lo..lo + DENTRY_SIZE]
  {
    StoredElsewhere(b, at, d, DENTRY_SIZE * i, DENTRY_SIZE * i + DENTRY_SIZE);
  }

  lemma EnteredWindow(w: seq<Byte>, inum: nat, name: seq<Byte>)
    requires |w| == DENTRY_SIZE && |name| <= DENTRY_NAME_LEN && 0 !in name && inum < 0x100000000
    ensures DentryOf(Stored(Stored(Stored(w, 4, Le(inum, 4)), 0, [1]), 8, name + [0])) == Dentry(true, inum, name)
  {
    var w1 := Stored(w, 4, Le(inum, 4));
    var w2 := Stored(w1, 0, [1]);
    var w3 := Stored(w2, 8, name + [0]);
    StoredHere(w, 4, Le(inum, 4));
    StoredElsewhere(w1, 0, [1], 4, 8);
    StoredElsewhere(w2, 8, name + [0], 4, 8);
    PowerFour();
    DecodeLe(inum, 4);
    assert w3[0] == w2[0] == 1;
    StoredHere(w2, 8, name + [0]);
    assert w3[8..35][..|name| + 1] == w3[8..8 + |name| + 1];
    CStringIs(w3[8..35], name);
  }

  /** Entering a name sets that slot and no other. */
  lemma EnterIs(b: Block, j: nat, inum: nat, name: seq<Byte>)
    requires j < NSLOTS && |name| <= DENTRY_NAME_LEN && 0 !in name && inum < 0x100000000
    ensures AllEntries(Enter(b, j, inum, name)) == AllEntries(b)[j := Dentry(true, inum, name)]
  {
    hide DentryOf, Le, Stored;
    var at, b' := DENTRY_SIZE * j, Enter(b, j, inum, name);
    var b1 := Stored(b, at + 4, Le(inum, 4));
    var b2 := Stored(b1, at, [1]);
    forall i | 0 <= i < NSLOTS
      ensures DentryAt(b', i) == if i == j then Dentry(true, inum, name) else DentryAt(b, i)
    {
      if i == j {
        StoredWindow(b, at + 4, Le(inum, 4), at, at + DENTRY_SIZE);
        StoredWindow(b1, at, [1], at, at + DENTRY_SIZE);
        StoredWindow(b2, at + 8, name + [0], at, at + DENTRY_SIZE);
        EnteredWindow(b[at..at + DENTRY_SIZE], inum, name);
      } else {
        OtherSlot(b, at + 4, Le(inum, 4), j, i);
        OtherSlot(b1, at, [1], j, i);
        OtherSlot(b2, at + 8, name + [0], j, i);
      }
    }
  }

  /** Invalidating an entry keeps its inode number and name, and all other entries. */
  lemma InvalidateIs(b: Block, j: nat)
    requires j < NSLOTS
    ensures AllEntries(Invalidate(b, j)) == AllEntries(b)[j := AllEntries(b)[j].(valid := false)]
  {
    var at, b' := DENTRY_SIZE * j, Invalidate(b, j);
    forall i | 0 <= i < NSLOTS
      ensures DentryAt(b', i) == if i == j then DentryAt(b, i).(valid := false) else DentryAt(b, i)
    {
      if i == j {
        InvalidWindow(b, at);
      } else {
        OtherSlot(b, at, [0], j, i);
      }
    }
  }

  lemma InvalidWindow(b: Block, at: nat)
    requires at + DENTRY_SIZE <= NBYTES_PER_BLOCK
    ensures DentryOf(Stored(b, at, [0])[at..at + DENTRY_SIZE]) == DentryOf(b[at..at + DENTRY_SIZE]).(valid := false)
  {
    var w, w' := b[at..at + DENTRY_SIZE], Stored(b, at, [0])[at..at + DENTRY_SIZE];
    StoredWindow(b, at, [0], at, at + DENTRY_SIZE);
    StoredElsewhere(w, 0, [0], 4, 8);
    StoredElsewhere(w, 0, [0], 8, 35);
  }

  /** The block of a new directory. */
  function DirectoryBlock(n: nat, parent: nat): Block {
    Enter(Enter(ZeroBlock(), 0, n, Dot()), 1, parent, DotDot())
  }

  lemma DirectoryBlockIs(n: nat, parent: nat)
    requires n < 0x100000000 && parent < 0x100000000
    ensures AllEntries(DirectoryBlock(n, parent)) == NewDirectory(n, parent)
  {
    EnterIs(ZeroBlock(), 0, n, Dot());
    EnterIs(Enter(ZeroBlock(), 0, n, Dot()), 1, parent, DotDot());
    hide Enter;
    forall j | 0 <= j < NSLOTS
      ensures AllEntries(ZeroBlock())[j] == Dentry(false, 0, [])
    {
      ZeroDentry(j);
    }
  }

  lemma ZeroDentry(j: nat)
    requires j < NSLOTS
    ensures DentryAt(ZeroBlock(), j) == Dentry(false, 0, [])
  {
    var w := ZeroBlock()[DENTRY_SIZE * j..DENTRY_SIZE * j + DENTRY_SIZE];
    forall i | 0 <= i < DENTRY_SIZE
      ensures w[i] == 0
    {
      assert w[i] == ZeroBlock()[DENTRY_SIZE * j + i];
    }
    DecodeZeros(w[4..8]);
  }
}
