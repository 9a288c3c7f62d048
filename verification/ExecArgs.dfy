/** How do_exec (kernel/sched/sched.c) hands its arguments to the new task on the task's stack page. */
module ExecArgs {
  import opened Bytes

  const PAGE_SIZE := 4096
  const USER_VA_SP := 0xf00010000
  const USER_VA_SP_BASE := 0xf0000f000
  const PTR_SIZE := 8

  /** A C string without its terminator. */
  predicate IsString(s: seq<Byte>) {
    0 !in s
  }

  // ---------------------------------------------------------------- bytes and pointers

  lemma FitsPointer(n: nat)
    requires n <= USER_VA_SP
    ensures n < Power(PTR_SIZE)
  {
    PowerFour();
    assert Power(5) == 256 * Power(4);
    assert Power(6) == 256 * Power(5);
    assert Power(7) == 256 * Power(6);
    assert Power(8) == 256 * Power(7);
  }

  // ---------------------------------------------------------------- the layout

  /** The bytes that the first i strings take, terminators included. */
  function Taken(argv: seq<seq<Byte>>, i: nat): nat
    requires i <= |argv|
  {
    if i == 0 then 0 else Taken(argv, i - 1) + |argv[i - 1]| + 1
  }

  lemma {:induction false} TakenMono(argv: seq<seq<Byte>>, i: nat, j: nat)
    requires i <= j <= |argv|
    ensures Taken(argv, i) <= Taken(argv, j)
  {
    if i < j {
      TakenMono(argv, i, j - 1);
    }
  }

  /** The strings and the pointer array fit the stack page. */
  predicate Fits(argv: seq<seq<Byte>>) {
    PTR_SIZE * (|argv| + 1) + Taken(argv, |argv|) <= PAGE_SIZE
  }

  /** Where the pointer array is in the page. */
  function ArgvAt(argv: seq<seq<Byte>>): nat
    requires Fits(argv)
  {
    PAGE_SIZE - PTR_SIZE * (|argv| + 1)
  }

  /** Where the i-th string is in the page. */
  function StringAt(argv: seq<seq<Byte>>, i: nat): nat
    requires Fits(argv) && i < |argv|
  {
    TakenMono(argv, i + 1, |argv|);
    ArgvAt(argv) - Taken(argv, i + 1)
  }

  /** The pointer array, and the strings one below the other under it, do not overlap. */
  lemma Disjoint(argv: seq<seq<Byte>>, i: nat, j: nat)
    requires Fits(argv) && i < j < |argv|
    ensures StringAt(argv, j) + |argv[j]| + 1 <= StringAt(argv, i)
    ensures StringAt(argv, i) + |argv[i]| + 1 <= ArgvAt(argv)
  {
    TakenMono(argv, i + 1, j);
  }

  // ---------------------------------------------------------------- what the new task sees

  /** The 8-byte word at a user address of the stack page. */
  function LoadWord(page: seq<Byte>, uva: nat): nat
    requires |page| == PAGE_SIZE && USER_VA_SP_BASE <= uva <= USER_VA_SP - PTR_SIZE
  {
    var at := uva - USER_VA_SP_BASE;
    Decode(page[at..at + PTR_SIZE])
  }

  /** The bytes from a user address up to the next zero byte. */
  function LoadString(page: seq<Byte>, uva: nat): seq<Byte>
    requires |page| == PAGE_SIZE && USER_VA_SP_BASE <= uva <= USER_VA_SP
    decreases USER_VA_SP - uva
  {
    if uva == USER_VA_SP || page[uva - USER_VA_SP_BASE] == 0 then []
    else [page[uva - USER_VA_SP_BASE]] + LoadString(page, uva + 1)
  }

  lemma {:induction false} LoadStored(page: seq<Byte>, at: nat, s: seq<Byte>)
    requires |page| == PAGE_SIZE && IsString(s) && at + |s| < PAGE_SIZE && page[at..at + |s| + 1] == s + [0]
    ensures LoadString(page, USER_VA_SP_BASE + at) == s
    decreases |s|
  {
    var window := page[at..at + |s| + 1];
    assert page[at] == window[0];
    if s != [] {
      assert s[0] in s;
      assert page[at + 1..at + 1 + |s[1..]| + 1] == window[1..] == s[1..] + [0];
      assert forall x | x in s[1..] :: x in s;
      LoadStored(page, at + 1, s[1..]);
    }
  }

  /** The i-th pointer and string are in place. */
  ghost predicate Placed(page: seq<Byte>, argv: seq<seq<Byte>>, i: nat)
    requires |page| == PAGE_SIZE && Fits(argv) && i < |argv|
  {
    var at, p := StringAt(argv, i), ArgvAt(argv) + PTR_SIZE * i;
    && page[at..at + |argv[i]| + 1] == argv[i] + [0]
    && page[p..p + PTR_SIZE] == Le(USER_VA_SP_BASE + at, PTR_SIZE)
  }

  /** Placing the j-th string and pointer leaves the earlier ones alone. */
  lemma PlacedStays(page: seq<Byte>, argv: seq<seq<Byte>>, i: nat, j: nat)
    requires |page| == PAGE_SIZE && Fits(argv) && i < j < |argv| && Placed(page, argv, i)
    ensures var page1 := Stored(page, ArgvAt(argv) + PTR_SIZE * j, Le(USER_VA_SP_BASE + StringAt(argv, j), PTR_SIZE));
            Placed(Stored(page1, StringAt(argv, j), argv[j] + [0]), argv, i)
  {
    hide StringAt, Taken, Le, Stored;
    var word := Le(USER_VA_SP_BASE + StringAt(argv, j), PTR_SIZE);
    var q := ArgvAt(argv) + PTR_SIZE * j;
    var page1 := Stored(page, q, word);
    var at, p := StringAt(argv, i), ArgvAt(argv) + PTR_SIZE * i;
    Disjoint(argv, i, j);
    StoredElsewhere(page, q, word, at, at + |argv[i]| + 1);
    StoredElsewhere(page, q, word, p, p + PTR_SIZE);
    StoredElsewhere(page1, StringAt(argv, j), argv[j] + [0], at, at + |argv[i]| + 1);
    StoredElsewhere(page1, StringAt(argv, j), argv[j] + [0], p, p + PTR_SIZE);
  }

  lemma PlacedNow(page: seq<Byte>, argv: seq<seq<Byte>>, j: nat)
    requires |page| == PAGE_SIZE && Fits(argv) && j < |argv|
    ensures StringAt(argv, j) + |argv[j]| + 1 <= ArgvAt(argv)
    ensures var page1 := Stored(page, ArgvAt(argv) + PTR_SIZE * j, Le(USER_VA_SP_BASE + StringAt(argv, j), PTR_SIZE));
            Placed(Stored(page1, StringAt(argv, j), argv[j] + [0]), argv, j)
  {
    var word := Le(USER_VA_SP_BASE + StringAt(argv, j), PTR_SIZE);
    var q := ArgvAt(argv) + PTR_SIZE * j;
    var page1 := Stored(page, q, word);
    assert StringAt(argv, j) + |argv[j]| + 1 <= ArgvAt(argv);
    hide StringAt, Taken, Le, Stored;
    StoredHere(page, q, word);
    StoredHere(page1, StringAt(argv, j), argv[j] + [0]);
    StoredElsewhere(page1, StringAt(argv, j), argv[j] + [0], q, q + PTR_SIZE);
  }

  /** The registers that do_exec sets in the trap frame. */
  datatype Registers = Registers(sp: nat, a0: nat, a1: nat)

  /** *(user_sp_kva + j) = *(argv[i] + j) for the string and its terminator. */
  method CopyString(page: array<Byte>, at: nat, s: seq<Byte>)
    requires page.Length == PAGE_SIZE && at + |s| < PAGE_SIZE
    modifies page
    ensures page[..] == Stored(old(page[..]), at, s + [0])
  {
    StoreBytes(page, at, s + [0]);
  }

  /** *kernel_argv_ptr = value */
  method StoreWord(page: array<Byte>, at: nat, value: nat)
    requires page.Length == PAGE_SIZE && at + PTR_SIZE <= PAGE_SIZE
    modifies page
    ensures page[..] == Stored(old(page[..]), at, Le(value, PTR_SIZE))
  {
    StoreBytes(page, at, Le(value, PTR_SIZE));
  }

  /** Bytes into the page, one after the other. */
  method StoreBytes(page: array<Byte>, at: nat, src: seq<Byte>)
    requires page.Length == PAGE_SIZE && at + |src| <= PAGE_SIZE
    modifies page
    ensures page[..] == Stored(old(page[..]), at, src)
  {
    var j := 0;
    while j < |src|
      invariant j <= |src|
      invariant forall i | 0 <= i < PAGE_SIZE :: page[i] == if at <= i < at + j then src[i - at] else old(page[i])
    {
      page[at + j] := src[j];
      j := j + 1;
    }
  }

  /** The argument part of do_exec. */
  method PassArguments(page: array<Byte>, argv: seq<seq<Byte>>) returns (regs: Registers)
    requires page.Length == PAGE_SIZE && Fits(argv)
    modifies page
    ensures forall i | 0 <= i < |argv| :: Placed(page[..], argv, i)
    ensures page[PAGE_SIZE - PTR_SIZE..] == Le(0, PTR_SIZE)
    ensures regs.a0 == |argv| && regs.a1 == USER_VA_SP_BASE + ArgvAt(argv)
    ensures regs.sp % 128 == 0 && USER_VA_SP_BASE <= regs.sp
    ensures regs.sp <= USER_VA_SP_BASE + ArgvAt(argv) - Taken(argv, |argv|) < regs.sp + 128
  {
    hide StringAt, Le, Stored, Placed;
    var argc := |argv|;
    var argvBase := USER_VA_SP - (argc + 1) * PTR_SIZE;
    var sp := argvBase;
    var i := 0;
    while i < argc
      invariant i <= argc && sp == argvBase - Taken(argv, i)
      invariant forall k | 0 <= k < i :: Placed(page[..], argv, k)
    {
      ghost var before := page[..];
      var len := |argv[i]| + 1;
      sp := sp - len;
      SpIs(argv, i);
      StoreWord(page, argvBase + PTR_SIZE * i - USER_VA_SP_BASE, sp);
      CopyString(page, sp - USER_VA_SP_BASE, argv[i]);
      PlacedNow(before, argv, i);
      forall k | 0 <= k < i
        ensures Placed(page[..], argv, k)
      {
        PlacedStays(before, argv, k, i);
      }
      i := i + 1;
    }
    ghost var before := page[..];
    StoreWord(page, PAGE_SIZE - PTR_SIZE, 0);
    StoredHere(before, PAGE_SIZE - PTR_SIZE, Le(0, PTR_SIZE));
    forall k | 0 <= k < argc
      ensures Placed(page[..], argv, k)
    {
      TerminatorStays(before, argv, k);
    }
    regs := Registers(sp / 128 * 128, argc, argvBase);
  }

  lemma SpIs(argv: seq<seq<Byte>>, i: nat)
    requires Fits(argv) && i < |argv|
    ensures ArgvAt(argv) - Taken(argv, i) - (|argv[i]| + 1) == StringAt(argv, i)
    ensures StringAt(argv, i) + |argv[i]| + 1 <= ArgvAt(argv)
  {
  }

  lemma TerminatorStays(page: seq<Byte>, argv: seq<seq<Byte>>, i: nat)
    requires |page| == PAGE_SIZE && Fits(argv) && i < |argv| && Placed(page, argv, i)
    ensures Placed(Stored(page, PAGE_SIZE - PTR_SIZE, Le(0, PTR_SIZE)), argv, i)
  {
    SpIs(argv, i);
    hide StringAt, Taken, Le, Stored;
    var at, p, last := StringAt(argv, i), ArgvAt(argv) + PTR_SIZE * i, PAGE_SIZE - PTR_SIZE;
    StoredElsewhere(page, last, Le(0, PTR_SIZE), at, at + |argv[i]| + 1);
    StoredElsewhere(page, last, Le(0, PTR_SIZE), p, p + PTR_SIZE);
  }

  /** Following argv[i] from the registers reads back exactly the i-th string; argv ends with a null pointer. */
  lemma ArgumentsArrive(page: seq<Byte>, argv: seq<seq<Byte>>, i: nat)
    requires |page| == PAGE_SIZE && Fits(argv) && i < |argv| && IsString(argv[i]) && Placed(page, argv, i)
    requires page[PAGE_SIZE - PTR_SIZE..] == Le(0, PTR_SIZE)
    ensures var a1 := USER_VA_SP_BASE + ArgvAt(argv);
            var p := LoadWord(page, a1 + PTR_SIZE * i);
            && USER_VA_SP_BASE <= p <= USER_VA_SP && LoadString(page, p) == argv[i]
            && LoadWord(page, a1 + PTR_SIZE * |argv|) == 0
  {
    hide Decode, Le, LoadString;
    SpIs(argv, i);
    var at := StringAt(argv, i);
    FitsPointer(USER_VA_SP_BASE + at);
    DecodeLe(USER_VA_SP_BASE + at, PTR_SIZE);
    FitsPointer(0);
    DecodeLe(0, PTR_SIZE);
    LoadStored(page, at, argv[i]);
    assert page[PAGE_SIZE - PTR_SIZE..] == page[PAGE_SIZE - PTR_SIZE..PAGE_SIZE];
  }

  /** The whole way: what the new task reads through its registers is what do_exec was given. */
  method ExecThenRead(page: array<Byte>, argv: seq<seq<Byte>>) returns (regs: Registers, seen: seq<seq<Byte>>)
    requires page.Length == PAGE_SIZE && Fits(argv) && forall i | 0 <= i < |argv| :: IsString(argv[i])
    modifies page
    ensures seen == argv && regs.a0 == |argv| && regs.sp % 128 == 0
  {
    hide Placed, LoadString, LoadWord, StringAt;
    regs := PassArguments(page, argv);
    var view := page[..];
    assert view[PAGE_SIZE - PTR_SIZE..] == page[PAGE_SIZE - PTR_SIZE..];
    seen := [];
    var i := 0;
    while i < regs.a0
      invariant i <= |argv| && seen == argv[..i]
    {
      ArgumentsArrive(view, argv, i);
      var p := LoadWord(view, regs.a1 + PTR_SIZE * i);
      seen := seen + [LoadString(view, p)];
      i := i + 1;
    }
  }
}
