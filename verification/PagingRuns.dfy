/**
 Paging is invisible. Whole runs of processes that load and store, while the kernel swaps pages
 out and in, are compared with a flat memory in which pages never move.
 */
module PagingRuns {
  import opened Seqs
  import opened PageTable
  import opened FrameAllocator
  import opened SwapBooks
  import opened Paging

  /** Address spaces are numbered in the order in which they are created. */
  datatype Op =
    | NewSpace
    | ShareKernel(space: nat)
    | Load(space: nat, va: nat)
    | Store(space: nat, va: nat, word: nat)
    | SwapOutOldest
    | SwapInSpace(space: nat)

  /** The flat memory: no frames, no sectors, no tables. */
  datatype Flat = Flat(spaces: nat, pages: map<Key, seq<nat>>)

  predicate Legal(op: Op, spaces: nat) {
    match op
    case ShareKernel(s) => s < spaces
    case Load(s, va) => s < spaces && UserAddress(va)
    case Store(s, va, _) => s < spaces && UserAddress(va)
    case SwapInSpace(s) => s < spaces
    case _ => true
  }

  function Spaces(ops: seq<Op>): nat {
    if ops == [] then 0 else
    Spaces(ops[..|ops| - 1]) + if ops[|ops| - 1].NewSpace? then 1 else 0
  }

  /** Every operation names a space that exists when it is executed. */
  predicate LegalRun(ops: seq<Op>) {
    forall i | 0 <= i < |ops| :: Legal(ops[i], Spaces(ops[..i]))
  }

  function FlatNext(f: Flat, op: Op): Flat {
    match op
    case NewSpace => f.(spaces := f.spaces + 1)
    case Load(s, va) => f.(pages := Touched(f.pages, (s, PageOf(va))))
    case Store(s, va, w) => f.(pages := StoreWord(f.pages, (s, PageOf(va)), WordIndex(va), w))
    case _ => f
  }

  function FlatWord(f: Flat, s: nat, va: nat): nat {
    var page := Touched(f.pages, (s, PageOf(va)))[(s, PageOf(va))];
    if WordIndex(va) < |page| then page[WordIndex(va)] else 0
  }

  /** The last word stored at va in the space, or 0: what a program expects to read. */
  function LastStored(ops: seq<Op>, s: nat, va: nat): nat {
    if ops == [] then 0 else
    var op := ops[|ops| - 1];
    if op.Store? && op.space == s && op.va / 8 == va / 8 then op.word
    else LastStored(ops[..|ops| - 1], s, va)
  }

  // ---------------------------------------------------------------- flat memory is memory

  function FlatAfter(f: Flat, ops: seq<Op>): Flat {
    if ops == [] then f else FlatNext(FlatAfter(f, ops[..|ops| - 1]), ops[|ops| - 1])
  }

  lemma {:induction false} FlatStaysFull(f: Flat, ops: seq<Op>)
    requires forall k | k in f.pages :: |f.pages[k]| == WORDS_PER_PAGE
    ensures forall k | k in FlatAfter(f, ops).pages :: |FlatAfter(f, ops).pages[k]| == WORDS_PER_PAGE
    ensures f.spaces == 0 ==> FlatAfter(f, ops).spaces == Spaces(ops)
  {
    if ops != [] {
      FlatStaysFull(f, ops[..|ops| - 1]);
    }
  }

  lemma SameWord(va: nat, va': nat)
    ensures va / 8 == va' / 8 <==> PageOf(va) == PageOf(va') && WordIndex(va) == WordIndex(va')
  {
    assert va / 8 == va / PAGE_SIZE * 512 + WordIndex(va);
    assert va' / 8 == va' / PAGE_SIZE * 512 + WordIndex(va');
    assert PageOf(va) == va / PAGE_SIZE * PAGE_SIZE && PageOf(va') == va' / PAGE_SIZE * PAGE_SIZE;
  }

  /** Starting empty, every word of flat memory is the word last stored there. */
  lemma {:induction false} FlatIsLastStored(ops: seq<Op>, s: nat, va: nat)
    ensures FlatWord(FlatAfter(Flat(0, map[]), ops), s, va) == LastStored(ops, s, va)
  {
    if ops != [] {
      var before := FlatAfter(Flat(0, map[]), ops[..|ops| - 1]);
      FlatIsLastStored(ops[..|ops| - 1], s, va);
      FlatStaysFull(Flat(0, map[]), ops[..|ops| - 1]);
      var op := ops[|ops| - 1];
      if op.Store? {
        SameWord(op.va, va);
      }
    }
  }

  // ---------------------------------------------------------------- the kernel agrees with it

  /** The kernel's pages, seen through the page directories of the spaces, are the flat pages. */
  ghost predicate Agree(contents: map<Key, seq<nat>>, dirs: seq<nat>, f: Flat) {
    && |dirs| == f.spaces && NoDup(dirs)
    && (forall s: nat, u: nat | s < |dirs| ::
          && ((s, u) in f.pages <==> (dirs[s], u) in contents)
          && ((s, u) in f.pages ==> f.pages[(s, u)] == contents[(dirs[s], u)]))
    && (forall k | k in f.pages :: k.0 < f.spaces)
  }

  lemma AgreeAtStart()
    ensures Agree(map[], [], Flat(0, map[]))
  {
  }

  lemma AgreeNewSpace(contents: map<Key, seq<nat>>, dirs: seq<nat>, f: Flat, pgdir: nat)
    requires Agree(contents, dirs, f) && pgdir !in dirs
    requires forall k | k in contents :: k.0 != pgdir
    ensures Agree(contents, dirs + [pgdir], FlatNext(f, NewSpace))
  {
    NoDupAppend(dirs, pgdir);
    forall s: nat, u: nat | s < |dirs| + 1
      ensures (s, u) in f.pages <==> ((dirs + [pgdir])[s], u) in contents
    {
      if s == |dirs| {
        assert (pgdir, u) !in contents;
      }
    }
  }

  lemma AgreeTouch(contents: map<Key, seq<nat>>, dirs: seq<nat>, f: Flat, s: nat, u: nat)
    requires Agree(contents, dirs, f) && s < |dirs|
    ensures Agree(Touched(contents, (dirs[s], u)), dirs, f.(pages := Touched(f.pages, (s, u))))
  {
  }

  lemma AgreeStore(contents: map<Key, seq<nat>>, dirs: seq<nat>, f: Flat, s: nat, u: nat, i: nat, word: nat)
    requires Agree(contents, dirs, f) && s < |dirs|
    ensures Agree(StoreWord(contents, (dirs[s], u), i, word), dirs, f.(pages := StoreWord(f.pages, (s, u), i, word)))
  {
  }

  // ---------------------------------------------------------------- when memory lasts

  /** The kernel can serve the operation: memory is not exhausted. */
  ghost predicate Fits(vm: VirtualMemory, dirs: seq<nat>, op: Op)
    reads vm, vm.frames
    requires vm.Valid() && Legal(op, |dirs|)
  {
    match op
    case NewSpace => vm.frames.Room() > 0
    case Load(s, va) => vm.CanTouch(va, dirs[s])
    case Store(s, va, _) => vm.CanTouch(va, dirs[s])
    case SwapInSpace(s) =>
      || vm.frames.Room() >= CountOf(vm.pages, vm.swapped, dirs[s])
      || vm.frames.Room() + |vm.present| >= vm.maxPresent
    case _ => true
  }

  /** The frames that are left: the free list, and what is above the frontier. */
  method FramesLeft(frames: Frames) returns (n: nat)
    requires frames.Valid()
    ensures n == frames.Room()
  {
    var p := frames.freeList;
    n := 0;
    while frames.mem[p][0] != 0
      invariant n < |frames.free| && p == frames.free[n] && p in frames.mem && |frames.mem[p]| == WORDS_PER_PAGE
      decreases |frames.free| - n
    {
      p := frames.mem[p][0];
      n := n + 1;
    }
    assert n < |frames.free| - 1 ==> IsPage(frames.free[n + 1]);
    n := n + (FREEMEM_KERNEL_STOP - PAGE_SIZE - p) / PAGE_SIZE;
  }

  method CanAccess(vm: VirtualMemory, pgdir: nat, va: nat, room: nat) returns (fits: bool)
    requires vm.Valid() && IsRoot(vm.tables, pgdir) && UserAddress(va) && room == vm.frames.Room()
    ensures fits <==> vm.CanTouch(va, pgdir)
  {
    hide TablesOk, Refines, FreeOk, Available, BooksOk, EntryMeans, LeafOf, TablesMissing;
    var found, table, i := vm.GetPteOfUva(va, pgdir);
    PresentMeans(if found then vm.frames.mem[table][i] else 0, vm.leaf, (pgdir, PageOf(va)), found);
    if found {
      fits := Present(vm.frames.mem[table][i]) || room > 0 || |vm.present| == vm.maxPresent;
    } else {
      fits := |vm.present| + |vm.swapped| < vm.maxPages && room >= 1 + TablesMissing(vm.frames.mem, pgdir, PageOf(va));
    }
  }

  method CanServe(vm: VirtualMemory, dirs: seq<nat>, op: Op) returns (fits: bool)
    requires vm.Valid() && Legal(op, |dirs|) && forall r | r in dirs :: IsRoot(vm.tables, r)
    ensures fits <==> Fits(vm, dirs, op)
  {
    hide TablesOk, Refines, FreeOk, Available, BooksOk, TablesMissing;
    var room := FramesLeft(vm.frames);
    match op {
      case NewSpace => fits := room > 0;
      case Load(s, va) =>
        assert dirs[s] in dirs;
        fits := CanAccess(vm, dirs[s], va, room);
      case Store(s, va, _) =>
        assert dirs[s] in dirs;
        fits := CanAccess(vm, dirs[s], va, room);
      case SwapInSpace(s) =>
        fits := room >= CountOf(vm.pages, vm.swapped, dirs[s]) || room + |vm.present| >= vm.maxPresent;
      case _ => fits := true;
    }
  }

  /** One operation of the kernel is one operation of the flat memory. */
  method Step(vm: VirtualMemory, dirs: seq<nat>, op: Op, kernelDir: seq<nat>, ghost f: Flat)
    returns (dirs': seq<nat>, out: nat)
    requires vm.Valid() && Legal(op, |dirs|) && Fits(vm, dirs, op) && Agree(vm.Contents(), dirs, f)
    requires forall r | r in dirs :: IsRoot(vm.tables, r)
    requires |kernelDir| == WORDS_PER_PAGE && forall i | 0 <= i < 256 :: kernelDir[i] == 0
    modifies vm, vm.frames
    ensures vm.Valid() && |dirs'| == |dirs| + if op.NewSpace? then 1 else 0
    ensures forall r | r in dirs' :: IsRoot(vm.tables, r)
    ensures Agree(vm.Contents(), dirs', FlatNext(f, op))
    ensures op.Load? ==> out == FlatWord(f, op.space, op.va)
  {
    hide TablesOk, Refines, FreeOk, Available, BooksOk, View, TablesMissing;
    dirs', out := dirs, 0;
    match op {
      case NewSpace =>
        vm.ContentsAreMapped();
        var pgdir := vm.NewPgdir();
        AgreeNewSpace(vm.Contents(), dirs, f, pgdir);
        dirs' := dirs + [pgdir];
      case ShareKernel(s) =>
        assert dirs[s] in dirs;
        vm.SharePgtable(dirs[s], kernelDir);
      case Load(s, va) =>
        assert dirs[s] in dirs;
        EntryOfPage(vm.frames.mem, dirs[s], va);
        AgreeTouch(vm.Contents(), dirs, f, s, PageOf(va));
        out := vm.UserLoad(va, dirs[s]);
      case Store(s, va, word) =>
        assert dirs[s] in dirs;
        AgreeStore(vm.Contents(), dirs, f, s, PageOf(va), WordIndex(va), word);
        vm.UserStore(va, word, dirs[s]);
      case SwapOutOldest =>
        if vm.present != [] {
          ghost var p := vm.SwapOut();
        }
      case SwapInSpace(s) =>
        vm.SwapInAllPages(dirs[s]);
    }
  }

  /**
   Swap is transparent: in every run of every set of processes, of any length, each load returns the
   word last stored at its address in its own address space, or 0 if there was none, and at the end the
   pages of all spaces are those of the flat memory. The run ends early only when memory is exhausted.
   */
  method Run(vm: VirtualMemory, ops: seq<Op>, kernelDir: seq<nat>) returns (outs: seq<nat>, dirs: seq<nat>, done: nat)
    requires vm.Valid() && vm.Contents() == map[] && LegalRun(ops)
    requires |kernelDir| == WORDS_PER_PAGE && forall i | 0 <= i < 256 :: kernelDir[i] == 0
    modifies vm, vm.frames
    ensures vm.Valid() && done <= |ops| && |outs| == done && |dirs| == Spaces(ops[..done])
    ensures forall i | 0 <= i < done && ops[i].Load? :: outs[i] == LastStored(ops[..i], ops[i].space, ops[i].va)
    ensures Agree(vm.Contents(), dirs, FlatAfter(Flat(0, map[]), ops[..done]))
    ensures done < |ops| ==> !Fits(vm, dirs, ops[done])
  {
    hide View, Agree, FlatWord, LastStored, FlatNext, Legal, Fits, TablesOk, Refines, FreeOk, Available, BooksOk;
    outs, dirs, done := [], [], 0;
    AgreeAtStart();
    ghost var start := Flat(0, map[]);
    while done < |ops|
      invariant 0 <= done <= |ops| && |outs| == done
      invariant vm.Valid() && |dirs| == Spaces(ops[..done])
      invariant forall r | r in dirs :: IsRoot(vm.tables, r)
      invariant Agree(vm.Contents(), dirs, FlatAfter(start, ops[..done]))
      invariant forall j | 0 <= j < done && ops[j].Load? :: outs[j] == LastStored(ops[..j], ops[j].space, ops[j].va)
    {
      var fits := CanServe(vm, dirs, ops[done]);
      if !fits {
        return;
      }
      ghost var f := FlatAfter(start, ops[..done]);
      FlatStaysFull(start, ops[..done]);
      assert ops[..done + 1][..done] == ops[..done];
      var out;
      dirs, out := Step(vm, dirs, ops[done], kernelDir, f);
      if ops[done].Load? {
        FlatIsLastStored(ops[..done], ops[done].space, ops[done].va);
      }
      outs := outs + [out];
      done := done + 1;
    }
  }
}
