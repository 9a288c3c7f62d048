/** The page allocator: a free list threaded through the first word of the free pages (kernel/mm/mm.c). */
module FrameAllocator {
  import opened Seqs
  import opened PageTable

  /**
   The list starting at head visits free in order through the first words of the pages, ends with
   NULL at the bump frontier, and with the pages handed out makes up everything up to the frontier.
   */
  ghost predicate FreeOk(mem: Memory, head: nat, free: seq<nat>, used: set<nat>) {
    && Physical(mem)
    && free != [] && head == free[0] && NoDup(free)
    && (forall i | 0 <= i < |free| :: IsPage(free[i]))
    && (forall i | 0 <= i < |free| - 1 :: mem[free[i]][0] == free[i + 1])
    && mem[Frontier(free)][0] == 0
    && (forall a: nat :: a in used || a in free <==> IsPage(a) && a <= Frontier(free))
    && (forall a | a in used :: a !in free)
  }

  /** Every page of the allocatable range exists. */
  ghost predicate Physical(mem: Memory) {
    forall a: nat | IsPage(a) :: a in mem && |mem[a]| == WORDS_PER_PAGE
  }

  lemma UsedPages(mem: Memory, head: nat, free: seq<nat>, used: set<nat>)
    requires FreeOk(mem, head, free, used)
    ensures forall a | a in used :: IsPage(a) && FREEMEM_KERNEL <= a && a in mem && |mem[a]| == WORDS_PER_PAGE
    ensures Physical(mem)
  {
  }

  function Frontier(free: seq<nat>): nat
    requires free != []
  {
    free[|free| - 1]
  }

  /** How many more pages can be handed out before the frontier leaves physical memory. */
  function Available(free: seq<nat>): nat
    requires free != [] && IsPage(Frontier(free))
  {
    |free| - 1 + (FREEMEM_KERNEL_STOP - PAGE_SIZE - Frontier(free)) / PAGE_SIZE
  }

  /** Writing into pages that are handed out does not disturb the list. */
  lemma FreeFrame(mem: Memory, mem': Memory, head: nat, free: seq<nat>, used: set<nat>)
    requires FreeOk(mem, head, free, used)
    requires Physical(mem')
    requires forall a | a in mem && a !in used :: a in mem' && mem'[a] == mem[a]
    ensures FreeOk(mem', head, free, used)
  {
    forall i | 0 <= i < |free|
      ensures mem'[free[i]] == mem[free[i]]
    {
      assert free[i] in free;
    }
  }

  /** The in-band list is acyclic: following it from the head, a NULL is met after exactly |free| pages. */
  lemma ListReachesFrontier(mem: Memory, head: nat, free: seq<nat>, used: set<nat>, n: nat)
    requires FreeOk(mem, head, free, used) && n < |free|
    ensures Follow(mem, head, n) == free[n]
    ensures Follow(mem, head, n) in mem
    ensures mem[Follow(mem, head, n)] != [] && (mem[Follow(mem, head, n)][0] == 0 <==> n == |free| - 1)
  {
    if n != 0 {
      ListReachesFrontier(mem, head, free, used, n - 1);
    }
    assert n < |free| - 1 ==> IsPage(free[n + 1]);
  }

  /** The n-th page of the list that starts at head. */
  function Follow(mem: Memory, head: nat, n: nat): nat {
    if n == 0 then head else At(mem, Follow(mem, head, n - 1), 0)
  }

  class Frames {
    var mem: Memory
    var freeList: nat
    ghost var free: seq<nat>
    ghost var used: set<nat>

    ghost predicate Valid()
      reads this
    {
      FreeOk(mem, freeList, free, used)
    }

    ghost function Room(): nat
      requires Valid()
      reads this
    {
      Available(free)
    }

    /** init_kernel_freemem: physical memory holds arbitrary words, the list is one page long. */
    constructor (physical: Memory)
      requires Physical(physical)
      ensures Valid() && used == {} && free == [FREEMEM_KERNEL]
    {
      assert IsPage(FREEMEM_KERNEL);
      freeList := FREEMEM_KERNEL;
      mem := Put(physical, FREEMEM_KERNEL, 0, 0);
      free := [FREEMEM_KERNEL];
      used := {};
    }

    method Kalloc() returns (page: nat)
      requires Valid() && Room() > 0
      modifies this
      ensures Valid() && Room() == old(Room()) - 1
      ensures IsPage(page) && page !in old(used) && page == old(free)[0]
      ensures used == old(used) + {page}
      ensures free == if |old(free)| > 1 then old(free)[1..] else [page + PAGE_SIZE]
      ensures mem.Keys == old(mem).Keys && page in mem && mem[page] == ZeroPage()
      ensures forall a | a in old(used) :: mem[a] == old(mem)[a]
    {
      page := freeList;
      ghost var last := Frontier(free);
      if mem[page][0] == 0 {
        assert |free| > 1 ==> IsPage(free[1]);
        freeList := page + PAGE_SIZE;
        assert IsPage(freeList);
        mem := Put(mem, freeList, 0, 0);
        free := [freeList];
        assert forall a: nat | IsPage(a) && a <= freeList :: a <= last || a == freeList;
      } else {
        freeList := mem[page][0];
        free := free[1..];
      }
      used := used + {page};
      mem := mem[page := ZeroPage()];
    }

    /** Pages below FREEMEM_KERNEL are ignored; every other page must have been handed out. */
    method Kfree(page: nat)
      requires Valid() && (page >= FREEMEM_KERNEL ==> page in used)
      modifies this
      ensures Valid()
      ensures page < FREEMEM_KERNEL ==>
                mem == old(mem) && used == old(used) && free == old(free) && freeList == old(freeList)
      ensures page >= FREEMEM_KERNEL ==>
                && used == old(used) - {page} && free == [page] + old(free) && Room() == old(Room()) + 1
                && mem == Put(old(mem), page, 0, old(freeList))
    {
      if page < FREEMEM_KERNEL {
        return;
      }
      mem := Put(mem, page, 0, freeList);
      freeList := page;
      free := [page] + free;
      used := used - {page};
    }
  }

  datatype Request = Alloc | Free(page: nat)

  /**
   Serves any sequence of requests, as long as memory lasts and only pages in hand are freed.
   The pages in hand never repeat: each one served is outside the set already held.
   */
  method Serve(frames: Frames, requests: seq<Request>) returns (held: set<nat>, served: nat, log: seq<nat>)
    requires frames.Valid() && frames.used == {}
    modifies frames
    ensures frames.Valid() && frames.used == held
    ensures served <= |requests| && |log| == served
    ensures served < |requests| ==>
              match requests[served]
              case Alloc => frames.Room() == 0
              case Free(p) => p !in held
    ensures held == HeldAfter(requests[..served], log)
    ensures NeverTwice(requests[..served], log)
  {
    held, served, log := {}, 0, [];
    while served < |requests|
      invariant served <= |requests| && |log| == served
      invariant frames.Valid() && frames.used == held
      invariant held == HeldAfter(requests[..served], log)
      invariant NeverTwice(requests[..served], log)
    {
      assert requests[..served + 1][..served] == requests[..served];
      match requests[served] {
        case Alloc =>
          if Exhausted(frames) {
            return;
          }
          var page := frames.Kalloc();
          assert (log + [page])[..served] == log;
          log, held := log + [page], held + {page};
        case Free(p) =>
          if p !in held {
            return;
          }
          assert IsPage(p);
          frames.Kfree(p);
          assert (log + [p])[..served] == log;
          log, held := log + [p], held - {p};
      }
      served := served + 1;
    }
  }

  /** The pages in hand after the requests, given the page each request was about. */
  ghost function HeldAfter(requests: seq<Request>, log: seq<nat>): set<nat>
    requires |requests| == |log|
  {
    if requests == [] then {} else
    var n := |requests| - 1;
    var before := HeldAfter(requests[..n], log[..n]);
    if requests[n].Alloc? then before + {log[n]} else before - {log[n]}
  }

  /** No Alloc returns a page that was in hand at that moment, and only pages in hand are freed. */
  ghost predicate NeverTwice(requests: seq<Request>, log: seq<nat>)
    requires |requests| == |log|
  {
    requests != [] ==>
      var n := |requests| - 1;
      var before := HeldAfter(requests[..n], log[..n]);
      && NeverTwice(requests[..n], log[..n])
      && match requests[n]
         case Alloc => log[n] !in before && IsPage(log[n])
         case Free(p) => log[n] == p && p in before
  }

  predicate Exhausted(frames: Frames)
    requires frames.Valid()
    reads frames
    ensures Exhausted(frames) <==> frames.Room() == 0
  {
    assert IsPage(frames.freeList);
    frames.mem[frames.freeList][0] == 0 && frames.freeList + PAGE_SIZE >= FREEMEM_KERNEL_STOP
  }
}
