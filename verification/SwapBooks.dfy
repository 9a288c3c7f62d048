/**
 The page descriptors, the two page queues and the swap area of kernel/mm/mm.c, over the finite
 map from user page to frame that the three-level tables implement.
 */
module SwapBooks {
  import opened Seqs
  import opened PageTable

  const SECTORS_PER_PAGE := 8
  const WORDS_PER_SECTOR := 64

  /** Sector number to its 64 words. */
  type Disk = map<nat, seq<nat>>

  datatype PageInfo = PageInfo(uva: nat, kva: nat, pgdir: nat, pageId: nat, sectorId: nat)

  /** A page of an address space: its page directory and page-aligned user address. */
  type Key = (nat, nat)

  /** What the leaf PTE of a mapped page says: in a frame, or not present. */
  datatype Mapping = InMemory(kva: nat) | OnDisk

  type Mappings = map<Key, Mapping>

  /** Descriptors, queues (as descriptor indices, head first), swap area and next free sector. */
  datatype Books = Books(pages: seq<PageInfo>, present: seq<nat>, swapped: seq<nat>, disk: Disk, cursor: nat)

  // ---------------------------------------------------------------- the disk

  /** The sectors from start on that hold the words of a page, 64 to a sector. */
  function Sectors(start: nat, words: seq<nat>): Disk
    requires |words| % WORDS_PER_SECTOR == 0
    decreases |words|
  {
    if words == [] then map[] else
    Sectors(start + 1, words[WORDS_PER_SECTOR..])[start := words[..WORDS_PER_SECTOR]]
  }

  lemma {:induction false} SectorsHold(start: nat, words: seq<nat>)
    requires |words| % WORDS_PER_SECTOR == 0
    ensures forall s: nat :: s in Sectors(start, words) <==> start <= s < start + |words| / WORDS_PER_SECTOR
    ensures forall i | 0 <= i < |words| ::
              At(Sectors(start, words), start + i / WORDS_PER_SECTOR, i % WORDS_PER_SECTOR) == words[i]
    decreases |words|
  {
    if words != [] {
      var rest := words[WORDS_PER_SECTOR..];
      SectorsHold(start + 1, rest);
      forall i | 0 <= i < |words|
        ensures At(Sectors(start, words), start + i / WORDS_PER_SECTOR, i % WORDS_PER_SECTOR) == words[i]
      {
        if i >= WORDS_PER_SECTOR {
          var j := i - WORDS_PER_SECTOR;
          assert j / WORDS_PER_SECTOR + 1 == i / WORDS_PER_SECTOR && j % WORDS_PER_SECTOR == i % WORDS_PER_SECTOR;
          assert rest[j] == words[i];
          assert At(Sectors(start + 1, rest), start + 1 + j / WORDS_PER_SECTOR, j % WORDS_PER_SECTOR) == rest[j];
        }
      }
    }
  }

  function SdWrite(disk: Disk, start: nat, page: seq<nat>): Disk
    requires |page| == WORDS_PER_PAGE
  {
    disk + Sectors(start, page)
  }

  function SdRead(disk: Disk, start: nat): (page: seq<nat>)
    ensures |page| == WORDS_PER_PAGE
  {
    seq(WORDS_PER_PAGE, i requires 0 <= i => At(disk, start + i / WORDS_PER_SECTOR, i % WORDS_PER_SECTOR))
  }

  lemma SdRoundTrip(disk: Disk, start: nat, page: seq<nat>)
    requires |page| == WORDS_PER_PAGE
    ensures SdRead(SdWrite(disk, start, page), start) == page
  {
    SectorsHold(start, page);
    var sectors := Sectors(start, page);
    forall i | 0 <= i < WORDS_PER_PAGE
      ensures SdRead(SdWrite(disk, start, page), start)[i] == page[i]
    {
      assert start + i / WORDS_PER_SECTOR in sectors;
      assert At(sectors, start + i / WORDS_PER_SECTOR, i % WORDS_PER_SECTOR) == page[i];
    }
  }

  lemma SdElsewhere(disk: Disk, start: nat, page: seq<nat>, other: nat)
    requires |page| == WORDS_PER_PAGE
    requires SectorsApart(start, other)
    ensures SdRead(SdWrite(disk, start, page), other) == SdRead(disk, other)
  {
    SectorsHold(start, page);
    forall i | 0 <= i < WORDS_PER_PAGE
      ensures SdRead(SdWrite(disk, start, page), other)[i] == SdRead(disk, other)[i]
    {
      assert other + i / WORDS_PER_SECTOR !in Sectors(start, page);
    }
  }

  predicate SectorsApart(s: nat, s': nat) {
    s + SECTORS_PER_PAGE <= s' || s' + SECTORS_PER_PAGE <= s
  }

  // ---------------------------------------------------------------- the invariant

  function KeyOf(info: PageInfo): Key {
    (info.pgdir, info.uva)
  }

  ghost predicate DescriptorOk(b: Books, slot: map<Key, nat>, d: nat) {
    && d < |b.pages| && b.pages[d].pageId != 0
    && KeyOf(b.pages[d]) in slot && slot[KeyOf(b.pages[d])] == d
  }

  /** A page in memory is mapped to a frame of its own. */
  ghost predicate PresentOk(leaf: Mappings, data: set<nat>, b: Books, d: nat)
    requires d < |b.pages|
  {
    && KeyOf(b.pages[d]) in leaf && leaf[KeyOf(b.pages[d])] == InMemory(b.pages[d].kva)
    && b.pages[d].kva in data
  }

  /** A page on disk is mapped as not present, and its sectors lie below the cursor. */
  ghost predicate SwappedOk(leaf: Mappings, b: Books, d: nat)
    requires d < |b.pages|
  {
    && KeyOf(b.pages[d]) in leaf && leaf[KeyOf(b.pages[d])] == OnDisk
    && b.pages[d].sectorId + SECTORS_PER_PAGE <= b.cursor
  }

  /**
   data are the frames that may hold user pages, slot names the descriptor of every mapped page,
   and pending are pages that are mapped but not yet entered in the books.
   */
  ghost predicate BooksOk(leaf: Mappings, data: set<nat>, b: Books, slot: map<Key, nat>, pending: set<Key>) {
    && NoDup(b.present) && NoDup(b.swapped)
    && (forall d | d in b.present :: d !in b.swapped)
    && QueuesOk(leaf, data, b, slot) && Tracked(b)
    && SlotsOk(b, slot)
    && (forall k | k in leaf :: k in slot || k in pending)
    && FramesDistinct(b) && SectorsDisjoint(b)
  }

  ghost predicate QueuesOk(leaf: Mappings, data: set<nat>, b: Books, slot: map<Key, nat>) {
    && (forall d | d in b.present :: DescriptorOk(b, slot, d) && PresentOk(leaf, data, b, d))
    && (forall d | d in b.swapped :: DescriptorOk(b, slot, d) && SwappedOk(leaf, b, d))
  }

  ghost predicate SlotsOk(b: Books, slot: map<Key, nat>) {
    forall k | k in slot :: DescriptorOk(b, slot, slot[k]) && KeyOf(b.pages[slot[k]]) == k
  }

  /** Every descriptor in use is in one of the queues. */
  ghost predicate Tracked(b: Books) {
    forall d: nat | d < |b.pages| && b.pages[d].pageId != 0 :: d in b.present || d in b.swapped
  }

  ghost predicate FramesDistinct(b: Books) {
    forall d, d' | d in b.present && d' in b.present && d < |b.pages| && d' < |b.pages| ::
      b.pages[d].kva == b.pages[d'].kva ==> d == d'
  }

  ghost predicate SectorsDisjoint(b: Books) {
    forall d, d' | d in b.swapped && d' in b.swapped && d < |b.pages| && d' < |b.pages| && d != d' ::
      SectorsApart(b.pages[d].sectorId, b.pages[d'].sectorId)
  }

  function PageAt(mem: Memory, a: nat): seq<nat> {
    if a in mem then mem[a] else []
  }

  /** Where the words of a page are: in its frame, or in its sectors. */
  function Content(mem: Memory, b: Books, d: nat): seq<nat> {
    if d >= |b.pages| then [] else
    if d in b.present then PageAt(mem, b.pages[d].kva) else SdRead(b.disk, b.pages[d].sectorId)
  }

  /** The address spaces as their owners should see them: every mapped page with its words. */
  ghost function View(mem: Memory, b: Books, slot: map<Key, nat>): map<Key, seq<nat>> {
    map k | k in slot :: Content(mem, b, slot[k])
  }

  // ---------------------------------------------------------------- the steps

  /** Changes of memory that leave all mappings and all present pages alone are invisible. */
  lemma BooksFrame(mem: Memory, mem': Memory, leaf: Mappings, data: set<nat>, data': set<nat>,
                   b: Books, slot: map<Key, nat>, pending: set<Key>)
    requires BooksOk(leaf, data, b, slot, pending)
    requires forall a | a in data :: a in data' && PageAt(mem', a) == PageAt(mem, a)
    ensures BooksOk(leaf, data', b, slot, pending)
    ensures View(mem', b, slot) == View(mem, b, slot)
  {
    forall k | k in slot
      ensures Content(mem', b, slot[k]) == Content(mem, b, slot[k])
    {
      if slot[k] in b.present {
        assert PresentOk(leaf, data, b, slot[k]);
      }
    }
  }

  /** What the books say about a page in the present queue, and about one in the swapped queue. */
  lemma PresentPage(leaf: Mappings, data: set<nat>, b: Books, slot: map<Key, nat>, pending: set<Key>, d: nat)
    requires BooksOk(leaf, data, b, slot, pending) && d in b.present
    ensures d < |b.pages| && b.pages[d].kva in data && b.pages[d].pageId != 0
    ensures KeyOf(b.pages[d]) in leaf && leaf[KeyOf(b.pages[d])] == InMemory(b.pages[d].kva)
    ensures KeyOf(b.pages[d]) in slot && slot[KeyOf(b.pages[d])] == d && d !in b.swapped
  {
    assert DescriptorOk(b, slot, d) && PresentOk(leaf, data, b, d);
  }

  lemma PresentFrames(leaf: Mappings, data: set<nat>, b: Books, slot: map<Key, nat>, pending: set<Key>)
    requires BooksOk(leaf, data, b, slot, pending)
    ensures forall d | d in b.present :: d < |b.pages| && b.pages[d].kva in data && KeyOf(b.pages[d]) in slot
  {
    forall d | d in b.present
      ensures d < |b.pages| && b.pages[d].kva in data && KeyOf(b.pages[d]) in slot
    {
      PresentPage(leaf, data, b, slot, pending, d);
    }
  }

  lemma SwappedPage(leaf: Mappings, data: set<nat>, b: Books, slot: map<Key, nat>, pending: set<Key>, d: nat)
    requires BooksOk(leaf, data, b, slot, pending) && d in b.swapped
    ensures d < |b.pages| && b.pages[d].pageId != 0
    ensures KeyOf(b.pages[d]) in leaf && leaf[KeyOf(b.pages[d])] == OnDisk
    ensures KeyOf(b.pages[d]) in slot && slot[KeyOf(b.pages[d])] == d && d !in b.present
  {
    assert DescriptorOk(b, slot, d) && SwappedOk(leaf, b, d);
  }

  /** Whether a mapped page is in a frame or on disk decides which queue holds its descriptor. */
  lemma MappedPage(leaf: Mappings, data: set<nat>, b: Books, slot: map<Key, nat>, k: Key)
    requires BooksOk(leaf, data, b, slot, {}) && k in leaf
    ensures k in slot && slot[k] < |b.pages| && KeyOf(b.pages[slot[k]]) == k
    ensures leaf[k].OnDisk? ==> slot[k] in b.swapped && slot[k] !in b.present
    ensures leaf[k].InMemory? ==> slot[k] in b.present && b.pages[slot[k]].kva == leaf[k].kva && leaf[k].kva in data
  {
    var d := slot[k];
    assert DescriptorOk(b, slot, d) && KeyOf(b.pages[d]) == k;
    if d in b.present {
      PresentPage(leaf, data, b, slot, {}, d);
    } else {
      SwappedPage(leaf, data, b, slot, {}, d);
    }
  }

  /** Once the descriptor of a page in memory is gone, nothing names its frame. */
  lemma FrameUnnamed(leaf: Mappings, data: set<nat>, b: Books, slot: map<Key, nat>, d: nat)
    requires BooksOk(leaf, data, b, slot, {}) && d in b.present
    ensures d < |b.pages| && b.pages[d].kva in data && NoDup(b.present)
    ensures forall x | x in Without(b.present, d) :: x < |b.pages| && x != d && b.pages[x].kva != b.pages[d].kva
  {
    PresentFrames(leaf, data, b, slot, {});
    WithoutMembers(b.present, d);
  }

  /** reset_page_info */
  function Reset(p: PageInfo): PageInfo {
    p.(uva := 0, kva := 0, pageId := 0, sectorId := 0)
  }

  ghost predicate Names(pages: seq<PageInfo>, present: seq<nat>, f: nat) {
    exists d :: d in present && d < |pages| && pages[d].kva == f
  }

  /** The frame f is handed out, was a page's, and is no page's any more. */
  ghost predicate Leaked(pages: seq<PageInfo>, present: seq<nat>, pages': seq<PageInfo>, present': seq<nat>,
                         used: set<nat>, f: nat)
  {
    f in used && Names(pages, present, f) && !Names(pages', present', f)
  }

  lemma FreedPresent(leaf: Mappings, data: set<nat>, b: Books, slot: map<Key, nat>, d: nat, used: set<nat>)
    requires BooksOk(leaf, data, b, slot, {}) && d in b.present && data <= used
    ensures d < |b.pages|
    ensures Leaked(b.pages, b.present, b.pages[d := Reset(b.pages[d])], Without(b.present, d), used, b.pages[d].kva)
  {
    FrameUnnamed(leaf, data, b, slot, d);
    hide BooksOk;
    assert Names(b.pages, b.present, b.pages[d].kva);
  }

  lemma FreedSwapped(leaf: Mappings, data: set<nat>, b: Books, slot: map<Key, nat>, d: nat, used: set<nat>,
                     pages': seq<PageInfo>)
    requires BooksOk(leaf, data, b, slot, {}) && d in b.swapped && d < |b.pages| && pages' == b.pages[d := Reset(b.pages[d])]
    ensures forall f :: !Leaked(b.pages, b.present, pages', b.present, used, f)
  {
    SwappedPage(leaf, data, b, slot, {}, d);
    assert d !in b.present;
    hide BooksOk;
    forall f | Names(b.pages, b.present, f)
      ensures Names(pages', b.present, f)
    {
      var x :| x in b.present && x < |b.pages| && b.pages[x].kva == f;
      assert pages'[x] == b.pages[x];
    }
  }

  lemma QueueBounds(leaf: Mappings, data: set<nat>, b: Books, slot: map<Key, nat>, pending: set<Key>)
    requires BooksOk(leaf, data, b, slot, pending)
    ensures forall i | 0 <= i < |b.swapped| :: b.swapped[i] < |b.pages|
    ensures NoDup(b.swapped)
  {
    forall i | 0 <= i < |b.swapped|
      ensures b.swapped[i] < |b.pages|
    {
      SwappedPage(leaf, data, b, slot, pending, b.swapped[i]);
    }
  }

  /** Mapping a page that is not in the books makes it pending. */
  lemma PendingBooks(leaf: Mappings, data: set<nat>, data': set<nat>,
                     b: Books, slot: map<Key, nat>, k: Key, m: Mapping)
    requires BooksOk(leaf, data, b, slot, {}) && k !in slot && data <= data'
    ensures BooksOk(leaf[k := m], data', b, slot, {k})
  {
    var leaf' := leaf[k := m];
    forall d | d in b.present
      ensures DescriptorOk(b, slot, d) && PresentOk(leaf', data', b, d)
    {
      assert DescriptorOk(b, slot, d) && PresentOk(leaf, data, b, d);
    }
    forall d | d in b.swapped
      ensures DescriptorOk(b, slot, d) && SwappedOk(leaf', b, d)
    {
      assert DescriptorOk(b, slot, d) && SwappedOk(leaf, b, d);
    }
  }

  function AfterSwapOut(mem: Memory, b: Books): Books
    requires b.present != [] && b.present[0] < |b.pages|
    requires |PageAt(mem, b.pages[b.present[0]].kva)| == WORDS_PER_PAGE
  {
    var d := b.present[0];
    Books(b.pages[d := b.pages[d].(sectorId := b.cursor)], b.present[1..], b.swapped + [d],
          SdWrite(b.disk, b.cursor, PageAt(mem, b.pages[d].kva)), b.cursor + SECTORS_PER_PAGE)
  }

  lemma AfterSwapOutIs(mem: Memory, b: Books)
    requires b.present != [] && b.present[0] < |b.pages|
    requires |PageAt(mem, b.pages[b.present[0]].kva)| == WORDS_PER_PAGE
    ensures var b' := AfterSwapOut(mem, b);
            && b'.present == b.present[1..] && b'.swapped == b.swapped + [b.present[0]] && |b'.pages| == |b.pages|
            && forall d | 0 <= d < |b.pages| :: KeyOf(b'.pages[d]) == KeyOf(b.pages[d]) && b'.pages[d].kva == b.pages[d].kva
  {
  }

  lemma SwapOutQueues(mem: Memory, leaf: Mappings, data: set<nat>,
                      b: Books, slot: map<Key, nat>, pending: set<Key>)
    requires BooksOk(leaf, data, b, slot, pending)
    requires b.present != [] && b.present[0] < |b.pages|
    requires |PageAt(mem, b.pages[b.present[0]].kva)| == WORDS_PER_PAGE
    ensures var p := b.pages[b.present[0]];
            QueuesOk(leaf[KeyOf(p) := OnDisk], data - {p.kva}, AfterSwapOut(mem, b), slot)
  {
    var d := b.present[0];
    var p := b.pages[d];
    var b' := AfterSwapOut(mem, b);
    var leaf' := leaf[KeyOf(p) := OnDisk];
    assert d in b.present && d !in b'.present;
    forall x | x in b'.present
      ensures DescriptorOk(b', slot, x) && PresentOk(leaf', data - {p.kva}, b', x)
    {
      assert x in b.present && DescriptorOk(b, slot, x) && PresentOk(leaf, data, b, x);
    }
    forall x | x in b'.swapped
      ensures DescriptorOk(b', slot, x) && SwappedOk(leaf', b', x)
    {
      if x != d {
        assert x in b.swapped && DescriptorOk(b, slot, x) && SwappedOk(leaf, b, x);
      }
    }
  }

  lemma SwapOutContent(mem: Memory, mem': Memory, leaf: Mappings, data: set<nat>,
                       b: Books, slot: map<Key, nat>, pending: set<Key>, d: nat)
    requires BooksOk(leaf, data, b, slot, pending)
    requires b.present != [] && b.present[0] < |b.pages|
    requires var kva := b.pages[b.present[0]].kva;
             && |PageAt(mem, kva)| == WORDS_PER_PAGE
             && (forall a | a in data && a != kva :: PageAt(mem', a) == PageAt(mem, a))
    requires DescriptorOk(b, slot, d)
    ensures Content(mem', AfterSwapOut(mem, b), d) == Content(mem, b, d)
  {
    var out := b.present[0];
    var b' := AfterSwapOut(mem, b);
    var page := PageAt(mem, b.pages[out].kva);
    assert out in b.present && out !in b'.present;
    if d == out {
      SdRoundTrip(b.disk, b.cursor, page);
    } else if d in b.present {
      assert d in b'.present && PresentOk(leaf, data, b, d);
    } else {
      assert SwappedOk(leaf, b, d);
      SdElsewhere(b.disk, b.cursor, page, b.pages[d].sectorId);
    }
  }

  lemma SwapOutView(mem: Memory, mem': Memory, leaf: Mappings, data: set<nat>,
                    b: Books, slot: map<Key, nat>, pending: set<Key>)
    requires BooksOk(leaf, data, b, slot, pending)
    requires b.present != [] && b.present[0] < |b.pages|
    requires var kva := b.pages[b.present[0]].kva;
             && |PageAt(mem, kva)| == WORDS_PER_PAGE
             && (forall a | a in data && a != kva :: PageAt(mem', a) == PageAt(mem, a))
    ensures SlotsOk(AfterSwapOut(mem, b), slot)
    ensures View(mem', AfterSwapOut(mem, b), slot) == View(mem, b, slot)
  {
    SlotsKept(b, AfterSwapOut(mem, b), slot);
    forall k | k in slot
      ensures Content(mem', AfterSwapOut(mem, b), slot[k]) == Content(mem, b, slot[k])
    {
      SwapOutContent(mem, mem', leaf, data, b, slot, pending, slot[k]);
    }
  }

  lemma SwapOutSectors(mem: Memory, leaf: Mappings, data: set<nat>,
                       b: Books, slot: map<Key, nat>, pending: set<Key>)
    requires BooksOk(leaf, data, b, slot, pending)
    requires b.present != [] && b.present[0] < |b.pages|
    requires |PageAt(mem, b.pages[b.present[0]].kva)| == WORDS_PER_PAGE
    ensures SectorsDisjoint(AfterSwapOut(mem, b))
    ensures FramesDistinct(AfterSwapOut(mem, b))
  {
    var d := b.present[0];
    var b' := AfterSwapOut(mem, b);
    assert d in b.present;
    forall x | x in b.swapped
      ensures x != d && x < |b.pages| && b.pages[x].sectorId + SECTORS_PER_PAGE <= b.cursor
    {
      assert DescriptorOk(b, slot, x) && SwappedOk(leaf, b, x);
    }
    assert forall x | x in b'.present :: x in b.present;
  }

  lemma SwapOutShape(mem: Memory, b: Books)
    requires NoDup(b.present) && NoDup(b.swapped) && Tracked(b)
    requires forall d | d in b.present :: d !in b.swapped
    requires b.present != [] && b.present[0] < |b.pages|
    requires |PageAt(mem, b.pages[b.present[0]].kva)| == WORDS_PER_PAGE
    ensures var b' := AfterSwapOut(mem, b);
            && NoDup(b'.present) && NoDup(b'.swapped) && Tracked(b')
            && (forall d | d in b'.present :: d !in b'.swapped)
  {
    var d := b.present[0];
    assert d in b.present;
    NoDupAppend(b.swapped, d);
    assert forall x | x in b.present :: x == d || x in b.present[1..];
  }

  /** Writing the oldest present page out and unmapping it keeps the books and is invisible. */
  lemma SwapOutBooks(mem: Memory, mem': Memory, leaf: Mappings, data: set<nat>,
                     b: Books, slot: map<Key, nat>, pending: set<Key>)
    requires BooksOk(leaf, data, b, slot, pending)
    requires b.present != [] && b.present[0] < |b.pages|
    requires var kva := b.pages[b.present[0]].kva;
             && |PageAt(mem, kva)| == WORDS_PER_PAGE
             && (forall a | a in data && a != kva :: PageAt(mem', a) == PageAt(mem, a))
    ensures var p := b.pages[b.present[0]];
            && BooksOk(leaf[KeyOf(p) := OnDisk], data - {p.kva}, AfterSwapOut(mem, b), slot, pending)
            && View(mem', AfterSwapOut(mem, b), slot) == View(mem, b, slot)
  {
    SwapOutQueues(mem, leaf, data, b, slot, pending);
    SwapOutView(mem, mem', leaf, data, b, slot, pending);
    SwapOutSectors(mem, leaf, data, b, slot, pending);
    SwapOutSlots(mem, leaf, data, b, slot, pending);
    hide QueuesOk, SlotsOk, FramesDistinct, SectorsDisjoint, View, Tracked, NoDup, SdWrite, AfterSwapOut;
    SwapOutShape(mem, b);
  }

  lemma SwapOutSlots(mem: Memory, leaf: Mappings, data: set<nat>,
                     b: Books, slot: map<Key, nat>, pending: set<Key>)
    requires BooksOk(leaf, data, b, slot, pending)
    requires b.present != [] && b.present[0] < |b.pages|
    requires |PageAt(mem, b.pages[b.present[0]].kva)| == WORDS_PER_PAGE
    ensures SlotsOk(AfterSwapOut(mem, b), slot)
    ensures forall k | k in leaf[KeyOf(b.pages[b.present[0]]) := OnDisk] :: k in slot || k in pending
  {
    var d, b' := b.present[0], AfterSwapOut(mem, b);
    assert d in b.present && DescriptorOk(b, slot, d);
    forall k | k in slot
      ensures DescriptorOk(b', slot, slot[k]) && KeyOf(b'.pages[slot[k]]) == k
    {
      assert DescriptorOk(b, slot, slot[k]) && KeyOf(b.pages[slot[k]]) == k;
    }
  }

  function AfterSwapIn(b: Books, d: nat, kva: nat): Books
    requires d in b.swapped && d < |b.pages|
  {
    b.(pages := b.pages[d := b.pages[d].(kva := kva, sectorId := 0)],
       present := b.present + [d],
       swapped := Without(b.swapped, d))
  }

  lemma SwapInQueues(leaf: Mappings, data: set<nat>,
                     b: Books, slot: map<Key, nat>, pending: set<Key>, d: nat, kva: nat)
    requires BooksOk(leaf, data, b, slot, pending)
    requires d in b.swapped && d < |b.pages| && kva !in data
    ensures QueuesOk(leaf[KeyOf(b.pages[d]) := InMemory(kva)], data + {kva}, AfterSwapIn(b, d, kva), slot)
    ensures FramesDistinct(AfterSwapIn(b, d, kva))
  {
    var b' := AfterSwapIn(b, d, kva);
    var leaf' := leaf[KeyOf(b.pages[d]) := InMemory(kva)];
    WithoutMembers(b.swapped, d);
    forall x | x in b'.present
      ensures DescriptorOk(b', slot, x) && PresentOk(leaf', data + {kva}, b', x)
      ensures x == d || (x in b.present && b'.pages[x].kva != kva)
    {
      if x != d {
        assert x in b.present && DescriptorOk(b, slot, x) && PresentOk(leaf, data, b, x);
      }
    }
    forall x | x in b'.swapped
      ensures DescriptorOk(b', slot, x) && SwappedOk(leaf', b', x)
    {
      assert x in b.swapped && DescriptorOk(b, slot, x) && SwappedOk(leaf, b, x);
    }
  }

  lemma SwapInContent(mem: Memory, mem': Memory, leaf: Mappings, data: set<nat>,
                      b: Books, slot: map<Key, nat>, pending: set<Key>, d: nat, kva: nat, x: nat)
    requires BooksOk(leaf, data, b, slot, pending)
    requires d in b.swapped && d < |b.pages| && kva !in data
    requires PageAt(mem', kva) == SdRead(b.disk, b.pages[d].sectorId)
    requires forall a | a in data :: PageAt(mem', a) == PageAt(mem, a)
    requires x < |b.pages|
    ensures Content(mem', AfterSwapIn(b, d, kva), x) == Content(mem, b, x)
  {
    if x in b.present {
      assert PresentOk(leaf, data, b, x);
    }
  }

  lemma SwapInView(mem: Memory, mem': Memory, leaf: Mappings, data: set<nat>,
                   b: Books, slot: map<Key, nat>, pending: set<Key>, d: nat, kva: nat)
    requires BooksOk(leaf, data, b, slot, pending)
    requires d in b.swapped && d < |b.pages| && kva !in data
    requires PageAt(mem', kva) == SdRead(b.disk, b.pages[d].sectorId)
    requires forall a | a in data :: PageAt(mem', a) == PageAt(mem, a)
    ensures View(mem', AfterSwapIn(b, d, kva), slot) == View(mem, b, slot)
  {
    forall k | k in slot
      ensures Content(mem', AfterSwapIn(b, d, kva), slot[k]) == Content(mem, b, slot[k])
    {
      assert DescriptorOk(b, slot, slot[k]);
      SwapInContent(mem, mem', leaf, data, b, slot, pending, d, kva, slot[k]);
    }
  }

  /** Updating a descriptor without touching its page keeps the descriptors findable. */
  lemma SlotsKept(b: Books, b': Books, slot: map<Key, nat>)
    requires SlotsOk(b, slot) && |b'.pages| == |b.pages|
    requires forall d | 0 <= d < |b.pages| ::
               b'.pages[d].pageId == b.pages[d].pageId && KeyOf(b'.pages[d]) == KeyOf(b.pages[d])
    ensures SlotsOk(b', slot)
  {
    forall k | k in slot
      ensures DescriptorOk(b', slot, slot[k]) && KeyOf(b'.pages[slot[k]]) == k
    {
      assert DescriptorOk(b, slot, slot[k]) && KeyOf(b.pages[slot[k]]) == k;
    }
  }

  /** Bringing a swapped page into a fresh frame and mapping it keeps the books and is invisible. */
  lemma SwapInBooks(mem: Memory, mem': Memory, leaf: Mappings, data: set<nat>,
                    b: Books, slot: map<Key, nat>, pending: set<Key>, d: nat, kva: nat)
    requires BooksOk(leaf, data, b, slot, pending)
    requires d in b.swapped && d < |b.pages| && kva !in data
    requires PageAt(mem', kva) == SdRead(b.disk, b.pages[d].sectorId)
    requires forall a | a in data :: PageAt(mem', a) == PageAt(mem, a)
    ensures BooksOk(leaf[KeyOf(b.pages[d]) := InMemory(kva)], data + {kva}, AfterSwapIn(b, d, kva), slot, pending)
    ensures View(mem', AfterSwapIn(b, d, kva), slot) == View(mem, b, slot)
  {
    var b' := AfterSwapIn(b, d, kva);
    SwapInQueues(leaf, data, b, slot, pending, d, kva);
    SwapInView(mem, mem', leaf, data, b, slot, pending, d, kva);
    SlotsKept(b, b', slot);
    WithoutMembers(b.swapped, d);
    NoDupAppend(b.present, d);
    assert Tracked(b');
    assert SectorsDisjoint(b') by {
      forall x | x in b'.swapped
        ensures x in b.swapped && x < |b.pages| && b'.pages[x] == b.pages[x]
      {
        assert DescriptorOk(b, slot, x);
      }
    }
  }

  function AfterAdd(b: Books, d: nat, info: PageInfo): Books
    requires d < |b.pages|
  {
    b.(pages := b.pages[d := info], present := b.present + [d])
  }

  lemma AddQueues(leaf: Mappings, data: set<nat>,
                  b: Books, slot: map<Key, nat>, pending: set<Key>, d: nat, info: PageInfo)
    requires BooksOk(leaf, data, b, slot, pending)
    requires d < |b.pages| && b.pages[d].pageId == 0 && info.pageId != 0
    requires KeyOf(info) !in slot && KeyOf(info) in leaf && leaf[KeyOf(info)] == InMemory(info.kva)
    requires info.kva in data && forall x | x in b.present :: x < |b.pages| && b.pages[x].kva != info.kva
    ensures QueuesOk(leaf, data, AfterAdd(b, d, info), slot[KeyOf(info) := d])
    ensures d !in b.present && d !in b.swapped
  {
    var b', slot' := AfterAdd(b, d, info), slot[KeyOf(info) := d];
    forall x | x in b.present
      ensures DescriptorOk(b', slot', x) && PresentOk(leaf, data, b', x)
    {
      assert DescriptorOk(b, slot, x) && PresentOk(leaf, data, b, x);
    }
    forall x | x in b'.swapped
      ensures DescriptorOk(b', slot', x) && SwappedOk(leaf, b', x)
    {
      assert DescriptorOk(b, slot, x) && SwappedOk(leaf, b, x);
    }
  }

  lemma AddSlots(leaf: Mappings, data: set<nat>,
                 b: Books, slot: map<Key, nat>, pending: set<Key>, d: nat, info: PageInfo)
    requires BooksOk(leaf, data, b, slot, pending)
    requires d < |b.pages| && b.pages[d].pageId == 0 && info.pageId != 0 && KeyOf(info) !in slot
    ensures SlotsOk(AfterAdd(b, d, info), slot[KeyOf(info) := d])
  {
    var b', slot' := AfterAdd(b, d, info), slot[KeyOf(info) := d];
    forall k | k in slot
      ensures DescriptorOk(b', slot', slot[k]) && KeyOf(b'.pages[slot[k]]) == k
    {
      assert DescriptorOk(b, slot, slot[k]) && KeyOf(b.pages[slot[k]]) == k;
    }
  }

  lemma AddContent(mem: Memory, leaf: Mappings, data: set<nat>,
                   b: Books, slot: map<Key, nat>, pending: set<Key>, d: nat, info: PageInfo, k: Key)
    requires BooksOk(leaf, data, b, slot, pending) && k in slot
    requires d < |b.pages| && b.pages[d].pageId == 0 && info.pageId != 0
    ensures Content(mem, AfterAdd(b, d, info), slot[k]) == Content(mem, b, slot[k])
  {
    assert DescriptorOk(b, slot, slot[k]);
  }

  lemma AddView(mem: Memory, leaf: Mappings, data: set<nat>,
                b: Books, slot: map<Key, nat>, pending: set<Key>, d: nat, info: PageInfo)
    requires BooksOk(leaf, data, b, slot, pending)
    requires d < |b.pages| && b.pages[d].pageId == 0 && info.pageId != 0 && KeyOf(info) !in slot
    ensures View(mem, AfterAdd(b, d, info), slot[KeyOf(info) := d])
            == View(mem, b, slot)[KeyOf(info) := PageAt(mem, info.kva)]
  {
    var b' := AfterAdd(b, d, info);
    assert Content(mem, b', d) == PageAt(mem, info.kva);
    hide BooksOk, Content;
    forall k | k in slot
      ensures Content(mem, b', slot[k]) == Content(mem, b, slot[k])
    {
      AddContent(mem, leaf, data, b, slot, pending, d, info, k);
    }
  }

  /** Entering a page that is mapped but pending adds it, with the words of its frame, to the view. */
  lemma AddBooks(mem: Memory, leaf: Mappings, data: set<nat>,
                 b: Books, slot: map<Key, nat>, pending: set<Key>, d: nat, info: PageInfo)
    requires BooksOk(leaf, data, b, slot, pending)
    requires d < |b.pages| && b.pages[d].pageId == 0 && info.pageId != 0
    requires KeyOf(info) !in slot && KeyOf(info) in leaf && leaf[KeyOf(info)] == InMemory(info.kva)
    requires info.kva in data && forall x | x in b.present :: x < |b.pages| && b.pages[x].kva != info.kva
    ensures BooksOk(leaf, data, AfterAdd(b, d, info), slot[KeyOf(info) := d], pending - {KeyOf(info)})
    ensures View(mem, AfterAdd(b, d, info), slot[KeyOf(info) := d])
            == View(mem, b, slot)[KeyOf(info) := PageAt(mem, info.kva)]
  {
    var b' := AfterAdd(b, d, info);
    AddQueues(leaf, data, b, slot, pending, d, info);
    AddSlots(leaf, data, b, slot, pending, d, info);
    AddView(mem, leaf, data, b, slot, pending, d, info);
    NoDupAppend(b.present, d);
    hide View;
    assert Tracked(b');
    assert forall x | x in b'.present :: x == d || x in b.present;
    assert SectorsDisjoint(b') by {
      forall x | x in b'.swapped
        ensures x < |b.pages| && b'.pages[x] == b.pages[x]
      {
        assert DescriptorOk(b, slot, x);
      }
    }
  }

  /** An unused descriptor exists exactly when fewer pages than descriptors are tracked. */
  lemma FreeDescriptor(leaf: Mappings, data: set<nat>, b: Books, slot: map<Key, nat>, pending: set<Key>)
    requires BooksOk(leaf, data, b, slot, pending)
    ensures |b.present| + |b.swapped| <= |b.pages|
    ensures (exists d: nat :: d < |b.pages| && b.pages[d].pageId == 0) <==> |b.present| + |b.swapped| < |b.pages|
  {
    var all := b.present + b.swapped;
    forall i, j | 0 <= i < j < |all|
      ensures all[i] != all[j]
    {
      if i < |b.present| <= j {
        assert all[i] in b.present && all[j] in b.swapped;
      }
    }
    forall d | d in all
      ensures d < |b.pages| && b.pages[d].pageId != 0
    {
      assert DescriptorOk(b, slot, d);
    }
    PigeonHole(all, |b.pages|);
    if |all| < |b.pages| {
      var d: nat :| d < |b.pages| && d !in all;
      assert b.pages[d].pageId == 0;
    }
  }

  /**
   The shipped constants give MAX_PFN and MAX_PRESENT_PFN the same value. Then the assertion in
   add_new_pre_page fails in every state in which alloc_page_helper has to swap first.
   */
  lemma NoDescriptorWhenFull(mem: Memory, leaf: Mappings, data: set<nat>, b: Books, slot: map<Key, nat>, pending: set<Key>)
    requires BooksOk(leaf, data, b, slot, pending)
    requires b.present != [] && b.present[0] < |b.pages| && |PageAt(mem, b.pages[b.present[0]].kva)| == WORDS_PER_PAGE
    requires |b.present| >= |b.pages|
    ensures var b' := AfterSwapOut(mem, b);
            && |b'.present| + |b'.swapped| == |b'.pages|
            && !exists d: nat :: d < |b'.pages| && b'.pages[d].pageId == 0
  {
    FreeDescriptor(leaf, data, b, slot, pending);
    var b' := AfterSwapOut(mem, b);
    forall d: nat | d < |b'.pages|
      ensures b'.pages[d].pageId != 0
    {
      assert b'.pages[d].pageId == b.pages[d].pageId;
    }
  }
}
