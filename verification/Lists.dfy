/** The intrusive circular doubly linked lists of include/os/list.h. */
module Lists {
  import opened Seqs

  /** The list heads of the kernel; WaitOf(t) is the wait list inside the PCB t. */
  datatype QueueId = Ready | Sleep | WaitOf(task: nat) | Mutex(m: nat) | Condition(c: nat) | Barrier(b: nat)

  /** A list_node_t: the one inside a PCB, or a list head. */
  datatype Node = Task(t: nat) | Head(q: QueueId)

  type Rings = map<QueueId, seq<nat>>

  /** The i-th node of the circle through the head of q, counting the head as 0 and as |s| + 1. */
  function Nth(q: QueueId, s: seq<nat>, i: nat): Node
    requires i <= |s| + 1
  {
    if 1 <= i <= |s| then Task(s[i - 1]) else Head(q)
  }

  /** The nodes i and i + 1 of the circle point at each other. */
  ghost predicate Joined(next: map<Node, Node>, prev: map<Node, Node>, q: QueueId, s: seq<nat>, i: nat)
    requires i <= |s|
  {
    && Nth(q, s, i) in next && next[Nth(q, s, i)] == Nth(q, s, i + 1)
    && Nth(q, s, i + 1) in prev && prev[Nth(q, s, i + 1)] == Nth(q, s, i)
  }

  /** Following next from the head visits s and comes back; prev undoes next. */
  ghost predicate Circle(next: map<Node, Node>, prev: map<Node, Node>, q: QueueId, s: seq<nat>) {
    forall i: nat | i <= |s| :: Joined(next, prev, q, s, i)
  }

  /** No task is linked twice. */
  ghost predicate Separate(rings: Rings) {
    && (forall q | q in rings :: NoDup(rings[q]))
    && (forall q, q', x | q in rings && q' in rings && x in rings[q] && x in rings[q'] :: q == q')
  }

  ghost predicate Unlinked(rings: Rings, t: nat) {
    forall q | q in rings :: t !in rings[q]
  }

  /** The queues left when the task t is unlinked from wherever it is. */
  function Unlink(rings: Rings, t: nat): Rings {
    map q | q in rings :: if t in rings[q] then Without(rings[q], t) else rings[q]
  }

  function Append(rings: Rings, q: QueueId, t: nat): Rings
    requires q in rings
  {
    rings[q := rings[q] + [t]]
  }

  lemma UnlinkOne(rings: Rings, q: QueueId, t: nat)
    requires Separate(rings) && q in rings && t in rings[q]
    ensures Unlink(rings, t) == rings[q := Without(rings[q], t)]
  {
    forall q' | q' in rings && q' != q
      ensures t !in rings[q']
    {
    }
  }

  lemma UnlinkSeparate(rings: Rings, t: nat)
    requires Separate(rings)
    ensures Separate(Unlink(rings, t)) && Unlinked(Unlink(rings, t), t)
    ensures forall q, x | q in rings :: x in Unlink(rings, t)[q] <==> x in rings[q] && x != t
  {
    forall q, x | q in rings
      ensures x in Unlink(rings, t)[q] <==> x in rings[q] && x != t
      ensures NoDup(Unlink(rings, t)[q])
    {
      if t in rings[q] {
        WithoutMembers(rings[q], t);
      }
    }
  }

  lemma AppendSeparate(rings: Rings, q: QueueId, t: nat)
    requires Separate(rings) && q in rings && Unlinked(rings, t)
    ensures Separate(Append(rings, q, t))
    ensures forall q', x | q' in rings :: x in Append(rings, q, t)[q'] <==> x in rings[q'] || (q' == q && x == t)
  {
    NoDupAppend(rings[q], t);
  }

  /** Where a linked task sits. */
  lemma FindRing(rings: Rings, t: nat) returns (q: QueueId)
    requires !Unlinked(rings, t)
    ensures q in rings && t in rings[q]
  {
    q :| q in rings && t in rings[q];
  }

  lemma CircleAppend(next: map<Node, Node>, prev: map<Node, Node>, q: QueueId, s: seq<nat>, t: nat,
                     next': map<Node, Node>, prev': map<Node, Node>)
    requires Circle(next, prev, q, s) && NoDup(s) && t !in s
    requires Head(q) in prev
    requires prev' == prev[Head(q) := Task(t)][Task(t) := prev[Head(q)]]
    requires next' == next[prev[Head(q)] := Task(t)][Task(t) := Head(q)]
    ensures Circle(next', prev', q, s + [t])
  {
    var s' := s + [t];
    assert Joined(next, prev, q, s, |s|);
    forall i: nat | i <= |s'|
      ensures Joined(next', prev', q, s', i)
    {
      if i < |s| {
        assert Nth(q, s', i) == Nth(q, s, i) && Nth(q, s', i + 1) == Nth(q, s, i + 1);
        NthDistinct(q, s, i, |s|);
        assert Joined(next, prev, q, s, i);
      } else if i == |s| {
        assert Nth(q, s', i) == Nth(q, s, i) && Nth(q, s', i + 1) == Task(t);
      }
    }
  }

  lemma NthDistinct(q: QueueId, s: seq<nat>, i: nat, j: nat)
    requires NoDup(s) && i <= |s| && j <= |s| && i != j
    ensures Nth(q, s, i) != Nth(q, s, j)
  {
  }

  lemma CircleRemove(next: map<Node, Node>, prev: map<Node, Node>, q: QueueId, s: seq<nat>, k: nat,
                     next': map<Node, Node>, prev': map<Node, Node>)
    requires Circle(next, prev, q, s) && NoDup(s) && k < |s|
    requires Task(s[k]) in next && Task(s[k]) in prev
    requires prev' == prev[next[Task(s[k])] := prev[Task(s[k])]]
    requires next' == next[prev[Task(s[k])] := next[Task(s[k])]]
    ensures Circle(next', prev', q, s[..k] + s[k + 1..])
  {
    var s' := s[..k] + s[k + 1..];
    assert Nth(q, s, k + 1) == Task(s[k]);
    assert Joined(next, prev, q, s, k + 1) && Joined(next, prev, q, s, k);
    assert prev' == prev[Nth(q, s, k + 2) := Nth(q, s, k)];
    assert next' == next[Nth(q, s, k) := Nth(q, s, k + 2)];
    forall i: nat | i <= |s'|
      ensures Joined(next', prev', q, s', i)
    {
      NthRemoved(q, s, k, i);
      if i < k {
        NthRemoved(q, s, k, i + 1);
        assert Joined(next, prev, q, s, i);
        NthDistinct(q, s, i, k);
        NthPrevDistinct(q, s, i + 1, k + 2);
      } else if i > k {
        NthRemoved(q, s, k, i + 1);
        assert Joined(next, prev, q, s, i + 1);
        NthDistinct(q, s, i + 1, k);
        NthPrevDistinct(q, s, i + 2, k + 2);
      } else {
        NthRemoved(q, s, k, i + 1);
      }
    }
  }

  lemma NthRemoved(q: QueueId, s: seq<nat>, k: nat, i: nat)
    requires k < |s| && i <= |s|
    ensures Nth(q, s[..k] + s[k + 1..], i) == Nth(q, s, if i <= k then i else i + 1)
  {
  }

  lemma NthPrevDistinct(q: QueueId, s: seq<nat>, i: nat, j: nat)
    requires NoDup(s) && 1 <= i <= |s| + 1 && 1 <= j <= |s| + 1 && i != j
    ensures Nth(q, s, i) != Nth(q, s, j)
  {
  }

  /** A circle does not notice pointer updates of nodes that are not on it. */
  lemma CircleFrame(next: map<Node, Node>, prev: map<Node, Node>, q: QueueId, s: seq<nat>,
                    next': map<Node, Node>, prev': map<Node, Node>)
    requires Circle(next, prev, q, s)
    requires Head(q) in next' && Head(q) in prev' && next'[Head(q)] == At(next, Head(q)) && prev'[Head(q)] == At(prev, Head(q))
    requires forall x | x in s :: Task(x) in next' && Task(x) in prev'
                                  && next'[Task(x)] == At(next, Task(x)) && prev'[Task(x)] == At(prev, Task(x))
    ensures Circle(next', prev', q, s)
  {
    forall i: nat | i <= |s|
      ensures Joined(next', prev', q, s, i)
    {
      assert Joined(next, prev, q, s, i);
    }
  }

  function At(m: map<Node, Node>, n: Node): Node {
    if n in m then m[n] else n
  }

  class Links {
    var next: map<Node, Node>
    var prev: map<Node, Node>
    ghost var rings: Rings

    ghost predicate Valid()
      reads this
    {
      Separate(rings) && forall q | q in rings :: Circle(next, prev, q, rings[q])
    }

    constructor ()
      ensures Valid() && rings == map[]
    {
      next, prev, rings := map[], map[], map[];
    }

    /** INIT_LIST_HEAD */
    method InitListHead(q: QueueId)
      requires Valid() && q !in rings
      modifies this
      ensures Valid() && rings == old(rings)[q := []]
    {
      hide Circle;
      ghost var next0, prev0 := next, prev;
      prev := prev[Head(q) := Head(q)];
      next := next[Head(q) := Head(q)];
      rings := rings[q := []];
      EmptyCircle(next, prev, q);
      forall q' | q' in old(rings)
        ensures Circle(next, prev, q', rings[q'])
      {
        InCircle(next0, prev0, q', old(rings)[q']);
        CircleFrame(next0, prev0, q', old(rings)[q'], next, prev);
      }
    }

    /** is_queue_empty */
    method IsQueueEmpty(q: QueueId) returns (empty: bool)
      requires Valid() && q in rings
      ensures empty <==> rings[q] == []
    {
      assert Joined(next, prev, q, rings[q], 0);
      empty := next[Head(q)] == Head(q);
    }

    /** The node after a head or a task: what the traversal macros step with. */
    method Step(n: Node, ghost q: QueueId, ghost i: nat) returns (n': Node)
      requires Valid() && q in rings && i <= |rings[q]| && n == Nth(q, rings[q], i)
      ensures n' == Nth(q, rings[q], i + 1)
    {
      assert Joined(next, prev, q, rings[q], i);
      n' := next[n];
    }

    /** list_add_tail, through list_insert(new, head->prev, head). */
    method AddTail(t: nat, q: QueueId)
      requires Valid() && q in rings && Unlinked(rings, t)
      modifies this
      ensures Valid() && rings == Append(old(rings), q, t)
    {
      hide Circle;
      InCircle(next, prev, q, rings[q]);
      ghost var next0, prev0 := next, prev;
      var last := prev[Head(q)];
      prev := prev[Head(q) := Task(t)];
      next := next[last := Task(t)];
      next := next[Task(t) := Head(q)];
      prev := prev[Task(t) := last];
      CircleAppend(next0, prev0, q, rings[q], t, next, prev);
      AppendSeparate(rings, q, t);
      rings := Append(rings, q, t);
      forall q' | q' in rings && q' != q
        ensures Circle(next, prev, q', rings[q'])
      {
        InCircle(next0, prev0, q', old(rings)[q']);
        CircleFrame(next0, prev0, q', old(rings)[q'], next, prev);
      }
    }

    /** list_delete_entry: whatever list the entry is on, it leaves that list intact. */
    method DeleteEntry(t: nat)
      requires Valid() && !Unlinked(rings, t)
      modifies this
      ensures Valid() && rings == Unlink(old(rings), t)
    {
      hide Circle, Unlink;
      ghost var q := FindRing(rings, t);
      ghost var k := IndexOf(rings[q], t);
      ghost var next0, prev0 := next, prev;
      InCircle(next, prev, q, rings[q]);
      Neighbours(next, prev, q, rings[q], k);
      var after, before := next[Task(t)], prev[Task(t)];
      prev := prev[after := before];
      next := next[before := after];
      CircleRemove(next0, prev0, q, rings[q], k, next, prev);
      UnlinkSeparate(rings, t);
      UnlinkOne(rings, q, t);
      assert Without(rings[q], t) == rings[q][..k] + rings[q][k + 1..];
      rings := Unlink(rings, t);
      forall q' | q' in rings && q' != q
        ensures Circle(next, prev, q', rings[q'])
      {
        InCircle(next0, prev0, q', old(rings)[q']);
        CircleFrame(next0, prev0, q', old(rings)[q'], next, prev);
      }
    }

    /** An empty list whose head is given up is not looked at again. */
    ghost method Forget(q: QueueId)
      requires Valid()
      modifies this`rings
      ensures Valid() && rings == old(rings) - {q}
    {
      hide Circle;
      rings := rings - {q};
    }
  }

  lemma EmptyCircle(next: map<Node, Node>, prev: map<Node, Node>, q: QueueId)
    requires Head(q) in next && next[Head(q)] == Head(q) && Head(q) in prev && prev[Head(q)] == Head(q)
    ensures Circle(next, prev, q, [])
  {
  }

  /** All nodes of a circle have both pointers, and their neighbours are on the circle. */
  lemma InCircle(next: map<Node, Node>, prev: map<Node, Node>, q: QueueId, s: seq<nat>)
    requires Circle(next, prev, q, s)
    ensures Head(q) in next && Head(q) in prev
    ensures forall x | x in s :: Task(x) in next && Task(x) in prev
    ensures prev[Head(q)] == Nth(q, s, |s|)
  {
    assert Joined(next, prev, q, s, 0) && Joined(next, prev, q, s, |s|);
    forall x | x in s
      ensures Task(x) in next && Task(x) in prev
    {
      var i := IndexOf(s, x);
      assert Joined(next, prev, q, s, i) && Joined(next, prev, q, s, i + 1);
    }
  }

  lemma Neighbours(next: map<Node, Node>, prev: map<Node, Node>, q: QueueId, s: seq<nat>, k: nat)
    requires Circle(next, prev, q, s) && k < |s|
    ensures Task(s[k]) in next && next[Task(s[k])] == Nth(q, s, k + 2)
    ensures Task(s[k]) in prev && prev[Task(s[k])] == Nth(q, s, k)
  {
    assert Joined(next, prev, q, s, k) && Joined(next, prev, q, s, k + 1);
  }
}
