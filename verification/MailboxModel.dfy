/** The mailboxes of kernel/locking/lock.c: a 64-byte ring with two cursors and two round counters. */
module MailboxModel {
  import opened Arithmetic
  import opened Bytes

  const MAX_MBOX_LENGTH := 64

  /** n bytes of the ring, from the cursor on, step bytes apart. */
  function Gather(ring: seq<Byte>, cursor: nat, step: nat, n: nat): (r: seq<Byte>)
    requires |ring| == MAX_MBOX_LENGTH
    ensures |r| == n
  {
    seq(n, i requires 0 <= i < n => ring[Slot(cursor, step, i)])
  }

  function Slot(cursor: nat, step: nat, i: nat): (s: nat)
    ensures s < MAX_MBOX_LENGTH
  {
    (cursor + step * i) % MAX_MBOX_LENGTH
  }

  /** Fewer than 64 steps do not come round to the same slot. */
  lemma SlotsDiffer(a: nat, b: nat)
    requires a < b < a + MAX_MBOX_LENGTH
    ensures a % MAX_MBOX_LENGTH != b % MAX_MBOX_LENGTH
  {
  }

  /** Reading the first byte moves the cursor on by one. */
  lemma GatherFirst(ring: seq<Byte>, cursor: nat, n: nat)
    requires |ring| == MAX_MBOX_LENGTH && cursor < MAX_MBOX_LENGTH && n > 0
    ensures Gather(ring, cursor, 1, n) == [ring[cursor]] + Gather(ring, (cursor + 1) % MAX_MBOX_LENGTH, 1, n - 1)
  {
    var rest := Gather(ring, (cursor + 1) % MAX_MBOX_LENGTH, 1, n - 1);
    forall i | 1 <= i < n
      ensures Gather(ring, cursor, 1, n)[i] == rest[i - 1]
    {
      assert Slot(cursor, 1, i) == Slot((cursor + 1) % MAX_MBOX_LENGTH, 1, i - 1);
    }
  }

  /** Writing the slot after the last byte lengthens what is read by that byte. */
  lemma PutByte(ring: seq<Byte>, cursor: nat, n: nat, x: Byte)
    requires |ring| == MAX_MBOX_LENGTH && n < MAX_MBOX_LENGTH
    ensures Gather(ring[Slot(cursor, 1, n) := x], cursor, 1, n + 1) == Gather(ring, cursor, 1, n) + [x]
  {
    var ring' := ring[Slot(cursor, 1, n) := x];
    forall i | 0 <= i < n
      ensures Gather(ring', cursor, 1, n + 1)[i] == Gather(ring, cursor, 1, n)[i]
    {
      SlotsDiffer(cursor + i, cursor + n);
    }
  }

  /** Skipping reads on from two slots further. */
  lemma GatherSkip(ring: seq<Byte>, cursor: nat, n: nat)
    requires |ring| == MAX_MBOX_LENGTH
    ensures Gather(ring, cursor, 2, n + 1) == Gather(ring, cursor, 2, n) + [ring[Slot(cursor, 2, n)]]
  {
  }

  lemma GatherNone(ring: seq<Byte>, cursor: nat)
    requires |ring| == MAX_MBOX_LENGTH && cursor < MAX_MBOX_LENGTH
    ensures Gather(ring, cursor, 2, 0) == [] && Slot(cursor, 2, 0) == cursor
  {
  }

  lemma SlotSkip(cursor: nat, i: nat)
    ensures Slot(cursor, 2, i + 1) == (Slot(cursor, 2, i) + 2) % MAX_MBOX_LENGTH
  {
  }

  class Mailbox {
    const buf: array<Byte>
    var nread: nat
    var nwrite: nat
    var roundRead: nat
    var roundWrite: nat
    /** The lengths of the messages that blocked tasks want to send and to receive. */
    var sendList: seq<nat>
    var recvList: seq<nat>

    /** The formula of can_write_to_buffer and can_read_from_buffer. */
    function Written(): int
      reads this
    {
      (roundWrite - roundRead) * MAX_MBOX_LENGTH + (nwrite - nread)
    }

    ghost predicate RingOk()
      reads this
    {
      && buf.Length == MAX_MBOX_LENGTH && nread < MAX_MBOX_LENGTH && nwrite < MAX_MBOX_LENGTH
      && 0 <= Written() <= MAX_MBOX_LENGTH
    }

    /** The bytes sent and not yet received, oldest first. */
    ghost function Contents(): (s: seq<Byte>)
      requires RingOk()
      reads this, buf
      ensures |s| == Written()
    {
      Gather(buf[..], nread, 1, Written())
    }

    /** Nobody is blocked whose message would fit, or whose bytes have arrived. */
    ghost predicate Valid()
      reads this
    {
      && RingOk()
      && (forall n | n in sendList :: n + Written() > MAX_MBOX_LENGTH)
      && (forall n | n in recvList :: n > Written())
    }

    /** init_mbox */
    constructor ()
      ensures Valid() && fresh(buf) && Contents() == [] && sendList == [] && recvList == []
    {
      buf := new Byte[MAX_MBOX_LENGTH](_ => 0);
      nread, nwrite, roundRead, roundWrite := 0, 0, 0, 0;
      sendList, recvList := [], [];
    }

    /** One byte into the ring. */
    method Put(x: Byte)
      requires RingOk() && Written() < MAX_MBOX_LENGTH
      modifies this`nwrite, this`roundWrite, buf
      ensures RingOk() && Contents() == old(Contents()) + [x]
    {
      hide Gather;
      ghost var w, ring := Written(), buf[..];
      buf[nwrite] := x;
      nwrite := nwrite + 1;
      if nwrite >= MAX_MBOX_LENGTH {
        nwrite := nwrite % MAX_MBOX_LENGTH;
        roundWrite := roundWrite + 1;
      }
      PutByte(ring, nread, w, x);
      assert buf[..] == ring[Slot(nread, 1, w) := x];
    }

    /** One byte out of the ring, with the one increment that the send side has. */
    method Take() returns (x: Byte)
      requires RingOk() && Written() > 0
      modifies this`nread, this`roundRead
      ensures RingOk() && old(Contents()) == [x] + Contents()
    {
      hide Gather;
      GatherFirst(buf[..], nread, Written());
      x := buf[nread];
      nread := nread + 1;
      if nread >= MAX_MBOX_LENGTH {
        nread := nread % MAX_MBOX_LENGTH;
        roundRead := roundRead + 1;
      }
    }

    /** do_mbox_send once it owns the mutex: the message goes in whole, or the task blocks (and tries again when woken). */
    method TrySend(msg: seq<Byte>) returns (sent: bool)
      requires Valid()
      modifies this, buf
      ensures Valid() && (sent <==> |msg| + |old(Contents())| <= MAX_MBOX_LENGTH)
      ensures Contents() == if sent then old(Contents()) + msg else old(Contents())
      ensures sent ==> sendList == old(sendList) && recvList == []
      ensures !sent ==> sendList == old(sendList) + [|msg|] && recvList == old(recvList)
    {
      sent := |msg| + Written() <= MAX_MBOX_LENGTH;
      if !sent {
        sendList := sendList + [|msg|];
        return;
      }
      var i := 0;
      while i < |msg|
        invariant RingOk() && 0 <= i <= |msg| && Contents() == old(Contents()) + msg[..i]
        invariant sendList == old(sendList) && recvList == old(recvList)
      {
        Put(msg[i]);
        assert msg[..i + 1] == msg[..i] + [msg[i]];
        i := i + 1;
      }
      recvList := [];
    }

    /** do_mbox_recv once it owns the mutex: the oldest n bytes, or the task blocks. */
    method TryRecv(n: nat) returns (msg: seq<Byte>, got: bool)
      requires Valid()
      modifies this
      ensures Valid() && (got <==> n <= |old(Contents())|)
      ensures got ==> msg == old(Contents())[..n] && Contents() == old(Contents())[n..]
      ensures !got ==> msg == [] && Contents() == old(Contents())
      ensures got ==> recvList == old(recvList) && sendList == []
      ensures !got ==> recvList == old(recvList) + [n] && sendList == old(sendList)
    {
      hide Gather;
      msg := [];
      got := Written() >= n;
      if !got {
        recvList := recvList + [n];
        return;
      }
      hide RingOk;
      ghost var was := Contents();
      var i := 0;
      while i < n
        invariant RingOk() && 0 <= i <= n <= |was| && |msg| == i && was == msg + Contents()
        invariant sendList == old(sendList) && recvList == old(recvList)
      {
        ghost var before := Contents();
        var x := Take();
        assert msg + before == (msg + [x]) + Contents();
        msg := msg + [x];
        i := i + 1;
      }
      assert was[..n] == msg && was[n..] == Contents();
      sendList := [];
    }

    /** The copy loop of do_mbox_recv as it stands, with its two increments. */
    method TakeAsWritten(n: nat) returns (msg: seq<Byte>)
      requires RingOk()
      modifies this`nread, this`roundRead
      ensures msg == Gather(buf[..], old(nread), 2, n) && nread == Slot(old(nread), 2, n)
      ensures Written() == old(Written()) - 2 * n
    {
      hide Gather, Slot;
      GatherNone(buf[..], nread);
      msg := [];
      var i := 0;
      while i < n
        invariant i <= n && nread < MAX_MBOX_LENGTH && Written() == old(Written()) - 2 * i
        invariant nread == Slot(old(nread), 2, i) && msg == Gather(buf[..], old(nread), 2, i)
      {
        GatherSkip(buf[..], old(nread), i);
        SlotSkip(old(nread), i);
        var at := nread;
        nread := nread + 1;
        msg := msg + [buf[at]];
        nread := nread + 1;
        if nread >= MAX_MBOX_LENGTH {
          nread := nread % MAX_MBOX_LENGTH;
          roundRead := roundRead + 1;
        }
        i := i + 1;
      }
    }
  }

  /**
   What TryRecv promises of a receive of n bytes, for a loop that reads at the given step: the oldest
   bytes come out and exactly the others stay outstanding.
   */
  ghost predicate ReceivesAsPromised(ring: seq<Byte>, cursor: nat, written: nat, n: nat, step: nat)
    requires |ring| == MAX_MBOX_LENGTH && n <= written
  {
    var contents, left := Gather(ring, cursor, 1, written), written - step * n;
    && Gather(ring, cursor, step, n) == contents[..n]
    && left >= 0 && Gather(ring, Slot(cursor, step, n), 1, left) == contents[n..]
  }

  /** do_mbox_recv as it stands keeps the promise only when nothing is received; with one increment it always does. */
  lemma RecvAsWrittenRight(ring: seq<Byte>, cursor: nat, written: nat, n: nat)
    requires |ring| == MAX_MBOX_LENGTH && n <= written <= MAX_MBOX_LENGTH
    ensures ReceivesAsPromised(ring, cursor, written, n, 2) <==> n == 0
    ensures ReceivesAsPromised(ring, cursor, written, n, 1)
  {
    var contents := Gather(ring, cursor, 1, written);
    var rest := Gather(ring, Slot(cursor, 1, n), 1, written - n);
    forall j | n <= j < written
      ensures contents[j] == rest[j - n]
    {
      SlotOfSlot(cursor, n, j - n);
    }
    assert rest == contents[n..];
    assert Gather(ring, cursor, 1, n) == contents[..n];
    if n == 0 {
      assert Slot(cursor, 2, 0) == Slot(cursor, 1, 0);
    }
  }

  lemma SlotOfSlot(cursor: nat, n: nat, i: nat)
    ensures Slot(Slot(cursor, 1, n), 1, i) == Slot(cursor, 1, n + i)
  {
    var q, r := (cursor + n) / MAX_MBOX_LENGTH, (cursor + n) % MAX_MBOX_LENGTH;
    DivUnique(cursor + n + i, MAX_MBOX_LENGTH, q + (r + i) / MAX_MBOX_LENGTH, (r + i) % MAX_MBOX_LENGTH);
  }

  /** One byte is sent and received as the code stands: the cursors then claim -1 outstanding bytes, and 65 more seem to fit. */
  method OneByteAsWritten(x: Byte) returns (box: Mailbox, msg: seq<Byte>)
    ensures fresh(box) && msg == [x] && box.Written() == -1 && !box.RingOk()
    ensures 65 + box.Written() <= MAX_MBOX_LENGTH
  {
    box := new Mailbox();
    var sent := box.TrySend([x]);
    assert box.Contents() == [x];
    msg := box.TakeAsWritten(1);
  }

  /** The bytes alone, of one call: every second byte is what was asked for exactly for messages of one byte or none. */
  lemma DoubleIncrement(cursor: nat, n: nat)
    ensures (forall ring: seq<Byte> | |ring| == MAX_MBOX_LENGTH :: Gather(ring, cursor, 2, n) == Gather(ring, cursor, 1, n))
            <==> n <= 1
  {
    if n >= 2 {
      var one := Slot(cursor, 1, 1);
      var ring: seq<Byte> := seq(MAX_MBOX_LENGTH, i => if i == one then 1 else 0);
      assert Slot(cursor, 2, 1) != one;
      assert Gather(ring, cursor, 1, n)[1] != Gather(ring, cursor, 2, n)[1];
    } else {
      forall ring: seq<Byte> | |ring| == MAX_MBOX_LENGTH
        ensures Gather(ring, cursor, 2, n) == Gather(ring, cursor, 1, n)
      {
      }
    }
  }

  // ---------------------------------------------------------------- any interleaving of senders and receivers

  datatype Request = Send(msg: seq<Byte>) | Recv(n: nat)

  /** The bounded FIFO that a mailbox implements; sent and received are everything ever sent and received. */
  datatype Stream = Stream(sent: seq<Byte>, received: seq<Byte>)

  ghost predicate StreamOk(s: Stream) {
    |s.received| <= |s.sent| && s.received == s.sent[..|s.received|] && |s.sent| - |s.received| <= MAX_MBOX_LENGTH
  }

  function Outstanding(s: Stream): seq<Byte>
    requires |s.received| <= |s.sent|
  {
    s.sent[|s.received|..]
  }

  /** A request is served whole or not at all. */
  function Serve(s: Stream, r: Request): (s': Stream)
    requires StreamOk(s)
    ensures StreamOk(s')
  {
    match r
    case Send(msg) =>
      if |msg| + |Outstanding(s)| <= MAX_MBOX_LENGTH then
        assert (s.sent + msg)[..|s.received|] == s.received;
        s.(sent := s.sent + msg) else s
    case Recv(n) =>
      if n <= |Outstanding(s)| then
        assert s.received + Outstanding(s)[..n] == s.sent[..|s.received| + n];
        s.(received := s.received + Outstanding(s)[..n]) else s
  }

  function ServeAll(s: Stream, rs: seq<Request>): (s': Stream)
    requires StreamOk(s)
    ensures StreamOk(s')
    decreases |rs|
  {
    if rs == [] then s else ServeAll(Serve(s, rs[0]), rs[1..])
  }

  /** The messages that were served, in the order in which they were. */
  function Accepted(s: Stream, rs: seq<Request>): seq<seq<Byte>>
    requires StreamOk(s)
    decreases |rs|
  {
    if rs == [] then []
    else (if rs[0].Send? && Serve(s, rs[0]) != s then [rs[0].msg] else []) + Accepted(Serve(s, rs[0]), rs[1..])
  }

  function Concat(ms: seq<seq<Byte>>): seq<Byte> {
    if ms == [] then [] else ms[0] + Concat(ms[1..])
  }

  /** Messages are contiguous: the sent stream is the accepted messages one after the other. */
  lemma {:induction false} MessagesContiguous(s: Stream, rs: seq<Request>)
    requires StreamOk(s)
    ensures ServeAll(s, rs).sent == s.sent + Concat(Accepted(s, rs))
    decreases |rs|
  {
    if rs != [] {
      var s1 := Serve(s, rs[0]);
      MessagesContiguous(s1, rs[1..]);
      var rest := Accepted(s1, rs[1..]);
      if rs[0].Send? && s1 != s {
        assert ([rs[0].msg] + rest)[1..] == rest;
      } else {
        assert [] + rest == rest;
      }
    }
  }

  /** Every run of requests on a mailbox does what the FIFO does: what was received is a prefix of what was sent. */
  method Exchange(box: Mailbox, rs: seq<Request>, ghost start: Stream) returns (received: seq<Byte>)
    requires box.Valid() && StreamOk(start) && box.Contents() == Outstanding(start)
    modifies box, box.buf
    ensures box.Valid() && box.Contents() == Outstanding(ServeAll(start, rs))
    ensures ServeAll(start, rs).received == start.received + received
    ensures box.Written() == |ServeAll(start, rs).sent| - |ServeAll(start, rs).received|
  {
    hide Gather, Serve, ServeAll, StreamOk;
    received := [];
    var i := 0;
    ghost var s := start;
    assert rs[0..] == rs;
    StreamBounds(s);
    while i < |rs|
      invariant i <= |rs| && |s.received| <= |s.sent| && box.Valid() && StreamOk(s) && box.Contents() == Outstanding(s)
      invariant ServeAll(s, rs[i..]) == ServeAll(start, rs) && s.received == start.received + received
    {
      ServeAllStep(s, rs, i);
      ghost var was := box.Contents();
      match rs[i] {
        case Send(msg) =>
          var _ := box.TrySend(msg);
        case Recv(n) =>
          var msg, got := box.TryRecv(n);
          if got {
            received := received + msg;
          }
      }
      ServeContents(s, rs[i]);
      s := Serve(s, rs[i]);
      StreamBounds(s);
      i := i + 1;
    }
    ServeNone(s, rs);
  }

  lemma StreamBounds(s: Stream)
    requires StreamOk(s)
    ensures |s.received| <= |s.sent|
  {
  }

  lemma ServeAllStep(s: Stream, rs: seq<Request>, i: nat)
    requires StreamOk(s) && i < |rs|
    ensures ServeAll(s, rs[i..]) == ServeAll(Serve(s, rs[i]), rs[i + 1..])
  {
    assert rs[i..][0] == rs[i] && rs[i..][1..] == rs[i + 1..];
  }

  lemma ServeNone(s: Stream, rs: seq<Request>)
    requires StreamOk(s)
    ensures ServeAll(s, rs[|rs|..]) == s
  {
  }

  lemma ServeContents(s: Stream, r: Request)
    requires StreamOk(s)
    ensures |s.received| <= |s.sent| && |Serve(s, r).received| <= |Serve(s, r).sent|
    ensures var s', q := Serve(s, r), Outstanding(s);
            && (r.Send? ==> s'.received == s.received
                            && Outstanding(s') == if |r.msg| + |q| <= MAX_MBOX_LENGTH then q + r.msg else q)
            && (r.Recv? ==> if r.n <= |q| then Outstanding(s') == q[r.n..] && s'.received == s.received + q[..r.n]
                            else s' == s)
  {
  }
}
