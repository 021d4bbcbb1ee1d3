/** The process table updated in place: list insertion and removal, lookup, the scheduler's loop and the sleep queue,
    each proved against the functions of module Processes. */
module ProcessTables {
  import opened Common
  import opened Processes
  import opened Kernels

  lemma NoneWoken(ps: seq<Pcb>)
    ensures Woken(ps, []) == ps
  {}

  lemma EnqueuedKeepsLinked(ps: seq<Pcb>, q: seq<int>, p: int, first: int, order: seq<int>)
    requires 0 <= p < |ps| && Indices(q, |ps|) && Linked(ps, first, order)
    ensures Linked(Enqueued(ps, q, p), first, order)
  {
    hide Linked;
    LinkedCarries(ps, Enqueued(ps, q, p), first, order);
  }

  /** The next block to wake is as it was. */
  lemma UnwokenLink(ps: seq<Pcb>, waitFirst: int, q: seq<int>, k: nat)
    requires Queued(ps, waitFirst, q) && k < |q|
    ensures Indices(q[..k], |ps|) && Indices(q[..k + 1], |ps|)
    ensures 0 <= q[k] < |ps| && q[k] !in q[..k] && ps[q[k]].waitNext == After(q, k)
    ensures k + 1 < |q| ==> q[k + 1] >= 0
  {}

  lemma WakeOneMore(ps: seq<Pcb>, front: seq<int>, p: int)
    requires Indices(front, |ps|) && Indices(front + [p], |ps|) && 0 <= p < |ps| && p !in front
    ensures Woken(ps, front)[p] == ps[p]
    ensures Woken(ps, front + [p]) == Woken(ps, front)[p := ps[p].(status := Ready, waitNext := NIL)]
  {
    assert forall i :: i in front + [p] <==> i in front || i == p;
  }

  /** Waking it is one more step of the whole. */
  lemma WakeNext(ps: seq<Pcb>, q: seq<int>, k: nat)
    requires k < |q| && Indices(q[..k], |ps|) && Indices(q[..k + 1], |ps|) && 0 <= q[k] < |ps| && q[k] !in q[..k]
    ensures Woken(ps, q[..k])[q[k]] == ps[q[k]]
    ensures Woken(ps, q[..k + 1]) == Woken(ps, q[..k])[q[k] := ps[q[k]].(status := Ready, waitNext := NIL)]
  {
    var front, p := q[..k], q[k];
    assert q[..k + 1] == front + [p];
    WakeOneMore(ps, front, p);
  }

  class ProcessTable {
    const procs: array<Pcb>

    var first: int
    var availPid: nat
    var current: int
    var waitFirst: int
    ghost var order: seq<int>
    ghost var queue: seq<int>

    /** The zeroed static table: no process, nobody asleep. */
    constructor ()
      ensures fresh(procs) && procs.Length == MAX_PROCS && (forall i :: 0 <= i < MAX_PROCS ==> procs[i] == BLANK)
      ensures first == NIL && order == [] && waitFirst == NIL && queue == [] && availPid == 0
      ensures ListOk() && QueueOk()
    {
      procs := new Pcb[MAX_PROCS](_ => BLANK);
      first, availPid, current, waitFirst := NIL, 0, NIL, NIL;
      order, queue := [], [];
    }

    /** The list is well formed. */
    ghost predicate ListOk()
      reads this, procs
    {
      Linked(procs[..], first, order)
    }

    ghost predicate QueueOk()
      reads this, procs
    {
      Queued(procs[..], waitFirst, queue)
    }

    /** The block p of the list at position k, or the end of the list. */
    ghost predicate At(p: int, k: int)
      reads this
    {
      0 <= k <= |order| && if k < |order| then p == order[k] && p >= 0 else p == NIL
    }

    lemma Follow(p: int, k: int)
      requires ListOk() && At(p, k) && p != NIL
      ensures 0 <= p < procs.Length && At(procs[p].next, k + 1)
    {
      assert procs[..][order[k]].next == After(order, k);
    }

    lemma InTable()
      requires ListOk()
      ensures Indices(order, procs.Length) && At(first, 0)
    {}

    lemma PositionIs(k: int)
      requires ListOk() && 0 <= k < |order|
      ensures Position(order, order[k]) == k
      ensures 0 <= order[k] < procs.Length
      ensures order[k] == first <==> k == 0
      ensures first == order[0]
    {}

    lemma SamePosition(j: int, k: int)
      requires ListOk() && 0 <= j < |order| && 0 <= k < |order|
      ensures order[j] == order[k] <==> j == k
    {}

    /** process_lookup: the first block of the list with this pid, or NULL. */
    method Lookup(pid: int) returns (p: int)
      requires ListOk()
      ensures match FindFrom(order, HasPid(procs[..], pid), 0)
              case None => p == NIL
              case Some(k) => p == order[k]
      ensures if p == NIL then forall j :: 0 <= j < |order| && 0 <= order[j] < procs.Length ==>
                procs[order[j]].pid != pid
              else p in order && 0 <= p < procs.Length && procs[p].pid == pid
    {
      hide Linked, FindFrom;
      p := first;
      ghost var k := 0;
      InTable();
      while p != NIL
        invariant At(p, k)
        invariant forall j :: 0 <= j < k ==> !HasPid(procs[..], pid)(order[j])
        decreases |order| - k
      {
        if procs[p].pid == pid {
          assert HasPid(procs[..], pid)(order[k]);
          return;
        }
        Follow(p, k);
        p, k := procs[p].next, k + 1;
      }
    }

    /** process_lookup_child: the first block of the list whose parent is the caller and that is not the caller
        itself, or NULL. */
    method LookupChild(caller: int) returns (p: int)
      requires ListOk()
      ensures match FindFrom(order, IsChild(procs[..], caller), 0)
              case None => p == NIL
              case Some(k) => p == order[k]
      ensures if p == NIL then
                forall j :: 0 <= j < |order| && 0 <= order[j] < procs.Length && order[j] != caller ==>
                  procs[order[j]].parent != caller
              else p in order && 0 <= p < procs.Length && p != caller && procs[p].parent == caller
    {
      hide Linked, FindFrom;
      p := first;
      ghost var k := 0;
      InTable();
      while p != NIL
        invariant At(p, k)
        invariant forall j :: 0 <= j < k ==> !IsChild(procs[..], caller)(order[j])
        decreases |order| - k
      {
        if p != caller && procs[p].parent == caller {
          assert IsChild(procs[..], caller)(order[k]);
          return;
        }
        Follow(p, k);
        p, k := procs[p].next, k + 1;
      }
    }

    /** process_insert appends a block that is not on the list. */
    method Insert(p: int)
      requires ListOk() && 0 <= p < procs.Length && p !in order
      modifies this`first, this`order, procs
      ensures procs[..] == Inserted(old(procs[..]), old(order), p)
      ensures order == old(order) + [p] && first == if old(order) == [] then p else old(first)
      ensures ListOk()
    {
      InsertKeepsLinked(procs[..], first, order, p);
      if first == NIL {
        first := p;
        procs[p] := procs[p].(next := NIL, prev := NIL);
        order := order + [p];
        return;
      }
      var last := first;
      ghost var k := 0;
      Follow(last, 0);
      while procs[last].next != NIL
        modifies {}
        invariant At(last, k) && k < |order| && 0 <= last < procs.Length
        decreases |order| - k
      {
        Follow(last, k);
        last, k := procs[last].next, k + 1;
        Follow(last, k);
      }
      Follow(last, k);
      assert last == Last(order);
      procs[last] := procs[last].(next := p);
      procs[p] := procs[p].(next := NIL, prev := last);
      order := order + [p];
    }

    /** The pointer updates of process_remove. */
    method Unlink(p: int, ghost k: nat)
      requires ListOk() && 1 <= k < |order| && p == order[k] && 0 <= p < procs.Length
      modifies procs
      ensures procs[..] == Unlinked(old(procs[..]), order, k)
    {
      assert procs[p].prev == Before(order, k) && procs[p].next == After(order, k);
      assert 0 <= order[k - 1] < procs.Length;
      var before, after := procs[p].prev, procs[p].next;
      procs[before] := procs[before].(next := after);
      if after != NIL {
        assert after == order[k + 1];
        procs[after] := procs[after].(prev := before);
      }
    }

    /** process_remove joins the neighbours of a block that is not the first; a block off the list changes nothing.
        Removing the first block only moves the head of the list. An empty list is an error. */
    method Remove(p: int) returns (r: int)
      requires ListOk() && 0 <= p < procs.Length
      modifies this`first, this`order, procs
      ensures r == if old(order) == [] then -1 else 0
      ensures old(order) != [] && p == old(order)[0] ==>
                procs[..] == old(procs[..]) && first == old(procs[p].next) && order == old(order)[1..]
      ensures p !in old(order) ==> procs[..] == old(procs[..]) && first == old(first) && order == old(order)
      ensures p in old(order) && p != old(order)[0] ==>
                var k := Position(old(order), p);
                && 1 <= k && procs[..] == Unlinked(old(procs[..]), old(order), k)
                && first == old(first) && order == Without(old(order), k) && ListOk()
    {
      hide Linked, Unlinked, Without, Distinct;
      ghost var was := procs[..];
      InTable();
      if first == NIL {
        return -1;
      }
      PositionIs(0);
      if p in order {
        PositionIs(Position(order, p));
      }
      if first == p {
        first := procs[p].next;
        order := order[1..];
        return 0;
      }
      var cur := first;
      ghost var k := 0;
      while cur != NIL
        modifies {}
        invariant At(cur, k)
        invariant forall j :: 0 <= j < k ==> order[j] != p
        decreases |order| - k
      {
        Follow(cur, k);
        if cur == p { break; }
        cur, k := procs[cur].next, k + 1;
      }
      if cur != NIL {
        PositionIs(k);
        assert procs[..] == was;
        RemoveKeepsLinked(procs[..], first, order, k);
        Unlink(p, k);
        order := Without(order, k);
      }
      r := 0;
    }

    /** process_create: the first block that is not valid, cleared and put at the end of the list. */
    method Create() returns (c: int)
      requires ListOk() && forall i :: 0 <= i < procs.Length && !procs[i].valid ==> i !in order
      modifies this`first, this`order, this`availPid, procs
      ensures match FreeBlock(old(procs[..]))
              case None =>
                c == NIL && procs[..] == old(procs[..]) && order == old(order) && first == old(first)
                  && availPid == old(availPid)
              case Some(i) =>
                && c == i && availPid == old(availPid) + 1 && order == old(order) + [c]
                && procs[..] == Inserted(old(procs[..])[c := NewPcb(old(availPid))], old(order), c)
                && first == if old(order) == [] then c else old(first)
      ensures c != NIL ==>
                && 0 <= c < procs.Length && procs[c].valid && procs[c].status == Sleeping
                  && procs[c].pid == old(availPid)
                && procs[c].stack == 0 && procs[c].text == 0 && procs[c].parent == NIL && procs[c].waitNext == NIL
                && procs[c].files == [-1, -1, -1, -1, -1, -1, -1, -1]
      ensures ListOk()
    {
      c := NIL;
      var i := 0;
      while i < procs.Length
        modifies {}
        invariant 0 <= i <= procs.Length
        invariant forall j :: 0 <= j < i ==> procs[..][j].valid
      {
        if !procs[i].valid {
          c := i;
          break;
        }
        i := i + 1;
      }
      if c == NIL { return; }
      PutKeepsLinked(procs[..], first, order, c, NewPcb(availPid));
      procs[c] := NewPcb(availPid);
      assert procs[..] == old(procs[..])[c := NewPcb(availPid)];
      availPid := availPid + 1;
      Insert(c);
    }

    /** schedule(): the loop over the list switches to the block that `Picked` names, and changes nothing else. */
    method Schedule()
      requires ListOk() && order != [] && current in order
      modifies this`current
      ensures current == Picked(procs[..], order, old(current))
    {
      hide Linked, Distinct, Position, Scan, Steps, FindFrom;
      InTable();
      ghost var k := Position(order, current);
      ghost var ready := ReadyFlags(procs[..], order);
      ghost var goal := Choose(ready, k);
      PositionIs(k);
      var orig, p := current, current;
      Follow(p, k);
      PositionIs(0);
      if p == first {
        if procs[p].next == NIL { return; }
        p, k := procs[p].next, 1;
        orig := p;
      }
      ghost var start := k;
      while true
        modifies {}
        invariant 1 <= k < |order| && 1 <= start < |order| && p == order[k] && orig == order[start]
        invariant Scan(ready, start, k) == goal
        decreases Steps(|order| - 1, k, start)
      {
        Follow(p, k);
        Follow(first, 0);
        ScanStep(ready, start, k);
        p := procs[p].next;
        k := if k + 1 < |order| then k + 1 else 1;
        if p == NIL {
          p := procs[first].next;
          if p == NIL {
            p := first;
            break;
          }
        }
        SamePosition(k, start);
        if procs[p].status == Ready { break; }
        if p == orig {
          p := first;
          break;
        }
      }
      assert p == order[goal];
      if p != current {
        current := p;
      }
    }

    /** Where the walk along the queue stands: at its k-th block, or past its end. */
    ghost predicate QueuedAt(p: int, k: int)
      reads this
    {
      0 <= k <= |queue| && if k < |queue| then p == queue[k] && p >= 0 else p == NIL
    }

    lemma FollowQueue(p: int, k: int)
      requires QueueOk() && QueuedAt(p, k) && p != NIL
      ensures 0 <= p < procs.Length && QueuedAt(procs[p].waitNext, k + 1)
    {
      assert procs[..][queue[k]].waitNext == After(queue, k);
    }

    lemma InQueue()
      requires QueueOk()
      ensures Indices(queue, procs.Length) && Distinct(queue) && QueuedAt(waitFirst, 0)
    {}

    /** The walk of wait_queue_add: to the block itself if it is queued, else to the last one. */
    method FindQueued(p: int) returns (next: int)
      requires QueueOk() && queue != [] && p >= 0
      ensures if p in queue then next == p else next == Last(queue)
      ensures 0 <= next < procs.Length
    {
      hide Queued, Distinct;
      InQueue();
      next := waitFirst;
      ghost var k := 0;
      FollowQueue(next, 0);
      while next != p && procs[next].waitNext != NIL
        invariant QueuedAt(next, k) && k < |queue| && 0 <= next < procs.Length
        invariant forall j :: 0 <= j < k ==> queue[j] != p
        decreases |queue| - k
      {
        FollowQueue(next, k);
        next, k := procs[next].waitNext, k + 1;
        FollowQueue(next, k);
      }
      FollowQueue(next, k);
    }

    /** The links and the sleep of wait_queue_add; a block already on the queue is only put to sleep. */
    method Enqueue(p: int)
      requires QueueOk() && 0 <= p < procs.Length
      modifies this`waitFirst, this`queue, procs
      ensures procs[..] == Enqueued(old(procs[..]), old(queue), p)
      ensures queue == QueueWith(old(queue), p) && waitFirst == (if old(queue) == [] then p else old(waitFirst))
      ensures QueueOk()
    {
      hide Queued, Distinct;
      InQueue();
      EnqueueKeepsQueued(procs[..], waitFirst, queue, p);
      if waitFirst == NIL {
        waitFirst := p;
      } else {
        var next := FindQueued(p);
        if next != p {
          procs[next] := procs[next].(waitNext := p);
        }
      }
      procs[p] := procs[p].(status := Sleeping);
      queue := QueueWith(queue, p);
      assert procs[..] == Enqueued(old(procs[..]), old(queue), p);
    }

    /** wait_queue_add: the block sleeps on the queue, and another process runs. */
    method WaitQueueAdd(p: int)
      requires ListOk() && QueueOk() && order != [] && current in order && 0 <= p < procs.Length
      modifies this`waitFirst, this`queue, this`current, procs
      ensures procs[..] == Enqueued(old(procs[..]), old(queue), p)
      ensures queue == QueueWith(old(queue), p) && waitFirst == (if old(queue) == [] then p else old(waitFirst))
      ensures current == Picked(procs[..], order, old(current))
      ensures QueueOk() && ListOk()
    {
      hide Queued, Linked;
      InTable();
      InQueue();
      ghost var was, q := procs[..], queue;
      Enqueue(p);
      EnqueuedKeepsLinked(was, q, p, first, order);
      Schedule();
    }

    /** wait_queue_wake: everything on the queue becomes ready, and the queue is empty. */
    method WaitQueueWake()
      requires QueueOk()
      modifies this`waitFirst, this`queue, procs
      ensures procs[..] == Woken(old(procs[..]), old(queue))
      ensures waitFirst == NIL && queue == [] && QueueOk()
    {
      hide Queued, Woken;
      InQueue();
      WakeKeepsQueued(procs[..], waitFirst, queue);
      ghost var was := procs[..];
      var p := waitFirst;
      ghost var k := 0;
      NoneWoken(was);
      while p != NIL
        invariant QueuedAt(p, k) && queue == old(queue)
        invariant procs[..] == Woken(was, queue[..k])
        decreases |queue| - k
      {
        UnwokenLink(was, old(waitFirst), queue, k);
        WakeNext(was, queue, k);
        procs[p] := procs[p].(status := Ready);
        var next := procs[p].waitNext;
        procs[p] := procs[p].(waitNext := NIL);
        assert procs[..] == Woken(was, queue[..k])[p := was[p].(status := Ready, waitNext := NIL)];
        p, k := next, k + 1;
      }
      assert queue[..k] == queue;
      waitFirst := NIL;
      queue := [];
    }
  }
}
