/** Process control blocks and the three structures threaded through them:
    the process list, the scheduler's search of it, and the sleep queue.
    The C code keeps all blocks in one static table, so a pointer to a block is an index into that table. */
module Processes {
  const NIL := -1
  const MAX_PROCS := 16
  const MAX_FD_PER_PROC := 8

  datatype Status = Sleeping | Ready | Exited

  datatype Pcb = Pcb(
    next: int, prev: int, waitNext: int,
    valid: bool, status: Status, pid: nat, exitValue: int, parent: int,
    stack: nat, stackSize: nat, text: nat, textSize: nat,
    files: seq<int>)

  const NO_FILES: seq<int> := [NIL, NIL, NIL, NIL, NIL, NIL, NIL, NIL]

  /** A block as process_create leaves it before inserting it into the list. */
  function NewPcb(pid: nat): Pcb {
    Pcb(NIL, NIL, NIL, true, Sleeping, pid, 0, NIL, 0, 0, 0, 0, NO_FILES)
  }

  /** A block of the zeroed static table. */
  const BLANK := Pcb(NIL, NIL, NIL, false, Sleeping, 0, 0, NIL, 0, 0, 0, 0, NO_FILES)

  function Last(order: seq<int>): int
    requires order != []
  {
    order[|order| - 1]
  }

  ghost predicate Distinct(s: seq<int>) {
    forall j, k :: 0 <= j < k < |s| ==> s[j] != s[k]
  }

  ghost predicate Indices(s: seq<int>, n: nat) {
    forall k :: 0 <= k < |s| ==> 0 <= s[k] < n
  }

  /** The element after position k, or NIL. */
  function After(s: seq<int>, k: int): int
    requires 0 <= k < |s|
  {
    if k + 1 < |s| then s[k + 1] else NIL
  }

  /** The element before position k, or NIL. */
  function Before(s: seq<int>, k: int): int
    requires 0 <= k < |s|
  {
    if k > 0 then s[k - 1] else NIL
  }

  // ---------------------------------------------------------------- the process list

  /** The list that starts at `first` visits exactly `order`, forwards and backwards. */
  ghost predicate Linked(ps: seq<Pcb>, first: int, order: seq<int>) {
    && Indices(order, |ps|)
    && Distinct(order)
    && first == (if order == [] then NIL else order[0])
    && (forall k {:trigger ps[order[k]].next} :: 0 <= k < |order| ==> ps[order[k]].next == After(order, k))
    && (forall k {:trigger ps[order[k]].prev} :: 0 <= k < |order| ==> ps[order[k]].prev == Before(order, k))
  }

  /** The list holds exactly the valid blocks, in strictly increasing pid order, all pids below the next one to give
      out. */
  ghost predicate Listed(ps: seq<Pcb>, first: int, order: seq<int>, availPid: nat) {
    && Linked(ps, first, order)
    && (forall i :: 0 <= i < |ps| ==> (ps[i].valid <==> i in order))
    && (forall j, k :: 0 <= j < k < |order| ==> ps[order[j]].pid < ps[order[k]].pid)
    && (forall k :: 0 <= k < |order| ==> ps[order[k]].pid < availPid)
  }

  /** process_insert: link p after the last block. */
  function Inserted(ps: seq<Pcb>, order: seq<int>, p: int): (r: seq<Pcb>)
    requires 0 <= p < |ps|
    requires order != [] ==> 0 <= Last(order) < |ps|
    ensures |r| == |ps|
  {
    if order == [] then ps[p := ps[p].(next := NIL, prev := NIL)]
    else
      var l := Last(order);
      var linked := ps[l := ps[l].(next := p)];
      linked[p := linked[p].(next := NIL, prev := l)]
  }

  /** process_remove for the k-th block of the list, not the first: its neighbours are joined. */
  function Unlinked(ps: seq<Pcb>, order: seq<int>, k: nat): (r: seq<Pcb>)
    requires Indices(order, |ps|) && 1 <= k < |order|
    ensures |r| == |ps|
  {
    var before := order[k - 1];
    if k + 1 == |order| then ps[before := ps[before].(next := NIL)]
    else
      var after := order[k + 1];
      var joined := ps[before := ps[before].(next := after)];
      joined[after := joined[after].(prev := before)]
  }

  /** The list without its k-th block. */
  function Without(order: seq<int>, k: nat): seq<int>
    requires k < |order|
  {
    order[..k] + order[k + 1..]
  }

  lemma InsertKeepsLinked(ps: seq<Pcb>, first: int, order: seq<int>, p: int)
    requires Linked(ps, first, order) && 0 <= p < |ps| && p !in order
    ensures Linked(Inserted(ps, order, p), if order == [] then p else first, order + [p])
  {
    var r, after := order + [p], Inserted(ps, order, p);
    forall k | 0 <= k < |r| ensures after[r[k]].next == After(r, k) && after[r[k]].prev == Before(r, k) {
      if k < |order| {
        var i := order[k];
        assert ps[i].next == After(order, k) && ps[i].prev == Before(order, k);
        assert after[i].prev == ps[i].prev;
        assert after[i].next == if k + 1 == |order| then p else ps[i].next;
      }
    }
  }

  lemma WithoutAt(order: seq<int>, k: nat)
    requires k < |order|
    ensures |Without(order, k)| == |order| - 1
    ensures forall j :: 0 <= j < |order| - 1 ==> Without(order, k)[j] == order[if j < k then j else j + 1]
  {}

  /** The links of the k-th block's neighbours after the removal; every other link is as before. */
  lemma UnlinkedAt(ps: seq<Pcb>, order: seq<int>, k: nat, i: nat)
    requires Indices(order, |ps|) && Distinct(order) && 1 <= k < |order| && i < |order| && i != k
    ensures var after := Unlinked(ps, order, k);
            && |after| == |ps|
            && after[order[i]].next == (if i + 1 == k then After(order, k) else ps[order[i]].next)
            && after[order[i]].prev == (if i == k + 1 then order[k - 1] else ps[order[i]].prev)
  {}

  ghost predicate LinksAt(ps: seq<Pcb>, order: seq<int>, j: int) {
    0 <= j < |order| && 0 <= order[j] < |ps|
    && ps[order[j]].next == After(order, j) && ps[order[j]].prev == Before(order, j)
  }

  /** The links of the j-th remaining block. */
  lemma RemainingLinks(ps: seq<Pcb>, first: int, order: seq<int>, k: nat, j: nat)
    requires Linked(ps, first, order) && 1 <= k < |order| && j < |order| - 1
    ensures LinksAt(Unlinked(ps, order, k), Without(order, k), j)
  {
    hide Unlinked, Without;
    WithoutAt(order, k);
    var i := if j < k then j else j + 1;
    assert ps[order[i]].next == After(order, i) && ps[order[i]].prev == Before(order, i);
    UnlinkedAt(ps, order, k, i);
  }

  lemma RemoveKeepsLinked(ps: seq<Pcb>, first: int, order: seq<int>, k: nat)
    requires Linked(ps, first, order) && 1 <= k < |order|
    ensures Linked(Unlinked(ps, order, k), first, Without(order, k))
  {
    hide Unlinked, Without, After, Before;
    var rest, after := Without(order, k), Unlinked(ps, order, k);
    WithoutAt(order, k);
    forall j | 0 <= j < |rest| ensures LinksAt(after, rest, j) {
      RemainingLinks(ps, first, order, k, j);
    }
    assert forall j :: 0 <= j < |rest| ==> rest[j] == order[if j < k then j else j + 1];
    assert Distinct(rest) && Indices(rest, |after|) && rest[0] == order[0];
    forall j {:trigger after[rest[j]].next} | 0 <= j < |rest| ensures after[rest[j]].next == After(rest, j) {
      assert LinksAt(after, rest, j);
    }
    forall j {:trigger after[rest[j]].prev} | 0 <= j < |rest| ensures after[rest[j]].prev == Before(rest, j) {
      assert LinksAt(after, rest, j);
    }
  }

  lemma LinkedCarries(ps: seq<Pcb>, qs: seq<Pcb>, first: int, order: seq<int>)
    requires Linked(ps, first, order) && |qs| == |ps|
    requires forall i :: 0 <= i < |ps| ==> qs[i].next == ps[i].next && qs[i].prev == ps[i].prev
    ensures Linked(qs, first, order)
  {}

  lemma PutKeepsLinked(ps: seq<Pcb>, first: int, order: seq<int>, c: int, p: Pcb)
    requires Linked(ps, first, order) && 0 <= c < |ps| && c !in order
    ensures Linked(ps[c := p], first, order)
  {}

  /** Removing the first block only moves the list head, so the new first block keeps a backward link to the removed
      one: the list stays well formed exactly when it had one block. */
  lemma RemoveFirstBreaks(ps: seq<Pcb>, first: int, order: seq<int>)
    requires Linked(ps, first, order) && order != []
    ensures Linked(ps, ps[first].next, order[1..]) <==> |order| == 1
  {
    if |order| > 1 {
      var rest := order[1..];
      assert rest[0] == order[1] && ps[rest[0]].prev == order[0];
      assert Linked(ps, ps[first].next, rest) ==> ps[rest[0]].prev == Before(rest, 0);
    }
  }

  // ---------------------------------------------------------------- the scheduler's search

  /** Calls of `next` that lead from position c to position t, going round positions 1..n; a full round when c == t. */
  function Steps(n: nat, c: nat, t: nat): int {
    if t > c then t - c else t - c + n
  }

  /** The search loop: the first ready position after c, stopping at `orig`; 0 (idle) when none is ready. */
  function {:induction false} Scan(ready: seq<bool>, orig: nat, c: nat): (r: nat)
    requires |ready| >= 2 && 1 <= orig < |ready| && 1 <= c < |ready|
    ensures r < |ready|
    ensures r != 0 ==> ready[r] && Steps(|ready| - 1, c, r) <= Steps(|ready| - 1, c, orig)
    ensures forall j :: 1 <= j < |ready| && ready[j] && Steps(|ready| - 1, c, j) <= Steps(|ready| - 1, c, orig) ==>
      r != 0 && Steps(|ready| - 1, c, r) <= Steps(|ready| - 1, c, j)
    decreases Steps(|ready| - 1, c, orig)
  {
    var n := |ready| - 1;
    var p := if c < n then c + 1 else 1;
    if ready[p] then p
    else if p == orig then 0
    else Scan(ready, orig, p)
  }

  lemma ScanStep(ready: seq<bool>, orig: nat, c: nat)
    requires |ready| >= 2 && 1 <= orig < |ready| && 1 <= c < |ready|
    ensures var p := if c + 1 < |ready| then c + 1 else 1;
            && Scan(ready, orig, c) == (if ready[p] then p else if p == orig then 0 else Scan(ready, orig, p))
            && (p != orig ==> 0 <= Steps(|ready| - 1, p, orig) < Steps(|ready| - 1, c, orig))
  {}

  /** The position schedule() switches to; position 0 is the idle task. */
  function Choose(ready: seq<bool>, cur: nat): (r: nat)
    requires cur < |ready|
    ensures r < |ready|
  {
    if |ready| == 1 then 0
    else if cur == 0 then Scan(ready, 1, 1)
    else Scan(ready, cur, cur)
  }

  function Start(cur: nat): nat {
    if cur == 0 then 1 else cur
  }

  /** schedule() picks the cyclically next ready process, and idle exactly when no other process is ready. */
  lemma ChooseIsNext(ready: seq<bool>, cur: nat)
    requires cur < |ready|
    ensures var r := Choose(ready, cur);
            && (r == 0 <==> forall j :: 1 <= j < |ready| ==> !ready[j])
            && (r != 0 ==> ready[r])
            && forall j :: 1 <= j < |ready| && ready[j] ==>
                 Steps(|ready| - 1, Start(cur), r) <= Steps(|ready| - 1, Start(cur), j)
  {
    if |ready| > 1 {
      assert forall j :: 1 <= j < |ready| && ready[j] ==>
        Steps(|ready| - 1, Start(cur), j) <= Steps(|ready| - 1, Start(cur), Start(cur));
    }
  }

  /** A run of schedule() over a list of fixed length: at call i the ready flags are readys[i] and the process
      running is curs[i]. */
  ghost predicate SchedulerRun(n: nat, readys: seq<seq<bool>>, curs: seq<nat>) {
    && |curs| == |readys| + 1
    && (forall i :: 0 <= i < |readys| ==> |readys[i]| == n + 1)
    && (forall i :: 0 <= i < |curs| ==> curs[i] <= n)
    && (forall i :: 0 <= i < |readys| ==> curs[i + 1] == Choose(readys[i], curs[i]))
  }

  /** Each call that does not pick t brings the search strictly closer to it. */
  lemma DistanceFalls(ready: seq<bool>, cur: nat, t: nat)
    requires cur < |ready| && 1 <= t < |ready| && ready[t]
    requires Choose(ready, cur) != t
    ensures Choose(ready, cur) != 0
    ensures Steps(|ready| - 1, Choose(ready, cur), t) < Steps(|ready| - 1, Start(cur), t)
  {
    ChooseIsNext(ready, cur);
  }

  lemma {:induction false} BypassCounts(n: nat, readys: seq<seq<bool>>, curs: seq<nat>, t: nat, k: nat)
    requires SchedulerRun(n, readys, curs) && 1 <= t <= n && k <= |readys|
    requires forall i :: 0 <= i < |readys| ==> readys[i][t]
    requires forall i :: 1 <= i <= k ==> curs[i] != t
    ensures Steps(n, Start(curs[k]), t) <= n - k
  {
    if k > 0 {
      BypassCounts(n, readys, curs, t, k - 1);
      assert curs[k] == Choose(readys[k - 1], curs[k - 1]);
      DistanceFalls(readys[k - 1], curs[k - 1], t);
    }
  }

  /** Bounded bypass: among n processes, one that stays ready is picked within n calls, whatever the others do. */
  lemma BoundedBypass(n: nat, readys: seq<seq<bool>>, curs: seq<nat>, t: nat)
    requires SchedulerRun(n, readys, curs) && 1 <= t <= n && |readys| >= n
    requires forall i :: 0 <= i < |readys| ==> readys[i][t]
    ensures exists i :: 1 <= i <= n && curs[i] == t
  {
    if forall i :: 1 <= i <= n ==> curs[i] != t {
      BypassCounts(n, readys, curs, t, n);
    }
  }

  // ---------------------------------------------------------------- the sleep queue

  /** The queue that starts at `waitFirst` is exactly q, and blocks off the queue carry no link. */
  ghost predicate Queued(ps: seq<Pcb>, waitFirst: int, q: seq<int>) {
    && Indices(q, |ps|)
    && Distinct(q)
    && waitFirst == (if q == [] then NIL else q[0])
    && (forall k {:trigger ps[q[k]].waitNext} :: 0 <= k < |q| ==> ps[q[k]].waitNext == After(q, k))
    && (forall i :: 0 <= i < |ps| && i !in q ==> ps[i].waitNext == NIL)
  }

  /** wait_queue_add up to the call of schedule(). A block already queued is only put to sleep. */
  function Enqueued(ps: seq<Pcb>, q: seq<int>, p: int): seq<Pcb>
    requires 0 <= p < |ps| && Indices(q, |ps|)
  {
    var linked := if q == [] || p in q then ps else ps[Last(q) := ps[Last(q)].(waitNext := p)];
    linked[p := linked[p].(status := Sleeping)]
  }

  function QueueWith(q: seq<int>, p: int): seq<int> {
    if p in q then q else q + [p]
  }

  /** wait_queue_wake: every queued block becomes ready and loses its link. */
  function {:induction false} Woken(ps: seq<Pcb>, q: seq<int>): (r: seq<Pcb>)
    requires Indices(q, |ps|)
    ensures |r| == |ps|
    ensures forall i :: 0 <= i < |ps| ==>
      r[i] == if i in q then ps[i].(status := Ready, waitNext := NIL) else ps[i]
    decreases |q|
  {
    if q == [] then ps
    else
      assert forall i :: 0 <= i < |ps| ==> (i in q <==> i == q[0] || i in q[1..]);
      Woken(ps[q[0] := ps[q[0]].(status := Ready, waitNext := NIL)], q[1..])
  }

  lemma EnqueueKeepsQueued(ps: seq<Pcb>, waitFirst: int, q: seq<int>, p: int)
    requires Queued(ps, waitFirst, q) && 0 <= p < |ps|
    ensures Queued(Enqueued(ps, q, p), if q == [] then p else waitFirst, QueueWith(q, p))
  {
    if p !in q {
      var after, r := Enqueued(ps, q, p), q + [p];
      forall k | 0 <= k < |r| ensures after[r[k]].waitNext == After(r, k) {
        if k < |q| {
          assert r[k] == q[k];
        }
      }
    }
  }

  lemma WakeKeepsQueued(ps: seq<Pcb>, waitFirst: int, q: seq<int>)
    requires Queued(ps, waitFirst, q)
    ensures Queued(Woken(ps, q), NIL, [])
  {}
}
