/** The kernel's message ring: what reading it gives back of everything that was logged. */
module Dmesg {
  const DMESG_SIZE := 4096
  const SYSLOG_ACTION_READ_ALL := 3
  const SYSLOG_ACTION_SIZE_BUFFER := 10
  const EINVAL := 22

  /** How many of the last bytes can be read once n more follow v readable ones of total bytes logged. */
  function Readable(v: nat, total: nat, n: nat): nat {
    if total + n <= DMESG_SIZE then total + n
    else if v + n < DMESG_SIZE then v + n
    else if v + n == DMESG_SIZE && total > DMESG_SIZE then 0
    else DMESG_SIZE - 1
  }

  /** A run of accepted appends: everything logged, and how much of it can be read. */
  function Logged(run: seq<seq<char>>): seq<char> {
    if run == [] then [] else Logged(run[..|run| - 1]) + run[|run| - 1]
  }

  function ReadableAfter(run: seq<seq<char>>): nat {
    if run == [] then 0
    else
      var before := run[..|run| - 1];
      Readable(ReadableAfter(before), |Logged(before)|, |run[|run| - 1]|)
  }

  function Last(s: seq<char>, n: nat): seq<char>
    requires n <= |s|
  {
    s[|s| - n..]
  }

  /** All of the log can be read up to 4096 bytes; beyond that at most 4095, and none at all after some runs. */
  lemma {:induction false} ReadableBounds(run: seq<seq<char>>)
    requires forall k :: 0 <= k < |run| ==> |run[k]| < DMESG_SIZE
    ensures |Logged(run)| <= DMESG_SIZE ==> ReadableAfter(run) == |Logged(run)|
    ensures |Logged(run)| > DMESG_SIZE ==> ReadableAfter(run) < DMESG_SIZE
    ensures ReadableAfter(run) <= |Logged(run)|
  {
    if run != [] {
      ReadableBounds(run[..|run| - 1]);
    }
  }

  /** After the log has overflown, nothing is readable exactly when the readable part came to be the whole buffer. */
  lemma EmptyExactly(run: seq<seq<char>>, s: seq<char>)
    requires forall k :: 0 <= k < |run| ==> |run[k]| < DMESG_SIZE
    requires |Logged(run)| > DMESG_SIZE && |s| < DMESG_SIZE
    ensures ReadableAfter(run + [s]) == 0 <==>
              ReadableAfter(run) + |s| == DMESG_SIZE || (s == [] && ReadableAfter(run) == 0)
  {
    ReadableBounds(run);
    assert (run + [s])[..|run|] == run;
  }

  /** Three appends after which the log reads as empty. */
  lemma ReadsEmpty(a: seq<char>, b: seq<char>, c: seq<char>)
    requires |a| == 4095 && |b| == 2 && |c| == 1
    ensures |Logged([a, b, c])| == 4098 && ReadableAfter([a, b, c]) == 0
  {
    assert [a][..0] == [] && Logged([a]) == [] + a && ReadableAfter([a]) == 4095;
    assert [a, b][..1] == [a] && Logged([a, b]) == a + b && ReadableAfter([a, b]) == 4095;
    assert [a, b, c][..2] == [a, b] && Logged([a, b, c]) == a + b + c;
  }

  /** The last bytes logged, as many as fit, lie in the ring at their index modulo its size. */
  predicate Holds(ring: seq<char>, log: seq<char>) {
    |ring| == DMESG_SIZE && forall k :: 0 <= k < |log| && |log| - DMESG_SIZE <= k ==> ring[k % DMESG_SIZE] == log[k]
  }

  /** The tail is at the place in the ring of the next byte of the log. */
  predicate AtSlot(tail: int, total: nat) {
    tail % DMESG_SIZE == total % DMESG_SIZE
  }

  /** Where the two marks stand for v readable bytes of total. */
  predicate Marks(head: int, tail: int, v: nat, total: nat) {
    && 0 <= head <= DMESG_SIZE && 0 <= tail <= DMESG_SIZE && AtSlot(tail, total)
    && (tail == 0 ==> total == 0)
    && (if total <= DMESG_SIZE then head == 0 && tail == v == total
        else 1 <= head && v == (if head > tail then DMESG_SIZE - head + tail else tail - head))
  }

  lemma MarksInside(head: int, tail: int, v: nat, total: nat)
    requires Marks(head, tail, v, total)
    ensures 0 <= head <= DMESG_SIZE && 0 <= tail <= DMESG_SIZE && AtSlot(tail, total)
  {}

  lemma RunGrows(run: seq<seq<char>>, s: seq<char>)
    ensures Logged(run + [s]) == Logged(run) + s
    ensures ReadableAfter(run + [s]) == Readable(ReadableAfter(run), |Logged(run)|, |s|)
  {
    assert (run + [s])[..|run|] == run;
  }

  lemma MarksMove(head: int, tail: int, head': int, tail': int, v: nat, total: nat, n: nat, wrapped: bool)
    requires Marks(head, tail, v, total) && n < DMESG_SIZE
    requires tail' == if tail + n > DMESG_SIZE then tail + n - DMESG_SIZE else tail + n
    requires wrapped <==> if tail + n > DMESG_SIZE then tail < head || tail' > head else tail < head < tail'
    requires head' == if !wrapped then head else if tail' + 1 > DMESG_SIZE then tail' + 1 - DMESG_SIZE else tail' + 1
    ensures Marks(head', tail', Readable(v, total, n), total + n)
  {}

  lemma TwoParts(was: seq<char>, mid: seq<char>, now: seq<char>, s: seq<char>, tail: int)
    requires |was| == DMESG_SIZE && 0 <= tail <= DMESG_SIZE < tail + |s| && |s| < DMESG_SIZE
    requires mid == was[..tail] + s[..DMESG_SIZE - tail] + was[DMESG_SIZE..]
    requires now == mid[..0] + s[DMESG_SIZE - tail..] + mid[tail + |s| - DMESG_SIZE..]
    ensures now == s[DMESG_SIZE - tail..] + was[tail + |s| - DMESG_SIZE..tail] + s[..DMESG_SIZE - tail]
  {
    assert mid == was[..tail] + s[..DMESG_SIZE - tail];
  }

  /** What the copies of an append make of the ring. */
  predicate Stored(was: seq<char>, now: seq<char>, s: seq<char>, tail: int) {
    && 0 <= tail <= DMESG_SIZE == |was| && |s| < DMESG_SIZE
    && now == if tail + |s| > DMESG_SIZE then
                s[DMESG_SIZE - tail..] + was[tail + |s| - DMESG_SIZE..tail] + s[..DMESG_SIZE - tail]
              else was[..tail] + s + was[tail + |s|..]
  }

  lemma SameIndex(x: int, y: int)
    requires (x - y) % DMESG_SIZE == 0
    ensures x % DMESG_SIZE == y % DMESG_SIZE
  {}

  lemma OffsetIndex(total: int, tail: int, j: int, r: int)
    requires tail % DMESG_SIZE == total % DMESG_SIZE && 0 <= r < DMESG_SIZE
    requires tail + j == r || tail + j == r + DMESG_SIZE || tail + j == r - DMESG_SIZE
    ensures (total + j) % DMESG_SIZE == r
  {
    assert (total - tail) % DMESG_SIZE == 0;
    SameIndex(total + j, r);
  }

  /** One byte of the log after an append: from the appended text, or still where it was. */
  lemma ByteHeld(was: seq<char>, now: seq<char>, log: seq<char>, s: seq<char>, tail: int, k: int)
    requires Holds(was, log) && |s| < DMESG_SIZE && 0 <= tail <= DMESG_SIZE && AtSlot(tail, |log|)
    requires |now| == DMESG_SIZE && Stored(was, now, s, tail)
    requires 0 <= k < |log| + |s| && |log| + |s| - DMESG_SIZE <= k
    ensures now[k % DMESG_SIZE] == (log + s)[k]
  {
    var j := k - |log|;
    var r := if tail + j < 0 then tail + j + DMESG_SIZE else if tail + j >= DMESG_SIZE then tail + j - DMESG_SIZE
      else tail + j;
    OffsetIndex(|log|, tail, j, r);
    if j < 0 {
      assert was[k % DMESG_SIZE] == log[k];
    }
  }

  lemma StillHolds(was: seq<char>, now: seq<char>, log: seq<char>, s: seq<char>, tail: int)
    requires Holds(was, log) && |s| < DMESG_SIZE && 0 <= tail <= DMESG_SIZE && AtSlot(tail, |log|)
    requires |now| == DMESG_SIZE && Stored(was, now, s, tail)
    ensures Holds(now, log + s)
  {
    hide Stored;
    forall k | 0 <= k < |log + s| && |log + s| - DMESG_SIZE <= k ensures now[k % DMESG_SIZE] == (log + s)[k] {
      ByteHeld(was, now, log, s, tail, k);
    }
  }

  /** What READ_ALL copies out. */
  function Copied(ring: seq<char>, head: int, tail: int): seq<char>
    requires 0 <= head <= |ring| && 0 <= tail <= |ring|
  {
    if head > tail then ring[head..] + ring[..tail] else if head < tail then ring[head..tail] else []
  }

  lemma CopiedAt(ring: seq<char>, head: int, tail: int, i: nat)
    requires |ring| == DMESG_SIZE && 0 <= head <= DMESG_SIZE && 0 <= tail <= DMESG_SIZE
             && i < |Copied(ring, head, tail)|
    ensures var r := if head + i >= DMESG_SIZE then head + i - DMESG_SIZE else head + i;
            0 <= r < DMESG_SIZE && Copied(ring, head, tail)[i] == ring[r]
  {}

  lemma ByteRead(ring: seq<char>, log: seq<char>, head: int, tail: int, v: nat, i: nat)
    requires Holds(ring, log) && Marks(head, tail, v, |log|) && v <= |log| && i < v
    ensures |Copied(ring, head, tail)| == v && Copied(ring, head, tail)[i] == log[|log| - v + i]
  {
    CopiedAt(ring, head, tail, i);
    var k := |log| - v + i;
    var r := if head + i >= DMESG_SIZE then head + i - DMESG_SIZE else head + i;
    OffsetIndex(|log|, tail, i - v, r);
    assert ring[k % DMESG_SIZE] == log[k];
  }

  lemma RingHolds(ring: seq<char>, log: seq<char>, head: int, tail: int, v: nat)
    requires Holds(ring, log) && Marks(head, tail, v, |log|) && v <= |log|
    ensures 0 <= head <= |ring| && 0 <= tail <= |ring| && Copied(ring, head, tail) == Last(log, v)
  {
    forall i | 0 <= i < v ensures Copied(ring, head, tail)[i] == Last(log, v)[i] {
      ByteRead(ring, log, head, tail, v, i);
    }
  }

  class Log {
    const buffer: array<char>

    var head: int
    var tail: int

    /** The accepted appends so far. */
    ghost var run: seq<seq<char>>

    constructor ()
      ensures Valid() && fresh(buffer) && run == []
    {
      buffer, head, tail, run := new char[DMESG_SIZE](_ => '\0'), 0, 0, [];
    }

    ghost predicate Valid()
      reads this, buffer
    {
      && buffer.Length == DMESG_SIZE
      && (forall k :: 0 <= k < |run| ==> |run[k]| < DMESG_SIZE)
      && Marks(head, tail, ReadableAfter(run), |Logged(run)|)
      && Holds(buffer[..], Logged(run))
    }

    /** memcpy into the ring. */
    method CopyIn(at: int, s: seq<char>)
      requires 0 <= at && at + |s| <= buffer.Length
      modifies buffer
      ensures buffer[..] == old(buffer[..])[..at] + s + old(buffer[..])[at + |s|..]
    {
      ghost var was := buffer[..];
      var i := 0;
      while i < |s|
        invariant 0 <= i <= |s| && buffer[..] == was[..at] + s[..i] + was[at + i..]
      {
        buffer[at + i] := s[i];
        i := i + 1;
      }
      assert s[..i] == s;
    }

    /** The two parts of a text that reaches over the end of the ring. */
    method CopyWrapped(at: int, s: seq<char>)
      requires buffer.Length == DMESG_SIZE && 0 <= at <= DMESG_SIZE < at + |s| && |s| < DMESG_SIZE
      modifies buffer
      ensures buffer[..] == s[DMESG_SIZE - at..] + old(buffer[..])[at + |s| - DMESG_SIZE..at] + s[..DMESG_SIZE - at]
    {
      CopyIn(at, s[..DMESG_SIZE - at]);
      ghost var mid := buffer[..];
      CopyIn(0, s[DMESG_SIZE - at..]);
      TwoParts(old(buffer[..]), mid, buffer[..], s, at);
    }

    /** The copies of an append, in one part or in two. */
    method Store(at: int, s: seq<char>)
      requires buffer.Length == DMESG_SIZE && 0 <= at <= DMESG_SIZE && |s| < DMESG_SIZE
      modifies buffer
      ensures Stored(old(buffer[..]), buffer[..], s, at)
    {
      if at + |s| > DMESG_SIZE {
        CopyWrapped(at, s);
      } else {
        CopyIn(at, s);
      }
    }

    /** Moves the marks past a text that is stored at the tail. */
    method Advance(length: nat, ghost v: nat, ghost total: nat)
      requires length < DMESG_SIZE && Marks(head, tail, v, total)
      modifies this`head, this`tail
      ensures Marks(head, tail, Readable(v, total, length), total + length)
    {
      hide Readable, Marks;
      var oldTail, wrapped := tail, false;
      tail := tail + length;
      if tail > DMESG_SIZE {
        if oldTail < head { wrapped := true; }
        tail := tail - DMESG_SIZE;
        if tail > head { wrapped := true; }
      } else {
        if head > oldTail && head < tail { wrapped := true; }
      }
      if wrapped {
        head := tail + 1;
        if head > DMESG_SIZE { head := head - DMESG_SIZE; }
      }
      MarksMove(old(head), oldTail, head, tail, v, total, length, wrapped);
    }

    method Append(buf: seq<char>) returns (result: int)
      requires Valid()
      modifies this, buffer
      ensures Valid()
      ensures if |buf| >= DMESG_SIZE then result == -1 && run == old(run) && head == old(head) && tail == old(tail)
              && buffer[..] == old(buffer[..])
              else result == 0 && run == old(run) + [buf]
    {
      hide Holds, ReadableAfter, Logged, Readable, Marks, Stored, AtSlot;
      if |buf| >= DMESG_SIZE { return -1; }
      ghost var was, log, v := buffer[..], Logged(run), ReadableAfter(run);
      MarksInside(head, tail, v, |log|);
      Store(tail, buf);
      StillHolds(was, buffer[..], log, buf, tail);
      Advance(|buf|, v, |log|);
      RunGrows(run, buf);
      run := run + [buf];
      return 0;
    }

    method Syscall(cmd: int) returns (result: int, buf: seq<char>)
      requires Valid()
      ensures cmd == SYSLOG_ACTION_READ_ALL ==>
                ReadableAfter(run) <= |Logged(run)| && buf == Last(Logged(run), ReadableAfter(run)) && result == |buf|
      ensures cmd == SYSLOG_ACTION_SIZE_BUFFER ==> result == DMESG_SIZE && buf == []
      ensures cmd != SYSLOG_ACTION_READ_ALL && cmd != SYSLOG_ACTION_SIZE_BUFFER ==> result == -EINVAL && buf == []
    {
      hide ReadableAfter, Logged, Holds;
      buf := [];
      if cmd == SYSLOG_ACTION_READ_ALL {
        if head > tail {
          buf := buffer[head..] + buffer[..tail];
        } else if head < tail {
          buf := buffer[head..tail];
        }
        ReadableBounds(run);
        RingHolds(buffer[..], Logged(run), head, tail, ReadableAfter(run));
        return |buf|, buf;
      } else if cmd == SYSLOG_ACTION_SIZE_BUFFER {
        return DMESG_SIZE, buf;
      }
      return -EINVAL, buf;
    }
  }
}
