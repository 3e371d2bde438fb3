/** The replay buffer and the hub between the update stream and its clients. */
module LiveHub {
  import opened Common

  // ----- the buffer's content as a value

  /** What a `deque(maxlen = n)` holds after appending all of s. */
  function Newest<T>(s: seq<T>, n: nat): seq<T> {
    if |s| <= n then s else s[|s| - n..]
  }

  /** `[msg for seq, msg in buffer if seq > last]`. */
  function MessagesAfter<M>(buffer: seq<(int, M)>, last: int): seq<M> {
    if buffer == [] then []
    else (if buffer[0].0 > last then [buffer[0].1] else []) + MessagesAfter(buffer[1..], last)
  }

  /** The messages after `last`; None when the gap cannot be bridged. */
  function SinceOf<M>(buffer: seq<(int, M)>, last: int): Option<seq<M>> {
    if buffer == [] then None
    else if last >= buffer[|buffer| - 1].0 then Some([])
    else if last < buffer[0].0 - 1 then None
    else Some(MessagesAfter(buffer, last))
  }

  ghost predicate Consecutive<M>(s: seq<(int, M)>) {
    forall i :: 0 <= i < |s| ==> s[i].0 == s[0].0 + i
  }

  ghost predicate Holds<M>(s: seq<(int, M)>, number: int) {
    exists i :: 0 <= i < |s| && s[i].0 == number
  }

  function Payloads<M>(s: seq<(int, M)>): seq<M> {
    seq(|s|, i requires 0 <= i < |s| => s[i].1)
  }

  lemma SuffixConsecutive<M>(s: seq<(int, M)>, i: nat)
    requires Consecutive(s) && i <= |s|
    ensures Consecutive(s[i..])
  {
  }

  lemma {:induction false} AllAfter<M>(s: seq<(int, M)>, last: int)
    requires Consecutive(s) && (s != [] ==> last < s[0].0)
    ensures MessagesAfter(s, last) == Payloads(s)
  {
    if s != [] {
      SuffixConsecutive(s, 1);
      AllAfter(s[1..], last);
      assert Payloads(s) == [s[0].1] + Payloads(s[1..]);
    }
  }

  lemma {:induction false} SuffixAfter<M>(s: seq<(int, M)>, last: int)
    requires Consecutive(s) && s != [] && s[0].0 - 1 <= last <= s[0].0 + |s| - 1
    ensures MessagesAfter(s, last) == Payloads(s[last - s[0].0 + 1..])
  {
    if last == s[0].0 - 1 {
      AllAfter(s, last);
      assert s[0..] == s;
    } else if |s| == 1 {
      assert s[1..] == [];
    } else {
      SuffixConsecutive(s, 1);
      SuffixAfter(s[1..], last);
      assert s[1..][last - s[1].0 + 1..] == s[last - s[0].0 + 1..];
    }
  }

  lemma NewestConsecutive<M>(added: seq<(int, M)>, maxSize: nat)
    requires Consecutive(added)
    ensures var b := Newest(added, maxSize);
            && Consecutive(b) && |b| <= |added| && b == added[|added| - |b|..]
            && (b != [] ==> b[|b| - 1] == added[|added| - 1])
  {
    if |added| > maxSize {
      SuffixConsecutive(added, |added| - maxSize);
    }
  }

  /** On consecutive content: None exactly when empty or when some message after `last` is not held. */
  lemma SinceNoneIff<M>(b: seq<(int, M)>, last: int)
    requires Consecutive(b)
    ensures SinceOf(b, last).None? <==> b == [] || exists n :: last < n <= b[|b| - 1].0 && !Holds(b, n)
  {
    if b != [] {
      var newest := b[|b| - 1].0;
      if last < b[0].0 - 1 {
        assert !Holds(b, last + 1);
      } else {
        forall n | last < n <= newest ensures Holds(b, n) {
          assert b[n - b[0].0].0 == n;
        }
      }
    }
  }

  /**
  Replay is exact. After any run of consecutively numbered additions through a buffer of any size, `since(last)`
  is None exactly when nothing is buffered or some message the client still needs is not; otherwise it is
  precisely the messages last+1 .. newest, in order.
  */
  lemma SinceExact<M>(added: seq<(int, M)>, maxSize: nat, last: int)
    requires Consecutive(added)
    ensures var b := Newest(added, maxSize);
            SinceOf(b, last).None? <==> b == [] || exists n :: last < n <= added[|added| - 1].0 && !Holds(b, n)
    ensures var b := Newest(added, maxSize);
            SinceOf(b, last).Some? ==>
              var missing := Max(added[|added| - 1].0 - last, 0);
              missing <= |added| && SinceOf(b, last).value == Payloads(added[|added| - missing..])
  {
    var b := Newest(added, maxSize);
    NewestConsecutive(added, maxSize);
    SinceNoneIff(b, last);
    if SinceOf(b, last).Some? {
      SinceSome(added, b, last);
    }
  }

  lemma NothingAfter<M>()
    ensures Payloads<M>([]) == []
  {
  }

  lemma SpanOf<M>(s: seq<(int, M)>)
    requires Consecutive(s) && s != []
    ensures s[|s| - 1].0 == s[0].0 + |s| - 1
  {
  }

  lemma SinceSome<M>(added: seq<(int, M)>, b: seq<(int, M)>, last: int)
    requires Consecutive(added) && |b| <= |added| && b == added[|added| - |b|..]
    requires SinceOf(b, last).Some?
    ensures var missing := Max(added[|added| - 1].0 - last, 0);
            missing <= |added| && SinceOf(b, last).value == Payloads(added[|added| - missing..])
  {
    hide Consecutive, Payloads, MessagesAfter;
    SuffixConsecutive(added, |added| - |b|);
    SpanOf(b);
    assert b[|b| - 1] == added[|added| - 1];
    var newest := b[|b| - 1].0;
    if last < newest {
      SuffixAfter(b, last);
      SuffixOfSuffix(added, |added| - |b|, last - b[0].0 + 1);
    } else {
      assert added[|added|..] == [];
      NothingAfter<M>();
    }
  }

  // ----- the buffer and the hub as objects

  class ReplayBuffer<M> {
    const maxSize: nat
    var buffer: seq<(int, M)>
    ghost var added: seq<(int, M)>

    ghost predicate Valid()
      reads this
    {
      buffer == Newest(added, maxSize)
    }

    constructor (maxSize: nat)
      ensures Valid() && added == [] && this.maxSize == maxSize
    {
      this.maxSize := maxSize;
      buffer, added := [], [];
    }

    method Add(sequence: int, message: M)
      requires Valid()
      modifies this
      ensures Valid() && added == old(added) + [(sequence, message)]
    {
      added := added + [(sequence, message)];
      buffer := buffer + [(sequence, message)];
      if |buffer| > maxSize {
        buffer := buffer[1..];
      }
    }

    function LatestSequence(): (r: Option<int>)
      requires Valid()
      reads this
      ensures r == if added == [] || maxSize == 0 then None else Some(added[|added| - 1].0)
    {
      if buffer == [] then None else Some(buffer[|buffer| - 1].0)
    }

    method Since(lastSequence: int) returns (r: Option<seq<M>>)
      requires Valid()
      ensures r == SinceOf(Newest(added, maxSize), lastSequence)
    {
      if buffer == [] { return None; }
      var newest := buffer[|buffer| - 1].0;
      if lastSequence >= newest { return Some([]); }
      var oldest := buffer[0].0;
      if lastSequence < oldest - 1 { return None; }
      return Some(MessagesAfter(buffer, lastSequence));
    }
  }

  /** The hub's queue and buffer as one value; a queue bound of 0 or less means unbounded. */
  datatype HubState<M> = HubState(queue: seq<M>, maxQueue: int, buffer: seq<(int, M)>, maxSize: nat) {
    predicate HasRoom() {
      maxQueue <= 0 || |queue| < maxQueue
    }

    /** `put_nowait`, dropping the message when the queue is full. */
    function Enqueued(m: M): HubState<M> {
      if HasRoom() then this.(queue := queue + [m]) else this
    }

    /** One turn of the run loop: take the oldest message and record it when it carries a number. */
    function Consumed(number: Option<int>): HubState<M>
      requires queue != []
    {
      this.(queue := queue[1..],
            buffer := if number.Some? then Newest(buffer + [(number.value, queue[0])], maxSize) else buffer)
    }
  }

  class Hub<M> {
    const maxQueue: int
    var queue: seq<M>
    const buffer: ReplayBuffer<M>

    ghost predicate Valid()
      reads this, buffer
    {
      buffer.Valid()
    }

    ghost function View(): HubState<M>
      reads this, buffer
    {
      HubState(queue, maxQueue, buffer.buffer, buffer.maxSize)
    }

    constructor (buffer: ReplayBuffer<M>, maxQueue: int)
      requires buffer.Valid()
      ensures Valid() && this.buffer == buffer && View() == HubState([], maxQueue, buffer.buffer, buffer.maxSize)
    {
      this.buffer, this.maxQueue := buffer, maxQueue;
      queue := [];
    }

    method Enqueue(m: M)
      requires Valid()
      modifies this
      ensures Valid() && View() == old(View()).Enqueued(m)
    {
      if maxQueue > 0 && |queue| >= maxQueue {
        return; // full: the message is dropped
      }
      queue := queue + [m];
    }

    /** Takes one message off the queue; the caller broadcasts what it returns. */
    method RunOnce(number: M -> Option<int>) returns (m: M)
      requires Valid() && queue != []
      modifies this, buffer
      ensures Valid() && m == old(queue[0]) && View() == old(View()).Consumed(number(m))
    {
      m := queue[0];
      queue := queue[1..];
      var n := number(m);
      if n.Some? {
        buffer.Add(n.value, m);
      }
    }
  }
}
