/**
 The circular reader of input events: an array of twice the capacity, where a read may run
 past the middle and what ran past is copied back to the front.

 `filled` and `taken` are the whole history of the reader.  `Valid` says that what was taken,
 followed by what the array still holds, is exactly what was filled, in order.
 */
module EventReader {

  /** The outcome of `read` on the device. */
  datatype ReadResult<T> =
    | ReadFailed(errno: int)
    | ReadPartial(events: seq<T>)  // a number of bytes that is no whole number of events
    | ReadEvents(events: seq<T>)

  const EINVAL := 22

  /** The events a successful read delivers. */
  function Got<T>(device: ReadResult<T>): seq<T> {
    if device.ReadEvents? then device.events else []
  }

  /** Where the `i`-th event behind `curr` is in a ring of `n` cells. */
  function Wrap(n: nat, curr: nat, i: nat): nat {
    if curr + i < n then curr + i else if curr + i < 2 * n then curr + i - n else 0
  }

  /** The unread events of a ring of `n` cells, oldest first. */
  ghost function Unread<T>(cells: seq<T>, n: nat, curr: nat, len: nat): (unread: seq<T>)
    requires n <= |cells| && len <= n && (curr < n || curr == len == 0)
    ensures |unread| == len
  {
    seq(len, i requires 0 <= i < len => cells[Wrap(n, curr, i)])
  }

  /** Cells that hold nothing unread may change. */
  lemma UnreadStays<T>(cells: seq<T>, next: seq<T>, n: nat, curr: nat, len: nat)
    requires n <= |cells| == |next| && len <= n && (curr < n || curr == len == 0)
    requires forall i :: 0 <= i < len ==> next[Wrap(n, curr, i)] == cells[Wrap(n, curr, i)]
    ensures Unread(next, n, curr, len) == Unread(cells, n, curr, len)
  {
  }

  /** Filling the cells behind the unread events queues what was filled. */
  lemma UnreadGrows<T>(cells: seq<T>, next: seq<T>, n: nat, curr: nat, len: nat, events: seq<T>)
    requires n <= |cells| == |next| && len + |events| <= n && curr < n
    requires forall i :: 0 <= i < len ==> next[Wrap(n, curr, i)] == cells[Wrap(n, curr, i)]
    requires forall j :: 0 <= j < |events| ==> next[Wrap(n, curr, len + j)] == events[j]
    ensures Unread(next, n, curr, len + |events|) == Unread(cells, n, curr, len) + events
  {
    var longer := Unread(next, n, curr, len + |events|);
    forall i | 0 <= i < len + |events|
      ensures longer[i] == (Unread(cells, n, curr, len) + events)[i]
    {
      if i >= len {
        assert next[Wrap(n, curr, len + (i - len))] == events[i - len];
      }
    }
  }

  /** Stepping past the oldest event leaves the rest. */
  lemma UnreadShrinks<T>(cells: seq<T>, n: nat, curr: nat, len: nat)
    requires n <= |cells| && 0 < len <= n && curr < n
    ensures var next := if curr + 1 >= n then 0 else curr + 1;
            Unread(cells, n, next, len - 1) == Unread(cells, n, curr, len)[1..]
  {
    var next := if curr + 1 >= n then 0 else curr + 1;
    forall i | 0 <= i < len - 1 ensures Wrap(n, next, i) == Wrap(n, curr, i + 1) {
    }
  }

  /** Where the next event goes: behind the last unread one, or at the very end of the first half. */
  ghost predicate HeadOk(n: nat, curr: nat, len: nat, head: nat) {
    || head == curr + len <= n
    || (curr + len >= n && head == curr + len - n)
    || (head == n && curr == len == 0)
  }

  /** The array after a read of `k` events, and the copy back of what ran past the middle. */
  ghost function CopiedBack<T>(cells: seq<T>, n: nat, head: nat, k: nat): seq<T>
    requires |cells| == 2 * n && head + k <= 2 * n
  {
    if head + k > n then cells[n..head + k] + cells[head + k - n..] else cells
  }

  /** What a read writes is off the cells of the unread events, and inside the array. */
  lemma OffHead(n: nat, curr: nat, len: nat, head: nat, k: nat)
    requires len + k <= n && (curr < n || curr == len == 0) && HeadOk(n, curr, len, head)
    ensures head + k <= 2 * n
    ensures forall i :: 0 <= i < len ==> Wrap(n, curr, i) < n && !(head <= Wrap(n, curr, i) < head + k)
  {
  }

  function HeadAfter(n: nat, head: nat, k: nat): nat {
    if head + k > n then head + k - n else head + k
  }

  /** The copy back never lands on an unread event. */
  lemma CopyKeepsUnread<T>(cells: seq<T>, n: nat, curr: nat, len: nat, head: nat, k: nat)
    requires |cells| == 2 * n && len + k <= n && curr < n && HeadOk(n, curr, len, head) && head + k <= 2 * n
    ensures var next := CopiedBack(cells, n, head, k);
            |next| == 2 * n && forall i :: 0 <= i < len ==> next[Wrap(n, curr, i)] == cells[Wrap(n, curr, i)]
  {
  }

  /** It puts a new event where the ring looks for it. */
  lemma CopyPlaces<T>(cells: seq<T>, n: nat, curr: nat, len: nat, head: nat, k: nat, j: nat)
    requires |cells| == 2 * n && len + k <= n && curr < n && HeadOk(n, curr, len, head) && head + k <= 2 * n && j < k
    ensures var next := CopiedBack(cells, n, head, k);
            |next| == 2 * n && next[Wrap(n, curr, len + j)] == cells[head + j]
  {
  }

  /**
   Altogether the ring then holds the unread events and after them the new ones, also when the
   head starts at the very end of the first half.
   */
  lemma WrapCopy<T>(cells: seq<T>, n: nat, curr: nat, len: nat, head: nat, events: seq<T>)
    requires |cells| == 2 * n && 0 < |events| && len + |events| <= n && curr < n
    requires HeadOk(n, curr, len, head) && head + |events| <= 2 * n
    requires Placed(cells, head, events)
    ensures HeadOk(n, curr, len + |events|, HeadAfter(n, head, |events|))
    ensures Unread(CopiedBack(cells, n, head, |events|), n, curr, len + |events|)
            == Unread(cells, n, curr, len) + events
  {
    assert HeadOk(n, curr, len + |events|, HeadAfter(n, head, |events|));
    hide CopiedBack, Wrap, HeadOk, HeadAfter, Unread;
    var next := CopiedBack(cells, n, head, |events|);
    CopyKeepsUnread(cells, n, curr, len, head, |events|);
    forall j | 0 <= j < |events| ensures next[Wrap(n, curr, len + j)] == events[j] {
      CopyPlaces(cells, n, curr, len, head, |events|, j);
      assert cells[head + j] == cells[head..head + |events|][j];
    }
    UnreadGrows(cells, next, n, curr, len, events);
  }

  /** The events are in the cells from `at` on. */
  ghost predicate Placed<T>(cells: seq<T>, at: nat, events: seq<T>) {
    at + |events| <= |cells| && cells[at..at + |events|] == events
  }

  lemma Associative<T>(a: seq<T>, b: seq<T>, c: seq<T>)
    ensures a + b + c == a + (b + c)
  {
  }

  class InputEventCircularReader<T(0)> {
    const mBuffer: array<T>
    const mBufferEnd: nat  // the middle of the array
    var mHead: nat
    var mCurr: nat
    var mFreeSpace: nat
    ghost var filled: seq<T>
    ghost var taken: seq<T>

    ghost predicate Valid()
      reads this, mBuffer
    {
      && mBuffer.Length == 2 * mBufferEnd
      && mFreeSpace <= mBufferEnd
      && (mCurr < mBufferEnd || mCurr == mBufferEnd - mFreeSpace == 0)
      && HeadOk(mBufferEnd, mCurr, mBufferEnd - mFreeSpace, mHead)
      && filled == taken + Contents()
    }

    ghost function Contents(): seq<T>
      reads this, mBuffer
      requires mBuffer.Length == 2 * mBufferEnd && mFreeSpace <= mBufferEnd
      requires mCurr < mBufferEnd || mCurr == mBufferEnd - mFreeSpace == 0
    {
      Unread(mBuffer[..], mBufferEnd, mCurr, mBufferEnd - mFreeSpace)
    }

    constructor (numEvents: nat)
      ensures Valid() && fresh(mBuffer)
      ensures mBufferEnd == numEvents && filled == [] && taken == []
    {
      mBuffer := new T[numEvents * 2];
      mBufferEnd := numEvents;
      mHead, mCurr, mFreeSpace := 0, 0, numEvents;
      filled, taken := [], [];
    }

    /**
     Reads at most as many events as are free.  The result is the number of events queued, or a
     negative error; on an error whatever was read is dropped and the queue is as before.
     */
    method Fill(device: ReadResult<T>) returns (r: int)
      requires Valid()
      requires !device.ReadFailed? ==> |device.events| <= mFreeSpace
      modifies this`mHead, this`mFreeSpace, this`filled, mBuffer
      ensures Valid() && taken == old(taken)
      ensures filled == old(filled) + if old(mFreeSpace) == 0 then [] else Got(device)
      ensures Contents() == old(Contents()) + if old(mFreeSpace) == 0 then [] else Got(device)
      ensures old(mFreeSpace) == 0 ==> r == 0
      ensures old(mFreeSpace) > 0 && device.ReadFailed? ==> r == -device.errno
      ensures old(mFreeSpace) > 0 && device.ReadPartial? ==> r == -EINVAL
      ensures old(mFreeSpace) > 0 && device.ReadEvents? ==> r == |device.events|
    {
      if mFreeSpace == 0 {
        return 0;
      }
      match device {
        case ReadFailed(errno) =>
          return -errno;
        case ReadPartial(events) =>
          WriteAtHead(events);
          return -EINVAL;
        case ReadEvents(events) =>
          WriteAtHead(events);
          if |events| != 0 {
            Advance(events);
          }
          return |events|;
      }
    }

    /** Queues the events that were just read at the head, copying back what ran past the middle. */
    method Advance(events: seq<T>)
      requires Valid() && 0 < |events| <= mFreeSpace
      requires mHead + |events| <= mBuffer.Length && Placed(mBuffer[..], mHead, events)
      modifies this`mHead, this`mFreeSpace, this`filled, mBuffer
      ensures Valid()
      ensures filled == old(filled) + events
      ensures Contents() == old(Contents()) + events
    {
      assert mHead <= mBufferEnd && mCurr < mBufferEnd;
      hide Placed, HeadOk, Unread, CopiedBack, HeadAfter, Wrap;
      ghost var cells, len, before := mBuffer[..], mBufferEnd - mFreeSpace, Contents();
      WrapCopy(cells, mBufferEnd, mCurr, len, mHead, events);
      MoveHead(|events|);
      assert Contents() == before + events;
      Associative(taken, before, events);
      filled := filled + events;
    }

    method MoveHead(numEventsRead: nat)
      requires mBuffer.Length == 2 * mBufferEnd && numEventsRead <= mFreeSpace <= mBufferEnd
      requires mHead <= mBufferEnd && mHead + numEventsRead <= mBuffer.Length
      modifies this`mHead, this`mFreeSpace, mBuffer
      ensures mBuffer[..] == CopiedBack(old(mBuffer[..]), mBufferEnd, old(mHead), numEventsRead)
      ensures mHead == HeadAfter(mBufferEnd, old(mHead), numEventsRead)
      ensures mFreeSpace == old(mFreeSpace) - numEventsRead
    {
      mHead := mHead + numEventsRead;
      mFreeSpace := mFreeSpace - numEventsRead;
      if mHead > mBufferEnd {
        var s := mHead - mBufferEnd;
        CopyToFront(s);
        mHead := s;
      }
    }

    /** What `read` puts into the array, starting at the head: never outside it, never on an unread event. */
    method WriteAtHead(events: seq<T>)
      requires Valid() && |events| <= mFreeSpace
      modifies mBuffer
      ensures Valid() && Contents() == old(Contents())
      ensures Placed(mBuffer[..], mHead, events)
      ensures forall i :: 0 <= i < mBuffer.Length && !(mHead <= i < mHead + |events|) ==> mBuffer[i] == old(mBuffer[i])
    {
      OffHead(mBufferEnd, mCurr, mBufferEnd - mFreeSpace, mHead, |events|);
      hide HeadOk, Unread, Wrap, Placed;
      ghost var cells := mBuffer[..];
      CopyEvents(events);
      UnreadStays(cells, mBuffer[..], mBufferEnd, mCurr, mBufferEnd - mFreeSpace);
    }

    method CopyEvents(events: seq<T>)
      requires mHead + |events| <= mBuffer.Length
      modifies mBuffer
      ensures Placed(mBuffer[..], mHead, events)
      ensures forall i :: 0 <= i < mBuffer.Length && !(mHead <= i < mHead + |events|) ==> mBuffer[i] == old(mBuffer[i])
    {
      var i := 0;
      while i < |events|
        invariant 0 <= i <= |events|
        invariant forall j :: 0 <= j < i ==> mBuffer[mHead + j] == events[j]
        invariant forall j :: 0 <= j < mBuffer.Length && !(mHead <= j < mHead + i) ==> mBuffer[j] == old(mBuffer[j])
      {
        mBuffer[mHead + i] := events[i];
        i := i + 1;
      }
    }

    /** memcpy of the first `s` cells of the second half to the front. */
    method CopyToFront(s: nat)
      requires mBuffer.Length == 2 * mBufferEnd && s <= mBufferEnd
      modifies mBuffer
      ensures mBuffer[..] == old(mBuffer[..])[mBufferEnd..mBufferEnd + s] + old(mBuffer[..])[s..]
    {
      var i := 0;
      while i < s
        invariant 0 <= i <= s
        invariant forall j :: 0 <= j < mBuffer.Length ==>
                    mBuffer[j] == old(if j < i then mBuffer[mBufferEnd + j] else mBuffer[j])
      {
        mBuffer[i] := mBuffer[mBufferEnd + i];
        i := i + 1;
      }
    }

    /** One if there is an event to read, and then `at` is where the oldest one is. */
    method ReadEvent() returns (at: nat, available: int)
      requires Valid()
      ensures available == if Contents() == [] then 0 else 1
      ensures Contents() != [] ==> at < mBuffer.Length && mBuffer[at] == Contents()[0]
    {
      at := mCurr;
      available := if mBufferEnd - mFreeSpace != 0 then 1 else 0;
    }

    /** Drops the oldest event.  Callers do this only after `ReadEvent` returned one. */
    method Next()
      requires Valid() && Contents() != []
      modifies this`mCurr, this`mFreeSpace, this`taken
      ensures Valid() && filled == old(filled)
      ensures taken == old(taken) + [old(Contents())[0]]
      ensures Contents() == old(Contents())[1..]
    {
      hide Unread;
      ghost var before := Contents();
      UnreadShrinks(mBuffer[..], mBufferEnd, mCurr, mBufferEnd - mFreeSpace);
      assert before == [before[0]] + before[1..];
      taken := taken + [before[0]];
      mCurr := mCurr + 1;
      mFreeSpace := mFreeSpace + 1;
      if mCurr >= mBufferEnd {
        mCurr := 0;
      }
      assert Contents() == before[1..];
    }
  }
}
