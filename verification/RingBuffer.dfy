/**
 The ring buffer that carries samples inside a process, and the local reader and sender built on it. The buffer is a
 FIFO queue of bounded length that forgets its oldest item when a new one does not fit.
 */
module RingBuffer {
  import opened Common

  /** A bounded queue after an item is added: the newest `n` items. */
  function Newest<T>(s: seq<T>, n: nat): seq<T> {
    if |s| > n then s[|s| - n..] else s
  }

  lemma WrapAround(i: nat, n: nat)
    requires 0 < n && i <= n
    ensures i % n == if i < n then i else 0
  {
    if i == n { assert n % n == 0; }
  }

  /** The items between `tail` and `head`, going around the end of the cells if need be. */
  function Window<T>(cells: seq<T>, head: nat, tail: nat, full: bool): seq<T>
    requires head < |cells| && tail < |cells| && (full ==> head == tail)
  {
    if tail < head || (tail == head && !full) then cells[tail..head] else cells[tail..] + cells[..head]
  }

  function Advance(i: nat, n: nat): (r: nat)
    requires i < n
    ensures r < n
  {
    if i + 1 < n then i + 1 else 0
  }

  lemma PushedWindow<T>(cells: seq<T>, head: nat, tail: nat, full: bool, item: T)
    requires head < |cells| && tail < |cells| && (full ==> head == tail)
    ensures
      var n := |cells|;
      var head', tail' := Advance(head, n), if full then Advance(tail, n) else tail;
      Window(cells[head := item], head', tail', head' == tail') ==
        Newest(Window(cells, head, tail, full) + [item], n)
  {
    if full {
      PushedWhenFull(cells, head, item);
    } else if tail <= head {
      PushedInLine(cells, head, tail, item);
    } else {
      PushedAround(cells, head, tail, item);
    }
  }

  lemma PushedWhenFull<T>(cells: seq<T>, head: nat, item: T)
    requires head < |cells|
    ensures var n := |cells|;
      Window(cells[head := item], Advance(head, n), Advance(head, n), true) ==
        Newest(Window(cells, head, head, true) + [item], n)
  {
    var n, next := |cells|, cells[head := item];
    var window := cells[head..] + cells[..head] + [item];
    assert window[1..] == cells[head + 1..] + cells[..head] + [item];
    if head + 1 < n {
      assert next[head + 1..] + next[..head + 1] == window[1..];
    } else {
      assert next[0..] + next[..0] == next == window[1..];
    }
  }

  lemma PushedInLine<T>(cells: seq<T>, head: nat, tail: nat, item: T)
    requires tail <= head < |cells|
    ensures var next := Advance(head, |cells|);
      Window(cells[head := item], next, tail, next == tail) == Window(cells, head, tail, false) + [item]
    ensures |Window(cells, head, tail, false)| < |cells|
  {
    assert Window(cells, head, tail, false) + [item] == cells[head := item][tail..head + 1];
  }

  lemma PushedAround<T>(cells: seq<T>, head: nat, tail: nat, item: T)
    requires head < tail < |cells|
    ensures Window(cells[head := item], head + 1, tail, head + 1 == tail) == Window(cells, head, tail, false) + [item]
    ensures |Window(cells, head, tail, false)| < |cells|
  {
    var next := cells[head := item];
    assert Window(cells, head, tail, false) + [item] == next[tail..] + next[..head + 1];
  }

  lemma TakenWindow<T>(cells: seq<T>, head: nat, tail: nat, full: bool)
    requires head < |cells| && tail < |cells| && (full ==> head == tail) && (full || head != tail)
    ensures
      var w := Window(cells, head, tail, full);
      w != [] && w[0] == cells[tail] && Window(cells, head, Advance(tail, |cells|), false) == w[1..]
  {
    var w := Window(cells, head, tail, full);
    if tail < head {
      assert w[1..] == cells[tail + 1..head];
    } else if tail + 1 < |cells| {
      assert w[1..] == cells[tail + 1..] + cells[..head];
    } else {
      assert w[1..] == cells[..head] == cells[0..head];
    }
  }

  class DataRingBuffer<T(0)> {
    const maxSize: nat
    const buffer: array<T>
    var head: nat
    var tail: nat
    var full: bool

    ghost predicate Valid()
      reads this
    {
      && 0 < maxSize == buffer.Length
      && head < maxSize && tail < maxSize
      && (full ==> head == tail)
    }

    /** The items waiting, oldest first. */
    ghost function Contents(): seq<T>
      requires Valid()
      reads this, buffer
    {
      Window(buffer[..], head, tail, full)
    }

    constructor (size: nat)
      requires size > 0
      ensures Valid() && maxSize == size && Contents() == [] && fresh(buffer)
    {
      maxSize := size;
      buffer := new T[size];
      head := 0;
      tail := 0;
      full := false;
    }

    method Push(item: T)
      requires Valid()
      modifies this, buffer
      ensures Valid() && Contents() == Newest(old(Contents()) + [item], maxSize)
    {
      PushedWindow(buffer[..], head, tail, full, item);
      WrapAround(head + 1, maxSize);
      WrapAround(tail + 1, maxSize);
      buffer[head] := item;
      if full { tail := (tail + 1) % maxSize; }
      head := (head + 1) % maxSize;
      full := head == tail;
    }

    /** Takes the oldest item; an empty buffer yields whatever its first cell holds. */
    method Get() returns (item: T)
      requires Valid()
      modifies this
      ensures Valid()
      ensures old(Contents()) != [] ==> item == old(Contents())[0] && Contents() == old(Contents())[1..]
      ensures old(Contents()) == [] ==> item == buffer[0] && Contents() == []
    {
      var retIndex := 0;
      if !IsEmpty() {
        TakenWindow(buffer[..], head, tail, full);
        WrapAround(tail + 1, maxSize);
        retIndex := tail;
        full := false;
        tail := (tail + 1) % maxSize;
      }
      return buffer[retIndex];
    }

    method Pop()
      requires Valid()
      modifies this
      ensures Valid() && Contents() == if old(Contents()) == [] then [] else old(Contents())[1..]
    {
      if !IsEmpty() {
        TakenWindow(buffer[..], head, tail, full);
        WrapAround(tail + 1, maxSize);
        full := false;
        tail := (tail + 1) % maxSize;
      }
    }

    method Back(backIndex: nat) returns (item: T)
      requires Valid()
      ensures backIndex < |Contents()| ==> item == Contents()[|Contents()| - 1 - backIndex]
    {
      if backIndex < maxSize { WrapAround(backIndex, maxSize); }
      var index := backIndex % maxSize;
      var currHead := if head == 0 then maxSize - 1 else head - 1;
      var bufferIndex := if index > currHead then maxSize - (index - currHead) else currHead - index;
      return buffer[bufferIndex];
    }

    method Clear()
      requires Valid()
      modifies this
      ensures Valid() && Contents() == []
    {
      head := 0;
      tail := 0;
      full := false;
    }

    predicate IsEmpty()
      requires Valid()
      reads this, buffer
      ensures IsEmpty() <==> Contents() == []
    {
      !full && head == tail
    }

    method Size() returns (size: nat)
      requires Valid()
      ensures size == |Contents()|
    {
      size := maxSize;
      if !full {
        if head >= tail { size := head - tail; } else { size := maxSize + head - tail; }
      }
    }
  }

  // ----- Runs of a bounded queue

  datatype Action<T> = Push(item: T) | Take

  function RunQueue<T>(actions: seq<Action<T>>, n: nat): seq<T>
    decreases |actions|
  {
    if actions == [] then []
    else
      var before := RunQueue(actions[..|actions| - 1], n);
      match actions[|actions| - 1]
      case Push(item) => Newest(before + [item], n)
      case Take => if before == [] then [] else before[1..]
  }

  function Pushed<T>(actions: seq<Action<T>>): seq<T>
    decreases |actions|
  {
    if actions == [] then []
    else
      var before := Pushed(actions[..|actions| - 1]);
      match actions[|actions| - 1]
      case Push(item) => before + [item]
      case Take => before
  }

  ghost predicate IsSuffix<T>(q: seq<T>, p: seq<T>) { |q| <= |p| && q == p[|p| - |q|..] }

  lemma SuffixGrows<T>(q: seq<T>, p: seq<T>, item: T, n: nat)
    requires IsSuffix(q, p)
    ensures IsSuffix(Newest(q + [item], n), p + [item])
  {
    assert q + [item] == (p + [item])[|p| - |q|..];
  }

  /** After any run, the queue holds the newest of all the items ever pushed, in order, and never more than fit. */
  lemma {:induction false} QueueHoldsNewest<T>(actions: seq<Action<T>>, n: nat)
    requires n > 0
    ensures var q := RunQueue(actions, n); var p := Pushed(actions);
      |q| <= n && IsSuffix(q, p)
    decreases |actions|
  {
    if actions != [] {
      var before := actions[..|actions| - 1];
      QueueHoldsNewest(before, n);
      var p, q := Pushed(before), RunQueue(before, n);
      match actions[|actions| - 1]
      case Push(item) => SuffixGrows(q, p, item, n);
      case Take => assert q != [] ==> q[1..] == p[|p| - |q| + 1..];
    }
  }

  // ----- The local reader and sender

  const DEFAULT_BUFFER_SIZE := 2048

  /** The first sample with this data, if there is one. */
  function FirstMatch<D(==)>(s: seq<SampleEnvelope<D>>, key: D): (i: nat)
    ensures i <= |s| && (forall j :: 0 <= j < i ==> s[j].data != key) && (i < |s| ==> s[i].data == key)
  {
    if s == [] || s[0].data == key then 0 else 1 + FirstMatch(s[1..], key)
  }

  ghost predicate Misses<D>(s: seq<SampleEnvelope<D>>, key: D, n: nat) {
    var misses := n <= |s| && forall j :: 0 <= j < n ==> s[j].data != key;
    misses
  }

  lemma MissesOneMore<D>(s: seq<SampleEnvelope<D>>, key: D, n: nat)
    requires n < |s| && Misses(s, key, n) && s[n].data != key
    ensures Misses(s, key, n + 1)
  {
  }

  lemma FirstMatchUnique<D>(s: seq<SampleEnvelope<D>>, key: D, i: nat)
    requires Misses(s, key, i) && (i < |s| ==> s[i].data == key)
    ensures FirstMatch(s, key) == i
  {
  }

  lemma TurnedOnce<T>(w: seq<T>, i: nat)
    requires i < |w|
    ensures var turned := w[i..] + w[..i];
      turned[0] == w[i] && turned[1..] == w[i + 1..] + w[..i] && turned[1..] + [w[i]] == w[i + 1..] + w[..i + 1]
  {
  }

  lemma TurnedRound<T>(w: seq<T>)
    ensures w[0..] + w[..0] == w && w[|w|..] + w[..|w|] == w
  {
  }

  class LocalReaderSender<D(0, ==)> {
    const ring: DataRingBuffer<SampleEnvelope<D>>

    ghost predicate Valid()
      reads this, ring
    {
      ring.Valid()
    }

    ghost function Waiting(): seq<SampleEnvelope<D>>
      requires Valid()
      reads this, ring, ring.buffer
    {
      ring.Contents()
    }

    constructor ()
      ensures Valid() && Waiting() == [] && ring.maxSize == DEFAULT_BUFFER_SIZE && fresh(ring) && fresh(ring.buffer)
    {
      ring := new DataRingBuffer<SampleEnvelope<D>>(DEFAULT_BUFFER_SIZE);
    }

    method Send(data: D) returns (status: SendStatus)
      requires Valid()
      modifies ring, ring.buffer
      ensures Valid() && status == SendSuccess
      ensures Waiting() == Newest(old(Waiting()) + [SampleEnvelope(data, ReadSuccess)], ring.maxSize)
    {
      ring.Push(SampleEnvelope(data, ReadSuccess));
      return SendSuccess;
    }

    method Dispose(data: D) returns (status: SendStatus)
      requires Valid()
      modifies ring, ring.buffer
      ensures Valid() && status == SendSuccess
      ensures Waiting() == Newest(old(Waiting()) + [SampleEnvelope(data, Disposed)], ring.maxSize)
    {
      ring.Push(SampleEnvelope(data, Disposed));
      return SendSuccess;
    }

    method Read() returns (status: ReadStatus, data: Option<D>)
      requires Valid()
      modifies ring
      ensures Valid()
      ensures if old(Waiting()) == [] then status == NoData && data == None && Waiting() == []
              else
                && data.Some? && SampleEnvelope(data.value, status) == old(Waiting())[0]
                && Waiting() == old(Waiting())[1..]
    {
      if ring.IsEmpty() { return NoData, None; }
      var e := ring.Get();
      return e.status, Some(e.data);
    }

    method ReadLatest() returns (status: ReadStatus, data: Option<D>)
      requires Valid()
      modifies ring
      ensures Valid() && Waiting() == []
      ensures var w := old(Waiting());
        if w == [] then status == NoData && data == None
        else data.Some? && SampleEnvelope(data.value, status) == w[|w| - 1]
    {
      if ring.IsEmpty() { return NoData, None; }
      var e := ring.Back(0);
      ring.Clear();
      return e.status, Some(e.data);
    }

    method ReadUpToN(n: nat) returns (samples: seq<SampleEnvelope<D>>)
      requires Valid()
      modifies ring
      ensures Valid()
      ensures var k := Min(n, |old(Waiting())|);
        samples == old(Waiting())[..k] && Waiting() == old(Waiting())[k..]
    {
      samples := [];
      if ring.IsEmpty() { return; }
      var size := ring.Size();
      var samplesToRead := Min(size, n);
      var i := 0;
      while i < samplesToRead
        invariant 0 <= i <= samplesToRead && Valid()
        invariant samples == old(Waiting())[..i] && Waiting() == old(Waiting())[i..]
      {
        var e := ring.Get();
        samples := samples + [e];
        i := i + 1;
      }
    }

    /** A sample that has just been taken always fits back in. */
    method PutBack(sample: SampleEnvelope<D>)
      requires Valid() && |Waiting()| < ring.maxSize
      modifies ring, ring.buffer
      ensures Valid() && Waiting() == old(Waiting()) + [sample]
    {
      ring.Push(sample);
    }

    method TakeOne() returns (sample: SampleEnvelope<D>)
      requires Valid() && Waiting() != []
      modifies ring
      ensures Valid() && sample == old(Waiting())[0] && Waiting() == old(Waiting())[1..]
      ensures |Waiting()| < ring.maxSize
    {
      sample := ring.Get();
    }

    /** Moves the oldest `count` samples behind the others. */
    method Turn(count: nat)
      requires Valid() && count <= |Waiting()|
      modifies ring, ring.buffer
      ensures Valid() && Waiting() == old(Waiting())[count..] + old(Waiting())[..count]
    {
      ghost var w := Waiting();
      var i := 0;
      while i < count
        invariant 0 <= i <= count && Valid() && Waiting() == w[i..] + w[..i]
      {
        TurnedOnce(w, i);
        var sample := TakeOne();
        PutBack(sample);
        i := i + 1;
      }
    }

    /** Takes the oldest sample and puts it back unless it is equal to the key; the queue has been turned `i` times. */
    method TakeIfEqual(key: D, ghost w: seq<SampleEnvelope<D>>, ghost i: nat) returns (sample: SampleEnvelope<D>)
      requires Valid() && i < |w| && Waiting() == w[i..] + w[..i]
      modifies ring, ring.buffer
      ensures Valid() && sample == w[i]
      ensures Waiting() == w[i + 1..] + w[..if sample.data == key then i else i + 1]
    {
      TurnedOnce(w, i);
      sample := TakeOne();
      if sample.data != key { PutBack(sample); }
    }

    /** Turns the queue until a sample equal to the key comes up, which is taken out. */
    method Search(key: D) returns (matchingItem: Option<SampleEnvelope<D>>, foundIdx: nat)
      requires Valid()
      modifies ring, ring.buffer
      ensures Valid()
      ensures var w := old(Waiting());
        && Misses(w, key, foundIdx)
        && (matchingItem.None? ==> foundIdx == |w| && Waiting() == w)
        && (matchingItem.Some? ==>
              && foundIdx < |w| && matchingItem.value == w[foundIdx] && w[foundIdx].data == key
              && Waiting() == w[foundIdx + 1..] + w[..foundIdx])
    {
      ghost var w := Waiting();
      TurnedRound(w);
      matchingItem, foundIdx := None, 0;
      var bufSize := ring.Size();
      var i := 0;
      while i < bufSize
        invariant 0 <= foundIdx == i <= bufSize == |w| && Valid() && matchingItem.None?
        invariant Misses(w, key, foundIdx)
        invariant Waiting() == w[i..] + w[..i]
      {
        var sample := TakeIfEqual(key, w, i);
        if sample.data == key {
          matchingItem := Some(sample);
          return;
        }
        MissesOneMore(w, key, foundIdx);
        foundIdx := foundIdx + 1;
        i := i + 1;
      }
    }

    /** Takes out the first sample equal to the key by turning the queue once around; the rest keep their order. */
    method ReadInstance(key: D) returns (status: ReadStatus, data: Option<D>)
      requires Valid()
      modifies ring, ring.buffer
      ensures Valid()
      ensures var w := old(Waiting()); var i := FirstMatch(w, key);
        if i == |w| then status == NoData && data == None && Waiting() == w
        else status == w[i].status && data == Some(key) && Waiting() == w[..i] + w[i + 1..]
    {
      if ring.IsEmpty() { return NoData, None; }
      ghost var w := Waiting();
      var bufSize := ring.Size();
      var matchingItem, foundIdx := Search(key);
      FirstMatchUnique(w, key, foundIdx);
      Turn(bufSize - (if matchingItem.Some? then foundIdx + 1 else bufSize));
      if matchingItem.Some? {
        return matchingItem.value.status, Some(matchingItem.value.data);
      } else {
        return NoData, None;
      }
    }
  }
}
