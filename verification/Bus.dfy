/**
 The world a component talks to: a clock that never goes back, a source of fresh identifiers, and a topic onto which
 samples are sent or disposed. Any send may fail; a failed send puts nothing on the topic.
 */
module Bus {
  import opened Common

  /** There is always an identifier left to issue. */
  lemma Unused(s: set<Guid>) returns (b: Guid)
    ensures b !in s && forall g :: g in s ==> g < b
  {
    if s == {} {
      b := NIL_GUID;
    } else {
      var g := SomeMember(s);
      b := Unused(s - {g});
      if b <= g { b := g + 1; }
      assert forall h :: h in s ==> h == g || h in s - {g};
    }
  }

  class Participant<T> {
    var now: DateTime
    var issued: set<Guid>
    var published: seq<SampleEnvelope<T>>

    constructor ()
      ensures issued == {NIL_GUID} && published == []
    {
      now := 0;
      issued := {NIL_GUID};
      published := [];
    }

    method GetTimestamp() returns (t: DateTime)
      modifies this`now
      ensures old(now) <= t == now
    {
      var reading: DateTime := *;
      if now < reading { now := reading; }
      t := now;
    }

    method GenerateGuid() returns (g: Guid)
      modifies this`issued
      ensures g !in old(issued) && issued == old(issued) + {g}
    {
      ghost var b := Unused(issued);
      g :| g !in issued;
      issued := issued + {g};
    }

    /** An identifier that came from elsewhere is in use, so it is not issued again. */
    method Note(g: Guid)
      modifies this`issued
      ensures issued == old(issued) + {g}
    {
      issued := issued + {g};
    }

    method Send(data: T) returns (status: SendStatus)
      modifies this`published
      ensures status == SendSuccess || status == SendError
      ensures published == old(published) +
        if status == SendSuccess then [SampleEnvelope(data, ReadSuccess)] else []
    {
      status := Post(SampleEnvelope(data, ReadSuccess));
    }

    method Dispose(data: T) returns (status: SendStatus)
      modifies this`published
      ensures status == SendSuccess || status == SendError
      ensures published == old(published) + if status == SendSuccess then [SampleEnvelope(data, Disposed)] else []
    {
      status := Post(SampleEnvelope(data, Disposed));
    }

    method Post(sample: SampleEnvelope<T>) returns (status: SendStatus)
      modifies this`published
      ensures status == SendSuccess || status == SendError
      ensures published == old(published) + if status == SendSuccess then [sample] else []
    {
      var delivered: bool := *;
      status := if delivered then SendSuccess else SendError;
      if delivered { published := published + [sample]; }
    }
  }

  /** The receiving end of a topic: samples wait in the order they arrived. */
  class SampleQueue<T> {
    var queue: seq<SampleEnvelope<T>>

    constructor ()
      ensures queue == []
    {
      queue := [];
    }

    method ReadUpToN(n: nat) returns (buffer: seq<SampleEnvelope<T>>)
      modifies this
      ensures var k := Min(n, |old(queue)|); buffer == old(queue)[..k] && queue == old(queue)[k..]
    {
      var k := Min(n, |queue|);
      buffer := queue[..k];
      queue := queue[k..];
    }
  }
}
