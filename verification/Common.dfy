/**
 Types shared by every component: identifiers, time, and the outcomes of bus operations.

 Throughout, a predicate over a whole state may bind its conjunction to a variable and return that. It means the same,
 but is passed on and proved as one fact, where the bare conjunction would be taken apart at every call.
 */
module Common {

  datatype Option<+T> = None | Some(value: T)

  /** A 128-bit RFC 4122 identifier, read as a number. Only equality and order are used. */
  type Guid = int
  const NIL_GUID: Guid := 0

  /** A UMAA DateTime, as a count of ticks. */
  type DateTime = int

  datatype SendStatus = SendSuccess | SendError | SendNotImplemented

  datatype ReadStatus =
    | ReadSuccess
    | ReadError
    | NoData
    | Disposed
    | InvalidData
    | ReadNotImplemented

  /** A sample together with the status the reader reports for it. */
  datatype SampleEnvelope<+T> = SampleEnvelope(data: T, status: ReadStatus)

  function Reverse<T>(s: seq<T>): (r: seq<T>)
    ensures |r| == |s|
    ensures forall i :: 0 <= i < |s| ==> r[i] == s[|s| - 1 - i]
  {
    seq(|s|, i requires 0 <= i < |s| => s[|s| - 1 - i])
  }

  ghost predicate NoDuplicates<T>(s: seq<T>) {
    forall i, j :: 0 <= i < j < |s| ==> s[i] != s[j]
  }

  function Min(a: int, b: int): int { if a < b then a else b }

  lemma SomeMember<T>(s: set<T>) returns (x: T)
    requires s != {}
    ensures x in s
  {
    x :| x in s;
  }

  lemma FewerMembers<T>(s: set<T>, x: T)
    requires x in s
    ensures |s - {x}| < |s|
  {
  }

  lemma SameSet<T>(s: set<T>, t: set<T>)
    requires forall x :: x in s <==> x in t
    ensures s == t
  {
  }

  /** Maps keyed by identifier are walked in ascending order. */
  lemma SmallestExists(s: set<Guid>) returns (m: Guid)
    requires s != {}
    ensures m in s && forall g :: g in s ==> m <= g
    decreases |s|
  {
    m := SomeMember(s);
    if s - {m} != {} {
      var n := SmallestExists(s - {m});
      assert forall g :: g in s ==> g == m || g in s - {m};
      m := Min(n, m);
    } else {
      forall g | g in s ensures g == m { assert g in s - {m} || g == m; }
    }
  }

  /** The smallest identifier, which a map ordered by identifier visits first. */
  function Smallest(s: set<Guid>): (m: Guid)
    requires s != {}
    ensures m in s && forall g :: g in s ==> m <= g
  {
    SmallestIs(s);
    var m :| m in s && forall g :: g in s ==> m <= g;
    m
  }

  lemma SmallestIs(s: set<Guid>)
    requires s != {}
    ensures exists m :: m in s && forall g :: g in s ==> m <= g
  {
    var m := SmallestExists(s);
  }

  function Ascending(s: set<Guid>): (order: seq<Guid>)
    ensures forall i, j :: 0 <= i < j < |order| ==> order[i] < order[j]
    ensures forall g :: g in order <==> g in s
    decreases |s|
  {
    if s == {} then []
    else
      var m := Smallest(s);
      FewerMembers(s, m);
      [m] + Ascending(s - {m})
  }
}
