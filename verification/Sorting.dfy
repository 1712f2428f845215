/** Messages in ascending sequence order. */
module Sorting {
  import opened Wire

  ghost predicate Ascending(ms: seq<Message>) {
    forall p, q | 0 <= p < q < |ms| :: ms[p].hdr.sequenceNumber < ms[q].hdr.sequenceNumber
  }

  ghost predicate DistinctSequence(ms: seq<Message>) {
    forall p, q | 0 <= p < q < |ms| :: ms[p].hdr.sequenceNumber != ms[q].hdr.sequenceNumber
  }

  function LastSequence(ms: seq<Message>): int {
    if ms == [] then 0 else ms[|ms| - 1].hdr.sequenceNumber
  }

  /** Two ascending lists with the same members are the same list. */
  lemma {:induction false} AscendingUnique(a: seq<Message>, b: seq<Message>)
    requires Ascending(a) && Ascending(b)
    requires forall m :: m in a <==> m in b
    ensures a == b
  {
    assert a != [] ==> a[0] in b;
    assert b != [] ==> b[0] in a;
    if a != [] {
      var x, y := a[|a| - 1], b[|b| - 1];
      assert x in b && y in a;
      assert x == y;
      var a', b' := a[..|a| - 1], b[..|b| - 1];
      assert a == a' + [x] && b == b' + [y];
      forall m
        ensures m in a' <==> m in b'
      {
        assert m in a' ==> m in b && m != x;
        assert m in b' ==> m in a && m != y;
      }
      AscendingUnique(a', b');
    }
  }

  /** The std::sort of tl_ring_pull, on records whose sequence numbers differ. */
  method SortBySequence(ms: seq<Message>) returns (sorted: seq<Message>)
    requires DistinctSequence(ms)
    ensures Ascending(sorted) && |sorted| == |ms|
    ensures forall m :: m in sorted <==> m in ms
  {
    sorted := [];
    for i := 0 to |ms|
      invariant Ascending(sorted) && |sorted| == i
      invariant forall m :: m in sorted <==> m in ms[..i]
    {
      assert ms[..i + 1] == ms[..i] + [ms[i]];
      assert forall m | m in ms[..i] :: m.hdr.sequenceNumber != ms[i].hdr.sequenceNumber;
      sorted := Insert(sorted, ms[i]);
    }
    assert ms[..|ms|] == ms;
  }

  method Insert(ms: seq<Message>, x: Message) returns (r: seq<Message>)
    requires Ascending(ms)
    requires forall m | m in ms :: m.hdr.sequenceNumber != x.hdr.sequenceNumber
    ensures Ascending(r) && |r| == |ms| + 1
    ensures forall m :: m in r <==> m in ms || m == x
  {
    var p := |ms|;
    while p > 0 && x.hdr.sequenceNumber < ms[p - 1].hdr.sequenceNumber
      invariant 0 <= p <= |ms|
      invariant forall q | p <= q < |ms| :: x.hdr.sequenceNumber < ms[q].hdr.sequenceNumber
    {
      p := p - 1;
    }
    assert forall q | 0 <= q < p :: ms[q] in ms && ms[q].hdr.sequenceNumber < x.hdr.sequenceNumber;
    r := Splice(ms, p, x);
    SpliceMembers(ms, p, x);
    SpliceAscends(ms, p, x);
  }

  function Splice(ms: seq<Message>, p: nat, x: Message): seq<Message>
    requires p <= |ms|
  {
    ms[..p] + [x] + ms[p..]
  }

  lemma SpliceMembers(ms: seq<Message>, p: nat, x: Message)
    requires p <= |ms|
    ensures forall m :: m in Splice(ms, p, x) <==> m in ms || m == x
  {
    var r := Splice(ms, p, x);
    assert r[p] == x;
    forall m | m in ms
      ensures m in r
    {
      var q :| 0 <= q < |ms| && ms[q] == m;
      assert r[if q < p then q else q + 1] == m;
    }
  }

  lemma SpliceAscends(ms: seq<Message>, p: nat, x: Message)
    requires p <= |ms| && Ascending(ms)
    requires forall q | 0 <= q < p :: ms[q].hdr.sequenceNumber < x.hdr.sequenceNumber
    requires forall q | p <= q < |ms| :: x.hdr.sequenceNumber < ms[q].hdr.sequenceNumber
    ensures Ascending(Splice(ms, p, x))
  {
    var r := Splice(ms, p, x);
    assert forall q | 0 <= q < |r| :: r[q] == if q < p then ms[q] else if q == p then x else ms[q - 1];
  }
}
