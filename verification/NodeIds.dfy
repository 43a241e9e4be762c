/** The 128-bit identifiers of RELOAD nodes, their order, and the choice of the next hop among the fingers. */
module NodeIds {
  import opened Common

  datatype NodeId = NodeId(high: nat, low: nat)

  const WORD: nat := 0x1_0000_0000_0000_0000

  predicate Less(a: NodeId, b: NodeId) {
    a.high < b.high || (a.high == b.high && a.low < b.low)
  }

  /** Equality as the source defines it, by the order. */
  predicate Same(a: NodeId, b: NodeId) {
    !Less(a, b) && !Less(b, a)
  }

  predicate AtMost(a: NodeId, b: NodeId) {
    Same(a, b) || Less(a, b)
  }

  /** The place of an identifier on the ring. */
  function Number(a: NodeId): nat {
    a.high * WORD + a.low
  }

  /** On 128-bit identifiers the order is that of the numbers, hence strict and total, and its equality is
      identity. */
  lemma {:induction false} OrderIsNumeric(a: NodeId, b: NodeId)
    requires a.low < WORD && b.low < WORD
    ensures Less(a, b) <==> Number(a) < Number(b)
    ensures Same(a, b) <==> a == b
    ensures AtMost(a, b) <==> Number(a) <= Number(b)
  {
    if a.high < b.high {
      assert Number(b) >= (a.high + 1) * WORD;
    } else if b.high < a.high {
      assert Number(a) >= (b.high + 1) * WORD;
    }
  }

  /** A finger table lists its nodes in strictly ascending order, as a set of the source's does. */
  ghost predicate Ascending(fs: seq<NodeId>) {
    forall i, j :: 0 <= i < j < |fs| ==> Less(fs[i], fs[j])
  }

  /** The circular predecessor: the greatest finger not above the target, or the greatest of all if every one
      is above it. */
  ghost predicate IsPredecessor(fs: seq<NodeId>, target: NodeId, r: NodeId) {
    && r in fs
    && if exists f :: f in fs && AtMost(f, target)
       then AtMost(r, target) && forall f :: f in fs && AtMost(f, target) ==> AtMost(f, r)
       else forall f :: f in fs ==> AtMost(f, r)
  }

  function NextHop(fs: seq<NodeId>, target: NodeId): NodeId
    requires fs != []
  {
    if |fs| == 1 || (AtMost(fs[0], target) && Less(target, fs[1])) then fs[0] else NextHop(fs[1..], target)
  }

  lemma {:induction false} NextHopIsPredecessor(fs: seq<NodeId>, target: NodeId)
    requires fs != [] && Ascending(fs)
    ensures IsPredecessor(fs, target, NextHop(fs, target))
  {
    if |fs| > 1 {
      if AtMost(fs[0], target) && Less(target, fs[1]) {
        assert fs[0] in fs;
        forall f | f in fs && AtMost(f, target)
          ensures AtMost(f, fs[0])
        {
          var i :| 0 <= i < |fs| && fs[i] == f;
        }
      } else {
        var rest, r := fs[1..], NextHop(fs[1..], target);
        NextHopIsPredecessor(rest, target);
        assert forall f :: f in fs <==> f == fs[0] || f in rest;
        assert AtMost(fs[0], target) ==> fs[1] in rest && AtMost(fs[1], target);
        assert Less(fs[0], r) by {
          var i :| 0 <= i < |rest| && rest[i] == r;
          assert fs[i + 1] == r;
        }
      }
    }
  }

  method FindNextHop(fs: seq<NodeId>, target: NodeId) returns (r: NodeId)
    requires fs != [] && Ascending(fs)
    ensures r == NextHop(fs, target) && IsPredecessor(fs, target, r)
  {
    NextHopIsPredecessor(fs, target);
    var it := 0;
    while it + 1 < |fs|
      invariant 0 <= it < |fs| && NextHop(fs[it..], target) == NextHop(fs, target)
    {
      assert fs[it..][1..] == fs[it + 1..];
      if AtMost(fs[it], target) && Less(target, fs[it + 1]) {
        return fs[it];
      }
      it := it + 1;
    }
    r := fs[it];
  }
}
