/** The relay ports of the TURN server: which are taken, and the circular scans that pick the next one. */
module TurnPorts {
  import opened Common

  const PORT_RANGE_MIN: nat := 49152
  const PORT_RANGE_MAX: nat := 65535

  datatype PortState = Unallocated | Allocated | Reserved

  /** The four scans: any port, an even one, an odd one, an even one whose successor is free as well. */
  datatype Kind = AnyPort | EvenPort | OddPort | EvenPair

  /** The counter of the last port is `Narrow`, 16 bits wide, in the source; the test that wraps it to the
      start of the range is written for a `Wide` one. */
  datatype Width = Narrow | Wide

  /** A port that was never looked up is unallocated, whether or not it lies in the range. */
  function State(ports: map<int, PortState>, p: int): PortState {
    if p in ports then ports[p] else Unallocated
  }

  predicate RightParity(kind: Kind, p: int) {
    kind.AnyPort? || (kind.OddPort? <==> p % 2 == 1)
  }

  predicate Free(ports: map<int, PortState>, kind: Kind, p: int) {
    State(ports, p).Unallocated? && (kind.EvenPair? ==> State(ports, p + 1).Unallocated?)
  }

  predicate Available(ports: map<int, PortState>, kind: Kind, p: int) {
    RightParity(kind, p) && Free(ports, kind, p)
  }

  function Taken(ports: map<int, PortState>, kind: Kind, p: int): map<int, PortState> {
    if kind.EvenPair? then ports[p := Allocated][p + 1 := Reserved] else ports[p := Allocated]
  }

  // ----- the circle of ports -----

  function Base(w: Width): nat {
    if w.Narrow? then 0 else PORT_RANGE_MIN
  }

  function Size(w: Width): nat {
    PORT_RANGE_MAX + 1 - Base(w)
  }

  predicate OnCircle(w: Width, p: int) {
    Base(w) <= p <= PORT_RANGE_MAX
  }

  /** The values that the counter takes; before its first use it stands just below the range. */
  predicate CounterOk(w: Width, last: int) {
    OnCircle(w, last) || last == PORT_RANGE_MIN - 1
  }

  /** The counter after an addition of `k`, with the arithmetic of its width and the test of the source. */
  function Advanced(w: Width, last: int, k: nat): int {
    var x := if w.Narrow? then (last + k) % 0x1_0000 else last + k;
    if x > PORT_RANGE_MAX then PORT_RANGE_MIN + (x - PORT_RANGE_MAX - 1) else x
  }

  /** How far `p` lies ahead of `start` on the circle. */
  function Rank(w: Width, start: int, p: int): int {
    if p >= start then p - start else p - start + Size(w)
  }

  function At(w: Width, start: int, i: int): int {
    if start + i > PORT_RANGE_MAX then start + i - Size(w) else start + i
  }

  lemma {:induction false} AdvancedAt(w: Width, start: int, i: nat, k: nat)
    requires OnCircle(w, start) && i < Size(w) && 1 <= k <= 2
    ensures Advanced(w, At(w, start, i), k) == At(w, start, if i + k < Size(w) then i + k else i + k - Size(w))
  {
  }

  lemma {:induction false} AdvancedOnce(w: Width, last: int)
    requires CounterOk(w, last)
    ensures OnCircle(w, Advanced(w, last, 1))
  {
  }

  // ----- what a scan finds -----

  function Search(w: Width, ports: map<int, PortState>, kind: Kind, start: int, i: nat): Option<int>
    decreases Size(w) - i
  {
    if i >= Size(w) then None
    else if Available(ports, kind, At(w, start, i)) then Some(At(w, start, i))
    else Search(w, ports, kind, start, i + 1)
  }

  function First(w: Width, ports: map<int, PortState>, kind: Kind, last: int): Option<int> {
    Search(w, ports, kind, Advanced(w, last, 1), 0)
  }

  lemma {:induction false} SearchIsNearest(w: Width, ports: map<int, PortState>, kind: Kind, start: int, i: nat, q: int)
    requires OnCircle(w, start) && OnCircle(w, q) && Rank(w, start, q) >= i && Available(ports, kind, q)
    ensures var r := Search(w, ports, kind, start, i);
            r.Some? && OnCircle(w, r.value) && Available(ports, kind, r.value)
            && i <= Rank(w, start, r.value) <= Rank(w, start, q)
    decreases Size(w) - i
  {
    hide Available;
    assert At(w, start, Rank(w, start, q)) == q;
    if !Available(ports, kind, At(w, start, i)) {
      assert Rank(w, start, q) > i;
      SearchIsNearest(w, ports, kind, start, i + 1, q);
    }
  }

  lemma {:induction false} SearchFindsOnly(w: Width, ports: map<int, PortState>, kind: Kind, start: int, i: nat)
    requires OnCircle(w, start)
    ensures var r := Search(w, ports, kind, start, i);
            r.Some? ==> OnCircle(w, r.value) && Available(ports, kind, r.value)
    decreases Size(w) - i
  {
    hide Available;
    if i < Size(w) && !Available(ports, kind, At(w, start, i)) {
      SearchFindsOnly(w, ports, kind, start, i + 1);
    }
  }

  /** A scan finds a port exactly when one of its kind is available on the circle, and then it finds the
      nearest one ahead of the last port handed out. */
  lemma {:induction false} FirstIsNearest(w: Width, ports: map<int, PortState>, kind: Kind, last: int)
    requires CounterOk(w, last)
    ensures var r := First(w, ports, kind, last);
            && (r.Some? <==> exists q :: OnCircle(w, q) && Available(ports, kind, q))
            && (r.Some? ==> OnCircle(w, r.value) && Available(ports, kind, r.value)
                            && forall q :: OnCircle(w, q) && Available(ports, kind, q)
                                       ==> Rank(w, Advanced(w, last, 1), r.value) <= Rank(w, Advanced(w, last, 1), q))
  {
    hide Available, Search, Rank;
    var start := Advanced(w, last, 1);
    SearchFindsOnly(w, ports, kind, start, 0);
    forall q | OnCircle(w, q) && Available(ports, kind, q)
      ensures Search(w, ports, kind, start, 0).Some?
      ensures Rank(w, start, Search(w, ports, kind, start, 0).value) <= Rank(w, start, q)
    {
      assert Rank(w, start, q) >= 0 by { RankNonNegative(w, start, q); }
      SearchIsNearest(w, ports, kind, start, 0, q);
    }
  }

  lemma {:induction false} RankNonNegative(w: Width, start: int, q: int)
    requires OnCircle(w, start) && OnCircle(w, q)
    ensures 0 <= Rank(w, start, q) < Size(w)
  {
  }

  /** The port that a scan returns; 0 is also how a scan reports that it found nothing. */
  function Answer(w: Width, ports: map<int, PortState>, kind: Kind, last: int): int {
    var p := First(w, ports, kind, last);
    if p.Some? then p.value else 0
  }

  // ----- the narrow counter against the wide one -----

  ghost predicate SomeAvailable(ports: map<int, PortState>, kind: Kind, lo: int, hi: int) {
    exists q :: lo <= q < hi && Available(ports, kind, q)
  }

  /** What the scan is for: 0 exactly when the range is exhausted, any other answer an available port of the
      range. */
  ghost predicate Serves(ports: map<int, PortState>, kind: Kind, answer: int) {
    && (answer == 0 <==> !SomeAvailable(ports, kind, PORT_RANGE_MIN, PORT_RANGE_MAX + 1))
    && (answer != 0 ==> PORT_RANGE_MIN <= answer <= PORT_RANGE_MAX && Available(ports, kind, answer))
  }

  /** With a wide counter a scan answers 0 exactly when the range is exhausted, and otherwise a port of the
      range that was available. */
  lemma {:induction false} WideServesTheRange(ports: map<int, PortState>, kind: Kind, last: int)
    requires CounterOk(Wide, last)
    ensures Serves(ports, kind, Answer(Wide, ports, kind, last))
  {
    hide Available, First;
    FirstIsNearest(Wide, ports, kind, last);
  }

  /** The counter of the source goes on to port 0 after 65535. When the scan of a caller begins at `start`, it
      does what it is for under this condition: the search must not come upon a port below the range, unless
      that is port 0, which reads as a failure, and the range is exhausted. */
  ghost predicate NarrowServesFrom(ports: map<int, PortState>, kind: Kind, start: int) {
    var exhausted := !SomeAvailable(ports, kind, PORT_RANGE_MIN, PORT_RANGE_MAX + 1);
    if start >= PORT_RANGE_MIN then
      || SomeAvailable(ports, kind, start, PORT_RANGE_MAX + 1)
      || !SomeAvailable(ports, kind, 0, PORT_RANGE_MIN)
      || (Available(ports, kind, 0) && exhausted)
    else if SomeAvailable(ports, kind, start, PORT_RANGE_MIN) then
      start == 0 && Available(ports, kind, 0) && exhausted
    else
      !exhausted || !SomeAvailable(ports, kind, 0, start) || Available(ports, kind, 0)
  }

  /** The condition is exact, for every value that the 16-bit counter can take, before and after its wrap. */
  lemma {:induction false} NarrowServesTheRangeExactly(ports: map<int, PortState>, kind: Kind, last: nat)
    requires CounterOk(Narrow, last)
    ensures Serves(ports, kind, Answer(Narrow, ports, kind, last))
       <==> NarrowServesFrom(ports, kind, Advanced(Narrow, last, 1))
  {
    hide Available, First;
    FirstIsNearest(Narrow, ports, kind, last);
    var n := First(Narrow, ports, kind, last);
    if n.None? {
      NoneAvailable(ports, kind, 0, PORT_RANGE_MAX + 1);
    } else {
      NearestLeavesNone(ports, kind, Advanced(Narrow, last, 1), n.value);
    }
  }

  lemma {:induction false} NoneAvailable(ports: map<int, PortState>, kind: Kind, lo: int, hi: int)
    requires forall q :: OnCircle(Narrow, q) ==> !Available(ports, kind, q)
    ensures 0 <= lo <= hi <= PORT_RANGE_MAX + 1 ==> !SomeAvailable(ports, kind, lo, hi)
  {
    hide Available;
  }

  /** Nothing is available between the start of the scan and the nearest port. */
  lemma {:induction false} NearestLeavesNone(ports: map<int, PortState>, kind: Kind, start: int, p: int)
    requires OnCircle(Narrow, start) && OnCircle(Narrow, p) && Available(ports, kind, p)
    requires forall q :: OnCircle(Narrow, q) && Available(ports, kind, q) ==> Rank(Narrow, start, p) <= Rank(Narrow, start, q)
    ensures Serves(ports, kind, p) <==> NarrowServesFrom(ports, kind, start)
  {
    hide Available;
    if p >= start {
      assert !SomeAvailable(ports, kind, start, p);
    } else {
      assert !SomeAvailable(ports, kind, start, PORT_RANGE_MAX + 1) && !SomeAvailable(ports, kind, 0, p);
    }
  }

  /** With every port free, the scan that wraps is refused, and the next one hands out port 1. */
  lemma {:induction false} NarrowWrapsToPortZero()
    ensures Answer(Narrow, map[], AnyPort, PORT_RANGE_MAX) == 0
    ensures Answer(Wide, map[], AnyPort, PORT_RANGE_MAX) == PORT_RANGE_MIN
    ensures Answer(Narrow, Taken(map[], AnyPort, 0), AnyPort, 0) == 1
  {
    assert At(Narrow, 0, 0) == 0;
    assert At(Narrow, 1, 0) == 1;
  }

  // ----- states of ports -----

  function Freed(ports: map<int, PortState>, p: int): map<int, PortState> {
    if !(PORT_RANGE_MIN <= p <= PORT_RANGE_MAX) then ports
    else if p % 2 == 0 && State(ports, p + 1).Reserved? then ports[p := Unallocated][p + 1 := Unallocated]
    else ports[p := Unallocated]
  }
}
