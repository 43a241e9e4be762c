/** When a tree of processors is resumed at the right member although addresses hold only 16 bits for a
    position, and what happens when it is not. */
module ChainWidths {
  import opened Common
  import opened ChainSpec
  import opened ChainResume
  import opened ProcessorChains

  /** The positions that are read back from the 16 bits stored of them: the first 32768, and the last 32768
      of 32 bits. */
  predicate Back(i: nat) {
    i <= 32767 || 0xFFFF_8000 <= i <= 0xFFFF_FFFF
  }

  lemma {:induction false} BackExactly(i: nat)
    ensures Position([ToShort(i)]) == i <==> Back(i)
  {
  }

  ghost predicate LeadsBack(path: seq<nat>) {
    forall i :: 0 <= i < |path| ==> Back(path[i])
  }

  predicate LeafAt(t: Tree, path: seq<nat>) {
    if path == [] then t.Leaf?
    else t.Chain? && path[0] < |t.kids| && LeafAt(t.kids[path[0]], path[1..])
  }

  // ----- the same route -----

  /** Two addresses that give the same position at each step. */
  ghost predicate SameRoute(a: seq<int>, b: seq<int>) {
    |a| == |b| && forall i :: 0 <= i < |a| ==> Position([a[i]]) == Position([b[i]])
  }

  lemma {:induction false} SameRouteStep(a: seq<int>, b: seq<int>)
    requires SameRoute(a, b)
    ensures Position(a) == Position(b) && SameRoute(Popped(a), Popped(b))
  {
    if a != [] {
      assert Position(a) == Position([a[|a| - 1]]) && Position(b) == Position([b[|b| - 1]]);
    }
  }

  ghost predicate SameRun(o: Outcome, p: Outcome) {
    o.trace == p.trace && o.action == p.action && o.path == p.path && SameRoute(o.rest, p.rest)
  }

  lemma {:induction false} SameRouteRuns(t: Tree, a: seq<int>, b: seq<int>, trace: seq<int>, act: Behaviour)
    requires SameRoute(a, b)
    ensures SameRun(Run(t, a, trace, act), Run(t, b, trace, act))
    decreases t, 0
  {
    hide SameRoute;
    SameRouteStep(a, b);
    if t.Chain? && 0 <= Position(a) < |t.kids| {
      SameRouteRunsFrom(t.kids, Position(a), Popped(a), Popped(b), trace, act);
    }
  }

  lemma {:induction false} SameRouteRunsFrom(kids: seq<Tree>, i: nat, a: seq<int>, b: seq<int>, trace: seq<int>, act: Behaviour)
    requires i < |kids| && SameRoute(a, b)
    ensures SameRun(RunFrom(kids, i, a, trace, act), RunFrom(kids, i, b, trace, act))
    decreases kids, |kids| - i
  {
    hide SameRoute;
    SameRouteRuns(kids[i], a, b, trace, act);
    var o, p := Run(kids[i], a, trace, act), Run(kids[i], b, trace, act);
    if o.action == Continue && i + 1 < |kids| {
      SameRouteRunsFrom(kids, i + 1, o.rest, p.rest, o.trace, act);
    }
  }

  lemma {:induction false} StoredRoute(path: seq<nat>)
    requires LeadsBack(path)
    ensures SameRoute(StoredAddress(path), AddressOf(path))
  {
    if path != [] {
      assert LeadsBack(path[1..]) by {
        forall i | 0 <= i < |path[1..]|
          ensures Back(path[1..][i])
        {
          assert path[1..][i] == path[i + 1];
        }
      }
      StoredRoute(path[1..]);
      BackExactly(path[0]);
      hide ToShort;
      assert Back(path[0]);
      assert Position([path[0] as int]) == path[0];
    }
  }

  /** A tree all of whose leaves are at paths that lead back. */
  ghost predicate Recoverable(t: Tree) {
    forall path :: LeafAt(t, path) ==> LeadsBack(path)
  }

  lemma {:induction false} WaitingIsLeaf(t: Tree, address: seq<int>, trace: seq<int>, act: Behaviour)
    requires Run(t, address, trace, act).action == WaitingForEvent
    ensures LeafAt(t, Run(t, address, trace, act).path)
    decreases t, 0
  {
    if t.Chain? {
      WaitingIsLeafFrom(t.kids, Position(address), Popped(address), trace, act);
    }
  }

  lemma {:induction false} WaitingIsLeafFrom(kids: seq<Tree>, i: nat, address: seq<int>, trace: seq<int>, act: Behaviour)
    requires i < |kids| && RunFrom(kids, i, address, trace, act).action == WaitingForEvent
    ensures LeafAt(Chain(kids), RunFrom(kids, i, address, trace, act).path)
    decreases kids, |kids| - i
  {
    var o := Run(kids[i], address, trace, act);
    if o.action == WaitingForEvent {
      WaitingIsLeaf(kids[i], address, trace, act);
      assert ([i] + o.path)[1..] == o.path;
    } else {
      WaitingIsLeafFrom(kids, i + 1, o.rest, o.trace, act);
    }
  }

  lemma {:induction false} RecoverableSession(t: Tree, a: seq<int>, b: seq<int>, trace: seq<int>, wakeups: nat, act: Behaviour)
    requires Recoverable(t) && SameRoute(a, b)
    ensures StoredSession(t, a, trace, wakeups, act) == Session(t, b, trace, wakeups, act)
    decreases wakeups
  {
    hide SameRoute;
    SameRouteRuns(t, a, b, trace, act);
    var o, p := Run(t, a, trace, act), Run(t, b, trace, act);
    if o.action == WaitingForEvent && wakeups > 0 {
      WaitingIsLeaf(t, a, trace, act);
      StoredRoute(o.path);
      RecoverableSession(t, StoredAddress(o.path), AddressOf(o.path), o.trace, wakeups - 1, act);
    }
  }

  /** If the positions on the way to every leaf are found again, suspending and resuming at stored addresses
      equals one uninterrupted run. */
  lemma {:induction false} RecoverableIsPatience(t: Tree, trace: seq<int>, wakeups: nat, act: Behaviour)
    requires Recoverable(t)
    ensures StoredSession(t, [], trace, wakeups, act) == Patient(t, trace, wakeups, act)
  {
    RecoverableSession(t, [], [], trace, wakeups, act);
    ResumeIsPatience(t, trace, wakeups, act);
  }

  // ----- one path, all trees -----

  /** Resumption from the address stored at `path` is that from the path itself, in this tree. */
  ghost predicate ResumesRight(t: Tree, path: seq<nat>, trace: seq<int>, act: Behaviour) {
    var o, p := Run(t, StoredAddress(path), trace, act), Run(t, AddressOf(path), trace, act);
    o.trace == p.trace && o.action == p.action && o.path == p.path
  }

  function Calm(): Behaviour {
    (trace, id) => Continue
  }

  /** The smallest tree with a leaf at `path`: on each level the members before the path are leaves. */
  function Comb(path: seq<nat>): Tree {
    if path == [] then Leaf(0) else Chain(seq(path[0], _ => Leaf(0)) + [Comb(path[1..])])
  }

  lemma {:induction false} CombHasLeaf(path: seq<nat>)
    ensures LeafAt(Comb(path), path)
  {
    if path != [] {
      CombHasLeaf(path[1..]);
    }
  }

  lemma {:induction false} CombRun(path: seq<nat>, trace: seq<int>)
    ensures var o := Run(Comb(path), AddressOf(path), trace, Calm());
            |o.trace| == |trace| + 1 && o.action == Continue
  {
    if path != [] {
      CombRun(path[1..], trace);
      FirstStep(path);
    }
  }

  lemma {:induction false} CalmGrows(t: Tree, address: seq<int>, trace: seq<int>)
    ensures var o := Run(t, address, trace, Calm());
            |o.trace| >= |trace| && o.action == Continue
    decreases t, 0
  {
    if t.Chain? && 0 <= Position(address) < |t.kids| {
      CalmGrowsFrom(t.kids, Position(address), Popped(address), trace);
    }
  }

  lemma {:induction false} CalmGrowsFrom(kids: seq<Tree>, i: nat, address: seq<int>, trace: seq<int>)
    requires i < |kids|
    ensures var o := RunFrom(kids, i, address, trace, Calm());
            |o.trace| >= |trace| && o.action == Continue
    decreases kids, |kids| - i
  {
    CalmGrows(kids[i], address, trace);
    if i + 1 < |kids| {
      var o := Run(kids[i], address, trace, Calm());
      CalmGrowsFrom(kids, i + 1, o.rest, o.trace);
    }
  }

  /** Every leaf from position `i` on adds to the trace. */
  lemma {:induction false} LeavesCounted(n: nat, last: Tree, i: nat, address: seq<int>, trace: seq<int>)
    requires i <= n
    ensures var kids := seq(n, _ => Leaf(0)) + [last];
            |RunFrom(kids, i, address, trace, Calm()).trace| >= |trace| + n - i
    decreases n - i
  {
    var kids := seq(n, _ => Leaf(0)) + [last];
    if i < n {
      assert kids[i] == Leaf(0);
      LeavesCounted(n, last, i + 1, address, trace + [0]);
    } else {
      CalmGrows(last, address, trace);
    }
  }

  lemma {:induction false} BackIsFar(i: nat)
    requires !Back(i)
    ensures Position([ToShort(i)]) > i || 0 <= Position([ToShort(i)]) <= i - 0x1_0000
  {
  }

  lemma {:induction false} CombMissed(path: seq<nat>, trace: seq<int>)
    requires !LeadsBack(path)
    ensures |Run(Comb(path), StoredAddress(path), trace, Calm()).trace| != |trace| + 1
  {
    var address := StoredAddress(path);
    var rest := StoredAddress(path[1..]);
    assert address == rest + [ToShort(path[0])];
    BackExactly(path[0]);
    assert Popped(address) == rest && Position(address) == Position([ToShort(path[0])]);
    if Back(path[0]) {
      assert !LeadsBack(path[1..]) by {
        var i :| 0 <= i < |path| && !Back(path[i]);
        assert path[1..][i - 1] == path[i];
      }
      CombMissed(path[1..], trace);
      hide ToShort;
      var kids := Comb(path).kids;
      assert kids[path[0]] == Comb(path[1..]);
      CalmGrows(Comb(path[1..]), rest, trace);
    } else {
      BackIsFar(path[0]);
      hide ToShort, Back;
      var at := Position(address);
      if at <= path[0] {
        LeavesCounted(path[0], Comb(path[1..]), at, rest, trace);
      }
    }
  }

  lemma {:induction false} RightIfLeadsBack(t: Tree, path: seq<nat>, trace: seq<int>, act: Behaviour)
    requires LeadsBack(path)
    ensures ResumesRight(t, path, trace, act)
  {
    StoredRoute(path);
    SameRouteRuns(t, StoredAddress(path), AddressOf(path), trace, act);
    hide SameRoute;
  }

  /** The leaves at `path` are resumed rightly, in every tree that has one and whatever it does, if and only if
      every position on the path is found again from 16 bits. */
  lemma {:induction false} ResumesRightExactly(path: seq<nat>)
    ensures (forall t, trace, act :: LeafAt(t, path) ==> ResumesRight(t, path, trace, act)) <==> LeadsBack(path)
  {
    if LeadsBack(path) {
      forall t, trace, act | LeafAt(t, path)
        ensures ResumesRight(t, path, trace, act)
      {
        RightIfLeadsBack(t, path, trace, act);
      }
    } else {
      CombHasLeaf(path);
      CombMissed(path, []);
      CombRun(path, []);
      hide LeadsBack;
      assert !ResumesRight(Comb(path), path, [], Calm());
    }
  }

  // ----- one chain, whole sessions -----

  function Flat(n: nat): seq<Tree> {
    seq(n, _ => Leaf(0))
  }

  /** Waits once, at the leaf that is visited when `p` leaves have been. */
  function WaitsAt(p: nat): Behaviour {
    (trace, id) => if |trace| == p then WaitingForEvent else Continue
  }

  function Naughts(n: nat): (s: seq<int>)
    ensures |s| == n && forall x :: x in s ==> x == 0
  {
    seq(n, _ => 0)
  }

  lemma {:induction false} NaughtsMore(n: nat)
    ensures Naughts(n) + [0] == Naughts(n + 1)
  {
  }

  lemma {:induction false} FlatUpTo(p: nat, i: nat)
    requires i <= p
    ensures var o := RunFrom(Flat(p + 1), i, [], Naughts(i), WaitsAt(p));
            o.trace == Naughts(p + 1) && o.action == WaitingForEvent && o.path == [p]
    decreases p - i
  {
    NaughtsMore(i);
    assert Flat(p + 1)[i] == Leaf(0);
    if i < p {
      FlatUpTo(p, i + 1);
    }
  }

  lemma {:induction false} FlatOnward(p: nat, i: nat, n: nat, address: seq<int>)
    requires i <= p < n
    ensures var o := RunFrom(Flat(p + 1), i, address, Naughts(n), WaitsAt(p));
            o.trace == Naughts(n + p + 1 - i) && o.action == Continue
    decreases p - i
  {
    NaughtsMore(n);
    assert Flat(p + 1)[i] == Leaf(0);
    if i < p {
      FlatOnward(p, i + 1, n + 1, address);
    }
  }

  lemma {:induction false} FlatPatient(p: nat, i: nat)
    requires i <= p
    ensures PatientFrom(Flat(p + 1), i, Naughts(i), 1, WaitsAt(p)) == Result(Naughts(p + 2), Continue, 0)
    decreases p - i
  {
    NaughtsMore(i);
    NaughtsMore(i + 1);
    assert Flat(p + 1)[i] == Leaf(0);
    if i < p {
      FlatPatient(p, i + 1);
    } else {
      assert Patient(Leaf(0), Naughts(p + 1), 0, WaitsAt(p)) == Result(Naughts(p + 2), Continue, 0);
    }
  }

  /** A chain whose last member waits once continues rightly if and only if that member's position is found
      again. */
  lemma {:induction false} FlatResumesExactly(p: nat)
    ensures StoredSession(Chain(Flat(p + 1)), [], [], 1, WaitsAt(p)) == Patient(Chain(Flat(p + 1)), [], 1, WaitsAt(p))
       <==> Back(p)
  {
    var t, act := Chain(Flat(p + 1)), WaitsAt(p);
    assert Naughts(0) == [];
    FlatUpTo(p, 0);
    FlatPatient(p, 0);
    var at := Position([ToShort(p)]);
    assert StoredAddress([p]) == [ToShort(p)];
    BackExactly(p);
    hide ToShort;
    assert StoredSession(t, [], [], 1, act) == StoredSession(t, [ToShort(p)], Naughts(p + 1), 0, act);
    if 0 <= at <= p {
      FlatOnward(p, at, p + 1, []);
      assert |Naughts(p + 1 + p + 1 - at)| == |Naughts(p + 2)| <==> at == p;
    } else {
      assert |Naughts(p + 1)| != |Naughts(p + 2)|;
    }
  }

  /** With 32769 members and the last of them waiting, the chain is resumed past its end: the member that was
      woken is not visited again. */
  lemma {:induction false} LastMemberIsSkipped()
    ensures StoredSession(Chain(Flat(32769)), [], [], 1, WaitsAt(32768)).trace == Naughts(32769)
    ensures Patient(Chain(Flat(32769)), [], 1, WaitsAt(32768)).trace == Naughts(32770)
  {
    assert Naughts(0) == [];
    FlatUpTo(32768, 0);
    FlatPatient(32768, 0);
    assert StoredAddress([32768]) == [-32768];
  }

  // ----- how wide a chain may be -----

  ghost predicate WidthAtMost(t: Tree, w: nat) {
    t.Chain? ==> |t.kids| <= w && forall i :: 0 <= i < |t.kids| ==> WidthAtMost(t.kids[i], w)
  }

  ghost predicate SessionRight(t: Tree, trace: seq<int>, wakeups: nat, act: Behaviour) {
    StoredSession(t, [], trace, wakeups, act) == Patient(t, trace, wakeups, act)
  }

  lemma {:induction false} NarrowLeadsBack(t: Tree, w: nat, path: seq<nat>)
    requires WidthAtMost(t, w) && w <= 32768 && LeafAt(t, path)
    ensures LeadsBack(path)
    decreases t
  {
    if path != [] {
      NarrowLeadsBack(t.kids[path[0]], w, path[1..]);
      forall i | 0 <= i < |path|
        ensures Back(path[i])
      {
        if i > 0 { assert path[i] == path[1..][i - 1]; }
      }
    }
  }

  /** Every tree with chains of up to `w` members is resumed rightly, whatever its processors do, if and only if
      `w` is at most 32768. */
  lemma {:induction false} WidthIsSharp(w: nat)
    ensures (forall t, trace, wakeups, act :: WidthAtMost(t, w) ==> SessionRight(t, trace, wakeups, act)) <==> w <= 32768
  {
    if w <= 32768 {
      forall t, trace, wakeups: nat, act | WidthAtMost(t, w)
        ensures SessionRight(t, trace, wakeups, act)
      {
        forall path | LeafAt(t, path)
          ensures LeadsBack(path)
        {
          NarrowLeadsBack(t, w, path);
        }
        RecoverableIsPatience(t, trace, wakeups, act);
      }
    } else {
      var t := Chain(Flat(32769));
      assert WidthAtMost(t, w);
      FlatResumesExactly(32768);
      assert !SessionRight(t, [], 1, WaitsAt(32768));
    }
  }
}
