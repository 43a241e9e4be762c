/** Suspending a tree of processors and resuming it where it stopped is the same as not stopping. */
module ChainResume {
  import opened Common
  import opened ChainSpec

  /** `address` leads to some leaf of `t`, or is empty and leads to the first. */
  predicate Fits(t: Tree, address: seq<int>) {
    address == [] || (t.Chain? && 0 <= Position(address) < |t.kids| && Fits(t.kids[Position(address)], Popped(address)))
  }

  lemma {:induction false} FirstStep(path: seq<nat>)
    requires path != []
    ensures Position(AddressOf(path)) == path[0] && Popped(AddressOf(path)) == AddressOf(path[1..])
  {
  }

  /** A run uses its return address up. */
  lemma {:induction false} AddressUsedUp(t: Tree, address: seq<int>, trace: seq<int>, act: Behaviour)
    requires Fits(t, address)
    ensures Run(t, address, trace, act).rest == []
    decreases t, 0
  {
    if t.Chain? && t.kids != [] {
      AddressUsedUpFrom(t.kids, Position(address), Popped(address), trace, act);
    }
  }

  lemma {:induction false} AddressUsedUpFrom(kids: seq<Tree>, i: nat, address: seq<int>, trace: seq<int>, act: Behaviour)
    requires i < |kids| && Fits(kids[i], address)
    ensures RunFrom(kids, i, address, trace, act).rest == []
    decreases kids, |kids| - i
  {
    AddressUsedUp(kids[i], address, trace, act);
    if i + 1 < |kids| {
      var o := Run(kids[i], address, trace, act);
      AddressUsedUpFrom(kids, i + 1, [], o.trace, act);
    }
  }

  /** The leaf that made a run wait can be found again. */
  lemma {:induction false} WaitingLeafFits(t: Tree, address: seq<int>, trace: seq<int>, act: Behaviour)
    requires Fits(t, address) && Run(t, address, trace, act).action == WaitingForEvent
    ensures Fits(t, AddressOf(Run(t, address, trace, act).path))
    decreases t, 0
  {
    if t.Chain? {
      WaitingLeafFitsFrom(t.kids, Position(address), Popped(address), trace, act);
      FirstStep(Run(t, address, trace, act).path);
    }
  }

  lemma {:induction false} WaitingLeafFitsFrom(kids: seq<Tree>, i: nat, address: seq<int>, trace: seq<int>, act: Behaviour)
    requires i < |kids| && Fits(kids[i], address)
    requires RunFrom(kids, i, address, trace, act).action == WaitingForEvent
    ensures var p := RunFrom(kids, i, address, trace, act).path;
            |p| > 0 && p[0] < |kids| && Fits(kids[p[0]], AddressOf(p[1..]))
    decreases kids, |kids| - i
  {
    var o := Run(kids[i], address, trace, act);
    AddressUsedUp(kids[i], address, trace, act);
    if o.action == WaitingForEvent {
      WaitingLeafFits(kids[i], address, trace, act);
      assert ([i] + o.path)[1..] == o.path;
    } else {
      WaitingLeafFitsFrom(kids, i + 1, [], o.trace, act);
    }
  }

  /** A session that begins in the middle of a chain. */
  function SessionFrom(kids: seq<Tree>, i: nat, address: seq<int>, trace: seq<int>, wakeups: nat, act: Behaviour): Result
    requires i < |kids|
  {
    var o := RunFrom(kids, i, address, trace, act);
    if o.action == WaitingForEvent && wakeups > 0 then Session(Chain(kids), AddressOf(o.path), o.trace, wakeups - 1, act)
    else Result(o.trace, o.action, wakeups)
  }

  lemma {:induction false} SessionIsFrom(kids: seq<Tree>, i: nat, path: seq<nat>, trace: seq<int>, wakeups: nat, act: Behaviour)
    requires i < |kids|
    ensures Session(Chain(kids), AddressOf([i] + path), trace, wakeups, act)
         == SessionFrom(kids, i, AddressOf(path), trace, wakeups, act)
  {
    FirstStep([i] + path);
    assert ([i] + path)[1..] == path;
  }

  /** What a chain does once its member `i` has finished a session with result `s`. */
  function AfterMember(kids: seq<Tree>, i: nat, s: Result, act: Behaviour): Result
    requires i < |kids|
  {
    match s.action
    case Continue => if i + 1 < |kids| then SessionFrom(kids, i + 1, [], s.trace, s.wakeups, act) else s
    case SkipThisChain => s.(action := Continue)
    case _ => s
  }

  /** However often one member of a chain suspends the whole chain, the chain only ever sees the session of
      that member, and then goes on with the next one. */
  lemma {:induction false} SessionSplits(kids: seq<Tree>, i: nat, address: seq<int>, trace: seq<int>, wakeups: nat, act: Behaviour)
    requires i < |kids| && Fits(kids[i], address)
    ensures SessionFrom(kids, i, address, trace, wakeups, act)
         == AfterMember(kids, i, Session(kids[i], address, trace, wakeups, act), act)
    decreases wakeups
  {
    var o := Run(kids[i], address, trace, act);
    AddressUsedUp(kids[i], address, trace, act);
    if o.action == WaitingForEvent && wakeups > 0 {
      WaitingLeafFits(kids[i], address, trace, act);
      SessionIsFrom(kids, i, o.path, o.trace, wakeups - 1, act);
      SessionSplits(kids, i, AddressOf(o.path), o.trace, wakeups - 1, act);
    }
  }

  lemma {:induction false} LeafSession(t: Tree, trace: seq<int>, wakeups: nat, act: Behaviour)
    requires t.Leaf?
    ensures Session(t, [], trace, wakeups, act) == Patient(t, trace, wakeups, act)
    decreases wakeups
  {
    if act(trace, t.id) == WaitingForEvent && wakeups > 0 {
      LeafSession(t, trace + [t.id], wakeups - 1, act);
    }
  }

  /** For every tree, every behaviour of its leaves and any number of wake-ups: suspending and resuming
      visits the same leaves in the same order, and ends with the same action, as one uninterrupted run in
      which a waiting leaf is visited again. */
  lemma {:induction false} ResumeIsPatience(t: Tree, trace: seq<int>, wakeups: nat, act: Behaviour)
    ensures Session(t, [], trace, wakeups, act) == Patient(t, trace, wakeups, act)
    decreases t, 1
  {
    match t
    case Leaf(_) => LeafSession(t, trace, wakeups, act);
    case Chain(kids) =>
      if kids != [] {
        ResumeIsPatienceFrom(kids, 0, trace, wakeups, act);
      }
  }

  lemma {:induction false} ResumeIsPatienceFrom(kids: seq<Tree>, i: nat, trace: seq<int>, wakeups: nat, act: Behaviour)
    requires i < |kids|
    ensures SessionFrom(kids, i, [], trace, wakeups, act) == PatientFrom(kids, i, trace, wakeups, act)
    decreases kids, |kids| - i
  {
    SessionSplits(kids, i, [], trace, wakeups, act);
    ResumeIsPatience(kids[i], trace, wakeups, act);
    if i + 1 < |kids| {
      var r := Patient(kids[i], trace, wakeups, act);
      ResumeIsPatienceFrom(kids, i + 1, r.trace, r.wakeups, act);
    }
  }
}
