/** What a tree of request processors does with an event, and why stopping at a processor and resuming
    there later is the same as never having stopped. */
module ChainSpec {
  import opened Common

  /** A chain is a processor; every other processor is a leaf with an identity of its own. */
  datatype Tree = Leaf(id: int) | Chain(kids: seq<Tree>)

  /** What a leaf answers may depend on everything visited before. */
  type Behaviour = (seq<int>, int) -> Action

  /** `trace` lists the leaves visited so far, `rest` is what is left of a return address, and `path` leads
      to the leaf visited last. */
  datatype Outcome = Outcome(trace: seq<int>, rest: seq<int>, action: Action, path: seq<nat>)

  /** The position a return address gives: its last entry, as an unsigned 32-bit number. */
  function Position(address: seq<int>): int {
    if address == [] then 0
    else
      var a := address[|address| - 1];
      if a < 0 then a + 0x1_0000_0000 else a
  }

  function Popped(address: seq<int>): seq<int> {
    if address == [] then [] else address[..|address| - 1]
  }

  function Run(t: Tree, address: seq<int>, trace: seq<int>, act: Behaviour): Outcome
    decreases t, 0
  {
    match t
    case Leaf(id) => Outcome(trace + [id], address, act(trace, id), [])
    case Chain(kids) =>
      var at := Position(address);
      if 0 <= at < |kids| then RunFrom(kids, at, Popped(address), trace, act)
      else Outcome(trace, Popped(address), Continue, [])
  }

  /** Runs the members of a chain from position `i` on. */
  function RunFrom(kids: seq<Tree>, i: nat, address: seq<int>, trace: seq<int>, act: Behaviour): Outcome
    requires i < |kids|
    decreases kids, |kids| - i
  {
    var o := Run(kids[i], address, trace, act);
    match o.action
    case SkipAllChains => o.(path := [i] + o.path)
    case WaitingForEvent => o.(path := [i] + o.path)
    case SkipThisChain => o.(action := Continue, path := [i] + o.path)
    case Continue =>
      if i + 1 < |kids| then RunFrom(kids, i + 1, o.rest, o.trace, act)
      else o.(path := [i] + o.path)
  }

  // ----- suspending and resuming -----

  /** The return address that leads down `path`: the last entry is used first. */
  function AddressOf(path: seq<nat>): seq<int> {
    if path == [] then [] else AddressOf(path[1..]) + [path[0]]
  }

  datatype Result = Result(trace: seq<int>, action: Action, wakeups: nat)

  /** Runs the tree from `address`; each time a leaf waits, one of the `wakeups` resumes the tree at that
      leaf. */
  function Session(t: Tree, address: seq<int>, trace: seq<int>, wakeups: nat, act: Behaviour): Result
    decreases wakeups
  {
    var o := Run(t, address, trace, act);
    if o.action == WaitingForEvent && wakeups > 0 then Session(t, AddressOf(o.path), o.trace, wakeups - 1, act)
    else Result(o.trace, o.action, wakeups)
  }

  /** The uninterrupted run: a leaf that waits is simply visited again, on the spot, when it is woken. */
  function Patient(t: Tree, trace: seq<int>, wakeups: nat, act: Behaviour): (r: Result)
    ensures r.wakeups <= wakeups
    decreases t, wakeups, 1
  {
    match t
    case Leaf(id) =>
      var a := act(trace, id);
      if a == WaitingForEvent && wakeups > 0 then Patient(t, trace + [id], wakeups - 1, act)
      else Result(trace + [id], a, wakeups)
    case Chain(kids) => PatientFrom(kids, 0, trace, wakeups, act)
  }

  function PatientFrom(kids: seq<Tree>, i: nat, trace: seq<int>, wakeups: nat, act: Behaviour): (r: Result)
    requires i <= |kids|
    ensures r.wakeups <= wakeups
    decreases kids, |kids| - i
  {
    if i == |kids| then Result(trace, Continue, wakeups)
    else
      var r := Patient(kids[i], trace, wakeups, act);
      match r.action
      case Continue => PatientFrom(kids, i + 1, r.trace, r.wakeups, act)
      case SkipThisChain => r.(action := Continue)
      case _ => r
  }
}
