/** Processors as objects: chains are built in place, every processor keeps its own return address, and a
    chain runs its members in a loop. */
module ProcessorChains {
  import opened Common
  import opened ChainSpec
  import opened ChainResume

  /** What is left of a number stored in a 16-bit signed integer. */
  function ToShort(n: nat): int {
    var m := n % 0x1_0000;
    if m < 0x8000 then m else m - 0x1_0000
  }

  /** The return address stored in the processor at the end of `path`. */
  function StoredAddress(path: seq<nat>): seq<int> {
    if path == [] then [] else StoredAddress(path[1..]) + [ToShort(path[0])]
  }

  ghost predicate FitsShort(path: seq<nat>) {
    forall i :: 0 <= i < |path| ==> path[i] <= 32767
  }

  /** The stored address leads back down the path exactly when no position on it is beyond 32767. */
  lemma {:induction false} StoredAddressIsRight(path: seq<nat>)
    ensures StoredAddress(path) == AddressOf(path) <==> FitsShort(path)
  {
    if path != [] {
      hide FitsShort, ToShort;
      StoredAddressIsRight(path[1..]);
      FitsShortFrom(path);
      ShortEnough(path[0]);
      SameLength(path[1..]);
      SameEnds(StoredAddress(path[1..]), ToShort(path[0]), AddressOf(path[1..]), path[0]);
    }
  }

  lemma {:induction false} FitsShortFrom(path: seq<nat>)
    requires path != []
    ensures FitsShort(path) <==> path[0] <= 32767 && FitsShort(path[1..])
  {
    if path[0] <= 32767 && FitsShort(path[1..]) {
      forall i | 0 <= i < |path|
        ensures path[i] <= 32767
      {
        if i > 0 { assert path[i] == path[1..][i - 1]; }
      }
    }
  }

  lemma {:induction false} ShortEnough(n: nat)
    ensures ToShort(n) == n <==> n <= 32767
  {
  }

  lemma {:induction false} SameEnds(x: seq<int>, a: int, y: seq<int>, b: int)
    requires |x| == |y|
    ensures x + [a] == y + [b] <==> x == y && a == b
  {
    if x + [a] == y + [b] {
      assert (x + [a])[|x|] == (y + [b])[|y|];
      assert x == (x + [a])[..|x|] && y == (y + [b])[..|y|];
    }
  }

  lemma {:induction false} SameLength(path: seq<nat>)
    ensures |StoredAddress(path)| == |AddressOf(path)| == |path|
  {
    if path != [] {
      SameLength(path[1..]);
    }
  }

  /** The request context as far as processors use it: the return address of the current event (empty for
      an event that is not the resumption of a chain), the leaves visited, and what leaves answer. */
  class RequestContext {
    var address: seq<int>
    var trace: seq<int>
    const act: Behaviour

    constructor (address: seq<int>, act: Behaviour)
      ensures this.address == address && trace == [] && this.act == act
    {
      this.address := address;
      this.trace := [];
      this.act := act;
    }

    method PopAddress() returns (position: int)
      modifies this`address
      ensures position == Position(old(address)) && address == Popped(old(address))
    {
      if address == [] {
        return 0;
      }
      position := address[|address| - 1];
      address := address[..|address| - 1];
      if position < 0 {
        position := position + 0x1_0000_0000;
      }
    }
  }

  class Processor {
    const isChain: bool
    const id: int
    var chain: seq<Processor>
    var address: seq<int>
    ghost var Repr: set<Processor>
    ghost var shape: Tree

    /** The processors below this one form a tree of the recorded shape. */
    ghost predicate Family()
      reads this`chain, this`Repr, this`shape, Repr`Repr, Repr`shape
    {
      && this in Repr
      && |chain| <= 0xFFFF_FFFF
      && (if isChain then shape.Chain? && |shape.kids| == |chain| else shape == Leaf(id) && chain == [])
      && (forall i :: 0 <= i < |chain| ==> chain[i] in Repr && chain[i] in chain[i].Repr && chain[i].Repr <= Repr && this !in chain[i].Repr)
      && (forall i :: 0 <= i < |chain| ==> shape.kids[i] == chain[i].shape)
      && (forall i, j :: 0 <= i < j < |chain| ==> chain[i].Repr !! chain[j].Repr)
    }

    /** Each processor stores its position in its chain followed by the address of that chain. */
    ghost predicate Valid()
      reads this, Repr
      decreases Repr
    {
      && Family()
      && (forall i :: 0 <= i < |chain| ==> chain[i].Valid())
      && (forall i :: 0 <= i < |chain| ==> chain[i].address == [ToShort(i)] + address)
    }

    lemma {:induction false} Parts()
      requires Valid()
      ensures Family()
      ensures forall i :: 0 <= i < |chain| ==> chain[i].Valid() && chain[i].address == [ToShort(i)] + address
    {
    }

    lemma {:induction false} Assemble()
      requires Family()
      requires forall i :: 0 <= i < |chain| ==> chain[i].Valid() && chain[i].address == [ToShort(i)] + address
      ensures Valid()
    {
    }

    lemma {:induction false} Member(i: nat)
      requires Valid() && i < |chain|
      ensures isChain && shape.Chain? && |shape.kids| == |chain| && shape.kids[i] == chain[i].shape
      ensures chain[i] in Repr && chain[i].Repr < Repr && chain[i].Valid()
    {
    }

    lemma {:induction false} Kind()
      requires Valid()
      ensures this in Repr
      ensures if isChain then shape.Chain? && |shape.kids| == |chain| else shape == Leaf(id)
    {
    }

    constructor NewLeaf(id: int)
      ensures Valid() && fresh(Repr) && address == [] && shape == Leaf(id)
    {
      isChain, this.id, chain, address := false, id, [], [];
      Repr, shape := {this}, Leaf(id);
    }

    constructor NewChain()
      ensures Valid() && fresh(Repr) && address == [] && shape == Chain([])
    {
      isChain, id, chain, address := true, 0, [], [];
      Repr, shape := {this}, Chain([]);
    }

    /** Appends to the address of this processor and of everything below it. */
    method PushAddress(more: seq<int>)
      requires Valid()
      modifies Repr`address
      ensures Valid() && address == old(address) + more
      decreases Repr
    {
      hide Valid, ToShort;
      Parts();
      address := address + more;
      for i := 0 to |chain|
        invariant Family() && address == old(address) + more
        invariant forall j :: 0 <= j < |chain| ==> chain[j].Valid()
        invariant forall j :: 0 <= j < i ==> chain[j].address == [ToShort(j)] + address
        invariant forall j :: i <= j < |chain| ==> chain[j].address == [ToShort(j)] + old(address)
      {
        assert forall j :: 0 <= j < |chain| && j != i ==> chain[j].Repr !! chain[i].Repr;
        chain[i].PushAddress(more);
        assert [ToShort(i)] + old(address) + more == [ToShort(i)] + address;
      }
      Assemble();
    }

    /** Adds a processor, which may itself be a tree built before, to the end of this chain. */
    method AddProcessor(p: Processor)
      requires Valid() && isChain && |chain| < 0xFFFF_FFFF
      requires p.Valid() && p.address == [] && p.Repr !! Repr
      modifies this, p.Repr`address
      ensures Valid() && address == old(address)
      ensures Repr == old(Repr) + old(p.Repr)
      ensures shape == Chain(old(shape.kids) + [old(p.shape)])
    {
      hide Valid, ToShort;
      Parts();
      p.PushAddress([ToShort(|chain|)]);
      p.PushAddress(address);
      assert p.address == [ToShort(|chain|)] + address;
      assert p in p.Repr by { p.Kind(); }
      chain := chain + [p];
      Repr := Repr + p.Repr;
      shape := Chain(shape.kids + [p.shape]);
      Assemble();
    }

    /** Takes note that member `i` has grown by the processors `added`. */
    ghost method Regraft(i: nat, added: set<Processor>)
      requires isChain && shape.Chain? && |shape.kids| == |chain| <= 0xFFFF_FFFF && i < |chain| && this in Repr
      requires forall j :: 0 <= j < |chain| ==> chain[j].Valid() && chain[j].address == [ToShort(j)] + address
      requires forall j :: 0 <= j < |chain| ==> chain[j] in Repr && chain[j] in chain[j].Repr && this !in chain[j].Repr
      requires forall j :: 0 <= j < |chain| ==> chain[j].Repr <= Repr + added
      requires forall j :: 0 <= j < |chain| && j != i ==> shape.kids[j] == chain[j].shape
      requires forall j, k :: 0 <= j < k < |chain| ==> chain[j].Repr !! chain[k].Repr
      modifies this`Repr, this`shape
      ensures Valid()
      ensures Repr == old(Repr) + added && shape == Chain(old(shape.kids)[i := chain[i].shape])
    {
      hide Valid, ToShort;
      Repr := Repr + added;
      shape := Chain(shape.kids[i := chain[i].shape]);
      Assemble();
    }

    /** Adds a processor to a chain that is already part of a tree; only that chain changes. */
    method AddBelow(path: seq<nat>, p: Processor)
      requires Valid() && HasChainAt(shape, path)
      requires p.Valid() && p.address == [] && p.Repr !! Repr
      modifies Repr, p.Repr`address
      ensures Valid() && address == old(address)
      ensures Repr == old(Repr) + old(p.Repr)
      ensures shape == Grafted(old(shape), path, old(p.shape))
      decreases Repr
    {
      hide Valid, HasChainAt, Grafted, ToShort;
      Kind();
      if path == [] {
        GraftedHere(shape, p.shape);
        AddProcessor(p);
      } else {
        Parts();
        GraftedBelow(shape, path, p.shape);
        var i, k := path[0], chain[path[0]];
        ghost var below, added := k.Repr, p.Repr;
        assert this !in below && this !in added;
        assert forall j :: 0 <= j < |chain| && j != i ==> chain[j].Repr !! below && chain[j].Repr !! added;
        k.AddBelow(path[1..], p);
        assert k.shape == Grafted(old(shape.kids)[i], path[1..], old(p.shape));
        assert k.Repr == below + added;
        assert forall j :: 0 <= j < |chain| && j != i ==> chain[j].Repr == old(chain[j].Repr);
        Regraft(i, added);
      }
    }

    /** Runs this processor: a leaf is visited; a chain runs its members from the position that the event's
        return address gives. */
    method Process(rc: RequestContext) returns (action: Action)
      requires Valid()
      modifies rc
      ensures var o := Run(shape, old(rc.address), old(rc.trace), rc.act);
              rc.trace == o.trace && rc.address == o.rest && action == o.action
      decreases Repr
    {
      hide Valid;
      Kind();
      if !isChain {
        action := rc.act(rc.trace, id);
        rc.trace := rc.trace + [id];
        return;
      }
      var position := rc.PopAddress();
      ghost var o := Run(shape, old(rc.address), old(rc.trace), rc.act);
      if position < 0 {
        return Continue;
      }
      while position < |chain|
        invariant 0 <= position && Valid()
        invariant if position < |chain| then RunFrom(shape.kids, position, rc.address, rc.trace, rc.act) == o
                  else o.trace == rc.trace && o.rest == rc.address && o.action == Continue
      {
        Member(position);
        action := chain[position].Process(rc);
        if action == SkipAllChains || action == WaitingForEvent {
          return;
        }
        if action == SkipThisChain {
          return Continue;
        }
        position := position + 1;
      }
      action := Continue;
    }

    /** The processor reached from here down `path`. */
    ghost function At(path: seq<nat>): (p: Processor)
      requires Valid() && OnTree(shape, path)
      reads this, Repr
      ensures p in Repr
      decreases Repr
    {
      if path == [] then this else chain[path[0]].At(path[1..])
    }

    /** In every tree, however it was put together, each processor stores its path from the root, last
        position first. */
    lemma {:induction false} AddressIsPath(path: seq<nat>)
      requires Valid() && OnTree(shape, path)
      ensures At(path).address == StoredAddress(path) + address
      decreases Repr
    {
      if path != [] {
        chain[path[0]].AddressIsPath(path[1..]);
      }
    }
  }

  predicate OnTree(t: Tree, path: seq<nat>) {
    path == [] || (t.Chain? && path[0] < |t.kids| && OnTree(t.kids[path[0]], path[1..]))
  }

  predicate HasChainAt(t: Tree, path: seq<nat>) {
    t.Chain? && (if path == [] then |t.kids| < 0xFFFF_FFFF else path[0] < |t.kids| && HasChainAt(t.kids[path[0]], path[1..]))
  }

  /** `t` with one more member in the chain at `path`. */
  function Grafted(t: Tree, path: seq<nat>, more: Tree): Tree
    requires HasChainAt(t, path)
  {
    if path == [] then Chain(t.kids + [more])
    else Chain(t.kids[path[0] := Grafted(t.kids[path[0]], path[1..], more)])
  }

  lemma {:induction false} GraftedBelow(t: Tree, path: seq<nat>, more: Tree)
    requires HasChainAt(t, path) && path != []
    ensures t.Chain? && path[0] < |t.kids| && HasChainAt(t.kids[path[0]], path[1..])
    ensures Grafted(t, path, more) == Chain(t.kids[path[0] := Grafted(t.kids[path[0]], path[1..], more)])
  {
  }

  lemma {:induction false} GraftedHere(t: Tree, more: Tree)
    requires HasChainAt(t, [])
    ensures t.Chain? && |t.kids| < 0xFFFF_FFFF && Grafted(t, [], more) == Chain(t.kids + [more])
  {
  }

  // ----- resuming at the stored address -----

  /** The sessions that the objects really hold: each resumption uses the address stored in the leaf. */
  function StoredSession(t: Tree, address: seq<int>, trace: seq<int>, wakeups: nat, act: Behaviour): Result
    decreases wakeups
  {
    var o := Run(t, address, trace, act);
    if o.action == WaitingForEvent && wakeups > 0 then StoredSession(t, StoredAddress(o.path), o.trace, wakeups - 1, act)
    else Result(o.trace, o.action, wakeups)
  }
}
