/** Source routing in a RELOAD overlay: a request gathers the nodes it passes in its via list, and the response
    is sent back along that list. */
module Routing {
  import opened Common
  import opened NodeIds

  datatype Destination = Peer(id: NodeId) | Resource(key: NodeId) | Compressed

  /** Messages with an odd code are requests. */
  datatype Message = Message(code: nat, tid: nat, ttl: nat, via: seq<Destination>, dest: seq<Destination>)

  datatype Node = Node(
    id: NodeId,
    bootstrap: bool,
    prev: Option<NodeId>,
    next: Option<NodeId>,
    fingers: seq<NodeId>,
    flows: set<NodeId>)

  const MESSAGE_TTL: nat := 32

  predicate IsRequest(m: Message) {
    m.code % 2 == 1
  }

  predicate Responsible(n: Node, key: NodeId) {
    match n.prev
    case None => n.bootstrap
    case Some(p) => Less(p, key) && AtMost(key, n.id)
  }

  function HopFor(n: Node, key: NodeId): Option<NodeId> {
    if n.fingers == [] then n.next else Some(NextHop(n.fingers, key))
  }

  /** What a node does with a message; `Abort` is a failed assertion. */
  datatype Action = Post(m: Message) | SendTo(to: NodeId, m: Message) | Drop | Abort

  function RouteTo(n: Node, key: NodeId, m: Message): Action {
    match HopFor(n, key)
    case None => Abort
    case Some(hop) => SendTo(hop, m)
  }

  function Popped(m: Message): Message
    requires m.dest != []
  {
    m.(dest := m.dest[1..])
  }

  /** Entries that name the node itself are popped, and the next one is looked at. */
  function Forward(n: Node, m: Message): Action
    decreases |m.dest|
  {
    if m.dest == [] then Abort
    else
      match m.dest[0]
      case Compressed => Abort
      case Peer(id) =>
        if Same(id, n.id) then
          if |m.dest| > 1 then Forward(n, Popped(m)) else Post(Popped(m))
        else if id in n.fingers then SendTo(id, m)
        else if Responsible(n, id) then Drop
        else RouteTo(n, id, m)
      case Resource(key) =>
        if Responsible(n, key) then
          if |m.dest| > 1 then Drop else Post(Popped(m))
        else RouteTo(n, key, m)
  }

  // ----- a message on its way -----

  /** Where a message ended up, and the nodes it passed. */
  datatype Journey = Arrived(m: Message, path: seq<NodeId>) | Lost

  /** Follows a message from node to node. Each send spends one unit of its time to live, and each arrival
      notes the sender in the via list. */
  function Travel(net: map<NodeId, Node>, at: NodeId, m: Message): Journey
    decreases m.ttl
  {
    if at !in net then Lost
    else
      match Forward(net[at], m)
      case Post(m') => Arrived(m', [at])
      case SendTo(to, m') =>
        if m.ttl <= 1 || to !in net[at].flows then Lost
        else
          (match Travel(net, to, m'.(ttl := m.ttl - 1, via := m.via + [Peer(at)]))
           case Lost => Lost
           case Arrived(m'', path) => Arrived(m'', [at] + path))
      case Drop => Lost
      case Abort => Lost
  }

  function Peers(path: seq<NodeId>): seq<Destination> {
    seq(|path|, i requires 0 <= i < |path| => Peer(path[i]))
  }

  function Reverse<T>(s: seq<T>): (r: seq<T>)
    ensures |r| == |s|
  {
    seq(|s|, i requires 0 <= i < |s| => s[|s| - 1 - i])
  }

  /** The response to a request, as its constructors make it. */
  function ResponseTo(m: Message, code: nat): Message {
    Message(code, m.tid, MESSAGE_TTL, [], Reverse(m.via))
  }

  /** Each node is listed under its own 128-bit identifier and has no connection to itself. */
  ghost predicate NetOk(net: map<NodeId, Node>) {
    forall k :: k in net ==> net[k].id == k && k !in net[k].flows && k.low < WORD
  }

  ghost predicate Connected(net: map<NodeId, Node>, a: NodeId, b: NodeId) {
    a in net && b in net && b in net[a].fingers && b in net[a].flows
  }

  ghost predicate Chained(net: map<NodeId, Node>, path: seq<NodeId>) {
    forall i :: 0 <= i < |path| - 1 ==> Connected(net, path[i], path[i + 1])
  }

  lemma {:induction false} ForwardKeeps(n: Node, m: Message)
    ensures var a := Forward(n, m);
            (a.Post? ==> a.m == m.(dest := []) ) && (a.SendTo? ==> a.m == m.(dest := a.m.dest))
    decreases |m.dest|
  {
    hide Same, Responsible, RouteTo;
    if m.dest != [] && m.dest[0].Peer? && Same(m.dest[0].id, n.id) && |m.dest| > 1 {
      ForwardKeeps(n, Popped(m));
    } else if m.dest != [] && !m.dest[0].Compressed? {
      RouteKeeps(n, if m.dest[0].Peer? then m.dest[0].id else m.dest[0].key, m);
    }
  }

  lemma {:induction false} RouteKeeps(n: Node, key: NodeId, m: Message)
    ensures RouteTo(n, key, m) == Abort || (RouteTo(n, key, m).SendTo? && RouteTo(n, key, m).m == m)
  {
  }

  lemma {:induction false} ViaExtends(via: seq<Destination>, at: NodeId, rest: seq<NodeId>)
    requires rest != []
    ensures var path := [at] + rest;
            via + [Peer(at)] + Peers(rest[..|rest| - 1]) == via + Peers(path[..|path| - 1])
  {
    var path := [at] + rest;
    assert path[..|path| - 1] == [at] + rest[..|rest| - 1];
    assert Peers([at] + rest[..|rest| - 1]) == [Peer(at)] + Peers(rest[..|rest| - 1]);
  }

  /** A message that arrives has in its via list exactly the nodes that passed it on, in order, and has spent
      one unit of its time to live on each of them. */
  lemma {:induction false} ViaIsPath(net: map<NodeId, Node>, at: NodeId, m: Message)
    requires Travel(net, at, m).Arrived?
    ensures var j := Travel(net, at, m);
            j.path != [] && j.path[0] == at && (forall i :: 0 <= i < |j.path| ==> j.path[i] in net)
            && j.m.via == m.via + Peers(j.path[..|j.path| - 1])
            && j.m.ttl + |j.path| - 1 == m.ttl && (|j.path| > 1 ==> j.m.ttl >= 1)
            && j.m.tid == m.tid && j.m.code == m.code && j.m.dest == []
    decreases m.ttl
  {
    hide Forward;
    ForwardKeeps(net[at], m);
    var j, a := Travel(net, at, m), Forward(net[at], m);
    if a.SendTo? {
      var m' := a.m.(ttl := m.ttl - 1, via := m.via + [Peer(at)]);
      ViaIsPath(net, a.to, m');
      ViaExtends(m.via, at, Travel(net, a.to, m').path);
    } else {
      assert m.via + Peers([]) == m.via;
    }
  }

  /** A message that lists a chain of connected nodes visits exactly those, given time to live. It may list the
      node that holds it first. */
  lemma {:induction false} FollowsList(net: map<NodeId, Node>, at: NodeId, m: Message, listed: bool, q: seq<NodeId>)
    requires NetOk(net) && at in net && Chained(net, [at] + q) && (listed || q != [])
    requires m.dest == (if listed then [Peer(at)] else []) + Peers(q) && m.ttl > |q|
    ensures var j := Travel(net, at, m);
            j.Arrived? && j.path == [at] + q && j.m.dest == [] && j.m.tid == m.tid && j.m.code == m.code
    decreases |q|
  {
    assert at !in net[at].flows by { NoFlowToItself(net, at); }
    hide Forward, NetOk, Same, Responsible;
    ForwardFollows(net, at, m, listed, q);
    if q != [] {
      assert Connected(net, ([at] + q)[0], ([at] + q)[1]);
      var m' := m.(dest := Peers(q), ttl := m.ttl - 1, via := m.via + [Peer(at)]);
      assert Peers(q) == [Peer(q[0])] + Peers(q[1..]);
      assert [q[0]] + q[1..] == q;
      forall i | 0 <= i < |q| - 1
        ensures Connected(net, q[i], q[i + 1])
      {
        assert Connected(net, ([at] + q)[i + 1], ([at] + q)[i + 2]);
      }
      FollowsList(net, q[0], m', true, q[1..]);
    }
  }

  lemma {:induction false} NoFlowToItself(net: map<NodeId, Node>, at: NodeId)
    requires NetOk(net) && at in net
    ensures at !in net[at].flows
  {
  }

  lemma {:induction false} ForwardFollows(net: map<NodeId, Node>, at: NodeId, m: Message, listed: bool, q: seq<NodeId>)
    requires NetOk(net) && at in net && Chained(net, [at] + q) && (listed || q != [])
    requires m.dest == (if listed then [Peer(at)] else []) + Peers(q)
    ensures Forward(net[at], m) == if q == [] then Post(m.(dest := [])) else SendTo(q[0], m.(dest := Peers(q)))
  {
    if q != [] {
      assert Connected(net, ([at] + q)[0], ([at] + q)[1]);
      OrderIsNumeric(q[0], at);
      assert Peers(q)[0] == Peer(q[0]);
    }
    if listed {
      assert m.dest[1..] == Peers(q);
      assert Same(at, net[at].id);
    } else {
      assert m.dest == Peers(q);
    }
  }

  lemma {:induction false} ReverseSplits(path: seq<NodeId>)
    requires path != []
    ensures Reverse(path) == [path[|path| - 1]] + Reverse(path[..|path| - 1])
    ensures Reverse(path)[|path| - 1] == path[0]
  {
  }

  lemma {:induction false} PeersReversed(path: seq<NodeId>)
    ensures Reverse(Peers(path)) == Peers(Reverse(path))
  {
  }

  /** If a request reached its responder over hops that are connected both ways, the response goes back over
      the same nodes in reverse and is posted at the originator under the same transaction. */
  lemma {:induction false} ResponseRetraces(net: map<NodeId, Node>, origin: NodeId, request: Message, code: nat)
    requires NetOk(net) && request.via == [] && request.ttl == MESSAGE_TTL
    requires Travel(net, origin, request).Arrived?
    requires var path := Travel(net, origin, request).path; |path| > 1 && Chained(net, Reverse(path))
    ensures var there := Travel(net, origin, request);
            var back := Travel(net, there.path[|there.path| - 1], ResponseTo(there.m, code));
            back.Arrived? && back.path == Reverse(there.path) && back.path[|back.path| - 1] == origin
            && back.m.tid == request.tid && back.m.code == code && back.m.dest == [] && |back.path| <= 32
  {
    hide NetOk, Travel, Reverse, Chained;
    ViaIsPath(net, origin, request);
    var there := Travel(net, origin, request);
    var path := there.path;
    var n := |path|;
    var at, q := path[n - 1], Reverse(path[..n - 1]);
    assert [] + Peers(path[..n - 1]) == Peers(path[..n - 1]);
    PeersReversed(path[..n - 1]);
    ReverseSplits(path);
    assert [] + Peers(q) == Peers(q);
    FollowsList(net, at, ResponseTo(there.m, code), false, q);
  }

  // ----- where a message is sent -----

  predicate Names(n: Node, d: Destination) {
    d.Peer? && Same(d.id, n.id)
  }

  /** The destination list once the leading entries that name the node itself are off, the last entry kept. */
  function Ahead(n: Node, dest: seq<Destination>): (rest: seq<Destination>)
    ensures dest != [] ==> rest != []
  {
    if |dest| > 1 && Names(n, dest[0]) then Ahead(n, dest[1..]) else dest
  }

  ghost predicate IsSuffix(rest: seq<Destination>, dest: seq<Destination>) {
    |rest| <= |dest| && rest == dest[|dest| - |rest|..]
  }

  lemma {:induction false} AheadIsAhead(n: Node, dest: seq<Destination>)
    ensures var rest := Ahead(n, dest);
            && IsSuffix(rest, dest)
            && (forall i :: 0 <= i < |dest| - |rest| ==> Names(n, dest[i]))
            && (|rest| > 1 ==> !Names(n, rest[0]))
  {
    if |dest| > 1 && Names(n, dest[0]) {
      AheadIsAhead(n, dest[1..]);
      var rest := Ahead(n, dest);
      forall i | 0 <= i < |dest| - |rest|
        ensures Names(n, dest[i])
      {
        assert i > 0 ==> dest[i] == dest[1..][i - 1];
      }
    }
  }

  lemma {:induction false} ForwardAhead(n: Node, m: Message)
    ensures Forward(n, m) == Forward(n, m.(dest := Ahead(n, m.dest)))
    decreases |m.dest|
  {
    hide Responsible, RouteTo, Same;
    if |m.dest| > 1 && Names(n, m.dest[0]) {
      ForwardAhead(n, Popped(m));
    }
  }

  /** The next node towards `key`: the circular predecessor among the fingers, or the successor if there are no
      fingers. */
  ghost predicate IsHop(n: Node, key: NodeId, to: NodeId) {
    if n.fingers == [] then n.next == Some(to) else IsPredecessor(n.fingers, key, to)
  }

  /** A message is sent on with its list as far as the first entry that names another: straight to a node that is
      connected, otherwise towards the entry, and never for an identifier that the node is responsible for. */
  lemma {:induction false} SentTowardsTarget(n: Node, m: Message)
    requires Ascending(n.fingers) && Forward(n, m).SendTo?
    ensures var a, rest := Forward(n, m), Ahead(n, m.dest);
            && rest != [] && !rest[0].Compressed? && !Names(n, rest[0]) && a.m == m.(dest := rest)
            && if rest[0].Peer? && rest[0].id in n.fingers then a.to == rest[0].id
               else var key := if rest[0].Peer? then rest[0].id else rest[0].key;
                    !Responsible(n, key) && IsHop(n, key, a.to)
  {
    ForwardAhead(n, m);
    AheadIsAhead(n, m.dest);
    var rest := Ahead(n, m.dest);
    hide Ahead, Responsible, Same, IsPredecessor;
    if !rest[0].Compressed? && n.fingers != [] {
      NextHopIsPredecessor(n.fingers, if rest[0].Peer? then rest[0].id else rest[0].key);
    }
  }

  /** It is dropped exactly for a node that would have to be known here, and for a resource held here that is not
      the last entry. It aborts exactly without an entry, on a compressed one, and without a next hop. */
  lemma {:induction false} DroppedExactly(n: Node, m: Message)
    ensures var rest := Ahead(n, m.dest);
            && (Forward(n, m).Drop? <==>
                  rest != [] && ((rest[0].Peer? && !Names(n, rest[0]) && rest[0].id !in n.fingers && Responsible(n, rest[0].id))
                                 || (rest[0].Resource? && Responsible(n, rest[0].key) && |rest| > 1)))
            && (Forward(n, m).Abort? <==>
                  rest == [] || rest[0].Compressed?
                  || (n.fingers == [] && n.next.None? && !Names(n, rest[0])
                      && !Responsible(n, if rest[0].Peer? then rest[0].id else rest[0].key)))
  {
    ForwardAhead(n, m);
    AheadIsAhead(n, m.dest);
    hide Ahead, Responsible, Same, NextHop;
  }

  /** A node holds the identifiers above its predecessor's up to its own; without a predecessor it holds all if it
      is the bootstrap node, and none otherwise. */
  lemma {:induction false} HoldsItsSection(n: Node, key: NodeId)
    requires n.id.low < WORD && key.low < WORD && (n.prev.Some? ==> n.prev.value.low < WORD)
    ensures n.prev.Some? ==> (Responsible(n, key) <==> Number(n.prev.value) < Number(key) <= Number(n.id))
    ensures n.prev.None? ==> (Responsible(n, key) <==> n.bootstrap)
  {
    OrderIsNumeric(key, n.id);
    if n.prev.Some? {
      OrderIsNumeric(n.prev.value, key);
    }
  }

  // ----- requests that stay where they are made -----

  /** Every entry of the list names the node itself, or the last one is a resource that it is responsible for. */
  ghost predicate StaysHere(n: Node, dest: seq<Destination>) {
    && dest != []
    && (forall i :: 0 <= i < |dest| - 1 ==> Names(n, dest[i]))
    && var last := dest[|dest| - 1];
       Names(n, last) || (last.Resource? && Responsible(n, last.key))
  }

  lemma {:induction false} PostsExactlyIfStays(n: Node, m: Message)
    ensures Forward(n, m).Post? <==> StaysHere(n, m.dest)
    decreases |m.dest|
  {
    hide Same, Responsible, HopFor;
    if m.dest != [] {
      var d, rest := m.dest[0], m.dest[1..];
      if |m.dest| > 1 {
        assert rest[|rest| - 1] == m.dest[|m.dest| - 1];
        if Names(n, d) {
          PostsExactlyIfStays(n, Popped(m));
          forall i | 0 <= i < |m.dest| - 1 && StaysHere(n, rest)
            ensures Names(n, m.dest[i])
          {
            assert i > 0 ==> m.dest[i] == rest[i - 1];
          }
          forall i | 0 <= i < |rest| - 1 && StaysHere(n, m.dest)
            ensures Names(n, rest[i])
          {
            assert rest[i] == m.dest[i + 1];
          }
        }
      }
    }
  }

  /** For a request that arrives over hops connected both ways, or over none at all, the response comes back
      exactly if the originator did not post the request to itself, which its destination list tells before it
      is sent. */
  lemma {:induction false} ResponseReturnsExactly(net: map<NodeId, Node>, origin: NodeId, request: Message, code: nat)
    requires NetOk(net) && request.via == [] && request.ttl == MESSAGE_TTL
    requires Travel(net, origin, request).Arrived? && Chained(net, Reverse(Travel(net, origin, request).path))
    ensures origin in net
    ensures var there := Travel(net, origin, request);
            (Travel(net, there.path[|there.path| - 1], ResponseTo(there.m, code)).Arrived?
             <==> !StaysHere(net[origin], request.dest))
  {
    ViaIsPath(net, origin, request);
    PostsExactlyIfStays(net[origin], request);
    var there := Travel(net, origin, request);
    if StaysHere(net[origin], request.dest) {
      LocalResponseAborts(net, origin, request, code);
    } else {
      hide Forward, StaysHere, NetOk, Chained, Reverse;
      assert |there.path| > 1;
      ResponseRetraces(net, origin, request, code);
    }
  }

  /** The response to a request that stayed has an empty destination list, on which forwarding it aborts. */
  lemma {:induction false} LocalResponseAborts(net: map<NodeId, Node>, origin: NodeId, request: Message, code: nat)
    requires origin in net && request.via == []
    ensures StaysHere(net[origin], request.dest) <==>
              Travel(net, origin, request).Arrived? && Travel(net, origin, request).path == [origin]
    ensures StaysHere(net[origin], request.dest) ==>
              var there := Travel(net, origin, request);
              ResponseTo(there.m, code).dest == [] && Forward(net[origin], ResponseTo(there.m, code)) == Abort
              && Travel(net, origin, ResponseTo(there.m, code)) == Lost
  {
    PostsExactlyIfStays(net[origin], request);
    hide StaysHere;
    if Travel(net, origin, request).Arrived? {
      ViaIsPath(net, origin, request);
    }
    if Forward(net[origin], request).SendTo? && Travel(net, origin, request).Arrived? {
      var a := Forward(net[origin], request);
      ViaIsPath(net, a.to, a.m.(ttl := request.ttl - 1, via := request.via + [Peer(origin)]));
    }
  }

  /** A bootstrap node that asks for a resource is responsible for it, and cannot answer itself. */
  lemma {:induction false} BootstrapCannotAnswerItself(id: NodeId, key: NodeId, tid: nat)
    ensures var n := Node(id, true, None, None, [], {});
            var request := Message(1, tid, MESSAGE_TTL, [], [Resource(key)]);
            Travel(map[id := n], id, request) == Arrived(request.(dest := []), [id])
            && Forward(n, ResponseTo(request.(dest := []), 2)) == Abort
  {
  }

  // ----- the dispatcher -----

  /** `waiting` holds the sender of each request that was not yet answered; `handed` is what was given to whom. */
  datatype Dispatcher = Dispatcher(waiting: map<nat, nat>, registered: map<nat, nat>, handed: seq<(nat, Message)>)

  datatype DispatchEvent = Send(m: Message, sender: nat) | Receive(m: Message)

  function Dispatch(d: Dispatcher, e: DispatchEvent): Dispatcher {
    match e
    case Send(m, sender) => d.(waiting := d.waiting[m.tid := sender])
    case Receive(m) =>
      if m.code in d.registered then d.(handed := d.handed + [(d.registered[m.code], m)])
      else if IsRequest(m) then d
      else if m.tid in d.waiting then
        d.(handed := d.handed + [(d.waiting[m.tid], m)], waiting := d.waiting - {m.tid})
      else d
  }

  /** A message of a type with a handler goes to the handler. A request without one is handed to no one, whatever
      its transaction; a response to the sender of its transaction, who is then no longer waiting, if there is one. */
  lemma {:induction false} HandedExactly(d: Dispatcher, m: Message)
    ensures var t := Dispatch(d, Receive(m));
            && t.registered == d.registered
            && (m.code in d.registered ==> t == d.(handed := d.handed + [(d.registered[m.code], m)]))
            && (m.code !in d.registered && (m.code % 2 == 1 || m.tid !in d.waiting) ==> t == d)
            && (m.code !in d.registered && m.code % 2 == 0 && m.tid in d.waiting ==>
                  t.handed == d.handed + [(d.waiting[m.tid], m)] && t.waiting == d.waiting - {m.tid})
  {
  }

  function DispatchAll(d: Dispatcher, es: seq<DispatchEvent>): Dispatcher
    decreases |es|
  {
    if es == [] then d else Dispatch(DispatchAll(d, es[..|es| - 1]), es[|es| - 1])
  }

  /** Events take effect one after the other. */
  lemma {:induction false} EventsInOrder(d: Dispatcher, es: seq<DispatchEvent>, e: DispatchEvent)
    ensures DispatchAll(d, []) == d && DispatchAll(d, es + [e]) == Dispatch(DispatchAll(d, es), e)
  {
    assert (es + [e])[..|es + [e]| - 1] == es;
  }

  predicate IsReply(registered: map<nat, nat>, m: Message, tid: nat) {
    m.code !in registered && !IsRequest(m) && m.tid == tid
  }

  /** The replies to transaction `tid` that were handed on, in order. */
  function Replies(registered: map<nat, nat>, handed: seq<(nat, Message)>, tid: nat): seq<(nat, Message)> {
    if handed == [] then []
    else
      var last := handed[|handed| - 1];
      Replies(registered, handed[..|handed| - 1], tid) + (if IsReply(registered, last.1, tid) then [last] else [])
  }

  lemma {:induction false} RepliesSnoc(registered: map<nat, nat>, handed: seq<(nat, Message)>, h: (nat, Message), tid: nat)
    ensures Replies(registered, handed + [h], tid)
         == Replies(registered, handed, tid) + (if IsReply(registered, h.1, tid) then [h] else [])
  {
    assert (handed + [h])[..|handed|] == handed;
  }

  predicate Concerns(registered: map<nat, nat>, e: DispatchEvent, tid: nat) {
    match e
    case Send(m, _) => m.tid == tid
    case Receive(m) => IsReply(registered, m, tid)
  }

  lemma {:induction false} DispatchElsewhere(d: Dispatcher, e: DispatchEvent, tid: nat)
    requires !Concerns(d.registered, e, tid)
    ensures var t := Dispatch(d, e);
            Replies(t.registered, t.handed, tid) == Replies(d.registered, d.handed, tid)
            && (tid in t.waiting <==> tid in d.waiting) && (tid in d.waiting ==> t.waiting[tid] == d.waiting[tid])
  {
    if e.Receive? && Dispatch(d, e).handed != d.handed {
      RepliesSnoc(d.registered, d.handed, Dispatch(d, e).handed[|d.handed|], tid);
    }
  }

  ghost predicate NoneConcerns(registered: map<nat, nat>, es: seq<DispatchEvent>, tid: nat) {
    forall i :: 0 <= i < |es| ==> !Concerns(registered, es[i], tid)
  }

  lemma {:induction false} DispatchAllElsewhere(d: Dispatcher, es: seq<DispatchEvent>, tid: nat)
    requires NoneConcerns(d.registered, es, tid)
    ensures var t := DispatchAll(d, es);
            t.registered == d.registered && Replies(t.registered, t.handed, tid) == Replies(d.registered, d.handed, tid)
            && (tid in t.waiting <==> tid in d.waiting) && (tid in d.waiting ==> t.waiting[tid] == d.waiting[tid])
    decreases |es|
  {
    if es != [] {
      var front, last := es[..|es| - 1], es[|es| - 1];
      assert !Concerns(d.registered, last, tid);
      assert NoneConcerns(d.registered, front, tid) by {
        forall i | 0 <= i < |front|
          ensures !Concerns(d.registered, front[i], tid)
        {
          assert front[i] == es[i];
        }
      }
      DispatchAllElsewhere(d, front, tid);
      hide Concerns;
      DispatchElsewhere(DispatchAll(d, front), last, tid);
    }
  }

  /** After a request was sent, the first response to it, whatever else happens in between, is handed to its
      sender; later copies are dropped. */
  lemma {:induction false} RepliedExactlyOnce(d: Dispatcher, m: Message, sender: nat, between: seq<DispatchEvent>, r: Message,
                           after: seq<DispatchEvent>, copy: Message)
    requires IsReply(d.registered, r, m.tid) && IsReply(d.registered, copy, m.tid)
    requires NoneConcerns(d.registered, between, m.tid) && NoneConcerns(d.registered, after, m.tid)
    ensures var sent := DispatchAll(Dispatch(d, Send(m, sender)), between);
            var got := DispatchAll(Dispatch(sent, Receive(r)), after);
            Replies(d.registered, got.handed, m.tid) == Replies(d.registered, d.handed, m.tid) + [(sender, r)]
            && Dispatch(got, Receive(copy)) == got
  {
    var first := Dispatch(d, Send(m, sender));
    DispatchAllElsewhere(first, between, m.tid);
    var sent := DispatchAll(first, between);
    RepliesSnoc(d.registered, sent.handed, (sender, r), m.tid);
    var answered := Dispatch(sent, Receive(r));
    DispatchAllElsewhere(answered, after, m.tid);
    hide Replies;
  }

  /** From end to end: a request that is sent for `sender` and reaches its responder over hops connected both
      ways is answered over the same nodes in reverse, and the answer is handed to `sender`, once, whatever else
      the originator sends and receives meanwhile. */
  lemma {:induction false} AnswerReachesSender(net: map<NodeId, Node>, origin: NodeId, request: Message, code: nat,
                                               d: Dispatcher, sender: nat, between: seq<DispatchEvent>,
                                               after: seq<DispatchEvent>)
    requires NetOk(net) && request.via == [] && request.ttl == MESSAGE_TTL
    requires Travel(net, origin, request).Arrived? && Chained(net, Reverse(Travel(net, origin, request).path))
    requires origin in net && !StaysHere(net[origin], request.dest)
    requires code % 2 == 0 && code !in d.registered
    requires NoneConcerns(d.registered, between, request.tid) && NoneConcerns(d.registered, after, request.tid)
    ensures var there := Travel(net, origin, request);
            var back := Travel(net, there.path[|there.path| - 1], ResponseTo(there.m, code));
            && back.Arrived? && back.path == Reverse(there.path) && back.path[|back.path| - 1] == origin
            && var sent := DispatchAll(Dispatch(d, Send(request, sender)), between);
               var got := DispatchAll(Dispatch(sent, Receive(back.m)), after);
               (Replies(d.registered, got.handed, request.tid)
                == Replies(d.registered, d.handed, request.tid) + [(sender, back.m)]
                && Dispatch(got, Receive(back.m)) == got)
  {
    ViaIsPath(net, origin, request);
    LocalResponseAborts(net, origin, request, code);
    hide Travel, Forward, StaysHere, NetOk, Chained, Reverse, Dispatch, DispatchAll, Replies, NoneConcerns;
    var there := Travel(net, origin, request);
    assert there.path != [origin] && |there.path| > 1;
    ResponseRetraces(net, origin, request, code);
    var back := Travel(net, there.path[|there.path| - 1], ResponseTo(there.m, code));
    RepliedExactlyOnce(d, request, sender, between, back.m, after, back.m);
  }

  // ----- the code as it runs -----

  /** The forwarding loop: it starts over as long as the node itself is at the front of the list. */
  method ForwardMessage(n: Node, message: Message) returns (a: Action)
    requires Ascending(n.fingers)
    ensures a == Forward(n, message)
  {
    var m := message;
    while true
      invariant Forward(n, m) == Forward(n, message)
      decreases |m.dest|
    {
      if m.dest == [] || m.dest[0].Compressed? {
        return Abort;
      }
      if m.dest[0].Peer? {
        var id := m.dest[0].id;
        if Same(id, n.id) {
          m := Popped(m);
          if m.dest == [] {
            return Post(m);
          }
        } else if id in n.fingers {
          return SendTo(id, m);
        } else if Responsible(n, id) {
          return Drop;
        } else {
          a := Route(n, id, m);
          return;
        }
      } else if Responsible(n, m.dest[0].key) {
        m := Popped(m);
        return if m.dest == [] then Post(m) else Drop;
      } else {
        a := Route(n, m.dest[0].key, m);
        return;
      }
    }
  }

  method Route(n: Node, key: NodeId, m: Message) returns (a: Action)
    requires Ascending(n.fingers)
    ensures a == RouteTo(n, key, m)
  {
    if n.fingers == [] {
      return if n.next.None? then Abort else SendTo(n.next.value, m);
    }
    var hop := FindNextHop(n.fingers, key);
    a := SendTo(hop, m);
  }

  /** The destination list of a response, filled by walking the via list backwards. */
  method CopyForwardingData(request: Message, code: nat) returns (r: Message)
    ensures r == ResponseTo(request, code)
  {
    var dest := [];
    for i := 0 to |request.via|
      invariant |dest| == i && forall k :: 0 <= k < i ==> dest[k] == request.via[|request.via| - 1 - k]
    {
      dest := dest + [request.via[|request.via| - 1 - i]];
    }
    r := Message(code, request.tid, MESSAGE_TTL, [], dest);
  }
}
