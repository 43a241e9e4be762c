/** The TURN server as it runs: the manager's tables and counter change in place, one scan loop serves the
    four ways to ask for a port, and every operation takes the step that the specification takes. */
module TurnManager {
  import opened Common
  import opened TurnPorts
  import opened TurnServer

  class Manager {
    const width: Width
    var ports: map<int, PortState>
    var lastPort: int
    var allocs: map<Key, Allocation>
    var timers: set<(Key, int)>

    ghost function Abs(): Server
      reads this
    {
      Server(ports, lastPort, allocs, timers)
    }

    ghost predicate Valid()
      reads this
    {
      CounterOk(width, lastPort)
    }

    constructor (w: Width)
      ensures Valid() && width == w && Abs() == Init()
    {
      width := w;
      ports, lastPort, allocs, timers := map[], PORT_RANGE_MIN - 1, map[], {};
    }

    // ----- ports -----

    method AdvanceLastAllocatedPort(k: nat) returns (p: int)
      requires Valid() && 1 <= k <= 2
      modifies this`lastPort
      ensures p == lastPort == Advanced(width, old(lastPort), k)
    {
      lastPort := if width.Narrow? then (lastPort + k) % 0x1_0000 else lastPort + k;
      if lastPort > PORT_RANGE_MAX {
        lastPort := PORT_RANGE_MIN + (lastPort - PORT_RANGE_MAX - 1);
      }
      p := lastPort;
    }

    /** The scan goes once around the circle, in steps of two where the parity is given. */
    method AllocateFirst(kind: Kind) returns (port: int)
      requires Valid()
      modifies this`ports, this`lastPort
      ensures Valid()
      ensures Abs() == AfterScan(width, old(Abs()), kind)
      ensures port == Answer(width, old(ports), kind, old(lastPort))
    {
      hide Available, Search, Taken, Free, State, RightParity, Advanced, At;
      ghost var origin := Advanced(width, lastPort, 1);
      FirstIsNearest(width, ports, kind, lastPort);
      AdvancedOnce(width, lastPort);
      ScanBegins(width, ports, kind, origin);
      var start := AdvanceLastAllocatedPort(1);
      ghost var d0 := if RightParity(kind, start) then 0 else 1;
      if !RightParity(kind, start) {
        start := AdvanceLastAllocatedPort(1);
      }
      ghost var d := d0;
      var check := start;
      while !Free(ports, kind, check)
        invariant ports == old(ports) && lastPort == check && CounterOk(width, lastPort)
        invariant d0 <= d < Size(width) && check == At(width, origin, d) && start == At(width, origin, d0)
        invariant Passed(width, ports, kind, origin, d0, d)
        decreases Size(width) - d
      {
        ScanStep(width, ports, kind, origin, d0, d);
        check := AdvanceLastAllocatedPort(StepOf(kind));
        d := d + StepOf(kind);
        if check == start {
          return 0;
        }
      }
      SearchStops(width, ports, kind, origin, d);
      ports := Taken(ports, kind, check);
      port := check;
    }

    method AllocatePort(port: nat) returns (ok: bool)
      modifies this`ports
      ensures ok <==> PORT_RANGE_MIN <= port <= PORT_RANGE_MAX && !State(old(ports), port).Allocated?
      ensures ports == if ok then old(ports)[port := Allocated] else old(ports)
    {
      ok := PORT_RANGE_MIN <= port <= PORT_RANGE_MAX && !State(ports, port).Allocated?;
      if ok {
        ports := ports[port := Allocated];
      }
    }

    method DeallocatePort(port: int)
      modifies this`ports
      ensures ports == Freed(old(ports), port)
    {
      if PORT_RANGE_MIN <= port <= PORT_RANGE_MAX {
        ports := ports[port := Unallocated];
        if port % 2 == 0 && State(ports, port + 1).Reserved? {
          ports := ports[port + 1 := Unallocated];
        }
      }
    }

    // ----- allocations -----

    method Refresh(key: Key, a: Allocation, lifetime: nat, now: int)
      modifies this`allocs, this`timers
      ensures Abs() == Installed(old(Abs()), key, a.(expires := now + lifetime))
    {
      allocs := allocs[key := a.(expires := now + lifetime)];
      timers := timers + {(key, now + lifetime)};
    }

    method RemoveTurnAllocation(key: Key)
      requires Valid()
      modifies this`ports, this`allocs
      ensures Abs() == Removed(old(Abs()), key)
    {
      if key in allocs {
        DeallocatePort(allocs[key].port);
        allocs := allocs - {key};
      }
    }

    method AllocationExpired(key: Key, deadline: int, now: int)
      requires Valid()
      modifies this
      ensures Valid() && Abs() == OnTimer(old(Abs()), key, deadline, now)
    {
      timers := timers - {(key, deadline)};
      if key in allocs {
        if now >= allocs[key].expires {
          RemoveTurnAllocation(key);
        }
      }
    }

    // ----- requests -----

    method ProcessTurnAllocateRequest(key: Key, req: Request, now: int) returns (reply: Reply)
      requires Valid()
      modifies this
      ensures Valid() && (Abs(), reply) == OnAllocate(width, old(Abs()), key, req, now)
    {
      hide AfterScan, Answer, First, CounterOk;
      if !req.authenticated {
        return Refused(401, None);
      }
      if key in allocs {
        return Refused(437, None);
      }
      if req.transport.Some? {
        if req.transport.value != TRANSPORT_UDP {
          return Refused(442, None);
        }
      } else {
        return Refused(400, None);
      }
      var port: int := 0;
      var token: Option<int> := None;
      if req.props.Some? {
        if req.token.Some? {
          return Refused(400, None);
        }
        if req.props.value == PROPS_PORT_EVEN {
          port := AllocateFirst(EvenPort);
        } else if req.props.value == PROPS_PORT_PAIR {
          port := AllocateFirst(EvenPair);
          token := Some(port + 1);
        }
        if port == 0 {
          return Refused(508, token);
        }
      }
      if req.token.Some? {
        port := req.token.value % 0x1_0000;
        var ok := AllocatePort(port);
        if !ok {
          return Refused(508, None);
        }
      }
      if port == 0 {
        port := AllocateFirst(AnyPort);
        if port == 0 {
          return Refused(508, None);
        }
      }
      var lifetime := DEFAULT_LIFETIME;
      if req.lifetime.Some? {
        if req.lifetime.value > MAX_LIFETIME {
          lifetime := MAX_LIFETIME;
        } else if req.lifetime.value > DEFAULT_LIFETIME {
          lifetime := req.lifetime.value;
        }
      }
      Refresh(key, Allocation(port, now, req.user, req.secret), lifetime, now);
      reply := Granted(lifetime, Some(port), token);
    }

    method ProcessTurnRefreshRequest(key: Key, req: Request, now: int) returns (reply: Reply)
      requires Valid()
      modifies this
      ensures Valid() && (Abs(), reply) == OnRefresh(old(Abs()), key, req, now)
    {
      if !req.authenticated {
        return Refused(401, None);
      }
      if key !in allocs {
        return Refused(437, None);
      }
      if allocs[key].user != req.user {
        return Refused(441, None);
      }
      if allocs[key].secret != req.secret {
        return Refused(441, None);
      }
      if req.lifetime == Some(0) {
        RemoveTurnAllocation(key);
        return Granted(0, None, None);
      }
      var lifetime := DEFAULT_LIFETIME;
      if req.lifetime.Some? {
        if req.lifetime.value > MAX_LIFETIME {
          lifetime := MAX_LIFETIME;
        } else if req.lifetime.value > DEFAULT_LIFETIME {
          lifetime := req.lifetime.value;
        }
      }
      Refresh(key, allocs[key], lifetime, now);
      reply := Granted(lifetime, None, None);
    }
  }

  // ----- one step of a scan -----

  lemma {:induction false} SearchSkips(w: Width, ports: map<int, PortState>, kind: Kind, start: int, i: nat)
    requires OnCircle(w, start) && i < Size(w) && !RightParity(kind, At(w, start, i))
    ensures Search(w, ports, kind, start, i) == Search(w, ports, kind, start, i + 1)
  {
  }

  lemma {:induction false} SearchPasses(w: Width, ports: map<int, PortState>, kind: Kind, start: int, i: nat)
    requires OnCircle(w, start) && i < Size(w) && !Free(ports, kind, At(w, start, i))
    ensures Search(w, ports, kind, start, i) == Search(w, ports, kind, start, i + 1)
    ensures !kind.AnyPort? && RightParity(kind, At(w, start, i))
        ==> Search(w, ports, kind, start, i) == Search(w, ports, kind, start, i + 2)
  {
    if !kind.AnyPort? && RightParity(kind, At(w, start, i)) && i + 1 < Size(w) {
      SearchSkips(w, ports, kind, start, i + 1);
    }
  }

  lemma {:induction false} SearchEnds(w: Width, ports: map<int, PortState>, kind: Kind, start: int, i: nat)
    requires i >= Size(w)
    ensures Search(w, ports, kind, start, i).None?
  {
  }

  lemma {:induction false} SearchStops(w: Width, ports: map<int, PortState>, kind: Kind, start: int, i: nat)
    requires i < Size(w) && Free(ports, kind, At(w, start, i)) && RightParity(kind, At(w, start, i))
    ensures Search(w, ports, kind, start, i) == Some(At(w, start, i))
  {
  }

  function StepOf(kind: Kind): nat {
    if kind.AnyPort? then 1 else 2
  }

  /** Having come from `d0` to `d`, the scan has missed nothing and has kept the parity. */
  ghost predicate Passed(w: Width, ports: map<int, PortState>, kind: Kind, origin: int, d0: nat, d: nat) {
    && RightParity(kind, At(w, origin, d))
    && (d - d0) % StepOf(kind) == 0 && d0 <= 1 && (kind.AnyPort? ==> d0 == 0)
    && Search(w, ports, kind, origin, 0) == Search(w, ports, kind, origin, d)
  }

  lemma {:induction false} ScanBegins(w: Width, ports: map<int, PortState>, kind: Kind, origin: int)
    requires OnCircle(w, origin)
    ensures var d0 := if RightParity(kind, origin) then 0 else 1;
            Passed(w, ports, kind, origin, d0, d0) && At(w, origin, 0) == origin
            && At(w, origin, 1) == Advanced(w, origin, 1) && OnCircle(w, At(w, origin, 1))
  {
    if !RightParity(kind, origin) {
      SearchSkips(w, ports, kind, origin, 0);
    }
  }

  /** One more step comes either back to the start, and then nothing is available, or on to the next port. */
  lemma {:induction false} ScanStep(w: Width, ports: map<int, PortState>, kind: Kind, origin: int, d0: nat, d: nat)
    requires OnCircle(w, origin) && d0 <= d < Size(w) && Passed(w, ports, kind, origin, d0, d)
    requires !Free(ports, kind, At(w, origin, d))
    ensures var next := Advanced(w, At(w, origin, d), StepOf(kind));
            OnCircle(w, next)
            && if next == At(w, origin, d0) then Search(w, ports, kind, origin, 0).None?
               else d + StepOf(kind) < Size(w) && next == At(w, origin, d + StepOf(kind))
                    && Passed(w, ports, kind, origin, d0, d + StepOf(kind))
  {
    hide Search, Free, Available;
    AdvancedAt(w, origin, d, StepOf(kind));
    SearchPasses(w, ports, kind, origin, d);
    if d + StepOf(kind) >= Size(w) {
      assert d + StepOf(kind) == d0 + Size(w);
      SearchEnds(w, ports, kind, origin, d + StepOf(kind));
    }
  }
}
