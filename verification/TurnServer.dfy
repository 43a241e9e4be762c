/** The life of TURN allocations: which requests create, refresh and remove them, what their timers do, and
    which relay ports they own. */
module TurnServer {
  import opened Common
  import opened TurnPorts

  datatype Tuple = Tuple(transport: nat, address: nat, port: nat)
  datatype Key = Key(local: Tuple, remote: Tuple)

  datatype Allocation = Allocation(port: int, expires: int, user: string, secret: string)

  /** `lastPort` and `ports` belong to the UDP relay addresses, the only ones handed out; `timers` are the
      expiry timers that were started and have not been delivered. */
  datatype Server = Server(
    ports: map<int, PortState>,
    lastPort: int,
    allocs: map<Key, Allocation>,
    timers: set<(Key, int)>)

  /** `authenticated` stands for the presence of a message integrity that was checked before. */
  datatype Request = Request(
    authenticated: bool,
    user: string,
    secret: string,
    transport: Option<nat>,
    props: Option<nat>,
    token: Option<nat>,
    lifetime: Option<nat>)

  /** `token` is the reservation token in the response, which a refused pair leaves in place. */
  datatype Reply =
    | NoReply
    | Refused(code: nat, token: Option<int>)
    | Granted(lifetime: nat, port: Option<int>, token: Option<int>)

  datatype Event =
    | AllocateRequest(key: Key, req: Request, now: int)
    | RefreshRequest(key: Key, req: Request, now: int)
    | TimerFired(key: Key, deadline: int, now: int)
    | SocketDestroyed(key: Key)

  const DEFAULT_LIFETIME: nat := 600
  const MAX_LIFETIME: nat := 3600
  const TRANSPORT_UDP: nat := 17
  const PROPS_PORT_EVEN: nat := 1
  const PROPS_PORT_PAIR: nat := 2

  function Init(): Server {
    Server(map[], PORT_RANGE_MIN - 1, map[], {})
  }

  // ----- ports -----

  /** Where the counter stands after a scan that found nothing. */
  function ScanStart(w: Width, kind: Kind, last: int): int {
    var start := Advanced(w, last, 1);
    if RightParity(kind, start) then start else Advanced(w, start, 1)
  }

  /** The server after a scan. A port found is taken even if it is port 0, whose number reads as a failure. */
  function AfterScan(w: Width, s: Server, kind: Kind): Server {
    match First(w, s.ports, kind, s.lastPort)
    case None => s.(lastPort := ScanStart(w, kind, s.lastPort))
    case Some(p) => s.(ports := Taken(s.ports, kind, p), lastPort := p)
  }

  /** A token is a port number cut to 16 bits; any port of the range that is not allocated can be had. */
  predicate TokenGrants(s: Server, token: nat) {
    var p := token % 0x1_0000;
    PORT_RANGE_MIN <= p <= PORT_RANGE_MAX && !State(s.ports, p).Allocated?
  }

  // ----- allocations -----

  function GrantedLifetime(wanted: Option<nat>): nat {
    match wanted
    case None => DEFAULT_LIFETIME
    case Some(n) => if n > MAX_LIFETIME then MAX_LIFETIME else if n > DEFAULT_LIFETIME then n else DEFAULT_LIFETIME
  }

  /** Sets the expiry and starts a timer for it. */
  function Installed(s: Server, key: Key, a: Allocation): Server {
    s.(allocs := s.allocs[key := a], timers := s.timers + {(key, a.expires)})
  }

  function Removed(s: Server, key: Key): Server {
    if key !in s.allocs then s
    else s.(ports := Freed(s.ports, s.allocs[key].port), allocs := s.allocs - {key})
  }

  function Finish(s: Server, key: Key, req: Request, now: int, port: int, token: Option<int>): (Server, Reply) {
    if port == 0 then (s, Refused(508, token))
    else
      var life := GrantedLifetime(req.lifetime);
      (Installed(s, key, Allocation(port, now + life, req.user, req.secret)), Granted(life, Some(port), token))
  }

  function OnAllocate(w: Width, s: Server, key: Key, req: Request, now: int): (Server, Reply) {
    if !req.authenticated then (s, Refused(401, None))
    else if key in s.allocs then (s, Refused(437, None))
    else if req.transport.None? then (s, Refused(400, None))
    else if req.transport.value != TRANSPORT_UDP then (s, Refused(442, None))
    else if req.props.Some? then
      if req.token.Some? then (s, Refused(400, None))
      else if req.props.value == PROPS_PORT_EVEN then
        Finish(AfterScan(w, s, EvenPort), key, req, now, Answer(w, s.ports, EvenPort, s.lastPort), None)
      else if req.props.value == PROPS_PORT_PAIR then
        var port := Answer(w, s.ports, EvenPair, s.lastPort);
        Finish(AfterScan(w, s, EvenPair), key, req, now, port, Some(port + 1))
      else (s, Refused(508, None))
    else if req.token.Some? then
      if TokenGrants(s, req.token.value) then
        var port := req.token.value % 0x1_0000;
        Finish(s.(ports := s.ports[port := Allocated]), key, req, now, port, None)
      else (s, Refused(508, None))
    else Finish(AfterScan(w, s, AnyPort), key, req, now, Answer(w, s.ports, AnyPort, s.lastPort), None)
  }

  function OnRefresh(s: Server, key: Key, req: Request, now: int): (Server, Reply) {
    if !req.authenticated then (s, Refused(401, None))
    else if key !in s.allocs then (s, Refused(437, None))
    else if s.allocs[key].user != req.user || s.allocs[key].secret != req.secret then (s, Refused(441, None))
    else if req.lifetime == Some(0) then (Removed(s, key), Granted(0, None, None))
    else
      var life := GrantedLifetime(req.lifetime);
      (Installed(s, key, s.allocs[key].(expires := now + life)), Granted(life, None, None))
  }

  function OnTimer(s: Server, key: Key, deadline: int, now: int): Server {
    var t := s.(timers := s.timers - {(key, deadline)});
    if key in s.allocs && now >= s.allocs[key].expires then Removed(t, key) else t
  }

  function Step(w: Width, s: Server, e: Event): (Server, Reply) {
    match e
    case AllocateRequest(key, req, now) => OnAllocate(w, s, key, req, now)
    case RefreshRequest(key, req, now) => OnRefresh(s, key, req, now)
    case TimerFired(key, deadline, now) => (OnTimer(s, key, deadline, now), NoReply)
    case SocketDestroyed(key) => (Removed(s, key), NoReply)
  }

  // ----- what every reachable server keeps -----

  ghost predicate Owned(s: Server, p: int) {
    exists k :: k in s.allocs && s.allocs[k].port == p
  }

  /** Every allocation owns an allocated port of its own. */
  ghost predicate PortsOwned(s: Server) {
    && (forall k :: k in s.allocs ==> State(s.ports, s.allocs[k].port).Allocated? && s.allocs[k].port != 0)
    && (forall k, l :: k in s.allocs && l in s.allocs && k != l ==> s.allocs[k].port != s.allocs[l].port)
  }

  /** A reserved port is odd, and the even port below it is allocated. */
  ghost predicate PairsWhole(s: Server) {
    forall p :: State(s.ports, p).Reserved? ==> p % 2 == 1 && State(s.ports, p - 1).Allocated?
  }

  /** No port of the range is allocated without an owner; below the range, where only the narrow counter gets,
      ports are never given back. */
  ghost predicate NothingLeaks(w: Width, s: Server) {
    && (forall p :: !State(s.ports, p).Unallocated? ==> OnCircle(w, p))
    && (forall p :: State(s.ports, p).Allocated? && p >= PORT_RANGE_MIN ==> Owned(s, p))
  }

  ghost predicate TimersPending(s: Server) {
    forall k :: k in s.allocs ==> (k, s.allocs[k].expires) in s.timers
  }

  ghost predicate Sound(w: Width, s: Server) {
    CounterOk(w, s.lastPort) && PortsOwned(s) && PairsWhole(s) && NothingLeaks(w, s) && TimersPending(s)
  }

  /** A timer is delivered once it was started and its time has come. */
  ghost predicate Legal(s: Server, e: Event) {
    e.TimerFired? ==> (e.key, e.deadline) in s.timers && e.now >= e.deadline
  }

  // ----- ports are taken and freed soundly -----

  /** Between taking a port and installing its allocation: all is sound but the port `p` has no owner yet. */
  ghost predicate SoundBut(w: Width, s: Server, p: int) {
    && CounterOk(w, s.lastPort) && PortsOwned(s) && PairsWhole(s) && TimersPending(s)
    && (forall q :: !State(s.ports, q).Unallocated? ==> OnCircle(w, q))
    && (forall q :: State(s.ports, q).Allocated? && q >= PORT_RANGE_MIN && q != p ==> Owned(s, q))
    && !Owned(s, p) && State(s.ports, p).Allocated?
  }

  lemma {:induction false} NotOwned(s: Server, p: int)
    requires PortsOwned(s)
    ensures Owned(s, p) ==> State(s.ports, p).Allocated?
  {
  }

  lemma {:induction false} StillOwned(s: Server, t: Server, p: int)
    requires Owned(s, p)
    requires forall k :: k in s.allocs && s.allocs[k].port == p ==> k in t.allocs && t.allocs[k].port == p
    ensures Owned(t, p)
  {
    var k :| k in s.allocs && s.allocs[k].port == p;
    assert k in t.allocs;
  }

  lemma {:induction false} TakenSound(w: Width, s: Server, kind: Kind, p: int)
    requires Sound(w, s) && OnCircle(w, p) && Available(s.ports, kind, p)
    ensures SoundBut(w, s.(ports := Taken(s.ports, kind, p), lastPort := p), p)
  {
    var t := s.(ports := Taken(s.ports, kind, p), lastPort := p);
    NotOwned(s, p);
    assert Owned(t, p) ==> Owned(s, p);
    forall q | State(t.ports, q).Reserved?
      ensures q % 2 == 1 && State(t.ports, q - 1).Allocated?
    {
      if State(s.ports, q).Reserved? {
        assert State(s.ports, q - 1).Allocated?;
      }
    }
    forall q | !State(t.ports, q).Unallocated? && q != p
      ensures OnCircle(w, q) && (State(t.ports, q).Allocated? && q >= PORT_RANGE_MIN ==> Owned(t, q))
    {
      if State(t.ports, q) == State(s.ports, q) {
        if State(s.ports, q).Allocated? && q >= PORT_RANGE_MIN {
          StillOwned(s, t, q);
        }
      }
    }
  }

  lemma {:induction false} TokenSound(w: Width, s: Server, p: int)
    requires Sound(w, s) && PORT_RANGE_MIN <= p <= PORT_RANGE_MAX && !State(s.ports, p).Allocated?
    ensures SoundBut(w, s.(ports := s.ports[p := Allocated]), p)
  {
    var t := s.(ports := s.ports[p := Allocated]);
    NotOwned(s, p);
    assert Owned(t, p) ==> Owned(s, p);
    forall q | State(t.ports, q).Reserved?
      ensures q % 2 == 1 && State(t.ports, q - 1).Allocated?
    {
      assert State(s.ports, q).Reserved? && State(s.ports, q - 1).Allocated?;
    }
    forall q | State(t.ports, q).Allocated? && q >= PORT_RANGE_MIN && q != p
      ensures Owned(t, q)
    {
      StillOwned(s, t, q);
    }
  }

  lemma {:induction false} FinishSound(w: Width, s: Server, key: Key, req: Request, now: int, p: int, token: Option<int>)
    requires SoundBut(w, s, p) && key !in s.allocs
    ensures Sound(w, Finish(s, key, req, now, p, token).0)
  {
    var t := Finish(s, key, req, now, p, token).0;
    forall q | State(t.ports, q).Allocated? && q >= PORT_RANGE_MIN
      ensures Owned(t, q)
    {
      if q == p {
        assert key in t.allocs;
      } else {
        StillOwned(s, t, q);
      }
    }
  }

  lemma {:induction false} ScanSound(w: Width, s: Server, kind: Kind, key: Key, req: Request, now: int, token: Option<int>)
    requires Sound(w, s) && key !in s.allocs
    ensures Sound(w, Finish(AfterScan(w, s, kind), key, req, now, Answer(w, s.ports, kind, s.lastPort), token).0)
  {
    hide Available, First, Taken, Finish, PortsOwned, PairsWhole, SoundBut;
    FirstIsNearest(w, s.ports, kind, s.lastPort);
    var p := First(w, s.ports, kind, s.lastPort);
    if p.Some? {
      TakenSound(w, s, kind, p.value);
      FinishSound(w, AfterScan(w, s, kind), key, req, now, p.value, token);
    } else {
      ScanFailedSound(w, s, kind, key, req, now, token);
    }
  }

  lemma {:induction false} ScanFailedSound(w: Width, s: Server, kind: Kind, key: Key, req: Request, now: int, token: Option<int>)
    requires Sound(w, s) && First(w, s.ports, kind, s.lastPort).None?
    ensures Sound(w, Finish(AfterScan(w, s, kind), key, req, now, 0, token).0)
  {
    hide Available, First, Taken;
    var t := AfterScan(w, s, kind);
    forall q | State(t.ports, q).Allocated? && q >= PORT_RANGE_MIN
      ensures Owned(t, q)
    {
      StillOwned(s, t, q);
    }
  }

  lemma {:induction false} RemovedLeaksNothing(w: Width, s: Server, key: Key)
    requires Sound(w, s) && key in s.allocs
    ensures NothingLeaks(w, Removed(s, key))
  {
    var t, p := Removed(s, key), s.allocs[key].port;
    forall q | State(t.ports, q).Allocated? && q >= PORT_RANGE_MIN
      ensures Owned(t, q)
    {
      assert State(t.ports, q) == State(s.ports, q) && q != p;
      assert Owned(s, q);
      StillOwned(s, t, q);
    }
  }

  lemma {:induction false} RemovedKeepsPorts(w: Width, s: Server, key: Key)
    requires Sound(w, s) && key in s.allocs
    ensures PortsOwned(Removed(s, key)) && PairsWhole(Removed(s, key))
  {
    hide NothingLeaks, TimersPending;
    var t := Removed(s, key);
    forall q | State(t.ports, q).Reserved?
      ensures q % 2 == 1 && State(t.ports, q - 1).Allocated?
    {
      assert State(s.ports, q).Reserved? && State(s.ports, q - 1).Allocated?;
    }
  }

  lemma {:induction false} RemovedSound(w: Width, s: Server, key: Key)
    requires Sound(w, s)
    ensures Sound(w, Removed(s, key))
  {
    if key in s.allocs {
      RemovedLeaksNothing(w, s, key);
      RemovedKeepsPorts(w, s, key);
      hide PortsOwned, PairsWhole, NothingLeaks;
    }
  }

  lemma {:induction false} AllocateSound(w: Width, s: Server, key: Key, req: Request, now: int)
    requires Sound(w, s)
    ensures Sound(w, OnAllocate(w, s, key, req, now).0)
  {
    hide AfterScan, Finish, PortsOwned, PairsWhole, NothingLeaks, TimersPending, SoundBut;
    if key !in s.allocs {
      ScanSound(w, s, EvenPort, key, req, now, None);
      ScanSound(w, s, EvenPair, key, req, now, Some(Answer(w, s.ports, EvenPair, s.lastPort) + 1));
      ScanSound(w, s, AnyPort, key, req, now, None);
      if req.token.Some? && TokenGrants(s, req.token.value) {
        var p := req.token.value % 0x1_0000;
        TokenSound(w, s, p);
        FinishSound(w, s.(ports := s.ports[p := Allocated]), key, req, now, p, None);
      }
    }
  }

  lemma {:induction false} RefreshSound(w: Width, s: Server, key: Key, req: Request, now: int)
    requires Sound(w, s)
    ensures Sound(w, OnRefresh(s, key, req, now).0)
  {
    hide Removed, Installed, Sound;
    RemovedSound(w, s, key);
    if key in s.allocs {
      ProlongedSound(w, s, key, now + GrantedLifetime(req.lifetime));
    }
  }

  lemma {:induction false} ProlongedSound(w: Width, s: Server, key: Key, expires: int)
    requires Sound(w, s) && key in s.allocs
    ensures Sound(w, Installed(s, key, s.allocs[key].(expires := expires)))
  {
    var t := Installed(s, key, s.allocs[key].(expires := expires));
    forall q | State(t.ports, q).Allocated? && q >= PORT_RANGE_MIN
      ensures Owned(t, q)
    {
      assert Owned(s, q);
      StillOwned(s, t, q);
    }
  }

  lemma {:induction false} TimerSound(w: Width, s: Server, key: Key, deadline: int, now: int)
    requires Sound(w, s) && now >= deadline
    ensures Sound(w, OnTimer(s, key, deadline, now))
  {
    RemovedSound(w, s, key);
    var t, r := OnTimer(s, key, deadline, now), Removed(s, key);
    if key in s.allocs && now >= s.allocs[key].expires {
      SameButTimers(w, r, t);
    } else {
      SameButTimers(w, s, t);
    }
  }

  lemma {:induction false} SameButTimers(w: Width, s: Server, t: Server)
    requires Sound(w, s) && t == s.(timers := t.timers) && TimersPending(t)
    ensures Sound(w, t)
  {
    forall q | Owned(s, q)
      ensures Owned(t, q)
    {
      var k :| k in s.allocs && s.allocs[k].port == q;
      assert k in t.allocs;
    }
  }

  lemma {:induction false} StepSound(w: Width, s: Server, e: Event)
    requires Sound(w, s) && Legal(s, e)
    ensures Sound(w, Step(w, s, e).0)
  {
    hide OnAllocate, OnRefresh, OnTimer, Removed;
    match e
    case AllocateRequest(key, req, now) => AllocateSound(w, s, key, req, now);
    case RefreshRequest(key, req, now) => RefreshSound(w, s, key, req, now);
    case TimerFired(key, deadline, now) => TimerSound(w, s, key, deadline, now);
    case SocketDestroyed(key) => RemovedSound(w, s, key);
  }

  // ----- every run -----

  /** The states of a run of the server, one for each event and one to start with. */
  ghost predicate IsRun(w: Width, states: seq<Server>, events: seq<Event>) {
    && |states| == |events| + 1
    && states[0] == Init()
    && forall i :: 0 <= i < |events| ==>
      Legal(states[i], events[i]) && states[i + 1] == Step(w, states[i], events[i]).0
  }

  lemma {:induction false} InitSound(w: Width)
    ensures Sound(w, Init())
  {
  }

  lemma {:induction false} RunSound(w: Width, states: seq<Server>, events: seq<Event>, n: nat)
    requires IsRun(w, states, events) && n < |states|
    ensures Sound(w, states[n])
  {
    hide Sound, Step, Legal;
    if n == 0 {
      InitSound(w);
    } else {
      RunSound(w, states, events, n - 1);
      StepSound(w, states[n - 1], events[n - 1]);
    }
  }

  /** With the wide counter the allocated ports are exactly those of live allocations, in every run. */
  lemma {:induction false} WideAccountsForEveryPort(states: seq<Server>, events: seq<Event>, n: nat, p: int)
    requires IsRun(Wide, states, events) && n < |states|
    ensures State(states[n].ports, p).Allocated? <==> Owned(states[n], p)
  {
    hide IsRun;
    RunSound(Wide, states, events, n);
    NotOwned(states[n], p);
  }

  /** Is `e` one of the events that may end or change the allocation of `k` that lasts until `x`: its own
      refresh, the loss of its socket, or a timer at `x` or later? */
  predicate MayTouch(e: Event, k: Key, x: int) {
    e.key == k && (e.RefreshRequest? || e.SocketDestroyed? || (e.TimerFired? && e.now >= x))
  }

  lemma {:induction false} StepKeeps(w: Width, s: Server, e: Event, k: Key)
    requires k in s.allocs && !MayTouch(e, k, s.allocs[k].expires)
    ensures k in Step(w, s, e).0.allocs && Step(w, s, e).0.allocs[k] == s.allocs[k]
  {
    hide First, Taken, Freed;
  }

  /** Whatever else happens, and however many stale timers are delivered, an allocation stays as it is until
      its own refresh, the loss of its socket, or a timer at or after its latest expiry. */
  lemma {:induction false} LivesUntilExpiry(w: Width, states: seq<Server>, events: seq<Event>, m: nat, n: nat, k: Key)
    requires IsRun(w, states, events) && m <= n <= |events| && k in states[m].allocs
    requires forall i :: m <= i < n ==> !MayTouch(events[i], k, states[m].allocs[k].expires)
    ensures k in states[n].allocs && states[n].allocs[k] == states[m].allocs[k]
  {
    hide Init, Step, Legal, MayTouch;
    if n > m {
      LivesUntilExpiry(w, states, events, m, n - 1, k);
      StepKeeps(w, states[n - 1], events[n - 1], k);
    }
  }

  /** Once every timer that is due has been delivered, no allocation is past its expiry. */
  lemma {:induction false} NoneOutlivesItsTimer(w: Width, states: seq<Server>, events: seq<Event>, n: nat, now: int)
    requires IsRun(w, states, events) && n < |states|
    requires forall t :: t in states[n].timers ==> t.1 > now
    ensures forall k :: k in states[n].allocs ==> states[n].allocs[k].expires > now
  {
    hide IsRun, PortsOwned, PairsWhole, NothingLeaks;
    RunSound(w, states, events, n);
    forall k | k in states[n].allocs
      ensures states[n].allocs[k].expires > now
    {
      assert (k, states[n].allocs[k].expires) in states[n].timers;
    }
  }

  /** Removal gives back exactly the port of the allocation and its still-reserved partner, and only to ports
      of the range: one below it stays taken. */
  lemma {:induction false} RemovalFreesExactly(w: Width, s: Server, k: Key, p: int)
    requires Sound(w, s) && k in s.allocs
    ensures var mine := s.allocs[k].port;
            (State(Removed(s, k).ports, p) != State(s.ports, p)
             <==> mine >= PORT_RANGE_MIN && (p == mine || (p == mine + 1 && State(s.ports, p).Reserved?)))
    ensures State(Removed(s, k).ports, p) != State(s.ports, p) ==> State(Removed(s, k).ports, p).Unallocated?
  {
    assert State(s.ports, s.allocs[k].port).Allocated?;
  }

  // ----- what a client is granted -----

  /** A port that was free for the taking, now taken by a new allocation of `key` for the time granted. */
  ghost predicate Grants(s: Server, t: Server, key: Key, req: Request, now: int, p: int, lifetime: nat, pair: bool) {
    && p != 0 && !State(s.ports, p).Allocated? && State(t.ports, p).Allocated?
    && (forall q :: q != p && !(pair && q == p + 1) ==> State(t.ports, q) == State(s.ports, q))
    && Clamped(req.lifetime, lifetime)
    && t.allocs == s.allocs[key := Allocation(p, now + lifetime, req.user, req.secret)]
    && t.timers == s.timers + {(key, now + lifetime)}
  }

  /** Ten minutes if nothing or less is asked for, an hour if more is, otherwise what is asked for. */
  predicate Clamped(wanted: Option<nat>, lifetime: nat) {
    && (wanted.None? || wanted.value < 600 ==> lifetime == 600)
    && (wanted.Some? && wanted.value > 3600 ==> lifetime == 3600)
    && (wanted.Some? && 600 <= wanted.value <= 3600 ==> lifetime == wanted.value)
  }

  lemma {:induction false} ScanGrants(w: Width, s: Server, kind: Kind, key: Key, req: Request, now: int, token: Option<int>)
    requires CounterOk(w, s.lastPort)
    ensures var p := Answer(w, s.ports, kind, s.lastPort);
            var (t, r) := Finish(AfterScan(w, s, kind), key, req, now, p, token);
            if p == 0 then r == Refused(508, token) && t.allocs == s.allocs
            else r.Granted? && r.port == Some(p) && r.token == token && Grants(s, t, key, req, now, p, r.lifetime, kind.EvenPair?)
                 && RightParity(kind, p) && (kind.EvenPair? ==> State(t.ports, p + 1).Reserved?)
  {
    hide First;
    FirstIsNearest(w, s.ports, kind, s.lastPort);
  }

  lemma {:induction false} TokenGranted(s: Server, key: Key, req: Request, now: int, p: int)
    requires p != 0 && !State(s.ports, p).Allocated?
    ensures var (t, r) := Finish(s.(ports := s.ports[p := Allocated]), key, req, now, p, None);
            r.Granted? && r.port == Some(p) && Grants(s, t, key, req, now, p, r.lifetime, false)
  {
  }

  /** What was asked for is what is granted: an even port, a pair with the odd port reserved and its number as
      token, or the port that a token names. A refusal leaves the allocations as they were. */
  lemma {:induction false} GrantIsAsAsked(w: Width, s: Server, key: Key, req: Request, now: int)
    requires Sound(w, s)
    ensures var (t, r) := OnAllocate(w, s, key, req, now);
            if r.Granted? then
              key !in s.allocs && req.authenticated && r.port.Some?
              && Grants(s, t, key, req, now, r.port.value, r.lifetime, req.props == Some(PROPS_PORT_PAIR))
              && (req.props.Some? ==> r.port.value % 2 == 0)
              && (req.props == Some(PROPS_PORT_PAIR) ==>
                    r.token == Some(r.port.value + 1) && State(t.ports, r.port.value + 1).Reserved?)
              && (req.token.Some? ==> r.port.value == req.token.value % 0x1_0000)
            else r.Refused? && t.allocs == s.allocs
  {
    hide AfterScan, Answer, Finish, Grants, PortsOwned, PairsWhole, NothingLeaks, TimersPending;
    if req.token.Some? && TokenGrants(s, req.token.value) {
      TokenGranted(s, key, req, now, req.token.value % 0x1_0000);
    }
    ScanGrants(w, s, EvenPort, key, req, now, None);
    ScanGrants(w, s, EvenPair, key, req, now, Some(Answer(w, s.ports, EvenPair, s.lastPort) + 1));
    ScanGrants(w, s, AnyPort, key, req, now, None);
  }

  // ----- reservations -----

  predicate TokenFor(e: Event, p: int) {
    e.AllocateRequest? && e.req.token.Some? && e.req.token.value % 0x1_0000 == p
  }

  lemma {:induction false} ScanKeepsReserved(w: Width, s: Server, kind: Kind, p: int)
    requires CounterOk(w, s.lastPort) && State(s.ports, p).Reserved?
    ensures State(AfterScan(w, s, kind).ports, p).Reserved?
  {
    hide First;
    FirstIsNearest(w, s.ports, kind, s.lastPort);
  }

  /** The partner of a pair stays reserved until someone presents its number as a token or the owner of the
      even port goes. */
  lemma {:induction false} ReservationHolds(w: Width, s: Server, e: Event, k: Key, p: int)
    requires Sound(w, s) && k in s.allocs && s.allocs[k].port == p - 1 && State(s.ports, p).Reserved?
    requires !TokenFor(e, p) && k in Step(w, s, e).0.allocs
    ensures State(Step(w, s, e).0.ports, p).Reserved?
  {
    hide AfterScan, Answer, First, NothingLeaks, TimersPending;
    match e
    case AllocateRequest(key, req, now) =>
      ScanKeepsReserved(w, s, EvenPort, p);
      ScanKeepsReserved(w, s, EvenPair, p);
      ScanKeepsReserved(w, s, AnyPort, p);
    case RefreshRequest(key, req, now) =>
    case TimerFired(key, deadline, now) =>
    case SocketDestroyed(key) =>
  }

  lemma {:induction false} TokenRedeems(w: Width, s: Server, key: Key, req: Request, now: int, p: int)
    requires Sound(w, s) && State(s.ports, p).Reserved? && p >= PORT_RANGE_MIN && key !in s.allocs
    requires req.authenticated && req.transport == Some(TRANSPORT_UDP) && req.props.None? && req.token == Some(p)
    ensures OnAllocate(w, s, key, req, now).1 == Granted(GrantedLifetime(req.lifetime), Some(p), None)
  {
  }

  lemma {:induction false} StepKeepsPort(w: Width, s: Server, e: Event, k: Key)
    requires k in s.allocs && k in Step(w, s, e).0.allocs
    ensures Step(w, s, e).0.allocs[k].port == s.allocs[k].port
  {
    hide First, Taken, Freed, Answer;
  }

  /** From step `m` to step `n` no one presents the token `p`, and the allocation of `k` stays. */
  ghost predicate LeftAlone(states: seq<Server>, events: seq<Event>, m: nat, n: nat, k: Key, p: int)
    requires m <= n <= |events| < |states|
  {
    n > m ==> LeftAlone(states, events, m, n - 1, k, p) && !TokenFor(events[n - 1], p) && k in states[n].allocs
  }

  /** Over any run in which no one else presents the token of a reserved port and the owner of its pair stays,
      a client that then presents it is granted that port. */
  lemma {:induction false} ReservationIsRedeemed(w: Width, states: seq<Server>, events: seq<Event>, m: nat, n: nat, k: Key, p: int,
                                                 key: Key, req: Request, now: int)
    requires IsRun(w, states, events) && m <= n < |states| && p >= PORT_RANGE_MIN
    requires k in states[m].allocs && states[m].allocs[k].port == p - 1 && State(states[m].ports, p).Reserved?
    requires LeftAlone(states, events, m, n, k, p)
    requires key !in states[n].allocs && req.authenticated && req.transport == Some(TRANSPORT_UDP)
    requires req.props.None? && req.token == Some(p)
    ensures OnAllocate(w, states[n], key, req, now).1 == Granted(GrantedLifetime(req.lifetime), Some(p), None)
  {
    hide Init, Step, Sound, Legal, LeftAlone, OnAllocate;
    StaysReserved(w, states, events, m, n, k, p);
    RunSound(w, states, events, n);
    TokenRedeems(w, states[n], key, req, now, p);
  }

  lemma {:induction false} StaysReserved(w: Width, states: seq<Server>, events: seq<Event>, m: nat, n: nat, k: Key, p: int)
    requires IsRun(w, states, events) && m <= n < |states|
    requires k in states[m].allocs && states[m].allocs[k].port == p - 1 && State(states[m].ports, p).Reserved?
    requires LeftAlone(states, events, m, n, k, p)
    ensures k in states[n].allocs && states[n].allocs[k].port == p - 1 && State(states[n].ports, p).Reserved?
  {
    hide Init, Step, Sound, Legal, TokenFor;
    if n > m {
      StaysReserved(w, states, events, m, n - 1, k, p);
      RunSound(w, states, events, n - 1);
      StepKeepsPort(w, states[n - 1], events[n - 1], k);
      ReservationHolds(w, states[n - 1], events[n - 1], k, p);
    }
  }

  // ----- a run in which the counter wraps -----

  /** A request for any port. */
  predicate Plain(req: Request) {
    req.authenticated && req.transport == Some(TRANSPORT_UDP) && req.props.None? && req.token.None?
  }

  /** All ports are free, and the counter has handed out the first `i` of the range. */
  ghost predicate Idle(s: Server, i: nat) {
    s.allocs == map[] && s.lastPort == PORT_RANGE_MIN - 1 + i && forall p :: State(s.ports, p).Unallocated?
  }

  lemma {:induction false} NextIsFree(s: Server, i: nat)
    requires Idle(s, i) && PORT_RANGE_MIN + i <= PORT_RANGE_MAX
    ensures First(Narrow, s.ports, AnyPort, s.lastPort) == Some(PORT_RANGE_MIN + i)
  {
    assert At(Narrow, PORT_RANGE_MIN + i, 0) == PORT_RANGE_MIN + i;
  }

  /** An allocation that comes and goes moves the counter on by one and leaves no other trace. */
  lemma {:induction false} ComesAndGoes(s: Server, i: nat, key: Key, req: Request)
    requires Idle(s, i) && PORT_RANGE_MIN + i <= PORT_RANGE_MAX && Plain(req)
    ensures Idle(Step(Narrow, Step(Narrow, s, AllocateRequest(key, req, 0)).0, SocketDestroyed(key)).0, i + 1)
  {
    NextIsFree(s, i);
    hide First;
    var p := PORT_RANGE_MIN + i;
    var t := Step(Narrow, s, AllocateRequest(key, req, 0)).0;
    assert t.ports == s.ports[p := Allocated] && t.lastPort == p && t.allocs.Keys == {key} && t.allocs[key].port == p;
    var u := Removed(t, key);
    assert State(s.ports, p + 1).Unallocated?;
    assert u.ports == s.ports[p := Allocated][p := Unallocated];
    forall q
      ensures State(u.ports, q).Unallocated?
    {
      assert State(s.ports, q).Unallocated?;
    }
    assert u.allocs == map[];
  }

  lemma {:induction false} LongerRun(w: Width, states: seq<Server>, events: seq<Event>, e: Event)
    requires IsRun(w, states, events) && !e.TimerFired?
    ensures IsRun(w, states + [Step(w, states[|events|], e).0], events + [e])
  {
    hide Step, Init;
  }

  lemma {:induction false} IdleIsReached(i: nat, key: Key, req: Request)
    requires i <= PORT_RANGE_MAX + 1 - PORT_RANGE_MIN && Plain(req)
    ensures exists states, events :: IsRun(Narrow, states, events) && Idle(states[|events|], i)
  {
    if i == 0 {
      assert IsRun(Narrow, [Init()], []) && Idle([Init()][0], 0);
    } else {
      hide Step, Idle;
      IdleIsReached(i - 1, key, req);
      var states, events :| IsRun(Narrow, states, events) && Idle(states[|events|], i - 1);
      var come, go := AllocateRequest(key, req, 0), SocketDestroyed(key);
      ComesAndGoes(states[|events|], i - 1, key, req);
      LongerRun(Narrow, states, events, come);
      LongerRun(Narrow, states + [Step(Narrow, states[|events|], come).0], events + [come], go);
    }
  }

  /** A request for any port is refused although all ports are free; the next is granted port 1, which stays
      allocated when the allocation is gone. */
  ghost predicate Wraps(s: Server, key: Key, req: Request, now: int) {
    && (forall p :: State(s.ports, p).Unallocated?) && s.allocs == map[]
    && var (t, first) := OnAllocate(Narrow, s, key, req, now);
       var (u, second) := OnAllocate(Narrow, t, key, req, now);
       && first == Refused(508, None)
       && second == Granted(GrantedLifetime(req.lifetime), Some(1), None)
       && State(Removed(u, key).ports, 1).Allocated? && Removed(u, key).allocs == map[]
  }

  lemma {:induction false} LastPortWraps(s: Server, key: Key, req: Request, now: int)
    requires Idle(s, PORT_RANGE_MAX + 1 - PORT_RANGE_MIN) && Plain(req)
    ensures Wraps(s, key, req, now)
  {
    assert At(Narrow, 0, 0) == 0 && At(Narrow, 1, 0) == 1;
    assert First(Narrow, s.ports, AnyPort, s.lastPort) == Some(0);
    assert State(s.ports, 1).Unallocated?;
    assert First(Narrow, s.ports[0 := Allocated], AnyPort, 0) == Some(1);
    hide First;
    var t := OnAllocate(Narrow, s, key, req, now).0;
    assert t == s.(ports := s.ports[0 := Allocated], lastPort := 0);
    var u := OnAllocate(Narrow, t, key, req, now).0;
    assert u.allocs.Keys == {key} && u.allocs[key].port == 1 && State(u.ports, 1).Allocated?;
    assert Removed(u, key).allocs == map[];
  }

  /** The server of the source gets there: some run of it ends in such a state. */
  lemma {:induction false} WrapIsReached(key: Key, req: Request, now: int)
    requires Plain(req)
    ensures exists states, events :: IsRun(Narrow, states, events) && Wraps(states[|events|], key, req, now)
  {
    hide Wraps, Idle;
    IdleIsReached(PORT_RANGE_MAX + 1 - PORT_RANGE_MIN, key, req);
    var states, events :| IsRun(Narrow, states, events) && Idle(states[|events|], PORT_RANGE_MAX + 1 - PORT_RANGE_MIN);
    LastPortWraps(states[|events|], key, req, now);
  }
}
