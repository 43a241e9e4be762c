/** What a client may rely on: when its requests are refused and with which code, what a refresh does, and that
    an allocation that is refreshed in time stays. */
module TurnRequests {
  import opened Common
  import opened TurnPorts
  import opened TurnServer

  // ----- allocate requests -----

  /** The kind of port that a request without a token asks for. */
  predicate AsksFor(req: Request, kind: Kind) {
    || (req.props.None? && kind.AnyPort?)
    || (req.props == Some(1) && kind.EvenPort?)
    || (req.props == Some(2) && kind.EvenPair?)
  }

  /** A request that is complete and in order, for a five-tuple without an allocation. */
  predicate InOrder(s: Server, key: Key, req: Request) {
    req.authenticated && key !in s.allocs && req.transport == Some(17) && !(req.props.Some? && req.token.Some?)
  }

  /** What can be given: the port that a token names, if it is in the range and not allocated; otherwise any port
      of the kind asked for that a scan comes upon. */
  ghost predicate Servable(w: Width, s: Server, req: Request) {
    if req.token.Some? then
      var p := req.token.value % 0x1_0000;
      49152 <= p <= 65535 && !State(s.ports, p).Allocated?
    else
      exists kind :: AsksFor(req, kind) && Answer(w, s.ports, kind, s.lastPort) != 0
  }

  /** An allocate request is refused exactly if it lacks authentication (401), comes from a client that has an
      allocation (437), names no transport or both kinds of properties (400), names another transport than UDP
      (442), or if there is no port for it (508). But for the last case the server is then unchanged. */
  lemma {:induction false} AllocateRefusedExactly(w: Width, s: Server, key: Key, req: Request, now: int)
    ensures var (t, r) := OnAllocate(w, s, key, req, now);
            && (!req.authenticated ==> r == Refused(401, None) && t == s)
            && (req.authenticated && key in s.allocs ==> r == Refused(437, None) && t == s)
            && (req.authenticated && key !in s.allocs && req.transport != Some(17) ==>
                  r == Refused(if req.transport.None? then 400 else 442, None) && t == s)
            && (req.authenticated && key !in s.allocs && req.transport == Some(17) && req.props.Some? && req.token.Some? ==>
                  r == Refused(400, None) && t == s)
            && (InOrder(s, key, req) && !Servable(w, s, req) ==> r.Refused? && r.code == 508 && t.allocs == s.allocs)
            && (InOrder(s, key, req) && Servable(w, s, req) ==> r.Granted?)
  {
    hide Answer, First, Taken, Installed;
    if req.props.None? {
      assert AsksFor(req, AnyPort);
    } else if req.props == Some(1) {
      assert AsksFor(req, EvenPort);
    } else if req.props == Some(2) {
      assert AsksFor(req, EvenPair);
    }
  }

  /** With a counter that is wide enough, a request without a token can be served exactly if there is a port of
      its kind in the range. */
  lemma {:induction false} WideServable(s: Server, req: Request)
    requires CounterOk(Wide, s.lastPort) && req.token.None?
    ensures Servable(Wide, s, req) <==> exists kind :: AsksFor(req, kind) && SomeAvailable(s.ports, kind, 49152, 65536)
  {
    hide SomeAvailable;
    forall kind
      ensures Answer(Wide, s.ports, kind, s.lastPort) != 0 <==> SomeAvailable(s.ports, kind, 49152, 65536)
    {
      WideServesTheRange(s.ports, kind, s.lastPort);
    }
  }

  /** Without a token the port granted is the nearest of its kind ahead of the one granted last, where the next
      search begins. */
  lemma {:induction false} GrantIsNearest(w: Width, s: Server, key: Key, req: Request, now: int, kind: Kind, q: int)
    requires CounterOk(w, s.lastPort) && AsksFor(req, kind) && req.token.None?
    requires OnCircle(w, q) && Available(s.ports, kind, q)
    ensures var (t, r) := OnAllocate(w, s, key, req, now);
            r.Granted? ==> t.lastPort == r.port.value
                           && Rank(w, Advanced(w, s.lastPort, 1), r.port.value) <= Rank(w, Advanced(w, s.lastPort, 1), q)
  {
    hide First, Available, Rank, Taken;
    FirstIsNearest(w, s.ports, kind, s.lastPort);
  }

  /** A scan that finds nothing changes nothing but the counter, which is left at the next port of the kind, free or
      not. */
  lemma {:induction false} FailedScan(w: Width, s: Server, kind: Kind)
    requires CounterOk(w, s.lastPort) && First(w, s.ports, kind, s.lastPort).None?
    ensures var t, start := AfterScan(w, s, kind), Advanced(w, s.lastPort, 1);
            && t == s.(lastPort := t.lastPort) && OnCircle(w, t.lastPort) && RightParity(kind, t.lastPort)
            && Rank(w, start, t.lastPort) <= 1 && (RightParity(kind, start) ==> t.lastPort == start)
  {
    hide First;
  }

  // ----- refresh requests -----

  /** A refresh is refused exactly if it lacks authentication (401), finds no allocation (437), or comes with
      another user name or secret than the allocation was made with (441), and changes nothing then. With
      lifetime 0 it ends the allocation. Otherwise the allocation lasts for the time granted from now on, a timer
      is started for its end, and nothing else changes. */
  lemma {:induction false} RefreshIsAsAsked(w: Width, s: Server, key: Key, req: Request, now: int)
    ensures var (t, r) := Step(w, s, RefreshRequest(key, req, now));
            var known := req.authenticated && key in s.allocs;
            var mine := known && s.allocs[key].user == req.user && s.allocs[key].secret == req.secret;
            if !mine then
              t == s && r == Refused(if !req.authenticated then 401 else if !known then 437 else 441, None)
            else if req.lifetime == Some(0) then
              r == Granted(0, None, None) && t.allocs == s.allocs - {key} && t.timers == s.timers
            else
              && r.Granted? && r.port.None? && r.token.None? && Clamped(req.lifetime, r.lifetime)
              && t.allocs == s.allocs[key := s.allocs[key].(expires := now + r.lifetime)]
              && t.timers == s.timers + {(key, now + r.lifetime)}
              && t.ports == s.ports && t.lastPort == s.lastPort
  {
    hide Freed;
  }

  /** A timer that is delivered is spent. It ends the allocation it was started for exactly if that is due, however
      often it was refreshed since; the loss of the socket ends it at once. */
  lemma {:induction false} EndsExactly(w: Width, s: Server, key: Key, deadline: int, now: int)
    ensures var t := Step(w, s, TimerFired(key, deadline, now)).0;
            && t.timers == s.timers - {(key, deadline)} && t.lastPort == s.lastPort
            && t.allocs == (if key in s.allocs && s.allocs[key].expires <= now then s.allocs - {key} else s.allocs)
    ensures var t := Step(w, s, SocketDestroyed(key)).0;
            t.allocs == s.allocs - {key} && t.timers == s.timers && t.lastPort == s.lastPort
  {
    hide Freed;
    assert key !in s.allocs ==> s.allocs - {key} == s.allocs;
  }

  // ----- an allocation that is refreshed in time -----

  /** When the allocation of `k` is due to end, going by the replies to its refreshes since step `m`, where it
      was due at `x`. */
  ghost function DueAt(w: Width, states: seq<Server>, events: seq<Event>, m: nat, n: nat, k: Key, x: int): int
    requires m <= n <= |events| < |states|
  {
    if n == m then x
    else
      var e := events[n - 1];
      if e.RefreshRequest? && e.key == k && Step(w, states[n - 1], e).1.Granted?
      then e.now + Step(w, states[n - 1], e).1.lifetime
      else DueAt(w, states, events, m, n - 1, k, x)
  }

  /** From step `m` to step `n` the client of `k` keeps its socket and does not give the allocation up, and no
      timer of it comes after the time up to which it was last granted. */
  ghost predicate InTime(w: Width, states: seq<Server>, events: seq<Event>, m: nat, n: nat, k: Key, x: int)
    requires m <= n <= |events| < |states|
  {
    n > m ==>
      && InTime(w, states, events, m, n - 1, k, x)
      && var e := events[n - 1];
         e.key == k ==>
           && !e.SocketDestroyed?
           && (e.RefreshRequest? ==> e.req.lifetime != Some(0))
           && (e.TimerFired? ==> e.now < DueAt(w, states, events, m, n - 1, k, x))
  }

  /** An allocation that its client refreshes in time stays, with its port, its owner and the expiry that the last
      refresh was granted, whatever else happens. */
  lemma {:induction false} RefreshedInTimeStays(w: Width, states: seq<Server>, events: seq<Event>, m: nat, n: nat, k: Key)
    requires IsRun(w, states, events) && m <= n <= |events| && k in states[m].allocs
    requires InTime(w, states, events, m, n, k, states[m].allocs[k].expires)
    ensures k in states[n].allocs
    ensures states[n].allocs[k]
         == states[m].allocs[k].(expires := DueAt(w, states, events, m, n, k, states[m].allocs[k].expires))
  {
    hide Init, Step, Legal, Clamped;
    if n > m {
      RefreshedInTimeStays(w, states, events, m, n - 1, k);
      var s, e := states[n - 1], events[n - 1];
      if e.RefreshRequest? {
        RefreshIsAsAsked(w, s, e.key, e.req, e.now);
      } else {
        StepKeeps(w, s, e, k);
      }
    }
  }
}
