/** The proxy's two transaction tables and the lifetime of its request contexts. A context is known by
    its address; only contexts that have not been destroyed have one. */
module ProxyTables {
  import opened Common
  import opened BestResponse
  import opened Forking
  import opened ForkingSafety
  import ForkingProgress

  type Address = nat
  type Table = map<Tid, Address>

  datatype Tables = Tables(server: Table, client: Table, contexts: map<Address, Ctx>)

  const EMPTY := Tables(map[], map[], map[])

  datatype ProxyEvent =
    | Arrive(tid: Tid, address: Address, cseq: Method, request: Chain, targets: Chain)
    | ToServer(tid: Tid, e: Event)
    | ToClient(tid: Tid, e: Event)
    | ClientDone(tid: Tid)
    | ServerDone(tid: Tid)

  /** The branches started by one event, which the proxy enters into its client table. */
  function NewBranches(before: seq<Sent>, after: seq<Sent>): set<Tid> {
    Launched(after) - Launched(before)
  }

  /** Entries for the branches `ts`, all pointing to one context. */
  function Points(ts: set<Tid>, a: Address): Table {
    map t | t in ts :: a
  }

  /** A pointer to a context that is gone would have no defined effect; that there is none is proved below. */
  function Deliver(p: Tables, a: Address, e: Event): Tables {
    if a !in p.contexts || !WellCoded(e) then p
    else
      var c, d := p.contexts[a], Step(p.contexts[a], e);
      p.(contexts := p.contexts[a := d], client := p.client + Points(NewBranches(c.log, d.log), a))
  }

  /** A context whose transaction count has come down to zero destroys itself. */
  function Release(p: Tables, a: Address, e: Event): Tables {
    if a !in p.contexts || !WellCoded(e) then p
    else
      var d := Step(p.contexts[a], e);
      if d.txCount == 0 then p.(contexts := p.contexts - {a}) else p.(contexts := p.contexts[a := d])
  }

  /** An unknown transaction id, and a new request whose id is taken, touch no context. */
  function Handle(p: Tables, e: ProxyEvent): Tables {
    match e
    case Arrive(tid, a, cseq, q, ts) =>
      if tid in p.server then p
      else Deliver(p.(contexts := p.contexts[a := Init(cseq)], server := p.server[tid := a]), a, NewRequest(q, ts))
    case ToServer(tid, f) => if tid in p.server then Deliver(p, p.server[tid], f) else p
    case ToClient(tid, f) => if tid in p.client then Deliver(p, p.client[tid], f) else p
    case ClientDone(tid) =>
      if tid in p.client then
        var q := Release(p, p.client[tid], BranchEnded(tid));
        q.(client := q.client - {tid})
      else p
    case ServerDone(tid) =>
      if tid in p.server then
        var q := Release(p, p.server[tid], ServerEnded);
        q.(server := q.server - {tid})
      else p
  }

  /** Chains use branch ids that are unique in the whole proxy. */
  ghost predicate FreshFor(p: Tables, c: Ctx, e: Event) {
    Legal(c, e) && forall b :: b in p.contexts ==> Step(c, e).known - c.known !! p.contexts[b].known
  }

  ghost predicate Possible(p: Tables, e: ProxyEvent) {
    match e
    case Arrive(tid, a, cseq, q, ts) =>
      a !in p.contexts && cseq != CANCEL && FreshFor(p, Init(cseq), NewRequest(q, ts))
    case ToServer(tid, f) =>
      Ended(f) == 0 && (tid in p.server && p.server[tid] in p.contexts ==> FreshFor(p, p.contexts[p.server[tid]], f))
    case ToClient(tid, f) =>
      Ended(f) == 0 && (tid in p.client && p.client[tid] in p.contexts ==> FreshFor(p, p.contexts[p.client[tid]], f))
    case ClientDone(_) => true
    case ServerDone(_) => true
  }

  // ----- counting entries -----

  ghost function Entries(m: Table, a: Address): set<Tid> {
    set t | t in m && m[t] == a
  }

  lemma {:induction false} EntriesAdded(m: Table, a: Address, ts: set<Tid>)
    requires forall t :: t in ts ==> t !in m
    ensures |Entries(m + Points(ts, a), a)| == |Entries(m, a)| + |ts|
    ensures forall b :: b != a ==> Entries(m + Points(ts, a), b) == Entries(m, b)
  {
    forall b
      ensures Entries(m + Points(ts, a), b) == Entries(m, b) + (if b == a then ts else {})
    {
      EntriesWith(m, a, ts, b);
    }
    assert Entries(m, a) !! ts;
    hide Points;
  }

  lemma {:induction false} EntriesWith(m: Table, a: Address, ts: set<Tid>, b: Address)
    requires forall t :: t in ts ==> t !in m
    ensures Entries(m + Points(ts, a), b) == Entries(m, b) + (if b == a then ts else {})
  {
  }

  lemma {:induction false} EntriesRemoved(m: Table, t: Tid)
    requires t in m
    ensures |Entries(m - {t}, m[t])| == |Entries(m, m[t])| - 1
    ensures forall b :: b != m[t] ==> Entries(m - {t}, b) == Entries(m, b)
  {
    assert Entries(m - {t}, m[t]) == Entries(m, m[t]) - {t};
    forall b | b != m[t]
      ensures Entries(m - {t}, b) == Entries(m, b)
    {
    }
  }

  lemma {:induction false} Unreferenced(m: Table, a: Address)
    ensures |Entries(m, a)| == 0 <==> forall t :: t in m ==> m[t] != a
  {
    if t :| t in m && m[t] == a {
      assert t in Entries(m, a);
    } else {
      assert Entries(m, a) == {};
    }
  }

  // ----- the invariant -----

  /** Every entry points to a live context that started the branch it stands for. */
  ghost predicate NoDangling(p: Tables) {
    && (forall t :: t in p.server ==> p.server[t] in p.contexts)
    && (forall t :: t in p.client ==> p.client[t] in p.contexts && t in Launched(p.contexts[p.client[t]].log))
  }

  /** A context counts exactly the entries pointing to it, and lives exactly as long as there is one. */
  ghost predicate Counted(p: Tables) {
    forall a :: a in p.contexts ==> p.contexts[a].txCount == |Entries(p.server, a)| + |Entries(p.client, a)| > 0
  }

  /** No two contexts know the same branch. */
  ghost predicate Apart(p: Tables) {
    && (forall a :: a in p.contexts ==> Launched(p.contexts[a].log) <= p.contexts[a].known)
    && (forall a, b :: a in p.contexts && b in p.contexts && a != b ==> p.contexts[a].known !! p.contexts[b].known)
  }

  ghost predicate TablesOk(p: Tables) {
    NoDangling(p) && Counted(p) && Apart(p)
  }

  ghost predicate ContextsOk(p: Tables) {
    forall a :: a in p.contexts ==> Inv(p.contexts[a])
  }

  lemma {:induction false} StepCounted(c: Ctx, e: Event)
    requires Inv(c) && Legal(c, e)
    ensures Inv(Step(c, e)) && c.known <= Step(c, e).known
    ensures Step(c, e).txCount == c.txCount + |NewBranches(c.log, Step(c, e).log)| - Ended(e)
    ensures Launched(c.log) <= Launched(Step(c, e).log) <= Step(c, e).known
  {
    StepSound(c, e);
    hide Step, Legal, Orderly, Launched, Contacted, Revoked, Answered, MapsAgree;
    var d := Step(c, e);
    ForkingProgress.LaunchedMonotone(c.log, d.log);
    assert Launched(d.log) == Launched(c.log) + NewBranches(c.log, d.log);
  }

  /** The part of a delivery that concerns the tables: context `c` has become `d`. */
  function Enter(p: Tables, a: Address, c: Ctx, d: Ctx): Tables {
    p.(contexts := p.contexts[a := d], client := p.client + Points(NewBranches(c.log, d.log), a))
  }

  /** What a delivery must be like for the tables to stay right. */
  ghost predicate Proper(p: Tables, a: Address, c: Ctx, d: Ctx) {
    && a in p.contexts && c == p.contexts[a]
    && c.known <= d.known && Launched(c.log) <= Launched(d.log) <= d.known
    && d.txCount == c.txCount + |NewBranches(c.log, d.log)|
    && (forall b :: b in p.contexts && b != a ==> d.known - c.known !! p.contexts[b].known)
  }

  lemma {:induction false} NewBranchesAreNew(p: Tables, a: Address, c: Ctx, d: Ctx, t: Tid)
    requires NoDangling(p) && Apart(p) && Proper(p, a, c, d)
    requires t in NewBranches(c.log, d.log)
    ensures t !in p.client
  {
    hide Launched;
    assert forall b :: b in p.contexts && b != a && t in d.known - c.known ==> t !in p.contexts[b].known;
  }

  lemma {:induction false} EnterNoDangling(p: Tables, a: Address, c: Ctx, d: Ctx)
    requires NoDangling(p) && Proper(p, a, c, d)
    ensures NoDangling(Enter(p, a, c, d))
  {
    hide Launched;
  }

  lemma {:induction false} EnterCounted(p: Tables, a: Address, c: Ctx, d: Ctx)
    requires Counted(p) && Proper(p, a, c, d)
    requires forall t :: t in NewBranches(c.log, d.log) ==> t !in p.client
    ensures Counted(Enter(p, a, c, d))
  {
    hide Launched, NewBranches, Entries, Points;
    EntriesAdded(p.client, a, NewBranches(c.log, d.log));
  }

  lemma {:induction false} EnterApart(p: Tables, a: Address, c: Ctx, d: Ctx)
    requires Apart(p) && Proper(p, a, c, d)
    ensures Apart(Enter(p, a, c, d))
  {
    hide Launched, NewBranches, Points;
    var q := Enter(p, a, c, d);
    forall b | b in p.contexts && b != a
      ensures d.known !! p.contexts[b].known
    {
      assert d.known == c.known + (d.known - c.known);
    }
  }

  lemma {:induction false} EnterOk(p: Tables, a: Address, c: Ctx, d: Ctx)
    requires TablesOk(p) && Proper(p, a, c, d)
    ensures TablesOk(Enter(p, a, c, d))
  {
    hide NoDangling, Counted, Apart, Proper, NewBranches, Launched, Enter;
    forall t | t in NewBranches(c.log, d.log)
      ensures t !in p.client
    {
      NewBranchesAreNew(p, a, c, d, t);
    }
    EnterNoDangling(p, a, c, d);
    EnterCounted(p, a, c, d);
    EnterApart(p, a, c, d);
  }

  lemma {:induction false} StepProper(p: Tables, a: Address, c: Ctx, e: Event)
    requires a in p.contexts && c == p.contexts[a] && Inv(c) && Ended(e) == 0
    requires FreshBut(p, a, c, e)
    ensures Proper(p, a, c, Step(c, e)) && Inv(Step(c, e))
  {
    assert WellCoded(e);
    hide Step, Legal, Launched, Inv;
    StepCounted(c, e);
  }

  /** Like FreshFor, for a context that is itself in the tables. */
  ghost predicate FreshBut(p: Tables, a: Address, c: Ctx, e: Event) {
    Legal(c, e) && forall b :: b in p.contexts && b != a ==> Step(c, e).known - c.known !! p.contexts[b].known
  }

  lemma {:induction false} LegalIsCoded(c: Ctx, e: Event)
    requires Legal(c, e)
    ensures WellCoded(e)
  {
  }

  lemma {:induction false} DeliverEnters(p: Tables, a: Address, e: Event)
    requires a in p.contexts && WellCoded(e)
    ensures Deliver(p, a, e) == Enter(p, a, p.contexts[a], Step(p.contexts[a], e))
  {
    hide Step, NewBranches, Points;
  }

  lemma {:induction false} ContextIsOk(p: Tables, a: Address)
    requires ContextsOk(p) && a in p.contexts
    ensures Inv(p.contexts[a])
  {
    hide Inv;
  }

  lemma {:induction false} EnterContexts(p: Tables, a: Address, c: Ctx, d: Ctx)
    requires ContextsOk(p) && Inv(d)
    ensures ContextsOk(Enter(p, a, c, d))
  {
    hide Inv, NewBranches, Points;
  }

  lemma {:induction false} DeliverOk(p: Tables, a: Address, e: Event)
    requires TablesOk(p) && ContextsOk(p)
    requires a in p.contexts && Ended(e) == 0 && FreshBut(p, a, p.contexts[a], e)
    ensures WellCoded(e)
    ensures TablesOk(Deliver(p, a, e)) && ContextsOk(Deliver(p, a, e))
  {
    hide TablesOk, ContextsOk, Step, Legal, Inv, Proper, Deliver, Enter, WellCoded;
    LegalIsCoded(p.contexts[a], e);
    DeliverEnters(p, a, e);
    assert Inv(p.contexts[a]) by { ContextIsOk(p, a); }
    StepProper(p, a, p.contexts[a], e);
    EnterOk(p, a, p.contexts[a], Step(p.contexts[a], e));
    EnterContexts(p, a, p.contexts[a], Step(p.contexts[a], e));
  }

  lemma {:induction false} OneEntryMore(m: Table, t: Tid, a: Address, b: Address)
    requires t !in m
    ensures |Entries(m[t := a], b)| == |Entries(m, b)| + (if a == b then 1 else 0)
  {
    assert t !in Entries(m, b);
    assert Entries(m[t := a], b) == Entries(m, b) + (if a == b then {t} else {});
  }

  lemma {:induction false} NobodyPointsTo(p: Tables, a: Address)
    requires NoDangling(p) && a !in p.contexts
    ensures |Entries(p.server, a)| == 0 && |Entries(p.client, a)| == 0
  {
    hide Launched;
    Unreferenced(p.server, a);
    Unreferenced(p.client, a);
  }

  lemma {:induction false} AdmitCounted(p: Tables, tid: Tid, a: Address, c: Ctx)
    requires NoDangling(p) && Counted(p) && tid !in p.server && a !in p.contexts && c.txCount == 1
    ensures Counted(p.(contexts := p.contexts[a := c], server := p.server[tid := a]))
  {
    hide NoDangling, Entries;
    NobodyPointsTo(p, a);
    forall x | x in p.contexts || x == a
      ensures |Entries(p.server[tid := a], x)| == |Entries(p.server, x)| + (if a == x then 1 else 0)
    {
      OneEntryMore(p.server, tid, a, x);
    }
  }

  /** A context counts its own server entry from the start. */
  lemma {:induction false} AdmitOk(p: Tables, tid: Tid, a: Address, c: Ctx)
    requires TablesOk(p) && tid !in p.server && a !in p.contexts
    requires c.txCount == 1 && c.log == [] && c.known == {}
    ensures TablesOk(p.(contexts := p.contexts[a := c], server := p.server[tid := a]))
  {
    hide Launched, Counted, Apart;
    AdmitCounted(p, tid, a, c);
    AdmitApart(p, tid, a, c);
  }

  lemma {:induction false} AdmitApart(p: Tables, tid: Tid, a: Address, c: Ctx)
    requires Apart(p) && a !in p.contexts && c.log == [] && c.known == {}
    ensures Apart(p.(contexts := p.contexts[a := c], server := p.server[tid := a]))
  {
    assert Launched(c.log) == {};
    hide Launched;
    var q := p.(contexts := p.contexts[a := c], server := p.server[tid := a]);
    forall x, y | x in q.contexts && y in q.contexts && x != y
      ensures q.contexts[x].known !! q.contexts[y].known
    {
      if x != a && y != a {
        assert p.contexts[x].known !! p.contexts[y].known;
      }
    }
  }

  lemma {:induction false} ArriveOk(p: Tables, tid: Tid, a: Address, cseq: Method, q: Chain, ts: Chain)
    requires TablesOk(p) && ContextsOk(p) && Possible(p, Arrive(tid, a, cseq, q, ts)) && tid !in p.server
    ensures TablesOk(Handle(p, Arrive(tid, a, cseq, q, ts))) && ContextsOk(Handle(p, Arrive(tid, a, cseq, q, ts)))
  {
    hide TablesOk, Step, Inv, Legal, Deliver, ApplyAll;
    InitInv(cseq);
    AdmitOk(p, tid, a, Init(cseq));
    DeliverOk(p.(contexts := p.contexts[a := Init(cseq)], server := p.server[tid := a]), a, NewRequest(q, ts));
  }

  lemma {:induction false} InitInv(cseq: Method)
    requires cseq != CANCEL
    ensures Inv(Init(cseq))
  {
  }

  /** The end of a transaction changes nothing in its context but the count and the branch. */
  lemma {:induction false} EndChangesCount(c: Ctx, e: Event)
    requires Inv(c) && Ended(e) == 1
    ensures Legal(c, e) && Inv(Step(c, e)) && Step(c, e).txCount == c.txCount - 1
    ensures Step(c, e).log == c.log && Step(c, e).known == c.known
  {
    hide Inv, Advances, Balance, AllAllowed, ApplyAll, AfterRequestChain, AfterResponse, OnResponse, ProcessCancel, ProcessTimerC;
    StepSound(c, e);
  }

  /** An entry is taken off the tables, and the context it pointed to counts one less. */
  ghost predicate OneLess(p: Tables, a: Address, d: Ctx, q: Tables, tid: Tid) {
    && a in p.contexts
    && d.txCount == p.contexts[a].txCount - 1 && d.log == p.contexts[a].log && d.known == p.contexts[a].known
    && q.contexts == (if d.txCount == 0 then p.contexts - {a} else p.contexts[a := d])
    && ((tid in p.client && p.client[tid] == a && q.client == p.client - {tid} && q.server == p.server)
        || (tid in p.server && p.server[tid] == a && q.server == p.server - {tid} && q.client == p.client))
  }

  lemma {:induction false} OneLessCounted(p: Tables, a: Address, d: Ctx, q: Tables, tid: Tid)
    requires Counted(p) && OneLess(p, a, d, q, tid)
    ensures Counted(q)
    ensures d.txCount == |Entries(q.server, a)| + |Entries(q.client, a)|
  {
    hide Entries;
    if tid in p.client && p.client[tid] == a {
      EntriesRemoved(p.client, tid);
    }
    if tid in p.server && p.server[tid] == a {
      EntriesRemoved(p.server, tid);
    }
  }

  lemma {:induction false} OneLessNoDangling(p: Tables, a: Address, d: Ctx, q: Tables, tid: Tid)
    requires NoDangling(p) && OneLess(p, a, d, q, tid)
    requires d.txCount == |Entries(q.server, a)| + |Entries(q.client, a)|
    ensures NoDangling(q)
  {
    hide Launched, Entries;
    Unreferenced(q.server, a);
    Unreferenced(q.client, a);
  }

  lemma {:induction false} OneLessApart(p: Tables, a: Address, d: Ctx, q: Tables, tid: Tid)
    requires Apart(p) && OneLess(p, a, d, q, tid)
    ensures Apart(q)
  {
    hide Launched;
  }

  /** The entry goes, and with it the context if it was the last one. */
  lemma {:induction false} EntryGone(p: Tables, a: Address, d: Ctx, q: Tables, tid: Tid)
    requires TablesOk(p) && OneLess(p, a, d, q, tid)
    ensures TablesOk(q)
  {
    hide OneLess, NoDangling, Counted, Apart, Entries;
    OneLessCounted(p, a, d, q, tid);
    OneLessNoDangling(p, a, d, q, tid);
    OneLessApart(p, a, d, q, tid);
  }

  lemma {:induction false} EntryHasContext(p: Tables, tid: Tid)
    requires TablesOk(p)
    ensures tid in p.server ==> p.server[tid] in p.contexts
    ensures tid in p.client ==> p.client[tid] in p.contexts
  {
  }

  lemma {:induction false} ClientDoneOk(p: Tables, tid: Tid)
    requires TablesOk(p) && ContextsOk(p) && tid in p.client && p.client[tid] in p.contexts
    ensures TablesOk(Handle(p, ClientDone(tid))) && ContextsOk(Handle(p, ClientDone(tid)))
  {
    hide TablesOk, Step, Legal, Deliver, Inv;
    EndChangesCount(p.contexts[p.client[tid]], BranchEnded(tid));
    EntryGone(p, p.client[tid], Step(p.contexts[p.client[tid]], BranchEnded(tid)), Handle(p, ClientDone(tid)), tid);
  }

  lemma {:induction false} ServerDoneOk(p: Tables, tid: Tid)
    requires TablesOk(p) && ContextsOk(p) && tid in p.server && p.server[tid] in p.contexts
    ensures TablesOk(Handle(p, ServerDone(tid))) && ContextsOk(Handle(p, ServerDone(tid)))
  {
    hide TablesOk, Step, Legal, Deliver, Inv;
    EndChangesCount(p.contexts[p.server[tid]], ServerEnded);
    EntryGone(p, p.server[tid], Step(p.contexts[p.server[tid]], ServerEnded), Handle(p, ServerDone(tid)), tid);
  }

  lemma {:induction false} HandleOk(p: Tables, e: ProxyEvent)
    requires TablesOk(p) && ContextsOk(p) && Possible(p, e)
    ensures TablesOk(Handle(p, e)) && ContextsOk(Handle(p, e))
  {
    hide TablesOk, ContextsOk, Step, Legal, Deliver, Release, Inv, Launched;
    match e
    case Arrive(tid, a, cseq, q, ts) => if tid !in p.server { ArriveOk(p, tid, a, cseq, q, ts); }
    case ToServer(tid, f) => EntryHasContext(p, tid); if tid in p.server { DeliverOk(p, p.server[tid], f); }
    case ToClient(tid, f) => EntryHasContext(p, tid); if tid in p.client { DeliverOk(p, p.client[tid], f); }
    case ClientDone(tid) => EntryHasContext(p, tid); if tid in p.client { ClientDoneOk(p, tid); }
    case ServerDone(tid) => EntryHasContext(p, tid); if tid in p.server { ServerDoneOk(p, tid); }
  }

  ghost predicate IsProxyRun(states: seq<Tables>, events: seq<ProxyEvent>) {
    && |states| == |events| + 1
    && states[0] == EMPTY
    && (forall i :: 0 <= i < |events| ==> Possible(states[i], events[i]) && states[i + 1] == Handle(states[i], events[i]))
  }

  /** In every run of the proxy, a context's transaction count is the number of table entries pointing to
      it, so it is destroyed exactly when its last entry goes, and no entry outlives its context. */
  lemma {:induction false} CountsAreEntries(states: seq<Tables>, events: seq<ProxyEvent>, n: nat)
    requires IsProxyRun(states, events) && n < |states|
    ensures TablesOk(states[n]) && ContextsOk(states[n])
    ensures forall a :: a in states[n].contexts <==>
                          (exists t :: t in states[n].server && states[n].server[t] == a)
                          || (exists t :: t in states[n].client && states[n].client[t] == a)
  {
    hide Possible, Handle, Inv;
    if n > 0 {
      CountsAreEntries(states, events, n - 1);
      HandleOk(states[n - 1], events[n - 1]);
    }
    forall a | a in states[n].contexts
      ensures (exists t :: t in states[n].server && states[n].server[t] == a)
           || (exists t :: t in states[n].client && states[n].client[t] == a)
    {
      Unreferenced(states[n].server, a);
      Unreferenced(states[n].client, a);
    }
  }
}
