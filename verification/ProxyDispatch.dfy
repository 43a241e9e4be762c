/** Who gets what: a request and what follows it reach the context that was made for it, and the responses of a branch
    reach the context that started it, and no other. */
module ProxyDispatch {
  import opened Common
  import opened BestResponse
  import opened Forking
  import opened ForkingSafety
  import opened ProxyTables

  /** An event is handled by the context at `a` alone; what it sends out is entered for it. */
  ghost predicate OnlyHandledBy(p: Tables, q: Tables, a: Address, f: Event)
    requires WellCoded(f)
  {
    && a in p.contexts && q.contexts == p.contexts[a := Step(p.contexts[a], f)] && q.server == p.server
    && (forall t :: t in NewBranches(p.contexts[a].log, Step(p.contexts[a], f).log) ==> t in q.client && q.client[t] == a)
    && (forall t :: t in p.client && t !in NewBranches(p.contexts[a].log, Step(p.contexts[a], f).log) ==>
          t in q.client && q.client[t] == p.client[t])
  }

  lemma {:induction false} DeliveredTo(p: Tables, a: Address, f: Event)
    requires a in p.contexts && WellCoded(f)
    ensures OnlyHandledBy(p, Deliver(p, a, f), a, f)
  {
    hide Step, NewBranches;
  }

  /** A response is handled by the context that started its branch, and there is only one such context. */
  lemma {:induction false} ResponseReachesItsContext(p: Tables, tid: Tid, f: Event, a: Address)
    requires TablesOk(p) && WellCoded(f) && tid in p.client
    requires a in p.contexts && tid in Launched(p.contexts[a].log)
    ensures p.client[tid] == a
    ensures OnlyHandledBy(p, Handle(p, ToClient(tid, f)), a, f)
  {
    hide OnlyHandledBy, TablesOk, Deliver, Step, Launched, Release, WellCoded;
    StarterIsUnique(p, tid, a);
    DeliveredTo(p, a, f);
    assert Handle(p, ToClient(tid, f)) == Deliver(p, a, f);
  }

  /** What comes for a transaction of the client is handled by the context that its entry points to. */
  lemma {:induction false} ClientEventIsHandled(p: Tables, tid: Tid, f: Event)
    requires TablesOk(p) && WellCoded(f) && tid in p.server
    ensures OnlyHandledBy(p, Handle(p, ToServer(tid, f)), p.server[tid], f)
  {
    hide OnlyHandledBy, TablesOk, Deliver, Step, Launched, Release, WellCoded;
    EntryHasContext(p, tid);
    DeliveredTo(p, p.server[tid], f);
    assert Handle(p, ToServer(tid, f)) == Deliver(p, p.server[tid], f);
  }

  lemma {:induction false} StarterIsUnique(p: Tables, tid: Tid, a: Address)
    requires TablesOk(p) && tid in p.client && a in p.contexts && tid in Launched(p.contexts[a].log)
    ensures p.client[tid] == a
  {
    hide Counted, Launched;
    var b := p.client[tid];
    assert tid in p.contexts[a].known && tid in p.contexts[b].known;
  }

  /** A new request gets a new context, which handles it; one whose id is taken, and anything for an id that is not in
      the tables, is handled by none. */
  lemma {:induction false} RequestGetsContext(p: Tables, tid: Tid, a: Address, cseq: Method, q: Chain, ts: Chain)
    requires a !in p.contexts
    ensures var r := Handle(p, Arrive(tid, a, cseq, q, ts));
            if tid in p.server then r == p
            else tid in r.server && r.server == p.server[tid := a]
                 && r.contexts == p.contexts[a := Step(Init(cseq), NewRequest(q, ts))]
  {
    hide Step, NewBranches, Points;
  }

  lemma {:induction false} UnknownIsIgnored(p: Tables, tid: Tid, f: Event)
    ensures tid !in p.server ==> Handle(p, ToServer(tid, f)) == p && Handle(p, ServerDone(tid)) == p
    ensures tid !in p.client ==> Handle(p, ToClient(tid, f)) == p && Handle(p, ClientDone(tid)) == p
  {
  }

  // ----- over runs -----

  lemma {:induction false} DeliverKeepsEntry(p: Tables, a: Address, f: Event, t: Tid)
    requires TablesOk(p) && ContextsOk(p) && a in p.contexts && Ended(f) == 0 && FreshBut(p, a, p.contexts[a], f)
    ensures Deliver(p, a, f).server == p.server
    ensures t in p.client ==> t in Deliver(p, a, f).client && Deliver(p, a, f).client[t] == p.client[t]
  {
    hide TablesOk, ContextsOk, Step, Legal, Inv, Proper, OnlyHandledBy, WellCoded, Deliver, NewBranches;
    LegalIsCoded(p.contexts[a], f);
    ContextIsOk(p, a);
    StepProper(p, a, p.contexts[a], f);
    DeliveredTo(p, a, f);
    DeliveredEntries(p, a, f, t);
    if t in NewBranches(p.contexts[a].log, Step(p.contexts[a], f).log) {
      TablesParts(p);
      NewBranchesAreNew(p, a, p.contexts[a], Step(p.contexts[a], f), t);
    }
  }

  lemma {:induction false} TablesParts(p: Tables)
    requires TablesOk(p)
    ensures NoDangling(p) && Apart(p)
  {
  }

  lemma {:induction false} DeliveredEntries(p: Tables, a: Address, f: Event, t: Tid)
    requires WellCoded(f) && OnlyHandledBy(p, Deliver(p, a, f), a, f)
    ensures Deliver(p, a, f).server == p.server
    ensures t in p.client && t !in NewBranches(p.contexts[a].log, Step(p.contexts[a], f).log) ==>
              t in Deliver(p, a, f).client && Deliver(p, a, f).client[t] == p.client[t]
  {
    hide Step, Deliver, NewBranches;
  }

  /** An entry stays until its transaction ends. */
  lemma {:induction false} EntryStays(p: Tables, e: ProxyEvent, t: Tid)
    requires TablesOk(p) && ContextsOk(p) && Possible(p, e)
    ensures t in p.client && e != ClientDone(t) ==> t in Handle(p, e).client && Handle(p, e).client[t] == p.client[t]
    ensures t in p.server && e != ServerDone(t) ==> t in Handle(p, e).server && Handle(p, e).server[t] == p.server[t]
  {
    hide TablesOk, ContextsOk, Step, Legal, Deliver, Inv, Launched;
    match e
    case Arrive(tid, a, cseq, q, ts) =>
      if tid !in p.server {
        var r := p.(contexts := p.contexts[a := Init(cseq)], server := p.server[tid := a]);
        NothingKnownYet(cseq);
        AdmitOk(p, tid, a, Init(cseq));
        InitInv(cseq);
        AdmittedOk(p, tid, a, cseq);
        DeliverKeepsEntry(r, a, NewRequest(q, ts), t);
      }
    case ToServer(tid, f) =>
      EntryHasContext(p, tid);
      if tid in p.server { DeliverKeepsEntry(p, p.server[tid], f, t); }
    case ToClient(tid, f) =>
      EntryHasContext(p, tid);
      if tid in p.client { DeliverKeepsEntry(p, p.client[tid], f, t); }
    case ClientDone(_) =>
    case ServerDone(_) =>
  }

  lemma {:induction false} NothingKnownYet(cseq: Method)
    ensures Init(cseq).txCount == 1 && Init(cseq).log == [] && Init(cseq).known == {}
  {
  }

  lemma {:induction false} AdmittedOk(p: Tables, tid: Tid, a: Address, cseq: Method)
    requires ContextsOk(p) && Inv(Init(cseq))
    ensures ContextsOk(p.(contexts := p.contexts[a := Init(cseq)], server := p.server[tid := a]))
  {
    hide Inv;
  }

  /** Over any run: what comes for a transaction of the client reaches the context that its request was given to, for
      as long as the transaction lasts. */
  lemma {:induction false} ClientReachesItsContext(states: seq<Tables>, events: seq<ProxyEvent>, m: nat, n: nat, tid: Tid)
    requires IsProxyRun(states, events) && m <= n < |states| && tid in states[m].server
    requires forall i :: m <= i < n ==> events[i] != ServerDone(tid)
    ensures tid in states[n].server && states[n].server[tid] == states[m].server[tid]
    ensures states[m].server[tid] in states[n].contexts
  {
    hide Handle, Possible, TablesOk, ContextsOk;
    CountsAreEntries(states, events, n);
    if n > m {
      ClientReachesItsContext(states, events, m, n - 1, tid);
      CountsAreEntries(states, events, n - 1);
      EntryStays(states[n - 1], events[n - 1], tid);
    }
    EntryHasContext(states[n], tid);
  }

  /** And what comes for a branch reaches the context that started it, for as long as the branch lasts. */
  lemma {:induction false} BranchReachesItsContext(states: seq<Tables>, events: seq<ProxyEvent>, m: nat, n: nat, tid: Tid)
    requires IsProxyRun(states, events) && m <= n < |states| && tid in states[m].client
    requires forall i :: m <= i < n ==> events[i] != ClientDone(tid)
    ensures tid in states[n].client && states[n].client[tid] == states[m].client[tid]
    ensures var a := states[m].client[tid];
            a in states[n].contexts && tid in Launched(states[n].contexts[a].log)
            && forall b :: b in states[n].contexts && tid in Launched(states[n].contexts[b].log) ==> b == a
  {
    hide Handle, Possible, TablesOk, ContextsOk, Launched;
    CountsAreEntries(states, events, n);
    if n > m {
      BranchReachesItsContext(states, events, m, n - 1, tid);
      CountsAreEntries(states, events, n - 1);
      EntryStays(states[n - 1], events[n - 1], tid);
    }
    StarterIsThere(states[n], tid);
    forall b | b in states[n].contexts && tid in Launched(states[n].contexts[b].log)
      ensures b == states[m].client[tid]
    {
      StarterIsUnique(states[n], tid, b);
    }
  }

  lemma {:induction false} StarterIsThere(p: Tables, tid: Tid)
    requires TablesOk(p) && tid in p.client
    ensures p.client[tid] in p.contexts && tid in Launched(p.contexts[p.client[tid]].log)
  {
    hide Launched;
  }
}
