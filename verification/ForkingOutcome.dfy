/** Every request that was forwarded ends in a final response: a branch is running until the client has been
    answered, in every state, and a branch that has got its final response runs no longer. */
module ForkingOutcome {
  import opened Common
  import opened BestResponse
  import opened Forking
  import opened ForkingSafety
  import opened ForkingProgress

  /** A request with a branch that was started is answered, or still has one that is running. */
  ghost predicate Alive(c: Ctx) {
    Launched(c.log) != {} ==> c.finalSent || c.active != map[]
  }

  // ----- what a chain, a CANCEL or a timer leaves -----

  lemma {:induction false} VerdictAlive(c: Ctx, d: Ctx)
    requires Alive(c) && Inv(c) && SameVerdict(c, d) && c.log <= d.log
    ensures Alive(d)
  {
    hide Orderly, Contacted, Revoked, Answered;
    LaunchedMonotone(c.log, d.log);
    hide Launched;
    assert d.active == map[] ==> Lost(d) == Launched(d.log);
    assert c.active.Keys <= Launched(c.log);
  }

  lemma {:induction false} ApplyAllAlive(c: Ctx, ops: seq<Op>)
    requires Good(c) && Alive(c) && AllAllowed(c, ops)
    ensures Good(ApplyAll(c, ops)) && Alive(ApplyAll(c, ops))
  {
    hide Inv, Accounted, SameVerdict, Alive, ApplyAll, AllAllowed, Balance;
    GoodIsInv(c);
    ApplyAllGood(c, ops);
    ApplyAllSound(c, ops);
    VerdictAlive(c, ApplyAll(c, ops));
  }

  lemma {:induction false} NothingWasLost(c: Ctx)
    requires Good(c) && !c.finalSent && c.failures == [] && c.active == map[]
    ensures Launched(c.log) == {}
  {
    hide Inv, Launched;
    assert Lost(c) == Launched(c.log);
  }

  lemma {:induction false} StillNothingLaunched(c: Ctx, d: Ctx)
    requires Launched(c.log) == {} && SameVerdict(c, d) && d.active.Keys == {}
    ensures Launched(d.log) == {}
  {
    hide Launched;
    assert Lost(d) == Launched(d.log);
  }

  lemma {:induction false} ForwardBestAlive(c: Ctx)
    requires Good(c) && !c.finalSent && c.active == map[]
    ensures Alive(ForwardBest(c))
  {
    hide Inv, Accounted, Launched, ForwardBest, Lost, SameVerdict;
    ForwardBestGood(c);
    if c.failures == [] {
      NothingToForward(c);
      NothingWasLost(c);
      StillNothingLaunched(c, ForwardBest(c));
    }
  }

  lemma {:induction false} AfterRequestChainAlive(c: Ctx, result: Action, targets: Chain, resumed: bool)
    requires Good(c) && Alive(c) && AllAllowed(c, targets.ops)
    ensures Alive(AfterRequestChain(c, result, targets, resumed))
  {
    hide Inv, Accounted, Launched, ApplyAll, AllAllowed, ForwardBest;
    var d := ApplyAll(c, targets.ops);
    GoodIsInv(c);
    ApplyAllAlive(c, targets.ops);
    GoodIsInv(d);
    if !d.finalSent && d.active == map[] {
      ForwardBestAlive(d);
    }
  }

  lemma {:induction false} CancelAllAlive(c: Ctx)
    requires Good(c) && Alive(c)
    ensures Alive(CancelAll(c))
  {
    hide Accounted, Alive, Advances, Balance, CancelAll;
    CancelAllSound(c);
    assert c.log <= CancelAll(c).log by { LogGrows(c, CancelAll(c)); }
    CancelBranchesVerdict(c);
    VerdictAlive(c, CancelAll(c));
  }

  lemma {:induction false} LogGrows(c: Ctx, d: Ctx)
    requires Advances(c, d)
    ensures c.log <= d.log
  {
  }

  lemma {:induction false} ProcessCancelAlive(c: Ctx)
    requires Good(c) && Alive(c)
    ensures Alive(ProcessCancel(c))
  {
    var d := c.(log := c.log + [CancelOk]);
    Grow(c.log, CancelOk);
    CancelOkGood(c);
    hide Inv, Accounted, Launched, CancelAll;
    CancelAllAlive(d);
    CancelAllGood(d);
    GoodIsInv(d);
  }

  lemma {:induction false} CancelOkGood(c: Ctx)
    requires Good(c)
    ensures Good(c.(log := c.log + [CancelOk]))
  {
    hide Accounted, Orderly, Launched, Contacted, Revoked;
    NoteSound(c, CancelOk);
    Grow(c.log, CancelOk);
    SameVerdictKeeps(c, c.(log := c.log + [CancelOk]));
  }

  lemma {:induction false} RemoveAlive(c: Ctx, tid: Tid)
    requires Alive(c) && tid !in c.active
    ensures Alive(Remove(c, tid).(txCount := c.txCount - 1))
  {
    hide Launched;
    assert Remove(c, tid).active.Keys == c.active.Keys;
  }

  lemma {:induction false} StepAlive(c: Ctx, e: Event)
    requires Good(c) && Alive(c) && Legal(c, e) && WellBehaved(c, e)
    ensures Alive(Step(c, e))
  {
    hide Good, Alive, Inv, Accounted, AfterRequestChain, AfterResponse, OnResponse, ProcessCancel, ApplyAll, AllAllowed, Remove,
      CancelAll, Launched;
    match e
    case NewRequest(q, ts) =>
      ApplyAllAlive(c, q.ops);
      AfterRequestChainAlive(ApplyAll(c, q.ops), q.result, ts, false);
    case CancelRequest(ts) =>
      ProcessCancelGood(c);
      ProcessCancelAlive(c);
      AfterRequestChainAlive(ProcessCancel(c), Continue, ts, false);
    case BranchResponse(_, _, _, _, _) =>
      StepGood(c, e);
      EitherIsAlive(Step(c, e));
    case TimerC(_) => CancelAllAlive(c);
    case ResumeRequest(q, ts) =>
      ApplyAllAlive(c, q.ops);
      AfterRequestChainAlive(ApplyAll(c, q.ops), q.result, ts, true);
    case ResumeResponse(p, ts) =>
      ApplyAllAlive(c, p.ops);
      ApplyAllAlive(ApplyAll(c, p.ops), ts.ops);
    case ResumeTarget(ts) => ApplyAllAlive(c, ts.ops);
    case BranchEnded(tid) => RemoveAlive(c, tid);
    case ServerEnded => SameAlive(c, c.(txCount := c.txCount - 1));
  }

  lemma {:induction false} EitherIsAlive(c: Ctx)
    requires c.finalSent || c.active != map[]
    ensures Alive(c)
  {
  }

  lemma {:induction false} SameAlive(c: Ctx, d: Ctx)
    requires Alive(c) && d.log == c.log && d.finalSent == c.finalSent && d.active == c.active
    ensures Alive(d)
  {
  }

  lemma {:induction false} RunAlive(states: seq<Ctx>, events: seq<Event>, n: nat)
    requires IsWellBehavedRun(states, events) && n < |states|
    ensures Alive(states[n])
  {
    hide Step, Legal, Good;
    if n > 0 {
      hide Alive;
      RunAlive(states, events, n - 1);
      RunGood(states, events, n - 1);
      assert WellBehaved(states[n - 1], events[n - 1]);
      StepAlive(states[n - 1], events[n - 1]);
    }
  }

  /** In every state of a well-behaved run, a request with a branch that was started has been answered or has a
      branch that is running. */
  lemma {:induction false} AnsweredOrRunning(states: seq<Ctx>, events: seq<Event>, n: nat)
    requires IsWellBehavedRun(states, events) && n < |states|
    ensures Launched(states[n].log) != {} ==> Answered(states[n].log) || states[n].active != map[]
  {
    hide Launched, Inv;
    RunAlive(states, events, n);
    RunGood(states, events, n);
  }

  // ----- a final response ends its branch -----

  lemma {:induction false} CancelledKeysStay(c: Ctx)
    ensures ForwardBest(c).active.Keys == c.active.Keys
    ensures CancelAll(c).active.Keys == c.active.Keys && ClearCandidates(c).active == c.active
  {
    hide Sorted, Cancels;
  }

  lemma {:induction false} FinalTakesOffActive(c: Ctx, tid: Tid, r: Response)
    requires 200 <= r.code <= 699
    ensures tid !in OnResponse(c, tid, r, GoodVia, false).active
  {
    hide CancelAll, ClearCandidates, ForwardBest, Hold;
    var d := Terminate(c, tid);
    CancelledKeysStay(d);
    if r.code >= 300 && tid in c.active {
      var e := d.(held := Hold(d.held, r), failures := d.failures + [r]);
      CancelledKeysStay(e);
      CancelledKeysStay(CancelAll(e));
    }
  }

  lemma {:induction false} OffActiveIsOver(c: Ctx, tid: Tid)
    requires Inv(c) && tid in Launched(c.log)
    ensures tid in c.known && (tid !in c.active <==> Rank(c, tid) >= 3)
  {
    hide Orderly, Launched, Contacted, Revoked, Answered;
  }

  lemma {:induction false} AdvancesRank(c: Ctx, d: Ctx, tid: Tid)
    requires Advances(c, d) && tid in c.known
    ensures Rank(c, tid) <= Rank(d, tid) && c.log <= d.log
  {
  }

  lemma {:induction false} FinalEndsBranch(c: Ctx, e: Event)
    requires Good(c) && Legal(c, e) && WellBehaved(c, e) && e.BranchResponse? && e.r.code > 199
    ensures e.tid in Step(c, e).known && Rank(Step(c, e), e.tid) >= 3
  {
    hide Inv, Advances, Balance, Accounted, Rank, OnResponse, AfterResponse, Launched, AllAllowed;
    GoodIsInv(c);
    var o := OnResponse(c, e.tid, e.r, e.via, e.eaten);
    FinalTakesOffActive(c, e.tid, e.r);
    OnResponseSound(c, e.tid, e.r, e.via, e.eaten);
    LogGrows(c, o);
    LaunchedMonotone(c.log, o.log);
    OffActiveIsOver(o, e.tid);
    AfterResponseSound(o, e.targets);
    AdvancesRank(o, Step(c, e), e.tid);
    KnownGrows(o, Step(c, e), e.tid);
  }

  lemma {:induction false} KnownGrows(c: Ctx, d: Ctx, tid: Tid)
    requires Advances(c, d) && tid in c.known
    ensures tid in d.known
  {
  }

  ghost predicate GotFinal(events: seq<Event>, n: nat, tid: Tid) {
    exists i :: 0 <= i < n && i < |events| && IsFinalOf(events[i], tid)
  }

  predicate IsFinalOf(e: Event, tid: Tid) {
    e.BranchResponse? && e.tid == tid && e.r.code > 199
  }

  lemma {:induction false} EndedStaysEnded(states: seq<Ctx>, events: seq<Event>, n: nat, tid: Tid)
    requires IsWellBehavedRun(states, events) && n < |states| && GotFinal(events, n, tid)
    ensures tid !in states[n].active
  {
    hide Step, Legal, Good, Launched;
    var i :| 0 <= i < n && i < |events| && IsFinalOf(events[i], tid);
    RunGood(states, events, i);
    assert WellBehaved(states[i], events[i]);
    FinalEndsBranch(states[i], events[i]);
    BranchesAdvance(states, events, i + 1, n, tid);
  }

  /** Any finite set of targets ends in a final response: once every branch that was started has got a final
      response of its own, the client has been sent one. */
  lemma {:induction false} EndsInFinal(states: seq<Ctx>, events: seq<Event>, n: nat)
    requires IsWellBehavedRun(states, events) && n < |states| && Launched(states[n].log) != {}
    requires forall tid :: tid in Launched(states[n].log) ==> GotFinal(events, n, tid)
    ensures Answered(states[n].log)
  {
    hide Launched, GotFinal, Step, Legal, WellBehaved, Orderly, Contacted, Revoked;
    AnsweredOrRunning(states, events, n);
    RunGood(states, events, n);
    forall tid | tid in states[n].active
      ensures false
    {
      assert tid in Launched(states[n].log);
      EndedStaysEnded(states, events, n, tid);
    }
  }
}
