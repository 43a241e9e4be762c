/** No forwarded request is left unanswered, and what is forwarded is the best failure received. */
module ForkingProgress {
  import opened Common
  import opened BestResponse
  import opened Forking
  import opened ForkingSafety

  /** What a run assumes of the network and of the transaction layer: responses reach the proxy with the
      client's Via intact and are not swallowed by a response processor, they belong to a branch that was
      started, and a branch is reported as ended only after its final response. */
  predicate WellBehaved(c: Ctx, e: Event) {
    match e
    case BranchResponse(tid, r, via, eaten, _) =>
      tid in Launched(c.log) && !eaten && r.cseq != CANCEL && (r.code > 199 ==> via == GoodVia)
    case BranchEnded(tid) => tid !in c.active
    case _ => true
  }

  /** Branches that were started and are no longer running. */
  function Lost(c: Ctx): set<Tid> {
    Launched(c.log) - c.active.Keys
  }

  /** The held response is what the failures so far amount to, a branch only stops running by failing,
      and the request counts as answered exactly when a final response went out. */
  ghost predicate Accounted(c: Ctx) {
    && Failures(c.failures)
    && (forall i :: 0 <= i < |c.failures| ==> c.failures[i].cseq != CANCEL)
    && (!c.finalSent ==> c.held == HoldAll(c.failures))
    && (!c.finalSent && c.failures == [] ==> Lost(c) == {})
    && (c.finalSent ==> Answered(c.log))
  }

  ghost predicate Good(c: Ctx) {
    Inv(c) && Accounted(c)
  }

  /** Fields that no chain can touch. */
  ghost predicate SameVerdict(c: Ctx, d: Ctx) {
    && d.held == c.held && d.failures == c.failures && d.finalSent == c.finalSent && d.cseq == c.cseq
    && (Answered(c.log) ==> Answered(d.log))
    && Lost(d) <= Lost(c)
  }

  lemma {:induction false} SameVerdictKeeps(c: Ctx, d: Ctx)
    requires Good(c) && Inv(d) && SameVerdict(c, d)
    ensures Good(d)
  {
    hide Answered, Launched, HoldAll;
  }

  lemma {:induction false} BeginOneVerdict(c: Ctx, tid: Tid)
    requires tid in c.candidate
    ensures SameVerdict(c, BeginOne(c, tid))
  {
    if !(Duplicate(c, c.candidate[tid]) || c.finalSent) {
      Grow(c.log, Request(tid, c.candidate[tid].rec));
    }
  }

  lemma {:induction false} BeginKeysVerdict(c: Ctx, ks: seq<Tid>)
    requires Ascending(ks) && forall k :: k in ks ==> k in c.candidate
    ensures SameVerdict(c, BeginKeys(c, ks))
    decreases |ks|
  {
    if ks != [] {
      BeginOneVerdict(c, ks[0]);
      BeginKeysVerdict(BeginOne(c, ks[0]), ks[1..]);
    }
  }

  lemma {:induction false} AddEachVerdict(c: Ctx, batch: seq<(Tid, Target)>)
    ensures SameVerdict(c, AddEach(c, batch))
    decreases |batch|
  {
    if batch != [] {
      var (tid, t) := batch[0];
      AddEachVerdict(if t.status == Candidate then c.(candidate := c.candidate[tid := t], known := c.known + {tid}) else c,
                     batch[1..]);
    }
  }

  lemma {:induction false} AddOutboundVerdict(c: Ctx, batch: seq<(Tid, Target)>)
    ensures SameVerdict(c, AddOutbound(c, batch))
    decreases |batch|
  {
    if batch != [] {
      var (tid, t) := batch[0];
      AddOutboundVerdict(c.(candidate := c.candidate[tid := t], known := c.known + {tid}), batch[1..]);
    }
  }

  lemma {:induction false} CancelBranchesVerdict(c: Ctx)
    requires Inv(c)
    ensures SameVerdict(c, CancelBranches(c)) && SameVerdict(c, CancelAll(c)) && SameVerdict(c, ClearCandidates(c))
    ensures CancelAll(c).active.Keys == c.active.Keys && CancelAll(c).candidate == map[]
    ensures CancelBranches(c).active.Keys == c.active.Keys
  {
    hide Orderly, Launched, Contacted, Revoked, Answered, Cancels, Sorted;
    CancelsGrow(c.log, c.active, Sorted(c.active.Keys));
  }

  lemma {:induction false} CancelOneVerdict(c: Ctx, tid: Tid)
    requires Inv(c)
    ensures SameVerdict(c, CancelOne(c, tid))
  {
    if c.cseq == INVITE && tid in c.active {
      hide Orderly, Launched, Contacted, Revoked, Answered, Cancels;
      CancelsGrow(c.log, c.active, [tid]);
    }
  }

  lemma {:induction false} ApplyVerdict(c: Ctx, op: Op)
    requires Inv(c)
    ensures SameVerdict(c, Apply(c, op))
  {
    match op
    case OpAddTarget(tid, t, begin) =>
      Grow(c.log, Request(tid, t.rec));
    case OpAddBatch(batch) => AddEachVerdict(c, batch);
    case OpAddOutbound(batch) => AddOutboundVerdict(c, batch);
    case OpBeginAll => BeginKeysVerdict(c, Sorted(c.candidate.Keys));
    case OpBegin(tid) => if tid in c.candidate { BeginOneVerdict(c, tid); }
    case OpCancelActive => CancelBranchesVerdict(c);
    case OpCancelAll => CancelBranchesVerdict(c);
    case OpClearCandidates => CancelBranchesVerdict(c);
    case OpCancel(tid) => CancelOneVerdict(c, tid);
  }

  lemma {:induction false} ApplyAllGood(c: Ctx, ops: seq<Op>)
    requires Good(c) && AllAllowed(c, ops)
    ensures Good(ApplyAll(c, ops)) && SameVerdict(c, ApplyAll(c, ops))
    decreases |ops|
  {
    hide Inv, Balance, Accounted, Advances, Apply, Allowed, Launched, Answered;
    if ops != [] {
      GoodIsInv(c);
      ApplySound(c, ops[0]);
      ApplyVerdict(c, ops[0]);
      SameVerdictKeeps(c, Apply(c, ops[0]));
      ApplyAllGood(Apply(c, ops[0]), ops[1..]);
    }
  }

  lemma {:induction false} GoodIsInv(c: Ctx)
    requires Good(c)
    ensures Inv(c) && Accounted(c) && c.cseq != CANCEL
  {
  }

  /** A response of our own, or the held one, is final for the client. */
  lemma {:induction false} SendGood(c: Ctx, code: int, cseq: Method)
    requires Inv(c) && Failures(c.failures)
    requires forall i :: 0 <= i < |c.failures| ==> c.failures[i].cseq != CANCEL
    requires FinalFor(code, cseq)
    requires c.finalSent ==> 200 <= code <= 299
    ensures Good(Send(c, code, cseq)) && Send(c, code, cseq).finalSent
  {
    SendSound(c, code, cseq);
    Grow(c.log, Upstream(code, cseq));
  }

  lemma {:induction false} HeldMethod(fs: seq<Response>)
    requires Failures(fs) && forall i :: 0 <= i < |fs| ==> fs[i].cseq != CANCEL
    ensures HoldAll(fs).best.cseq != CANCEL
  {
    if fs != [] {
      HeldMethod(fs[..|fs| - 1]);
    }
  }

  /** Once a branch has failed, forwarding the best response answers the client with what the failures
      amount to. */
  lemma {:induction false} ForwardedIsBest(c: Ctx)
    requires Good(c) && !c.finalSent && c.failures != []
    ensures Good(ForwardBest(c)) && ForwardBest(c).finalSent
    ensures ForwardBest(c).log[|ForwardBest(c).log| - 1]
         == Upstream(Presentable(HoldAll(c.failures).best), HoldAll(c.failures).best.cseq)
  {
    GoodIsInv(c);
    HeldMethod(c.failures);
    SomethingHeld(c.failures);
    ForwardBestSound(c);
    hide Inv, Balance, Orderly, Launched, Contacted, Revoked, HoldAll, Advances;
    var e := if c.cseq == INVITE then CancelActive(ClearCandidates(c)) else ClearCandidates(c);
    var code := Presentable(e.held.best);
    Grow(e.log, Upstream(code, e.held.best.cseq));
  }

  /** With nothing held, the assertion on forwarding fails and nothing is sent. */
  lemma {:induction false} NothingToForward(c: Ctx)
    requires Good(c) && !c.finalSent && c.failures == []
    ensures Good(ForwardBest(c)) && SameVerdict(c, ForwardBest(c)) && ForwardBest(c).active.Keys == c.active.Keys
  {
    hide Balance, Advances, Orderly, Contacted, Revoked;
    GoodIsInv(c);
    ForwardBestSound(c);
    ClearCandidatesSound(c);
    CancelBranchesVerdict(c);
    CancelBranchesVerdict(ClearCandidates(c));
    var e := if c.cseq == INVITE then CancelActive(ClearCandidates(c)) else ClearCandidates(c);
    Grow(e.log, NoBestResponse);
    hide Inv, Balance, Orderly, Launched, Contacted, Revoked, Answered, CancelBranches, ClearCandidates, Advances;
    assert SameVerdict(c, ForwardBest(c)) && ForwardBest(c).active.Keys == c.active.Keys;
  }

  lemma {:induction false} ForwardBestGood(c: Ctx)
    requires Good(c) && !c.finalSent
    ensures Good(ForwardBest(c))
    ensures c.failures != [] ==> ForwardBest(c).finalSent
  {
    if c.failures == [] {
      NothingToForward(c);
    } else {
      ForwardedIsBest(c);
    }
  }

  lemma {:induction false} CancelAllGood(c: Ctx)
    requires Good(c)
    ensures Good(CancelAll(c)) && CancelAll(c).finalSent == c.finalSent && CancelAll(c).active.Keys == c.active.Keys
  {
    GoodIsInv(c);
    CancelAllSound(c);
    CancelBranchesVerdict(c);
    hide Inv, Balance, Accounted, CancelAll;
    SameVerdictKeeps(c, CancelAll(c));
  }

  lemma {:induction false} AfterRequestChainGood(c: Ctx, result: Action, targets: Chain, resumed: bool)
    requires Good(c) && AllAllowed(c, targets.ops)
    ensures Good(AfterRequestChain(c, result, targets, resumed))
  {
    hide Inv, Balance, Accounted, ApplyAll, AllAllowed, ForwardBest, SameVerdict;
    var d := ApplyAll(c, targets.ops);
    ApplyAllGood(c, targets.ops);
    GoodIsInv(c);
    GoodIsInv(d);
    GoodFailures(c);
    GoodFailures(d);
    if !c.finalSent {
      SendGood(c, 480, c.cseq);
    }
    if !d.finalSent {
      SendGood(d, 500, d.cseq);
      ForwardBestGood(d);
    }
  }

  lemma {:induction false} GoodFailures(c: Ctx)
    requires Good(c)
    ensures Failures(c.failures) && forall i :: 0 <= i < |c.failures| ==> c.failures[i].cseq != CANCEL
  {
  }

  lemma {:induction false} ProcessCancelGood(c: Ctx)
    requires Good(c)
    ensures Good(ProcessCancel(c))
  {
    hide Accounted, Orderly, Launched, Contacted, Revoked;
    var d := c.(log := c.log + [CancelOk]);
    NoteSound(c, CancelOk);
    Grow(c.log, CancelOk);
    SameVerdictKeeps(c, d);
    CancelAllGood(d);
    GoodFailures(CancelAll(d));
    if !d.finalSent && CancelAll(d).active == map[] {
      SendGood(CancelAll(d), 487, d.cseq);
    }
  }

  lemma {:induction false} ProvisionalGood(c: Ctx, r: Response)
    requires Good(c)
    requires 100 <= r.code <= 199
    ensures Good(ProcessProvisional(c, r))
    ensures ProcessProvisional(c, r).active == c.active
  {
    hide Inv, Advances, Balance, Orderly, Contacted, Revoked, HoldAll;
    ProvisionalSound(c, r);
    Grow(c.log, Upstream(r.code, r.cseq));
  }

  lemma {:induction false} SuccessGood(c: Ctx, tid: Tid, r: Response)
    requires Good(c) && 200 <= r.code <= 299 && r.cseq != CANCEL
    ensures Good(ProcessSuccess(c, tid, r)) && ProcessSuccess(c, tid, r).finalSent
  {
    hide Orderly, Contacted, Revoked, HoldAll, Launched;
    SuccessSound(c, tid, r);
    var d := Terminate(c, tid);
    if c.cseq == INVITE || !c.finalSent {
      var e := if c.cseq == INVITE then CancelAll(d) else ClearCandidates(d);
      Grow(e.log, Upstream(r.code, r.cseq));
    }
  }

  lemma {:induction false} RecordFailure(c: Ctx, tid: Tid, r: Response)
    requires Good(c) && BranchFailure(r) && r.cseq != CANCEL && !c.finalSent
    ensures Good(Terminate(c, tid).(held := Hold(c.held, r), failures := c.failures + [r]))
  {
    hide Orderly, Contacted, Revoked, Launched, Answered;
    TerminateSound(c, tid);
    var d := Terminate(c, tid);
    var e := d.(held := Hold(d.held, r), failures := d.failures + [r]);
    HeldIsFree(d, e);
    assert e.failures[..|e.failures| - 1] == c.failures;
  }

  lemma {:induction false} TerminateGoodAfterAnswer(c: Ctx, tid: Tid)
    requires Good(c) && c.finalSent
    ensures Good(Terminate(c, tid)) && Terminate(c, tid).finalSent
  {
    hide Orderly, Contacted, Revoked, Launched, Answered, HoldAll;
    TerminateSound(c, tid);
  }

  lemma {:induction false} FailureGood(c: Ctx, tid: Tid, r: Response)
    requires Good(c) && BranchFailure(r) && r.cseq != CANCEL
    ensures Good(ProcessFailure(c, tid, r))
    ensures var d := ProcessFailure(c, tid, r);
            d.finalSent || (d.failures == c.failures + [r] && d.held == HoldAll(d.failures))
  {
    hide Inv, Balance, Accounted, Hold, ForwardBest, HoldAll;
    if c.finalSent {
      TerminateGoodAfterAnswer(c, tid);
    } else {
      var d := Terminate(c, tid);
      var e := d.(held := Hold(d.held, r), failures := d.failures + [r]);
      RecordFailure(c, tid, r);
      CancelAllGood(e);
      GoodHeld(e);
      GoodHeld(CancelAll(e));
      ForwardBestGood(e);
      ForwardBestGood(CancelAll(e));
    }
  }

  lemma {:induction false} GoodHeld(c: Ctx)
    requires Good(c)
    ensures Failures(c.failures)
    ensures !c.finalSent ==> c.held == HoldAll(c.failures)
  {
  }

  lemma {:induction false} OnResponseGood(c: Ctx, tid: Tid, r: Response, via: ViaState)
    requires Good(c) && 100 <= r.code <= 699 && r.cseq != CANCEL && (r.code > 199 ==> via == GoodVia)
    ensures Good(OnResponse(c, tid, r, via, false))
  {
    hide Inv, Balance, Accounted, ProcessProvisional, ProcessSuccess, ProcessFailure;
    GoodIsInv(c);
    GoodFailures(c);
    if tid !in c.active {
      if r.code / 100 == 2 {
        SendGood(c, r.code, r.cseq);
      }
    } else if r.code <= 199 {
      ProvisionalGood(c, r);
    } else if r.code <= 299 {
      SuccessGood(c, tid, r);
    } else {
      FailureGood(c, tid, r);
    }
  }

  /** After a response the client has its answer, or some branch is still running. */
  lemma {:induction false} AfterResponseGood(c: Ctx, targets: Chain)
    requires Good(c) && AllAllowed(c, targets.ops)
    requires Launched(c.log) != {}
    ensures Good(AfterResponse(c, targets))
    ensures AfterResponse(c, targets).finalSent || AfterResponse(c, targets).active != map[]
  {
    hide Inv, Balance, ApplyAll, AllAllowed, ForwardBest, HoldAll, Answered, Orderly, Contacted, Revoked, SameVerdict;
    var d := ApplyAll(c, targets.ops);
    ApplyAllGood(c, targets.ops);
    ApplyAllKeepsLaunched(c, targets.ops);
    GoodIsInv(d);
    if !d.finalSent {
      SendGood(d, 500, d.cseq);
      ForwardBestGood(d);
    }
  }

  lemma {:induction false} LaunchedMonotone(log: seq<Sent>, more: seq<Sent>)
    requires log <= more
    ensures Launched(log) <= Launched(more)
    decreases |more|
  {
    if log != more {
      assert log <= more[..|more| - 1];
      LaunchedMonotone(log, more[..|more| - 1]);
    }
  }

  lemma {:induction false} ApplyAllKeepsLaunched(c: Ctx, ops: seq<Op>)
    requires Good(c) && AllAllowed(c, ops)
    ensures Launched(c.log) <= Launched(ApplyAll(c, ops).log)
  {
    GoodIsInv(c);
    ApplyAllSound(c, ops);
    LaunchedMonotone(c.log, ApplyAll(c, ops).log);
  }

  lemma {:induction false} RemoveVerdict(c: Ctx, tid: Tid)
    requires tid !in c.active
    ensures SameVerdict(c, Remove(c, tid).(txCount := c.txCount - 1))
  {
    hide Answered, Launched;
    assert Remove(c, tid).active.Keys == c.active.Keys;
  }

  lemma {:induction false} RemoveGood(c: Ctx, tid: Tid)
    requires Good(c) && tid !in c.active
    ensures Good(Remove(c, tid).(txCount := c.txCount - 1))
  {
    hide Inv, Accounted, SameVerdict, Remove, Sound, Advances, Balance;
    GoodIsInv(c);
    RemoveSound(c, tid);
    RemoveKeepsCount(c, tid);
    CountedOff(c, Remove(c, tid));
    RemoveVerdict(c, tid);
    SameVerdictKeeps(c, Remove(c, tid).(txCount := c.txCount - 1));
  }

  lemma {:induction false} StepGood(c: Ctx, e: Event)
    requires Good(c) && Legal(c, e) && WellBehaved(c, e)
    ensures Good(Step(c, e))
    ensures e.BranchResponse? ==> Step(c, e).finalSent || Step(c, e).active != map[]
  {
    hide Inv, Balance, Accounted, AfterRequestChain, AfterResponse, OnResponse, ProcessCancel, ApplyAll, AllAllowed, Remove, CancelAll,
      SameVerdict, Launched;
    GoodIsInv(c);
    match e
    case NewRequest(q, ts) =>
      ApplyAllGood(c, q.ops);
      AfterRequestChainGood(ApplyAll(c, q.ops), q.result, ts, false);
    case CancelRequest(ts) =>
      ProcessCancelGood(c);
      AfterRequestChainGood(ProcessCancel(c), Continue, ts, false);
    case BranchResponse(tid, r, via, eaten, ts) =>
      OnResponseGood(c, tid, r, via);
      OnResponseSound(c, tid, r, via, eaten);
      LaunchedMonotone(c.log, OnResponse(c, tid, r, via, eaten).log);
      AfterResponseGood(OnResponse(c, tid, r, via, eaten), ts);
    case TimerC(_) => CancelAllGood(c);
    case ResumeRequest(q, ts) =>
      ApplyAllGood(c, q.ops);
      AfterRequestChainGood(ApplyAll(c, q.ops), q.result, ts, true);
    case ResumeResponse(p, ts) =>
      ApplyAllGood(c, p.ops);
      ApplyAllGood(ApplyAll(c, p.ops), ts.ops);
    case ResumeTarget(ts) => ApplyAllGood(c, ts.ops);
    case BranchEnded(tid) => RemoveGood(c, tid);
    case ServerEnded => ServerEndedGood(c);
  }

  lemma {:induction false} ServerEndedGood(c: Ctx)
    requires Good(c)
    ensures Good(c.(txCount := c.txCount - 1))
  {
  }

  // ----- every run -----

  ghost predicate IsWellBehavedRun(states: seq<Ctx>, events: seq<Event>) {
    IsRun(states, events) && forall i :: 0 <= i < |events| ==> WellBehaved(states[i], events[i])
  }

  lemma {:induction false} RunGood(states: seq<Ctx>, events: seq<Event>, n: nat)
    requires IsWellBehavedRun(states, events) && n < |states|
    ensures Good(states[n])
  {
    hide Step, Legal, Accounted, Inv;
    if n == 0 {
      InitGood(states[0].cseq);
    } else {
      RunGood(states, events, n - 1);
      assert WellBehaved(states[n - 1], events[n - 1]);
      StepGood(states[n - 1], events[n - 1]);
    }
  }

  lemma {:induction false} InitGood(cseq: Method)
    requires cseq != CANCEL
    ensures Good(Init(cseq))
  {
  }

  /** No stuck request: after each response of a branch the client has been sent a final response, or a
      branch is still running. */
  lemma {:induction false} NeverStuck(states: seq<Ctx>, events: seq<Event>, n: nat)
    requires IsWellBehavedRun(states, events) && n < |events| && events[n].BranchResponse?
    ensures Answered(states[n + 1].log) || states[n + 1].active != map[]
  {
    RunGood(states, events, n);
    RunGood(states, events, n + 1);
    StepGood(states[n], events[n]);
  }
}
