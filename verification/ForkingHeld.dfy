/** What is held for the client is right in every run, whatever the network and the processors do. */
module ForkingHeld {
  import opened Common
  import opened BestResponse
  import opened BestTiers
  import opened Forking
  import opened ForkingSafety
  import opened ForkingProgress

  // ----- which responses are weighed -----

  /** No chain touches what is held, what was weighed or whether the request is answered. */
  lemma {:induction false} ChainKeepsHeld(c: Ctx, ops: seq<Op>)
    requires Inv(c) && AllAllowed(c, ops)
    ensures Inv(ApplyAll(c, ops))
    ensures ApplyAll(c, ops).failures == c.failures && ApplyAll(c, ops).held == c.held
    ensures ApplyAll(c, ops).finalSent == c.finalSent
    decreases |ops|
  {
    hide Inv, Balance, Apply, Allowed, Answered, Launched;
    if ops != [] {
      ApplySound(c, ops[0]);
      ApplyVerdict(c, ops[0]);
      ChainKeepsHeld(Apply(c, ops[0]), ops[1..]);
    }
  }

  /** The failures that count: those of running branches, received before the request was answered. */
  predicate Counts(c: Ctx, e: Event) {
    e.BranchResponse? && !e.eaten && e.via == GoodVia && e.r.code >= 300 && e.tid in c.active && !c.finalSent
  }

  lemma {:induction false} AfterRequestChainSameFailures(c: Ctx, result: Action, targets: Chain, resumed: bool)
    requires Inv(c) && AllAllowed(c, targets.ops)
    ensures AfterRequestChain(c, result, targets, resumed).failures == c.failures
  {
    hide Inv, ApplyAll, AllAllowed, ForwardBest;
    ChainKeepsHeld(c, targets.ops);
    UntouchedFailures(ApplyAll(c, targets.ops));
  }

  lemma {:induction false} AfterResponseSameFailures(c: Ctx, targets: Chain)
    requires Inv(c) && AllAllowed(c, targets.ops)
    ensures AfterResponse(c, targets).failures == c.failures
  {
    hide Inv, ApplyAll, AllAllowed, ForwardBest;
    ChainKeepsHeld(c, targets.ops);
    UntouchedFailures(ApplyAll(c, targets.ops));
  }

  lemma {:induction false} OnResponseFailures(c: Ctx, tid: Tid, r: Response, via: ViaState, eaten: bool)
    requires 100 <= r.code <= 699
    ensures OnResponse(c, tid, r, via, eaten).failures
         == c.failures + (if Counts(c, BranchResponse(tid, r, via, eaten, Chain([], Continue))) then [r] else [])
  {
    hide ProcessProvisional, ProcessSuccess, ProcessFailure;
    VerdictFailures(c, tid, r);
  }

  lemma {:induction false} VerdictFailures(c: Ctx, tid: Tid, r: Response)
    ensures ProcessProvisional(c, r).failures == c.failures
    ensures ProcessSuccess(c, tid, r).failures == c.failures
    ensures BranchFailure(r) ==>
              ProcessFailure(c, tid, r).failures == c.failures + (if c.finalSent then [] else [r])
  {
    hide Hold, CancelAll, ClearCandidates, Terminate, ForwardBest;
    var d := Terminate(c, tid);
    BranchHeld(c, tid);
    UntouchedFailures(d);
    if BranchFailure(r) && !c.finalSent {
      var e := d.(held := Hold(d.held, r), failures := d.failures + [r]);
      UntouchedFailures(e);
      UntouchedFailures(CancelAll(e));
    }
  }

  lemma {:induction false} UntouchedFailures(c: Ctx)
    ensures CancelAll(c).failures == c.failures && ClearCandidates(c).failures == c.failures
    ensures ForwardBest(c).failures == c.failures
  {
    hide Sorted, Cancels, CancelledTarget;
  }

  /** The failures weighed are exactly those that count, in arrival order. */
  lemma {:induction false} FailuresAreThoseThatCount(c: Ctx, e: Event)
    requires Inv(c) && Legal(c, e)
    ensures Step(c, e).failures == c.failures + (if Counts(c, e) then [e.r] else [])
  {
    hide Inv, Advances, Balance, ApplyAll, AllAllowed, AfterRequestChain, OnResponse, ProcessCancel, CancelAll, Remove;
    match e
    case NewRequest(q, ts) =>
      ChainKeepsHeld(c, q.ops);
      AfterRequestChainSameFailures(ApplyAll(c, q.ops), q.result, ts, false);
    case CancelRequest(ts) =>
      ProcessCancelSound(c);
      ProcessCancelHeld(c);
      AfterRequestChainSameFailures(ProcessCancel(c), Continue, ts, false);
    case BranchResponse(tid, r, via, eaten, ts) =>
      OnResponseSound(c, tid, r, via, eaten);
      OnResponseFailures(c, tid, r, via, eaten);
      AfterResponseSameFailures(OnResponse(c, tid, r, via, eaten), ts);
    case TimerC(_) => CancelAllHeld(c);
    case ResumeRequest(q, ts) =>
      ChainKeepsHeld(c, q.ops);
      AfterRequestChainSameFailures(ApplyAll(c, q.ops), q.result, ts, true);
    case ResumeResponse(p, ts) =>
      ChainKeepsHeld(c, p.ops);
      ChainKeepsHeld(ApplyAll(c, p.ops), ts.ops);
    case ResumeTarget(ts) => ChainKeepsHeld(c, ts.ops);
    case BranchEnded(tid) => BranchHeld(c, tid);
    case ServerEnded =>
  }

  /** The failures that counted in the first `n` steps of a run, in arrival order. */
  ghost function Counted(states: seq<Ctx>, events: seq<Event>, n: nat): seq<Response>
    requires n <= |events| < |states|
  {
    if n == 0 then []
    else Counted(states, events, n - 1) + (if Counts(states[n - 1], events[n - 1]) then [events[n - 1].r] else [])
  }

  lemma {:induction false} FailuresAreCounted(states: seq<Ctx>, events: seq<Event>, n: nat)
    requires IsRun(states, events) && n < |states|
    ensures states[n].failures == Counted(states, events, n)
  {
    hide Step, Legal, Inv;
    if n > 0 {
      FailuresAreCounted(states, events, n - 1);
      RunSound(states, events, n - 1);
      FailuresAreThoseThatCount(states[n - 1], events[n - 1]);
    }
  }

  // ----- what is held -----

  /** A response that is forwarded under its own code, or that is final for the client. */
  predicate Steady(r: Response) {
    r.cseq != CANCEL || Presentable(r) == r.code
  }

  /** From `c` to `d` nothing new was weighed, and what is held stays until the request is answered. */
  ghost predicate HeldStays(c: Ctx, d: Ctx) {
    d.failures == c.failures && (d.finalSent || (!c.finalSent && d.held == c.held))
  }

  ghost predicate HeldRight(c: Ctx) {
    Failures(c.failures) && (!c.finalSent ==> c.held == HoldAll(c.failures))
  }

  ghost predicate AllSteady(fs: seq<Response>) {
    forall i :: 0 <= i < |fs| ==> Steady(fs[i])
  }

  lemma {:induction false} HeldIsSteady(fs: seq<Response>)
    requires Failures(fs) && AllSteady(fs)
    ensures Steady(HoldAll(fs).best)
  {
    hide Priority;
    if fs != [] {
      HeldIsSteady(fs[..|fs| - 1]);
    }
  }

  /** Forwarding answers the request or leaves what is held alone, if and only if the held response is steady:
      a response to a CANCEL of the client's is not taken for a final one, but its code is replaced in place. */
  lemma {:induction false} ForwardKeepsHeldExactly(c: Ctx)
    requires !c.finalSent
    ensures HeldStays(c, ForwardBest(c)) <==> Steady(c.held.best)
  {
    hide Sorted, Cancels;
  }

  lemma {:induction false} ForwardBestHeld(c: Ctx)
    requires !c.finalSent && HeldRight(c) && AllSteady(c.failures)
    ensures HeldStays(c, ForwardBest(c))
  {
    hide ForwardBest, Steady;
    HeldIsSteady(c.failures);
    ForwardKeepsHeldExactly(c);
  }

  lemma {:induction false} AnswerHeld(c: Ctx, code: int)
    requires Inv(c) && code > 199
    ensures Send(c, code, c.cseq).finalSent && Send(c, code, c.cseq).failures == c.failures
  {
  }

  lemma {:induction false} AfterRequestChainHeld(c: Ctx, result: Action, targets: Chain, resumed: bool)
    requires Inv(c) && HeldRight(c) && AllSteady(c.failures) && AllAllowed(c, targets.ops)
    ensures HeldRight(AfterRequestChain(c, result, targets, resumed))
  {
    hide Inv, ApplyAll, AllAllowed, ForwardBest, HoldAll, AllSteady;
    var d := ApplyAll(c, targets.ops);
    ChainKeepsHeld(c, targets.ops);
    AnswerHeld(c, 480);
    AnswerHeld(d, 500);
    if !d.finalSent {
      ForwardBestHeld(d);
    }
  }

  lemma {:induction false} AfterResponseHeld(c: Ctx, targets: Chain)
    requires Inv(c) && HeldRight(c) && AllSteady(c.failures) && AllAllowed(c, targets.ops)
    ensures HeldRight(AfterResponse(c, targets))
  {
    hide Inv, ApplyAll, AllAllowed, ForwardBest, HoldAll, AllSteady;
    var d := ApplyAll(c, targets.ops);
    ChainKeepsHeld(c, targets.ops);
    AnswerHeld(d, 500);
    if !d.finalSent {
      ForwardBestHeld(d);
    }
  }

  lemma {:induction false} CancelAllHeld(c: Ctx)
    ensures CancelAll(c).held == c.held && CancelAll(c).failures == c.failures
    ensures CancelAll(c).finalSent == c.finalSent && CancelAll(c).cseq == c.cseq
  {
    hide Sorted, Cancels, CancelledTarget;
  }

  lemma {:induction false} BranchHeld(c: Ctx, tid: Tid)
    ensures Terminate(c, tid).held == c.held && Terminate(c, tid).failures == c.failures
    ensures Terminate(c, tid).finalSent == c.finalSent
    ensures Remove(c, tid).held == c.held && Remove(c, tid).failures == c.failures && Remove(c, tid).finalSent == c.finalSent
  {
  }

  lemma {:induction false} FailureHeld(c: Ctx, tid: Tid, r: Response)
    requires Inv(c) && HeldRight(c) && AllSteady(c.failures) && BranchFailure(r) && (!c.finalSent ==> Steady(r))
    ensures HeldRight(ProcessFailure(c, tid, r))
  {
    hide Inv, CancelAll, Terminate, ForwardBest, Hold, Steady;
    var d := Terminate(c, tid);
    BranchHeld(c, tid);
    TerminateSound(c, tid);
    if !c.finalSent {
      var e := d.(held := Hold(d.held, r), failures := d.failures + [r]);
      assert e.failures[..|e.failures| - 1] == c.failures;
      HeldIsFree(d, e);
      assert HeldRight(e);
      hide HoldAll;
      var f := if r.code >= 600 && d.held.best.code / 100 != 6 && c.cseq == INVITE then CancelAll(e) else e;
      CancelAllHeld(e);
      CancelAllSound(e);
      ForwardBestHeld(f);
    }
  }

  lemma {:induction false} OnResponseHeld(c: Ctx, tid: Tid, r: Response, via: ViaState, eaten: bool)
    requires Inv(c) && HeldRight(c) && AllSteady(c.failures) && 100 <= r.code <= 699
    requires Counts(c, BranchResponse(tid, r, via, eaten, Chain([], Continue))) ==> Steady(r)
    ensures HeldRight(OnResponse(c, tid, r, via, eaten))
  {
    hide Inv, AllSteady, Steady, CancelAll, ClearCandidates, Terminate, ProcessFailure, HoldAll;
    BranchHeld(c, tid);
    VerdictFailures(c, tid, r);
    if Counts(c, BranchResponse(tid, r, via, eaten, Chain([], Continue))) || (c.finalSent && BranchFailure(r)) {
      FailureHeld(c, tid, r);
    }
  }

  lemma {:induction false} ProcessCancelHeld(c: Ctx)
    requires Inv(c)
    ensures HeldStays(c, ProcessCancel(c))
  {
    hide CancelAll;
    CancelAllHeld(c.(log := c.log + [CancelOk]));
  }

  lemma {:induction false} StepHeld(c: Ctx, e: Event)
    requires Inv(c) && Legal(c, e) && HeldRight(c) && AllSteady(Step(c, e).failures)
    ensures HeldRight(Step(c, e))
  {
    hide Inv, ApplyAll, AllAllowed, AfterRequestChain, AfterResponse, OnResponse, ProcessCancel, CancelAll, Remove, HoldAll, Steady;
    FailuresAreThoseThatCount(c, e);
    assert AllSteady(c.failures) by { SteadyBefore(c.failures, Step(c, e).failures); }
    match e
    case NewRequest(q, ts) =>
      ChainKeepsHeld(c, q.ops);
      AfterRequestChainHeld(ApplyAll(c, q.ops), q.result, ts, false);
    case CancelRequest(ts) =>
      ProcessCancelSound(c);
      ProcessCancelHeld(c);
      AfterRequestChainHeld(ProcessCancel(c), Continue, ts, false);
    case BranchResponse(tid, r, via, eaten, ts) =>
      OnResponseSound(c, tid, r, via, eaten);
      OnResponseFailures(c, tid, r, via, eaten);
      assert Counts(c, e) ==> Step(c, e).failures[|c.failures|] == r;
      OnResponseHeld(c, tid, r, via, eaten);
      AfterResponseHeld(OnResponse(c, tid, r, via, eaten), ts);
    case TimerC(_) => CancelAllHeld(c);
    case ResumeRequest(q, ts) =>
      ChainKeepsHeld(c, q.ops);
      AfterRequestChainHeld(ApplyAll(c, q.ops), q.result, ts, true);
    case ResumeResponse(p, ts) =>
      ChainKeepsHeld(c, p.ops);
      ChainKeepsHeld(ApplyAll(c, p.ops), ts.ops);
    case ResumeTarget(ts) => ChainKeepsHeld(c, ts.ops);
    case BranchEnded(tid) => BranchHeld(c, tid);
    case ServerEnded =>
  }

  lemma {:induction false} SteadyBefore(fs: seq<Response>, gs: seq<Response>)
    requires fs <= gs && AllSteady(gs)
    ensures AllSteady(fs)
  {
    hide Steady;
  }

  lemma {:induction false} RunHeld(states: seq<Ctx>, events: seq<Event>, n: nat)
    requires IsRun(states, events) && n < |states| && AllSteady(states[n].failures)
    ensures HeldRight(states[n])
  {
    hide Step, Legal, Inv, Steady, HoldAll;
    if n > 0 {
      RunSound(states, events, n - 1);
      FailuresAreThoseThatCount(states[n - 1], events[n - 1]);
      SteadyBefore(states[n - 1].failures, states[n].failures);
      RunHeld(states, events, n - 1);
      StepHeld(states[n - 1], events[n - 1]);
    } else {
      assert HeldRight(states[0]) by { NothingWeighed(states[0].cseq); }
    }
  }

  lemma {:induction false} NothingWeighed(cseq: Method)
    ensures HeldRight(Init(cseq))
  {
  }

  /** In every run the response held for an unanswered request is what the failures that counted amount to,
      unless a response to a CANCEL of a branch counted whose code is not passed on as it is. */
  lemma {:induction false} HeldInEveryRun(states: seq<Ctx>, events: seq<Event>, n: nat)
    requires IsRun(states, events) && n < |states|
    requires forall r :: r in Counted(states, events, n) ==> Steady(r)
    ensures Failures(Counted(states, events, n))
    ensures var fs := Counted(states, events, n);
            !states[n].finalSent ==>
              HeldIsBest(states[n].held, fs)
              && (fs != [] && NoGlobal(fs) ==> OfEarliestTier(states[n].held.best.code, fs))
  {
    hide Step, Legal, Steady, HoldAll, HeldIsBest, OfEarliestTier;
    var fs := states[n].failures;
    FailuresAreCounted(states, events, n);
    RunHeld(states, events, n);
    HeldIsAlwaysBest(fs);
    if fs != [] && NoGlobal(fs) {
      HeldIsOfEarliestTier(fs);
    }
  }

  const OneBranch := NewRequest(Chain([OpAddTarget(0, Target(Rec(0, "", "a"), Candidate), true)], Continue), Chain([], Continue))

  function CancelRefused(code: int): Event {
    BranchResponse(0, Response(code, CANCEL, [], None, []), GoodVia, false, Chain([], Continue))
  }

  function Running(): Ctx {
    Launch(Init(INVITE), 0, Target(Rec(0, "", "a"), Candidate)).(known := {0})
  }

  lemma {:induction false} OneIsRunning()
    ensures Step(Init(INVITE), OneBranch) == Running() && Legal(Init(INVITE), OneBranch)
  {
    var q := OneBranch.request;
    assert ApplyAll(Init(INVITE), q.ops) == Running();
  }

  /** What is held has the code of the only failure there was. */
  lemma {:induction false} OnlyFailureIsHeld(h: Held, r: Response)
    requires r.code == 503 && HeldIsBest(h, [r])
    ensures h.best == r
  {
    assert [r][0] == r && Priority(r.code) == 43;
    FoldBetter([], r);
    assert [] + [r] == [r];
    hide Priority, Pick, LaterProxyChallenge, AllWww, AllProxy, AllContacts;
    assert NoGlobal([r]);
    assert BestResponse.IsMinimum(h.priority, [r]);
    assert Summary(h.best, [r], 43);
  }

  lemma {:induction false} RefusalIsRewritten()
    ensures OnResponse(Running(), 0, CancelRefused(503).r, GoodVia, false).held.best.code == 480
    ensures var d := OnResponse(Running(), 0, CancelRefused(503).r, GoodVia, false);
            d.held.best.cseq == CANCEL && !d.finalSent && d.active == map[] && d.candidate == map[]
  {
    var c, r := Running(), CancelRefused(503).r;
    assert Terminate(c, 0).active == map[] && Terminate(c, 0).candidate == map[];
    hide CancelBranches;
    assert CancelBranches(ClearCandidates(Terminate(c, 0))).active == map[] by { NoBranchCancelled(ClearCandidates(Terminate(c, 0))); }
  }

  lemma {:induction false} NoBranchCancelled(c: Ctx)
    requires c.active == map[]
    ensures CancelBranches(c) == c
  {
  }

  /** The exception is real: a 503 to the CANCEL of the only branch is forwarded as 480 and kept under that code,
      while the request counts as unanswered. */
  lemma {:induction false} CancelResponseIsRewritten()
    ensures Legal(Init(INVITE), OneBranch) && Legal(Step(Init(INVITE), OneBranch), CancelRefused(503))
    ensures Counts(Step(Init(INVITE), OneBranch), CancelRefused(503))
    ensures var d := Step(Step(Init(INVITE), OneBranch), CancelRefused(503));
            !d.finalSent && !HeldIsBest(d.held, [CancelRefused(503).r])
  {
    hide OnResponse, HeldIsBest;
    OneIsRunning();
    RefusalIsRewritten();
    var d := OnResponse(Running(), 0, CancelRefused(503).r, GoodVia, false);
    NoBranchCancelled(ClearCandidates(d));
    if HeldIsBest(ForwardBest(d).held, [CancelRefused(503).r]) {
      OnlyFailureIsHeld(ForwardBest(d).held, CancelRefused(503).r);
    }
  }
}
