/** Timer C (section 16.8 of RFC 3261): it is started with the first branch, restarted by each provisional response of
    a running branch, and only the one started last has any effect. */
module ForkingTimer {
  import opened Common
  import opened BestResponse
  import opened Forking
  import opened ForkingSafety
  import opened ForkingCancel
  import opened ForkingAnswers

  /** The transaction count and the timer stand still. */
  ghost predicate Still(c: Ctx, d: Ctx) {
    d.tcSerial == c.tcSerial && d.tcSet == c.tcSet && d.txCount == c.txCount
  }

  /** From `c` to `d` some branches may have been started, and the timer with the first of all. */
  ghost predicate Wound(c: Ctx, d: Ctx) {
    && d.txCount >= c.txCount && (d.tcSet <==> c.tcSet || d.txCount > c.txCount)
    && d.tcSerial == c.tcSerial + (if d.tcSet && !c.tcSet then 1 else 0)
  }

  lemma {:induction false} BeginWound(c: Ctx, ks: seq<Tid>)
    requires Ascending(ks) && forall k :: k in ks ==> k in c.candidate
    ensures Wound(c, BeginKeys(c, ks))
    decreases |ks|
  {
    if ks != [] {
      BeginOneRemoves(c, ks[0]);
      assert Wound(c, BeginOne(c, ks[0]));
      BeginWound(BeginOne(c, ks[0]), ks[1..]);
    }
  }

  lemma {:induction false} AddStill(c: Ctx, batch: seq<(Tid, Target)>)
    ensures Still(c, AddEach(c, batch)) && Still(c, AddOutbound(c, batch))
    decreases |batch|
  {
    if batch != [] {
      var (tid, t) := batch[0];
      AddStill(c.(candidate := c.candidate[tid := t], known := c.known + {tid}), batch[1..]);
      AddStill(c, batch[1..]);
    }
  }

  lemma {:induction false} CancelStill(c: Ctx, tid: Tid)
    ensures Still(c, CancelBranches(c)) && Still(c, CancelAll(c)) && Still(c, ClearCandidates(c)) && Still(c, CancelActive(c))
    ensures Still(c, CancelOne(c, tid)) && Still(c, Terminate(c, tid))
  {
    hide Sorted, Cancels;
  }

  lemma {:induction false} ForwardStill(c: Ctx)
    ensures Still(c, ForwardBest(c))
  {
    hide CancelBranches, ClearCandidates;
    CancelStill(c, 0);
    CancelStill(ClearCandidates(c), 0);
  }

  lemma {:induction false} OpWound(c: Ctx, op: Op)
    ensures Wound(c, Apply(c, op))
  {
    match op
    case OpAddTarget(_, _, _) =>
    case OpAddBatch(batch) => AddStill(c, batch);
    case OpAddOutbound(batch) => AddStill(c, batch);
    case OpBeginAll => BeginWound(c, Sorted(c.candidate.Keys));
    case OpBegin(_) =>
    case OpCancelActive => CancelStill(c, 0);
    case OpCancelAll => CancelStill(c, 0);
    case OpClearCandidates => CancelStill(c, 0);
    case OpCancel(tid) => CancelStill(c, tid);
  }

  lemma {:induction false} ChainWound(c: Ctx, ops: seq<Op>)
    ensures Wound(c, ApplyAll(c, ops))
    decreases |ops|
  {
    hide Apply;
    if ops != [] {
      OpWound(c, ops[0]);
      ChainWound(Apply(c, ops[0]), ops[1..]);
    }
  }

  lemma {:induction false} RestWound(c: Ctx, result: Action, targets: Chain, resumed: bool)
    ensures Wound(c, AfterRequestChain(c, result, targets, resumed)) && Wound(c, AfterResponse(c, targets))
  {
    hide ApplyAll, ForwardBest;
    ChainWound(c, targets.ops);
    ForwardStill(ApplyAll(c, targets.ops));
  }

  lemma {:induction false} FinalStill(c: Ctx, tid: Tid, r: Response)
    ensures Still(c, ProcessSuccess(c, tid, r)) && Still(c, ProcessCancel(c))
    ensures BranchFailure(r) ==> Still(c, ProcessFailure(c, tid, r))
  {
    hide CancelAll, ClearCandidates, Terminate, ForwardBest, Hold;
    var d := Terminate(c, tid);
    CancelStill(c, tid);
    CancelStill(d, tid);
    CancelStill(c.(log := c.log + [CancelOk]), tid);
    if BranchFailure(r) {
      var x := d.(held := Hold(d.held, r), failures := d.failures + [r]);
      CancelStill(x, tid);
      ForwardStill(x);
      ForwardStill(CancelAll(x));
    }
  }

  lemma {:induction false} ProvisionalTimer(c: Ctx, r: Response)
    ensures Still(c.(tcSerial := c.tcSerial + 1), ProcessProvisional(c, r))
  {
  }

  lemma {:induction false} ResponseTimer(c: Ctx, e: Event)
    requires WellCoded(e) && e.BranchResponse?
    ensures Still(if Provisional(c, e) then c.(tcSerial := c.tcSerial + 1) else c, Handled(c, e))
  {
    hide ProcessProvisional, ProcessSuccess, ProcessFailure, Terminate, Still;
    StillItself(c, e.r);
    CancelStill(c, e.tid);
    FinalStill(c, e.tid, e.r);
    ProvisionalTimer(c, e.r);
  }

  lemma {:induction false} StillItself(c: Ctx, r: Response)
    ensures Still(c, c) && Still(c, Send(c, r.code, r.cseq))
  {
  }

  /** A provisional response of a running branch restarts the timer; nothing else that an event does itself
      touches it. */
  lemma {:induction false} EventTimer(c: Ctx, e: Event)
    requires WellCoded(e)
    ensures Still(if Provisional(c, e) then c.(tcSerial := c.tcSerial + 1) else c, Handled(c, e))
  {
    hide OnResponse, ProcessCancel, CancelAll;
    match e
    case BranchResponse(_, _, _, _, _) => ResponseTimer(c, e);
    case CancelRequest(_) => FinalStill(c, 0, Response(0, OTHER, [], None, []));
    case TimerC(_) => CancelStill(c, 0);
    case _ =>
  }

  lemma {:induction false} StepTimer(c: Ctx, e: Event)
    requires WellCoded(e)
    ensures Wound(if Provisional(c, e) then c.(tcSerial := c.tcSerial + 1) else c,
                  Step(c, e).(txCount := Step(c, e).txCount + Ended(e)))
  {
    hide ApplyAll, AfterRequestChain, AfterResponse, OnResponse, ProcessCancel, ProcessTimerC, Provisional;
    assert Provisional(c, e) ==> e.BranchResponse? by { OnlyResponses(c, e); }
    EventTimer(c, e);
    match e
    case NewRequest(q, ts) =>
      ChainWound(c, q.ops);
      RestWound(ApplyAll(c, q.ops), q.result, ts, false);
    case CancelRequest(ts) => RestWound(Handled(c, e), Continue, ts, false);
    case BranchResponse(_, _, _, _, ts) => RestWound(Handled(c, e), Continue, ts, false);
    case TimerC(_) =>
    case ResumeRequest(q, ts) =>
      ChainWound(c, q.ops);
      RestWound(ApplyAll(c, q.ops), q.result, ts, true);
    case ResumeResponse(p, ts) =>
      ChainWound(c, p.ops);
      ChainWound(ApplyAll(c, p.ops), ts.ops);
    case ResumeTarget(ts) => ChainWound(c, ts.ops);
    case BranchEnded(_) =>
    case ServerEnded =>
  }

  lemma {:induction false} OnlyResponses(c: Ctx, e: Event)
    ensures Provisional(c, e) ==> e.BranchResponse?
  {
  }

  // ----- over a run -----

  /** The provisional responses of running branches in the first `n` steps. */
  ghost function Provisionals(states: seq<Ctx>, events: seq<Event>, n: nat): nat
    requires n <= |events| < |states|
  {
    if n == 0 then 0
    else Provisionals(states, events, n - 1) + (if Provisional(states[n - 1], events[n - 1]) then 1 else 0)
  }

  /** In every run timer C was started once for the first branch and once for each provisional response. */
  lemma {:induction false} TimerStarts(states: seq<Ctx>, events: seq<Event>, n: nat)
    requires IsRun(states, events) && n < |states|
    ensures states[n].tcSet <==> Launched(states[n].log) != {}
    ensures states[n].tcSerial == Provisionals(states, events, n) + (if Launched(states[n].log) != {} then 1 else 0)
  {
    hide Step, Legal, Inv, Launched, Provisional, WellCoded, Advances;
    if n == 0 {
      assert Launched(states[0].log) == {} by { NothingLaunched(states[0].cseq); }
    } else {
      var c, e := states[n - 1], events[n - 1];
      TimerStarts(states, events, n - 1);
      RunSound(states, events, n - 1);
      StepSound(c, e);
      LegalCoded(c, e);
      StepTimer(c, e);
      assert |Launched(Step(c, e).log)| - |Launched(c.log)| == Step(c, e).txCount + Ended(e) - c.txCount;
    }
  }

  lemma {:induction false} NothingLaunched(cseq: Method)
    ensures Launched(Init(cseq).log) == {}
  {
  }

  lemma {:induction false} ProvisionalsGrow(states: seq<Ctx>, events: seq<Event>, m: nat, n: nat)
    requires m <= n <= |events| < |states|
    ensures Provisionals(states, events, m) <= Provisionals(states, events, n)
  {
    if m < n {
      ProvisionalsGrow(states, events, m, n - 1);
    }
  }

  /** Once a running branch has sent a provisional response, no timer C that was started before has any effect; nor
      has any once the request is answered. */
  lemma {:induction false} StaleTimerIsIgnored(states: seq<Ctx>, events: seq<Event>, m: nat, n: nat, serial: nat)
    requires IsRun(states, events) && m < n < |states|
    requires states[n].finalSent || (Provisional(states[m], events[m]) && serial <= states[m].tcSerial)
    ensures Step(states[n], TimerC(serial)) == states[n]
  {
    if !states[n].finalSent {
      TimerStarts(states, events, m);
      TimerStarts(states, events, n);
      ProvisionalsGrow(states, events, m + 1, n);
      BranchesAdvance(states, events, m, n, 0);
      hide Step, Launched, Provisional;
      ForkingProgress.LaunchedMonotone(states[m].log, states[n].log);
      assert serial < states[n].tcSerial;
      TimerIgnored(states[n], serial);
    }
  }

  lemma {:induction false} TimerIgnored(c: Ctx, serial: nat)
    requires serial != c.tcSerial
    ensures Step(c, TimerC(serial)) == c
  {
  }
}
