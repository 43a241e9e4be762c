/** Once an INVITE is answered, nothing it was forked to runs on undisturbed; with the one exception that the source
    makes. */
module ForkingQuiet {
  import opened Common
  import opened BestResponse
  import opened Forking
  import opened ForkingSafety
  import opened ForkingProgress
  import opened ForkingHeld
  import opened ForkingCancel
  import opened ForkingAnswers

  ghost predicate AllCancelled(c: Ctx) {
    forall k :: k in c.active ==> c.active[k].status == Cancelled
  }

  ghost predicate Quiet(c: Ctx) {
    c.finalSent ==> AllCancelled(c)
  }

  /** A 2xx of a branch that no longer runs, or never did, is the first final response: the source passes it on and
      leaves the other branches alone. */
  predicate Stray(c: Ctx, e: Event) {
    Final(e) && e.r.code <= 299 && e.tid !in c.active && !c.finalSent
  }

  // ----- an answered request starts nothing -----

  ghost predicate NoNewBranch(c: Ctx, d: Ctx) {
    d.active.Keys <= c.active.Keys && d.finalSent == c.finalSent
  }

  lemma {:induction false} BeginStartsNothing(c: Ctx, ks: seq<Tid>)
    requires c.finalSent && Ascending(ks) && forall k :: k in ks ==> k in c.candidate
    ensures NoNewBranch(c, BeginKeys(c, ks))
    decreases |ks|
  {
    if ks != [] {
      BeginOneRemoves(c, ks[0]);
      BeginStartsNothing(BeginOne(c, ks[0]), ks[1..]);
    }
  }

  lemma {:induction false} OutboundStartsNothing(c: Ctx, batch: seq<(Tid, Target)>)
    ensures NoNewBranch(c, AddOutbound(c, batch))
    decreases |batch|
  {
    if batch != [] {
      var (tid, t) := batch[0];
      OutboundStartsNothing(c.(candidate := c.candidate[tid := t], known := c.known + {tid}), batch[1..]);
    }
  }

  lemma {:induction false} CancelStartsNothing(c: Ctx, tid: Tid)
    ensures NoNewBranch(c, CancelBranches(c)) && NoNewBranch(c, CancelAll(c)) && NoNewBranch(c, ClearCandidates(c))
    ensures NoNewBranch(c, CancelOne(c, tid))
  {
    hide Sorted, Cancels;
  }

  lemma {:induction false} OpStartsNothing(c: Ctx, op: Op)
    requires c.finalSent
    ensures NoNewBranch(c, Apply(c, op))
  {
    match op
    case OpAddTarget(_, _, _) =>
    case OpAddBatch(_) =>
    case OpAddOutbound(batch) => OutboundStartsNothing(c, batch);
    case OpBeginAll => BeginStartsNothing(c, Sorted(c.candidate.Keys));
    case OpBegin(_) =>
    case OpCancelActive =>
    case OpCancelAll => CancelStartsNothing(c, 0);
    case OpClearCandidates => CancelStartsNothing(c, 0);
    case OpCancel(tid) => CancelStartsNothing(c, tid);
  }

  lemma {:induction false} ChainStartsNothing(c: Ctx, ops: seq<Op>)
    requires c.finalSent
    ensures NoNewBranch(c, ApplyAll(c, ops))
    decreases |ops|
  {
    hide Apply;
    if ops != [] {
      OpStartsNothing(c, ops[0]);
      ChainStartsNothing(Apply(c, ops[0]), ops[1..]);
    }
  }

  lemma {:induction false} CancelledStays(c: Ctx, d: Ctx)
    requires Inv(c) && Inv(d) && Advances(c, d) && AllCancelled(c) && NoNewBranch(c, d)
    ensures AllCancelled(d)
  {
    hide LogAgrees;
    forall k | k in d.active
      ensures d.active[k].status == Cancelled
    {
      assert k in d.active.Keys;
      assert k in c.active && Rank(c, k) == 2;
      assert Rank(d, k) >= 2;
    }
  }

  lemma {:induction false} ChainQuiet(c: Ctx, ops: seq<Op>)
    requires Inv(c) && Quiet(c) && AllAllowed(c, ops)
    ensures Quiet(ApplyAll(c, ops)) && Inv(ApplyAll(c, ops)) && ApplyAll(c, ops).finalSent == c.finalSent
    ensures ApplyAll(c, ops).cseq == c.cseq
  {
    hide Inv, AllCancelled, ApplyAll, AllAllowed, Advances, Balance;
    ApplyAllSound(c, ops);
    ChainKeepsHeld(c, ops);
    SameMethod(c, ApplyAll(c, ops));
    if c.finalSent {
      ChainStartsNothing(c, ops);
      CancelledStays(c, ApplyAll(c, ops));
    }
  }

  lemma {:induction false} NothingRuns(c: Ctx, code: int)
    requires c.active == map[]
    ensures Quiet(Send(c, code, c.cseq)) && Quiet(ForwardBest(c))
  {
    ForwardKeepsKeys(c, 0);
    hide ForwardBest;
    assert ForwardBest(c).active.Keys == {};
  }

  lemma {:induction false} RestQuiet(c: Ctx, result: Action, targets: Chain, resumed: bool)
    requires Inv(c) && Quiet(c) && AllAllowed(c, targets.ops)
    ensures Quiet(AfterRequestChain(c, result, targets, resumed)) && Quiet(AfterResponse(c, targets))
  {
    hide Inv, Quiet, ApplyAll, AllAllowed, ForwardBest, Send;
    var d := ApplyAll(c, targets.ops);
    ChainQuiet(c, targets.ops);
    if d.active == map[] {
      NothingRuns(d, 500);
    }
    if c.active == map[] {
      NothingRuns(c, 480);
    }
    assert !d.finalSent ==> Quiet(d) by { UnansweredQuiet(d); }
  }

  lemma {:induction false} UnansweredQuiet(c: Ctx)
    ensures !c.finalSent ==> Quiet(c)
  {
  }

  lemma {:induction false} ResponseQuiet(c: Ctx, e: Event)
    requires Inv(c) && WellCoded(e) && c.cseq == INVITE && Quiet(c) && e.BranchResponse? && !Stray(c, e)
    ensures Quiet(Handled(c, e))
  {
    hide Inv, Handled, Advances, Balance;
    HandledSound(c, e);
    ResponseEndsBranch(c, e);
    if c.finalSent {
      assert Handled(c, e).finalSent by { FinalStays(c, Handled(c, e)); }
      CancelledStays(c, Handled(c, e));
    } else if Succeeds(c, e) {
      ResponseCallsOff(c, e);
    } else {
      OtherwiseUnanswered(c, e);
    }
  }

  lemma {:induction false} FinalStays(c: Ctx, d: Ctx)
    requires Advances(c, d) && c.finalSent
    ensures d.finalSent
  {
  }

  /** A response that is neither a 2xx nor the last failure leaves an unanswered request unanswered. */
  lemma {:induction false} OtherwiseUnanswered(c: Ctx, e: Event)
    requires Inv(c) && WellCoded(e) && e.BranchResponse? && !c.finalSent && !Succeeds(c, e) && !Stray(c, e)
    ensures Handled(c, e).finalSent ==> Handled(c, e).active == map[]
  {
    hide Inv, CancelAll, ForwardBest, Hold;
    var d := Terminate(c, e.tid);
    BranchHeld(c, e.tid);
    if Counts(c, e) {
      var x := d.(held := Hold(d.held, e.r), failures := d.failures + [e.r]);
      CancelAllHeld(x);
      CancelsKeepActive(x);
      CancelsKeepActive(CancelAll(x));
    }
  }

  lemma {:induction false} CancelsKeepActive(c: Ctx)
    ensures CancelAll(c).active.Keys == c.active.Keys
    ensures ForwardBest(c).active.Keys == c.active.Keys
  {
    hide Sorted, Cancels;
  }

  lemma {:induction false} CancelQuiet(c: Ctx)
    requires Quiet(c)
    ensures Quiet(ProcessCancel(c))
  {
    hide CancelAll;
    CancelAllHeld(c.(log := c.log + [CancelOk]));
  }

  lemma {:induction false} TimerQuiet(c: Ctx, serial: nat)
    requires Quiet(c)
    ensures Quiet(ProcessTimerC(c, serial))
  {
    hide CancelAll;
    CancelAllHeld(c);
  }

  lemma {:induction false} RemoveQuiet(c: Ctx, tid: Tid)
    requires Quiet(c)
    ensures Quiet(Remove(c, tid).(txCount := c.txCount - 1)) && Quiet(c.(txCount := c.txCount - 1))
  {
  }

  lemma {:induction false} StepQuiet(c: Ctx, e: Event)
    requires Inv(c) && Legal(c, e) && c.cseq == INVITE && Quiet(c) && !Stray(c, e)
    ensures Quiet(Step(c, e))
  {
    hide Inv, Quiet, ApplyAll, AllAllowed, AfterRequestChain, AfterResponse, OnResponse, ProcessCancel, ProcessTimerC, Remove, Stray, Advances,
      Balance;
    match e
    case NewRequest(q, ts) =>
      ChainQuiet(c, q.ops);
      RestQuiet(ApplyAll(c, q.ops), q.result, ts, false);
    case CancelRequest(ts) =>
      CancelQuiet(c);
      ProcessCancelSound(c);
      RestQuiet(ProcessCancel(c), Continue, ts, false);
    case BranchResponse(_, _, _, _, ts) =>
      ResponseQuiet(c, e);
      HandledSound(c, e);
      RestQuiet(Handled(c, e), Continue, ts, false);
    case TimerC(serial) => TimerQuiet(c, serial);
    case ResumeRequest(q, ts) =>
      ChainQuiet(c, q.ops);
      RestQuiet(ApplyAll(c, q.ops), q.result, ts, true);
    case ResumeResponse(p, ts) =>
      ChainQuiet(c, p.ops);
      ChainQuiet(ApplyAll(c, p.ops), ts.ops);
    case ResumeTarget(ts) => ChainQuiet(c, ts.ops);
    case BranchEnded(tid) => RemoveQuiet(c, tid);
    case ServerEnded => RemoveQuiet(c, 0);
  }

  /** In every run of an INVITE whose first final response is not a stray 2xx, once it is answered every branch that
      is still active has been cancelled. */
  lemma {:induction false} AnsweredThenQuiet(states: seq<Ctx>, events: seq<Event>, n: nat)
    requires IsRun(states, events) && n < |states| && states[0].cseq == INVITE
    requires forall i :: 0 <= i < n ==> !Stray(states[i], events[i])
    ensures states[n].finalSent ==> forall k :: k in states[n].active ==> states[n].active[k].status == Cancelled
  {
    hide Step, Legal, Inv, Stray, Quiet, Advances;
    RunQuiet(states, events, n);
    assert Quiet(states[n]) ==> (states[n].finalSent ==> AllCancelled(states[n])) by { QuietMeans(states[n]); }
  }

  lemma {:induction false} QuietMeans(c: Ctx)
    ensures Quiet(c) ==> (c.finalSent ==> AllCancelled(c))
  {
  }

  lemma {:induction false} RunQuiet(states: seq<Ctx>, events: seq<Event>, n: nat)
    requires IsRun(states, events) && n < |states| && states[0].cseq == INVITE
    requires forall i :: 0 <= i < n ==> !Stray(states[i], events[i])
    ensures Quiet(states[n]) && states[n].cseq == INVITE
  {
    hide Step, Legal, Inv, Stray, Quiet, Advances;
    RunSound(states, events, n);
    assert Advances(states[0], states[n]);
    SameMethod(states[0], states[n]);
    if n == 0 {
      UnansweredQuiet(states[0]);
    } else {
      RunQuiet(states, events, n - 1);
      RunSound(states, events, n - 1);
      StepQuiet(states[n - 1], events[n - 1]);
    }
  }

  /** The exception is exact: a stray 2xx leaves the branches as they are. */
  lemma {:induction false} StrayLeavesRunning(c: Ctx, e: Event)
    requires Inv(c) && WellCoded(e) && c.cseq == INVITE && !c.finalSent && Handled(c, e).finalSent
    ensures AllCancelled(Handled(c, e)) <==> !Stray(c, e) || AllCancelled(c)
  {
    hide Inv, OnResponse, ProcessCancel, ProcessTimerC, AllCancelled;
    match e
    case BranchResponse(_, _, _, _, _) =>
      if Stray(c, e) {
        StrayIsSent(c, e);
      } else {
        UnansweredQuiet(c);
        ResponseQuiet(c, e);
        QuietMeans(Handled(c, e));
      }
    case CancelRequest(_) =>
      UnansweredQuiet(c);
      CancelQuiet(c);
      QuietMeans(Handled(c, e));
    case TimerC(serial) =>
      UnansweredQuiet(c);
      TimerQuiet(c, serial);
      QuietMeans(Handled(c, e));
    case _ =>
  }

  lemma {:induction false} StrayIsSent(c: Ctx, e: Event)
    requires WellCoded(e) && Stray(c, e)
    ensures Handled(c, e) == Send(c, e.r.code, e.r.cseq) && (AllCancelled(Handled(c, e)) <==> AllCancelled(c))
  {
  }

  const TwoBranches := NewRequest(Chain([OpAddTarget(0, Contact("a"), true), OpAddTarget(1, Contact("b"), true)], Continue),
                                  Chain([], Continue))

  function Contact(uri: string): Target {
    Target(Rec(0, "", uri), Candidate)
  }

  function Answer(code: int): Event {
    BranchResponse(0, Response(code, INVITE, [], None, []), GoodVia, false, Chain([], Continue))
  }

  function BothRunning(): Ctx {
    Launch(Launch(Init(INVITE), 0, Contact("a")).(known := {0}), 1, Contact("b")).(known := {0, 1})
  }

  lemma {:induction false} BothAreRunning()
    ensures Legal(Init(INVITE), TwoBranches) && Step(Init(INVITE), TwoBranches) == BothRunning()
  {
    var q := TwoBranches.request;
    var c := Launch(Init(INVITE), 0, Contact("a")).(known := {0});
    assert Apply(Init(INVITE), q.ops[0]) == c;
    assert q.ops[1..] == [q.ops[1]] && q.ops[1..][1..] == [];
    assert Apply(c, q.ops[1]) == BothRunning();
    assert ApplyAll(Init(INVITE), q.ops) == BothRunning();
  }

  lemma {:induction false} FirstFails()
    ensures Legal(BothRunning(), Answer(404))
    ensures var c := Step(BothRunning(), Answer(404));
            !c.finalSent && c.active == map[1 := Contact("b").(status := Started)]
  {
    var c, r := BothRunning(), Answer(404).r;
    assert c.active == map[0 := Contact("a").(status := Started), 1 := Contact("b").(status := Started)];
    assert Terminate(c, 0).active == map[1 := Contact("b").(status := Started)];
    hide Hold;
    assert OnResponse(c, 0, r, GoodVia, false).active == map[1 := Contact("b").(status := Started)];
  }

  /** A branch that has failed sends a 200 after all: the client is answered, and the other branch is still running
      and not cancelled. */
  lemma {:induction false} StrayHappens()
    ensures Legal(Init(INVITE), TwoBranches) && Step(Init(INVITE), TwoBranches) == BothRunning()
    ensures Legal(BothRunning(), Answer(404))
    ensures var c := Step(BothRunning(), Answer(404));
            && Stray(c, Answer(200)) && Legal(c, Answer(200))
            && Step(c, Answer(200)).finalSent && Step(c, Answer(200)).active == map[1 := Contact("b").(status := Started)]
  {
    BothAreRunning();
    FirstFails();
    var c := Step(BothRunning(), Answer(404));
    hide Step;
    assert Stray(c, Answer(200));
    StrayIsSent(c, Answer(200));
    QuietStep(c);
  }

  lemma {:induction false} QuietStep(c: Ctx)
    requires Stray(c, Answer(200))
    ensures Step(c, Answer(200)) == Send(c, 200, INVITE) && Legal(c, Answer(200))
  {
    StrayIsSent(c, Answer(200));
  }
}
