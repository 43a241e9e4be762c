/** What becomes of the branches that lost: a 2xx, the first 6xx, a CANCEL of the client and timer C cancel
    everything else that an INVITE was forked to. */
module ForkingCancel {
  import opened Common
  import opened BestResponse
  import opened Forking
  import opened ForkingSafety
  import opened ForkingProgress
  import opened ForkingHeld

  // ----- the events that call off the other branches -----

  predicate Succeeds(c: Ctx, e: Event) {
    e.BranchResponse? && !e.eaten && e.via == GoodVia && e.tid in c.active && 200 <= e.r.code <= 299
  }

  predicate FirstGlobalFailure(c: Ctx, e: Event) {
    Counts(c, e) && e.r.code >= 600 && c.held.best.code / 100 != 6
  }

  predicate CallsOff(c: Ctx, e: Event) {
    || Succeeds(c, e)
    || FirstGlobalFailure(c, e)
    || (e.CancelRequest? && !c.finalSent)
    || (e.TimerC? && e.serial == c.tcSerial && !c.finalSent)
  }

  /** What the context does with such an event itself, before its target processors run. */
  function Handled(c: Ctx, e: Event): Ctx
    requires WellCoded(e)
  {
    match e
    case BranchResponse(tid, r, via, eaten, _) => OnResponse(c, tid, r, via, eaten)
    case CancelRequest(_) => ProcessCancel(c)
    case TimerC(serial) => ProcessTimerC(c, serial)
    case _ => c
  }

  /** No candidate is left, and no active branch that has not been cancelled. */
  ghost predicate CalledOff(c: Ctx) {
    c.candidate == map[] && forall k :: k in c.active ==> c.active[k].status == Cancelled
  }

  /** The branches that were running and are told to stop. */
  ghost predicate Losing(c: Ctx, e: Event, k: Tid) {
    k in c.active && c.active[k].status == Started && !(e.BranchResponse? && k == e.tid)
  }

  function Since(c: Ctx, d: Ctx): seq<Sent> {
    if |c.log| <= |d.log| then d.log[|c.log|..] else []
  }

  lemma {:induction false} CancelAllCallsOff(c: Ctx)
    requires Inv(c) && c.cseq == INVITE
    ensures CalledOff(CancelAll(c)) && CancelAll(c).active.Keys == c.active.Keys
  {
    hide LogAgrees, Sorted, Cancels;
  }

  lemma {:induction false} ForwardingStaysOff(c: Ctx)
    requires CalledOff(c)
    ensures CalledOff(ForwardBest(c)) && ForwardBest(c).active.Keys == c.active.Keys
  {
    hide Sorted, Cancels;
  }

  lemma {:induction false} ResponseCallsOff(c: Ctx, e: Event)
    requires Inv(c) && WellCoded(e) && c.cseq == INVITE && (Succeeds(c, e) || FirstGlobalFailure(c, e))
    ensures CalledOff(Handled(c, e)) && Handled(c, e).active.Keys == c.active.Keys - {e.tid}
  {
    hide Inv, CancelAll, ForwardBest, Hold, CalledOff;
    var d := Terminate(c, e.tid);
    TerminateSound(c, e.tid);
    assert d.active.Keys == c.active.Keys - {e.tid};
    CancelAllCallsOff(d);
    if e.r.code <= 299 {
      SameBranches(CancelAll(d), Handled(c, e));
    } else {
      var f := d.(held := Hold(d.held, e.r), failures := d.failures + [e.r]);
      HeldIsFree(d, f);
      CancelAllCallsOff(f);
      ForwardingStaysOff(CancelAll(f));
    }
  }

  lemma {:induction false} SameBranches(c: Ctx, d: Ctx)
    requires CalledOff(c) && d.candidate == c.candidate && d.active == c.active
    ensures CalledOff(d)
  {
  }

  lemma {:induction false} OthersCallOff(c: Ctx, e: Event)
    requires Inv(c) && c.cseq == INVITE && CallsOff(c, e) && (e.CancelRequest? || e.TimerC?)
    ensures CalledOff(Handled(c, e)) && Handled(c, e).active.Keys == c.active.Keys
  {
    hide CancelAll, CalledOff, Advances, Balance;
    if e.TimerC? {
      CancelAllCallsOff(c);
    } else {
      var d := c.(log := c.log + [CancelOk]);
      NoteSound(c, CancelOk);
      hide Inv;
      CancelAllCallsOff(d);
      SameBranches(CancelAll(d), Handled(c, e));
    }
  }

  lemma {:induction false} HandledSound(c: Ctx, e: Event)
    requires Inv(c) && WellCoded(e)
    ensures Sound(c, Handled(c, e))
  {
    hide Inv, Advances, Balance, OnResponse, ProcessCancel, CancelAll;
    HeldIsFree(c, c);
    match e
    case BranchResponse(tid, r, via, eaten, _) => OnResponseSound(c, tid, r, via, eaten);
    case CancelRequest(_) => ProcessCancelSound(c);
    case TimerC(_) => CancelAllSound(c);
    case _ =>
  }

  /** A branch that was running and is found cancelled has been sent its CANCEL in between. */
  lemma {:induction false} CancelledMeansCancel(c: Ctx, d: Ctx, k: Tid)
    requires Inv(c) && Inv(d) && c.log <= d.log
    requires k in c.active && c.active[k].status == Started && k in d.active && d.active[k].status == Cancelled
    ensures CancelBranch(k) in Since(c, d)
  {
    hide Orderly, Launched, Contacted, Answered, MapsAgree;
    RevokedOnTheWay(c.log, d.log, k);
  }

  lemma {:induction false} RevokedOnTheWay(before: seq<Sent>, after: seq<Sent>, k: Tid)
    requires before <= after && k !in Revoked(before) && k in Revoked(after)
    ensures CancelBranch(k) in after[|before|..]
    decreases |after|
  {
    var last := after[|after| - 1];
    assert before != after;
    assert after[|before|..] == after[..|after| - 1][|before|..] + [last];
    if k in Revoked(after[..|after| - 1]) {
      RevokedOnTheWay(before, after[..|after| - 1], k);
    }
  }

  /** A 2xx of a running branch, the first 6xx of one, a CANCEL of the client and timer C leave an INVITE with no
      candidate and no branch that runs undisturbed: each branch that was running still waits for its final
      response, but has been sent a CANCEL. */
  lemma {:induction false} LosersAreCancelled(c: Ctx, e: Event)
    requires Inv(c) && WellCoded(e) && c.cseq == INVITE && CallsOff(c, e)
    ensures var d := Handled(c, e);
            && d.candidate == map[] && (forall k :: k in d.active ==> d.active[k].status == Cancelled)
            && d.active.Keys == c.active.Keys - (if e.BranchResponse? then {e.tid} else {})
            && (forall k :: Losing(c, e, k) ==> CancelBranch(k) in Since(c, d))
  {
    hide Inv, Handled, Since, CallsOff, Succeeds, FirstGlobalFailure, Advances, Balance;
    assert CalledOff(Handled(c, e)) && Handled(c, e).active.Keys == c.active.Keys - (if e.BranchResponse? then {e.tid} else {}) by {
      KindOfCall(c, e);
      if e.BranchResponse? {
        ResponseCallsOff(c, e);
      } else {
        OthersCallOff(c, e);
      }
    }
    HandledSound(c, e);
    LogKept(c, Handled(c, e));
    forall k | Losing(c, e, k)
      ensures CancelBranch(k) in Since(c, Handled(c, e))
    {
      CancelledMeansCancel(c, Handled(c, e), k);
    }
  }

  lemma {:induction false} KindOfCall(c: Ctx, e: Event)
    requires CallsOff(c, e)
    ensures if e.BranchResponse? then Succeeds(c, e) || FirstGlobalFailure(c, e) else e.CancelRequest? || e.TimerC?
  {
  }

  lemma {:induction false} LogKept(c: Ctx, d: Ctx)
    requires Advances(c, d)
    ensures c.log <= d.log
  {
  }

  /** What processors may call off themselves: all running branches of an unanswered request, all candidates, or both,
      in which case only the branches of an INVITE are cancelled. */
  lemma {:induction false} ProcessorCancelsActive(c: Ctx)
    requires Inv(c)
    ensures var d := Apply(c, OpCancelActive);
            if c.finalSent then d == c
            else d.active.Keys == c.active.Keys && d.candidate == c.candidate
                 && (forall k :: k in c.active ==> d.active[k].status == Cancelled)
                 && (forall k :: k in c.active && c.active[k].status == Started ==> CancelBranch(k) in Since(c, d))
  {
    if !c.finalSent {
      CancelBranchesSound(c);
      AllAreCancelled(c);
      hide Inv, CancelBranches, Since, Advances, Balance;
      LogKept(c, CancelBranches(c));
      forall k | k in c.active && c.active[k].status == Started
        ensures CancelBranch(k) in Since(c, CancelBranches(c))
      {
        CancelledMeansCancel(c, CancelBranches(c), k);
      }
    }
  }

  lemma {:induction false} AllAreCancelled(c: Ctx)
    requires MapsAgree(c)
    ensures var d := CancelBranches(c);
            d.active.Keys == c.active.Keys && d.candidate == c.candidate && forall k :: k in c.active ==> d.active[k].status == Cancelled
  {
    hide Sorted, Cancels;
  }

  lemma {:induction false} ProcessorClears(c: Ctx)
    ensures var d := Apply(c, OpClearCandidates);
            d.candidate == map[] && d.active == c.active && d.log == c.log && d.terminated.Keys == c.terminated.Keys + c.candidate.Keys
    ensures var d := Apply(c, OpCancelAll);
            c.cseq != INVITE ==> d == Apply(c, OpClearCandidates)
    ensures Apply(c, OpCancelAll)
         == Apply(if c.cseq == INVITE then Apply(c.(finalSent := false), OpCancelActive).(finalSent := c.finalSent) else c, OpClearCandidates)
  {
    hide Sorted, Cancels;
  }

  /** One branch is cancelled if it is running and the method is INVITE, and set aside if it is a candidate. */
  lemma {:induction false} OneIsCancelled(c: Ctx, tid: Tid)
    requires Inv(c)
    ensures var d := Apply(c, OpCancel(tid));
            if c.cseq == INVITE && tid in c.active then
              && d.active == c.active[tid := c.active[tid].(status := Cancelled)] && d.candidate == c.candidate
              && d.log == c.log + (if c.active[tid].status == Started then [CancelBranch(tid)] else [])
            else if tid in c.candidate then
              d.candidate == c.candidate - {tid} && tid in d.terminated && d.active == c.active && d.log == c.log
            else d == c
  {
    hide LogAgrees;
    if tid in c.active {
      assert Cancels(c.active, [tid]) == if c.active[tid].status == Started then [CancelBranch(tid)] else [];
    }
  }

  // ----- over steps and runs -----

  /** Every branch that `c` knows has been called off in `d`: none is a candidate, none runs undisturbed, and
      those that were running in `c` have been sent their CANCEL since. */
  ghost predicate AllCalledOff(c: Ctx, e: Event, d: Ctx) {
    && (forall k :: k in c.known ==> k !in d.candidate && (k in d.active ==> d.active[k].status == Cancelled))
    && (forall k :: Losing(c, e, k) ==> CancelBranch(k) in Since(c, d))
  }

  lemma {:induction false} CalledOffStays(c: Ctx, e: Event, d: Ctx, x: Ctx)
    requires Inv(c) && Inv(d) && Inv(x) && Advances(c, d) && Advances(d, x)
    requires CalledOff(d) && forall k :: Losing(c, e, k) ==> CancelBranch(k) in Since(c, d)
    ensures AllCalledOff(c, e, x)
  {
    hide LogAgrees, Losing;
    forall k | k in c.known
      ensures k !in x.candidate && (k in x.active ==> x.active[k].status == Cancelled)
    {
      assert k in d.known && Rank(d, k) >= 2;
      assert Rank(x, k) >= 2;
    }
    forall k | Losing(c, e, k)
      ensures CancelBranch(k) in Since(c, x)
    {
      var i :| 0 <= i < |Since(c, d)| && Since(c, d)[i] == CancelBranch(k);
      assert Since(c, x)[i] == CancelBranch(k);
    }
  }

  lemma {:induction false} StepFromHandled(c: Ctx, e: Event)
    requires Inv(c) && Legal(c, e) && CallsOff(c, e)
    ensures Inv(Step(c, e)) && Advances(Handled(c, e), Step(c, e))
  {
    hide Inv, Advances, Balance, OnResponse, ProcessCancel, ProcessTimerC, AfterResponse, AfterRequestChain, AllAllowed, Succeeds,
      FirstGlobalFailure;
    StepSound(c, e);
    HandledSound(c, e);
    HeldIsFree(Handled(c, e), Handled(c, e));
    if e.BranchResponse? {
      AfterResponseSound(Handled(c, e), e.targets);
    } else if e.CancelRequest? {
      AfterRequestChainSound(Handled(c, e), Continue, e.targets, false);
    }
  }

  /** The same for a whole step and for any run that follows: whatever is added later, the branches that were
      called off are never started, and run no longer undisturbed. */
  lemma {:induction false} LosersStayCancelled(states: seq<Ctx>, events: seq<Event>, m: nat, n: nat)
    requires IsRun(states, events) && m < n < |states|
    requires states[m].cseq == INVITE && CallsOff(states[m], events[m])
    ensures AllCalledOff(states[m], events[m], states[n])
  {
    hide Step, Inv, Legal, CallsOff, Handled, Losing, Since, Advances;
    var c, e := states[m], events[m];
    RunSound(states, events, m);
    RunSound(states, events, n);
    LegalCoded(c, e);
    assert states[m + 1] == Step(c, e);
    HandledSound(c, e);
    StepFromHandled(c, e);
    assert Advances(states[m + 1], states[n]);
    AdvancesTransitive(Handled(c, e), states[m + 1], states[n]);
    LosersAreCancelled(c, e);
    CalledOffStays(c, e, Handled(c, e), states[n]);
  }

  lemma {:induction false} LegalCoded(c: Ctx, e: Event)
    requires Legal(c, e)
    ensures WellCoded(e)
  {
  }

  // ----- other methods -----

  /** No branch has been sent a CANCEL since `c`. */
  ghost predicate NothingRevoked(c: Ctx, d: Ctx) {
    Revoked(d.log) == Revoked(c.log) && d.cseq == c.cseq
  }

  lemma {:induction false} NoteRevokesNothing(log: seq<Sent>, e: Sent)
    requires !e.CancelBranch?
    ensures Revoked(log + [e]) == Revoked(log)
  {
    assert (log + [e])[..|log + [e]| - 1] == log;
  }

  lemma {:induction false} SendRevokesNothing(c: Ctx, code: int, cseq: Method)
    ensures NothingRevoked(c, Send(c, code, cseq))
  {
    NoteRevokesNothing(c.log, Upstream(code, cseq));
    hide Revoked;
  }

  lemma {:induction false} CancelAllRevokesNothing(c: Ctx)
    requires c.cseq != INVITE
    ensures NothingRevoked(c, CancelAll(c)) && NothingRevoked(c, ClearCandidates(c))
  {
    hide Revoked;
  }

  lemma {:induction false} ForwardRevokesNothing(c: Ctx)
    requires c.cseq != INVITE
    ensures NothingRevoked(c, ForwardBest(c))
  {
    var d := ClearCandidates(c);
    NoteRevokesNothing(d.log, NoBestResponse);
    NoteRevokesNothing(d.log, Upstream(Presentable(d.held.best), d.held.best.cseq));
    hide Revoked;
  }

  lemma {:induction false} SuccessRevokesNothing(c: Ctx, tid: Tid, r: Response)
    requires c.cseq != INVITE
    ensures NothingRevoked(c, ProcessSuccess(c, tid, r))
  {
    var d := ClearCandidates(Terminate(c, tid));
    NoteRevokesNothing(d.log, Upstream(r.code, r.cseq));
    hide Revoked;
  }

  lemma {:induction false} FailureRevokesNothing(c: Ctx, tid: Tid, r: Response)
    requires c.cseq != INVITE && BranchFailure(r)
    ensures NothingRevoked(c, ProcessFailure(c, tid, r))
  {
    var d := Terminate(c, tid);
    ForwardRevokesNothing(d.(held := Hold(d.held, r), failures := d.failures + [r]));
    hide Revoked, Hold, ForwardBest;
  }

  lemma {:induction false} CancelRevokesNothing(c: Ctx)
    requires c.cseq != INVITE
    ensures NothingRevoked(c, ProcessCancel(c))
  {
    var d := c.(log := c.log + [CancelOk]);
    NoteRevokesNothing(c.log, CancelOk);
    CancelAllRevokesNothing(d);
    SendRevokesNothing(CancelAll(d), 487, c.cseq);
    hide Revoked, CancelAll, Send;
    CancelAllHeld(d);
  }

  /** For other methods than INVITE these events cancel no branch. */
  lemma {:induction false} OthersAreNotCancelled(c: Ctx, e: Event)
    requires c.cseq != INVITE && WellCoded(e)
    ensures NothingRevoked(c, Handled(c, e))
  {
    hide Revoked, CancelAll, ProcessSuccess, ProcessFailure, ProcessCancel;
    match e
    case BranchResponse(tid, r, via, eaten, _) =>
      SendRevokesNothing(c, r.code, r.cseq);
      SendRevokesNothing(UpdateTimerC(c), r.code, r.cseq);
      SuccessRevokesNothing(c, tid, r);
      if BranchFailure(r) {
        FailureRevokesNothing(c, tid, r);
      }
    case CancelRequest(_) => CancelRevokesNothing(c);
    case TimerC(_) => CancelAllRevokesNothing(c);
    case _ =>
  }

  lemma {:induction false} BeginRevokesNothing(c: Ctx, ks: seq<Tid>)
    requires Ascending(ks) && forall k :: k in ks ==> k in c.candidate
    ensures NothingRevoked(c, BeginKeys(c, ks))
    decreases |ks|
  {
    if ks != [] {
      NoteRevokesNothing(c.log, Request(ks[0], c.candidate[ks[0]].rec));
      hide Revoked;
      BeginOneRemoves(c, ks[0]);
      BeginRevokesNothing(BeginOne(c, ks[0]), ks[1..]);
    }
  }

  lemma {:induction false} AddRevokesNothing(c: Ctx, batch: seq<(Tid, Target)>)
    ensures AddEach(c, batch).log == AddOutbound(c, batch).log == c.log
    ensures AddEach(c, batch).cseq == AddOutbound(c, batch).cseq == c.cseq
    decreases |batch|
  {
    if batch != [] {
      var (tid, t) := batch[0];
      var d := c.(candidate := c.candidate[tid := t], known := c.known + {tid});
      AddRevokesNothing(d, batch[1..]);
      AddRevokesNothing(c, batch[1..]);
    }
  }

  lemma {:induction false} OpRevokesNothing(c: Ctx, op: Op)
    requires c.cseq != INVITE && !op.OpCancelActive?
    ensures NothingRevoked(c, Apply(c, op))
  {
    match op
    case OpAddTarget(tid, t, begin) =>
      NoteRevokesNothing(c.log, Request(tid, t.rec));
      hide Revoked;
    case OpAddBatch(batch) => AddRevokesNothing(c, batch);
    case OpAddOutbound(batch) => AddRevokesNothing(c, batch);
    case OpBeginAll => BeginRevokesNothing(c, Sorted(c.candidate.Keys));
    case OpBegin(tid) =>
      if tid in c.candidate {
        NoteRevokesNothing(c.log, Request(tid, c.candidate[tid].rec));
        hide Revoked;
      }
    case _ =>
  }

  /** No processor asks for the active branches to be cancelled. */
  ghost predicate Keeping(ops: seq<Op>) {
    forall i :: 0 <= i < |ops| ==> !ops[i].OpCancelActive?
  }

  ghost predicate KeepingEvent(e: Event) {
    match e
    case NewRequest(q, ts) => Keeping(q.ops) && Keeping(ts.ops)
    case CancelRequest(ts) => Keeping(ts.ops)
    case BranchResponse(_, _, _, _, ts) => Keeping(ts.ops)
    case ResumeRequest(q, ts) => Keeping(q.ops) && Keeping(ts.ops)
    case ResumeResponse(p, ts) => Keeping(p.ops) && Keeping(ts.ops)
    case ResumeTarget(ts) => Keeping(ts.ops)
    case _ => true
  }

  lemma {:induction false} ChainRevokesNothing(c: Ctx, ops: seq<Op>)
    requires c.cseq != INVITE && Keeping(ops)
    ensures NothingRevoked(c, ApplyAll(c, ops))
    decreases |ops|
  {
    hide Revoked, Apply;
    if ops != [] {
      OpRevokesNothing(c, ops[0]);
      ChainRevokesNothing(Apply(c, ops[0]), ops[1..]);
    }
  }

  lemma {:induction false} RestRevokesNothing(c: Ctx, result: Action, targets: Chain, resumed: bool)
    requires c.cseq != INVITE && Keeping(targets.ops)
    ensures NothingRevoked(c, AfterRequestChain(c, result, targets, resumed))
    ensures NothingRevoked(c, AfterResponse(c, targets))
  {
    hide Revoked, ApplyAll, ForwardBest, Keeping;
    var d := ApplyAll(c, targets.ops);
    ChainRevokesNothing(c, targets.ops);
    SendRevokesNothing(c, 480, c.cseq);
    SendRevokesNothing(d, 500, d.cseq);
    ForwardRevokesNothing(d);
  }

  lemma {:induction false} StepRevokesNothing(c: Ctx, e: Event)
    requires c.cseq != INVITE && WellCoded(e) && KeepingEvent(e)
    ensures NothingRevoked(c, Step(c, e))
  {
    hide Revoked, ApplyAll, AfterRequestChain, AfterResponse, Keeping, ProcessCancel, ProcessTimerC, OnResponse;
    OthersAreNotCancelled(c, e);
    var h := Handled(c, e);
    match e
    case NewRequest(q, ts) =>
      ChainRevokesNothing(c, q.ops);
      RestRevokesNothing(ApplyAll(c, q.ops), q.result, ts, false);
    case CancelRequest(ts) => RestRevokesNothing(h, Continue, ts, false);
    case BranchResponse(_, _, _, _, ts) => RestRevokesNothing(h, Continue, ts, false);
    case ResumeRequest(q, ts) =>
      ChainRevokesNothing(c, q.ops);
      RestRevokesNothing(ApplyAll(c, q.ops), q.result, ts, true);
    case ResumeResponse(p, ts) =>
      ChainRevokesNothing(c, p.ops);
      ChainRevokesNothing(ApplyAll(c, p.ops), ts.ops);
    case ResumeTarget(ts) => ChainRevokesNothing(c, ts.ops);
    case _ =>
  }

  lemma {:induction false} RevokedAt(log: seq<Sent>, k: Tid)
    ensures CancelBranch(k) in log ==> k in Revoked(log)
  {
    if log != [] && CancelBranch(k) in log {
      assert log == log[..|log| - 1] + [log[|log| - 1]];
      RevokedAt(log[..|log| - 1], k);
    }
  }

  /** For other methods than INVITE no branch is ever sent a CANCEL, unless a processor asks for it. */
  lemma {:induction false} OnlyInviteIsCancelled(states: seq<Ctx>, events: seq<Event>, n: nat, k: Tid)
    requires IsRun(states, events) && n < |states| && states[0].cseq != INVITE
    requires forall i :: 0 <= i < n ==> KeepingEvent(events[i])
    ensures CancelBranch(k) !in states[n].log
  {
    hide Step, Legal, KeepingEvent;
    NoneRevoked(states, events, n);
    RevokedAt(states[n].log, k);
  }

  lemma {:induction false} NoneRevoked(states: seq<Ctx>, events: seq<Event>, n: nat)
    requires IsRun(states, events) && n < |states| && states[0].cseq != INVITE
    requires forall i :: 0 <= i < n ==> KeepingEvent(events[i])
    ensures Revoked(states[n].log) == {} && states[n].cseq == states[0].cseq
  {
    hide Step, Legal, KeepingEvent;
    if n > 0 {
      NoneRevoked(states, events, n - 1);
      LegalCoded(states[n - 1], events[n - 1]);
      StepRevokesNothing(states[n - 1], events[n - 1]);
    }
  }
}
