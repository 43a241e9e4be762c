/** What the client is sent: for each event the responses that go upstream, and which branch ends with it; and when
    timer C is restarted. */
module ForkingAnswers {
  import opened Common
  import opened BestResponse
  import opened Forking
  import opened ForkingSafety
  import opened ForkingProgress
  import opened ForkingHeld
  import opened ForkingCancel

  /** The responses sent upstream, in order. */
  function Answers(log: seq<Sent>): seq<Sent> {
    if log == [] then []
    else Answers(log[..|log| - 1]) + (if log[|log| - 1].Upstream? then [log[|log| - 1]] else [])
  }

  lemma {:induction false} AnswersGrow(log: seq<Sent>, e: Sent)
    ensures Answers(log + [e]) == Answers(log) + (if e.Upstream? then [e] else [])
  {
    assert (log + [e])[..|log + [e]| - 1] == log;
  }

  lemma {:induction false} CancelsAnswerNothing(log: seq<Sent>, m: Branches, ks: seq<Tid>)
    requires forall k :: k in ks ==> k in m
    ensures Answers(log + Cancels(m, ks)) == Answers(log)
    decreases |ks|
  {
    if ks == [] {
      assert log + Cancels(m, ks) == log;
    } else {
      var one := if m[ks[0]].status == Started then [CancelBranch(ks[0])] else [];
      var next := log + one;
      AnswersGrow(log, CancelBranch(ks[0]));
      assert log + [] == log;
      assert log + Cancels(m, ks) == next + Cancels(m, ks[1..]);
      hide Answers;
      CancelsAnswerNothing(next, m, ks[1..]);
    }
  }

  /** Nothing goes upstream from `c` to `d`. */
  ghost predicate Silent(c: Ctx, d: Ctx) {
    Answers(d.log) == Answers(c.log)
  }

  lemma {:induction false} CancelSilent(c: Ctx)
    ensures Silent(c, CancelBranches(c)) && Silent(c, CancelActive(c)) && Silent(c, CancelAll(c)) && Silent(c, ClearCandidates(c))
  {
    CancelsAnswerNothing(c.log, c.active, Sorted(c.active.Keys));
    hide Answers, Sorted, Cancels;
  }

  // ----- chains send nothing -----

  lemma {:induction false} BeginSilent(c: Ctx, ks: seq<Tid>)
    requires Ascending(ks) && forall k :: k in ks ==> k in c.candidate
    ensures Silent(c, BeginKeys(c, ks))
    decreases |ks|
  {
    if ks != [] {
      AnswersGrow(c.log, Request(ks[0], c.candidate[ks[0]].rec));
      hide Answers;
      BeginOneRemoves(c, ks[0]);
      BeginSilent(BeginOne(c, ks[0]), ks[1..]);
    }
  }

  lemma {:induction false} OpSilent(c: Ctx, op: Op)
    ensures Silent(c, Apply(c, op))
  {
    match op
    case OpAddTarget(tid, t, begin) =>
      AnswersGrow(c.log, Request(tid, t.rec));
      hide Answers;
    case OpAddBatch(batch) => AddRevokesNothing(c, batch);
    case OpAddOutbound(batch) => AddRevokesNothing(c, batch);
    case OpBeginAll => BeginSilent(c, Sorted(c.candidate.Keys));
    case OpBegin(tid) =>
      if tid in c.candidate {
        AnswersGrow(c.log, Request(tid, c.candidate[tid].rec));
        hide Answers;
      }
    case OpCancelActive => CancelSilent(c);
    case OpCancelAll => CancelSilent(c);
    case OpClearCandidates => CancelSilent(c);
    case OpCancel(tid) =>
      if tid in c.active {
        CancelsAnswerNothing(c.log, c.active, [tid]);
        hide Answers, Cancels;
      }
  }

  lemma {:induction false} ChainSilent(c: Ctx, ops: seq<Op>)
    ensures Silent(c, ApplyAll(c, ops))
    decreases |ops|
  {
    hide Answers, Apply;
    if ops != [] {
      OpSilent(c, ops[0]);
      ChainSilent(Apply(c, ops[0]), ops[1..]);
    }
  }

  // ----- what an event itself is answered with -----

  /** Does the response end its branch? One that a processor eats does, and every final one but the answer to a
      CANCEL of the proxy's own. */
  predicate EndsBranch(e: Event) {
    e.BranchResponse? && (e.eaten || (e.r.code > 199 && !(e.via == NoVia && e.r.cseq == CANCEL)))
  }

  /** A provisional response that gets through: with no further Via only a 100 does, unless it answers a CANCEL. */
  predicate Provisional(c: Ctx, e: Event) {
    && e.BranchResponse? && !e.eaten && e.r.code <= 199 && e.tid in c.active
    && (e.via == GoodVia || (e.via == NoVia && e.r.code == 100 && e.r.cseq != CANCEL))
  }

  predicate Final(e: Event) {
    e.BranchResponse? && !e.eaten && e.via == GoodVia && e.r.code > 199
  }

  /** Is this the failure of the last branch there is, of an unanswered request? */
  predicate LastFailure(c: Ctx, e: Event) {
    && Counts(c, e) && c.active.Keys == {e.tid}
    && (c.candidate == map[] || (FirstGlobalFailure(c, e) && c.cseq == INVITE))
  }

  /** The answer to the client that an event gives rise to, before any processor runs. */
  function DirectAnswer(c: Ctx, e: Event): seq<Sent>
    requires WellCoded(e)
  {
    if Provisional(c, e) then
      (if e.r.code == 100 || c.finalSent then [] else [Upstream(e.r.code, e.r.cseq)])
    else if Final(e) && e.r.code <= 299 then
      (if e.tid in c.active && c.cseq != INVITE && c.finalSent then [] else [Upstream(e.r.code, e.r.cseq)])
    else if LastFailure(c, e) then
      var best := Hold(c.held, e.r).best;
      if best.code == 0 then [] else [Upstream(Presentable(best), best.cseq)]
    else if e.CancelRequest? && !c.finalSent && c.active == map[] then
      [Upstream(487, c.cseq)]
    else
      []
  }

  /** The best response if there is one. */
  function BestAnswer(c: Ctx): seq<Sent> {
    if c.held.best.code == 0 then [] else [Upstream(Presentable(c.held.best), c.held.best.cseq)]
  }

  /** With nothing held there is nothing to send, which the source asserts cannot happen. */
  lemma {:induction false} NothingHeldIsNoted(c: Ctx)
    ensures c.held.best.code == 0 ==>
              ForwardBest(c).log != [] && ForwardBest(c).log[|ForwardBest(c).log| - 1] == NoBestResponse
              && ForwardBest(c).finalSent == c.finalSent
    ensures c.held == NOTHING_HELD ==> c.held.best.code == 0 && BestAnswer(c) == []
  {
    hide Sorted, Cancels;
  }

  /** No 503 goes upstream in this way, and a 408 only for an INVITE: 480 goes in their place. Every other code goes
      as it is. */
  lemma {:induction false} BestIsPresented(c: Ctx)
    requires c.held.best.code != 0
    ensures |BestAnswer(c)| == 1 && BestAnswer(c)[0].Upstream? && BestAnswer(c)[0].cseq == c.held.best.cseq
    ensures var code, sent := c.held.best.code, BestAnswer(c)[0].code;
            && sent != 503 && (sent == 408 ==> c.held.best.cseq == INVITE)
            && (sent != code ==> sent == 480)
            && (code != 503 && (code != 408 || c.held.best.cseq == INVITE) ==> sent == code)
  {
  }

  lemma {:induction false} ForwardAnswers(c: Ctx)
    ensures Answers(ForwardBest(c).log) == Answers(c.log) + BestAnswer(c)
  {
    var d := ClearCandidates(c);
    CancelSilent(c);
    CancelSilent(d);
    var e := if c.cseq == INVITE then CancelActive(d) else d;
    AnswersGrow(e.log, NoBestResponse);
    AnswersGrow(e.log, Upstream(Presentable(c.held.best), c.held.best.cseq));
    hide Answers, CancelBranches, ClearCandidates;
    assert e.held == c.held by { ClearKeepsHeld(c); ClearKeepsHeld(d); }
  }

  lemma {:induction false} ClearKeepsHeld(c: Ctx)
    ensures ClearCandidates(c).held == c.held && CancelBranches(c).held == c.held
  {
    hide Sorted, Cancels;
  }

  lemma {:induction false} SuccessAnswers(c: Ctx, e: Event)
    requires Final(e) && e.r.code <= 299 && e.tid in c.active
    ensures Answers(ProcessSuccess(c, e.tid, e.r).log) == Answers(c.log) + DirectAnswer(c, e)
  {
    hide Answers, CancelAll, ClearCandidates, LastFailure;
    var d := Terminate(c, e.tid);
    CancelSilent(d);
    var f := if c.cseq == INVITE then CancelAll(d) else ClearCandidates(d);
    AnswersGrow(f.log, Upstream(e.r.code, e.r.cseq));
  }

  /** A 2xx that is passed on settles the request, whatever method it answers, and its code is what is held. */
  lemma {:induction false} SuccessSettles(c: Ctx, e: Event)
    requires WellCoded(e) && Succeeds(c, e) && (c.cseq == INVITE || !c.finalSent)
    ensures Handled(c, e).finalSent && Handled(c, e).held.best.code == e.r.code
  {
    hide CancelAll, ClearCandidates, Terminate;
  }

  lemma {:induction false} FailureAnswers(c: Ctx, e: Event)
    requires Inv(c) && Final(e) && 300 <= e.r.code <= 699 && e.tid in c.active
    ensures Answers(ProcessFailure(c, e.tid, e.r).log) == Answers(c.log) + DirectAnswer(c, e)
  {
    hide Answers, Hold, CancelAll, ForwardBest, Inv, Advances, Balance, Terminate;
    var d := Terminate(c, e.tid);
    TerminateSound(c, e.tid);
    OneBranchLess(c, e.tid);
    if !c.finalSent {
      var x := d.(held := Hold(d.held, e.r), failures := d.failures + [e.r]);
      HeldIsFree(d, x);
      CancelSilent(x);
      CancelAllHeld(x);
      NothingLeft(x);
      ForwardAnswers(x);
      ForwardAnswers(CancelAll(x));
    }
  }

  lemma {:induction false} OneBranchLess(c: Ctx, tid: Tid)
    requires tid in c.active
    ensures var d := Terminate(c, tid);
            && (d.active == map[] <==> c.active.Keys == {tid})
            && d == c.(active := d.active, terminated := d.terminated)
  {
    var rest := Terminate(c, tid).active.Keys;
    assert rest == c.active.Keys - {tid};
    if c.active.Keys == {tid} {
      assert rest == {};
    }
    if Terminate(c, tid).active == map[] {
      assert rest == {} && c.active.Keys == rest + {tid};
    }
  }

  lemma {:induction false} NothingLeft(c: Ctx)
    requires Inv(c)
    ensures CancelAll(c).candidate == map[] && (CancelAll(c).active == map[] <==> c.active == map[])
  {
    hide Inv, CancelAll;
    CancelBranchesVerdict(c);
    assert CancelAll(c).active.Keys == c.active.Keys;
  }

  lemma {:induction false} CancelAnswers(c: Ctx)
    requires Inv(c)
    ensures Answers(ProcessCancel(c).log)
         == Answers(c.log) + (if !c.finalSent && c.active == map[] then [Upstream(487, c.cseq)] else [])
    ensures c.log + [CancelOk] <= ProcessCancel(c).log
  {
    hide Answers, CancelAll, Inv, Balance;
    var d := c.(log := c.log + [CancelOk]);
    AnswersGrow(c.log, CancelOk);
    NoteSound(c, CancelOk);
    CancelSilent(d);
    CancelAllHeld(d);
    CancelAllSound(d);
    CancelBranchesVerdict(d);
    assert d.log <= CancelAll(d).log by { LogKept(d, CancelAll(d)); }
    hide Advances;
    AnswersGrow(CancelAll(d).log, Upstream(487, c.cseq));
  }

  /** What goes upstream for an event: a provisional response but a 100 while the request is unanswered; every
      2xx, and for other methods than INVITE only the first of a running branch; the best of the failures when
      the last branch has failed; 487 for a CANCEL that finds nothing running; and nothing else. */
  lemma {:induction false} EventAnswers(c: Ctx, e: Event)
    requires Inv(c) && WellCoded(e)
    ensures Answers(Handled(c, e).log) == Answers(c.log) + DirectAnswer(c, e)
  {
    hide Inv, Answers, ProcessSuccess, ProcessFailure, ProcessCancel, CancelAll, LastFailure, Hold;
    if e.BranchResponse? {
      assert LastFailure(c, e) ==> Final(e) && e.r.code >= 300 && e.tid in c.active by { LastIsFinal(c, e); }
      AnswersGrow(c.log, Upstream(e.r.code, e.r.cseq));
      if Final(e) && e.tid in c.active {
        if e.r.code <= 299 {
          SuccessAnswers(c, e);
        } else {
          FailureAnswers(c, e);
        }
      }
    } else {
      assert !LastFailure(c, e) by { LastIsFinal(c, e); }
      CancelAnswers(c);
      CancelSilent(c);
    }
  }

  lemma {:induction false} LastIsFinal(c: Ctx, e: Event)
    ensures LastFailure(c, e) ==> Final(e) && e.r.code >= 300 && e.tid in c.active
  {
  }

  /** What goes upstream once the request chain is done: 480 if there is not a single target; if the target chain
      leaves nothing running, 500 for candidates that it did not start, otherwise the best response, but not a 408
      when the chain was resumed. */
  function ChainAnswer(c: Ctx, result: Action, targets: Chain, resumed: bool): seq<Sent> {
    var d := ApplyAll(c, targets.ops);
    if result == WaitingForEvent || c.finalSent then []
    else if c.candidate == map[] && c.active == map[] && c.terminated == map[] then [Upstream(480, c.cseq)]
    else if targets.result == WaitingForEvent || d.active != map[] then []
    else if d.candidate != map[] then [Upstream(500, c.cseq)]
    else if resumed && d.held.best.code == 408 then []
    else BestAnswer(d)
  }

  function LateAnswer(c: Ctx, targets: Chain): seq<Sent> {
    var d := ApplyAll(c, targets.ops);
    if c.finalSent || d.active != map[] then []
    else if d.candidate != map[] then [Upstream(500, c.cseq)]
    else BestAnswer(d)
  }

  lemma {:induction false} ChainAnswers(c: Ctx, result: Action, targets: Chain, resumed: bool)
    requires Inv(c) && AllAllowed(c, targets.ops)
    ensures Answers(AfterRequestChain(c, result, targets, resumed).log) == Answers(c.log) + ChainAnswer(c, result, targets, resumed)
    ensures Answers(AfterResponse(c, targets).log) == Answers(c.log) + LateAnswer(c, targets)
  {
    hide Answers, ApplyAll, AllAllowed, ForwardBest, BestAnswer, Advances, Balance;
    var d := ApplyAll(c, targets.ops);
    ChainSilent(c, targets.ops);
    ChainKeepsHeld(c, targets.ops);
    ApplyAllSound(c, targets.ops);
    assert d.cseq == c.cseq by { SameMethod(c, d); }
    hide Inv;
    ForwardAnswers(d);
    AnswersGrow(c.log, Upstream(480, c.cseq));
    AnswersGrow(d.log, Upstream(500, d.cseq));
  }

  lemma {:induction false} SameMethod(c: Ctx, d: Ctx)
    requires Advances(c, d)
    ensures c.cseq == d.cseq
  {
  }

  /** What the client is sent in one step. */
  function StepAnswer(c: Ctx, e: Event): seq<Sent>
    requires WellCoded(e)
  {
    match e
    case NewRequest(q, ts) => ChainAnswer(ApplyAll(c, q.ops), q.result, ts, false)
    case CancelRequest(ts) => DirectAnswer(c, e) + ChainAnswer(Handled(c, e), Continue, ts, false)
    case BranchResponse(_, _, _, _, ts) => DirectAnswer(c, e) + LateAnswer(Handled(c, e), ts)
    case ResumeRequest(q, ts) => ChainAnswer(ApplyAll(c, q.ops), q.result, ts, true)
    case _ => []
  }

  lemma {:induction false} StepAnswers(c: Ctx, e: Event)
    requires Inv(c) && Legal(c, e)
    ensures Answers(Step(c, e).log) == Answers(c.log) + StepAnswer(c, e)
  {
    hide Answers, ApplyAll, AllAllowed, AfterRequestChain, AfterResponse, ChainAnswer, LateAnswer, DirectAnswer, OnResponse, ProcessCancel,
      CancelAll, Inv, Advances, Balance, Remove;
    LegalCoded(c, e);
    EventAnswers(c, e);
    HandledSound(c, e);
    match e
    case NewRequest(q, ts) =>
      ChainSilent(c, q.ops);
      ChainKeepsHeld(c, q.ops);
      ChainAnswers(ApplyAll(c, q.ops), q.result, ts, false);
    case CancelRequest(ts) => ChainAnswers(Handled(c, e), Continue, ts, false);
    case BranchResponse(_, _, _, _, ts) => ChainAnswers(Handled(c, e), Continue, ts, false);
    case TimerC(_) => CancelSilent(c);
    case ResumeRequest(q, ts) =>
      ChainSilent(c, q.ops);
      ChainKeepsHeld(c, q.ops);
      ChainAnswers(ApplyAll(c, q.ops), q.result, ts, true);
    case ResumeResponse(p, ts) =>
      ChainSilent(c, p.ops);
      ChainSilent(ApplyAll(c, p.ops), ts.ops);
    case ResumeTarget(ts) => ChainSilent(c, ts.ops);
    case BranchEnded(tid) => assert Remove(c, tid).log == c.log by { RemoveKeepsLog(c, tid); }
    case ServerEnded =>
  }

  lemma {:induction false} RemoveKeepsLog(c: Ctx, tid: Tid)
    ensures Remove(c, tid).log == c.log
  {
  }

  // ----- over a run -----

  ghost function AllAnswers(states: seq<Ctx>, events: seq<Event>, n: nat): seq<Sent>
    requires n <= |events| < |states| && forall i :: 0 <= i < |events| ==> WellCoded(events[i])
  {
    if n == 0 then [] else AllAnswers(states, events, n - 1) + StepAnswer(states[n - 1], events[n - 1])
  }

  /** Over any run the client is sent these answers, in this order, and nothing else. */
  lemma {:induction false} ClientIsAnswered(states: seq<Ctx>, events: seq<Event>, n: nat)
    requires IsRun(states, events) && n < |states|
    ensures forall i :: 0 <= i < |events| ==> WellCoded(events[i])
    ensures Answers(states[n].log) == AllAnswers(states, events, n)
  {
    hide Step, Legal, Inv, StepAnswer, WellCoded;
    forall i | 0 <= i < |events|
      ensures WellCoded(events[i])
    {
      LegalCoded(states[i], events[i]);
    }
    if n == 0 {
      assert states[0].log == [];
    } else {
      ClientIsAnswered(states, events, n - 1);
      RunSound(states, events, n - 1);
      StepAnswers(states[n - 1], events[n - 1]);
    }
  }

  // ----- which branch ends -----

  /** `tid` is off the active branches and terminated, and all others are where they were. */
  ghost predicate TakenOff(c: Ctx, d: Ctx, tid: Tid) {
    d.active.Keys == c.active.Keys - {tid} && c.terminated.Keys <= d.terminated.Keys && (tid in c.active ==> tid in d.terminated)
  }

  lemma {:induction false} TerminateTakesOff(c: Ctx, tid: Tid)
    requires MapsAgree(c)
    ensures TakenOff(c, Terminate(c, tid), tid)
  {
  }

  lemma {:induction false} ClearKeepsKeys(c: Ctx, tid: Tid)
    requires tid !in c.active
    ensures TakenOff(c, ClearCandidates(c), tid) && TakenOff(c, CancelAll(c), tid) && TakenOff(c, CancelBranches(c), tid)
  {
    hide Sorted, Cancels, CancelledTarget;
  }

  lemma {:induction false} TakenOffOn(c: Ctx, d: Ctx, x: Ctx, tid: Tid)
    requires TakenOff(c, d, tid) && TakenOff(d, x, tid)
    ensures TakenOff(c, x, tid)
  {
  }

  lemma {:induction false} ForwardKeepsKeys(c: Ctx, tid: Tid)
    requires tid !in c.active
    ensures TakenOff(c, ForwardBest(c), tid)
  {
    hide ClearCandidates, CancelBranches;
    var d := ClearCandidates(c);
    ClearKeepsKeys(c, tid);
    ClearKeepsKeys(d, tid);
  }

  lemma {:induction false} SameBranchMaps(c: Ctx, d: Ctx, x: Ctx, tid: Tid)
    requires TakenOff(c, d, tid) && x.active == d.active && x.terminated == d.terminated
    ensures TakenOff(c, x, tid)
  {
  }

  lemma {:induction false} SuccessTakesOff(c: Ctx, tid: Tid, r: Response)
    requires MapsAgree(c)
    ensures TakenOff(c, ProcessSuccess(c, tid, r), tid)
  {
    hide CancelAll, ClearCandidates, Terminate, TakenOff, MapsAgree;
    var d := Terminate(c, tid);
    TerminateTakesOff(c, tid);
    assert tid !in d.active by { OffActive(c, d, tid); }
    ClearKeepsKeys(d, tid);
    var x := if c.cseq == INVITE then CancelAll(d) else ClearCandidates(d);
    TakenOffOn(c, d, x, tid);
    if !(c.cseq != INVITE && c.finalSent) {
      SameBranchMaps(c, x, ProcessSuccess(c, tid, r), tid);
    }
  }

  lemma {:induction false} OffActive(c: Ctx, d: Ctx, tid: Tid)
    requires TakenOff(c, d, tid)
    ensures tid !in d.active
  {
    assert tid !in d.active.Keys;
  }

  lemma {:induction false} FailureTakesOff(c: Ctx, tid: Tid, r: Response)
    requires MapsAgree(c) && BranchFailure(r)
    ensures TakenOff(c, ProcessFailure(c, tid, r), tid)
  {
    hide CancelAll, ForwardBest, Terminate, Hold, TakenOff, MapsAgree;
    var d := Terminate(c, tid);
    TerminateTakesOff(c, tid);
    if !d.finalSent {
      var x := d.(held := Hold(d.held, r), failures := d.failures + [r]);
      SameBranchMaps(c, d, x, tid);
      OffActive(c, x, tid);
      ClearKeepsKeys(x, tid);
      TakenOffOn(c, x, CancelAll(x), tid);
      OffActive(c, CancelAll(x), tid);
      ForwardKeepsKeys(x, tid);
      ForwardKeepsKeys(CancelAll(x), tid);
      TakenOffOn(c, x, ForwardBest(x), tid);
      TakenOffOn(c, CancelAll(x), ForwardBest(CancelAll(x)), tid);
    }
  }

  /** A response that a processor eats or that is final for its branch takes its branch off the active ones and leaves it
      terminated; no other response does, and no other branch is taken off. */
  lemma {:induction false} ResponseEndsBranch(c: Ctx, e: Event)
    requires Inv(c) && WellCoded(e) && e.BranchResponse?
    ensures var d := Handled(c, e);
            && d.active.Keys == (if EndsBranch(e) then c.active.Keys - {e.tid} else c.active.Keys)
            && (EndsBranch(e) && e.tid in c.active ==> e.tid in d.terminated)
            && c.terminated.Keys <= d.terminated.Keys
  {
    hide ProcessSuccess, ProcessFailure, Terminate, LogAgrees, MapsAgree;
    TerminateTakesOff(c, e.tid);
    assert e.tid !in c.active ==> c.active.Keys - {e.tid} == c.active.Keys;
    if 300 <= e.r.code {
      FailureTakesOff(c, e.tid, e.r);
    } else if 200 <= e.r.code {
      SuccessTakesOff(c, e.tid, e.r);
    }
  }

  /** A response that is eaten, or final without a Via to follow, sets its branch aside even if it is only a candidate,
      and does nothing else. */
  lemma {:induction false} CandidateIsSetAside(c: Ctx, e: Event)
    requires Inv(c) && WellCoded(e) && EndsBranch(e) && (e.eaten || e.via != GoodVia) && e.tid in c.candidate
    ensures var d := Handled(c, e);
            && e.tid in d.terminated && d.candidate == c.candidate - {e.tid} && d.active == c.active && d.log == c.log
  {
    hide LogAgrees, ProcessProvisional, ProcessSuccess, ProcessFailure;
  }

  /** The end of a transaction takes the branch off the maps and changes nothing else but the count. */
  lemma {:induction false} EndTakesOff(c: Ctx, tid: Tid)
    requires Inv(c)
    ensures var d := Step(c, BranchEnded(tid));
            && d == c.(candidate := c.candidate - {tid}, active := c.active - {tid}, terminated := c.terminated - {tid},
                       txCount := c.txCount - 1)
    ensures Step(c, ServerEnded) == c.(txCount := c.txCount - 1)
  {
    hide LogAgrees;
    assert tid !in c.candidate ==> c.candidate - {tid} == c.candidate;
    assert tid !in c.active ==> c.active - {tid} == c.active;
    assert tid !in c.terminated ==> c.terminated - {tid} == c.terminated;
  }
}
