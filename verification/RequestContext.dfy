/** The proxy's per-request object, updated in place. It joins RequestContext and its ResponseContext,
    which share their state through a reference, and refines the state machine of module Forking. */
module RequestContexts {
  import opened Common
  import opened BestResponse
  import opened Forking
  import opened ForkingSafety

  lemma {:induction false} BeginAllStep(c: Ctx)
    requires c.candidate != map[]
    ensures BeginAll(c) == BeginAll(BeginOne(c, First(c.candidate.Keys)))
  {
    hide BeginOne;
    var m := First(c.candidate.Keys);
    var ks := Sorted(c.candidate.Keys);
    BeginOneRemoves(c, m);
    assert BeginOne(c, m).candidate.Keys == c.candidate.Keys - {m};
    assert ks[0] == m && ks[1..] == Sorted(c.candidate.Keys - {m});
    assert BeginKeys(c, ks) == BeginKeys(BeginOne(c, m), ks[1..]);
  }

  lemma {:induction false} ClearCandidatesOfNone(c: Ctx)
    requires c.candidate == map[]
    ensures ClearCandidates(c) == c
  {
  }

  lemma {:induction false} OneCancel(m: Branches, tid: Tid)
    requires tid in m
    ensures Cancels(m, [tid]) == if m[tid].status == Started then [CancelBranch(tid)] else []
  {
  }

  lemma {:induction false} NoCancels(m: Branches)
    ensures Cancels(m, Sorted({})) == []
  {
  }

  lemma {:induction false} AllCancelled(c: Ctx, m: Branches)
    requires m.Keys == c.active.Keys && forall k :: k in c.active ==> m[k] == CancelledTarget(c.active[k])
    ensures CancelBranches(c) == c.(active := m, log := c.log + Cancels(c.active, Sorted(c.active.Keys)))
  {
    hide CancelledTarget, Cancels, Sorted;
  }

  lemma {:induction false} BeginAllOfNone(c: Ctx)
    requires c.candidate == map[]
    ensures BeginAll(c) == c
  {
  }

  lemma {:induction false} ClearCandidatesStep(c: Ctx, tid: Tid)
    requires tid in c.candidate
    ensures ClearCandidates(c) == ClearCandidates(Retire(c, tid))
  {
  }

  lemma {:induction false} SortedStep(m: Branches, s: set<Tid>)
    requires s != {} && s <= m.Keys
    ensures Cancels(m, Sorted(s))
         == (if m[First(s)].status == Started then [CancelBranch(First(s))] else []) + Cancels(m, Sorted(s - {First(s)}))
  {
    assert Sorted(s)[1..] == Sorted(s - {First(s)});
  }

  class RequestContext {
    const cseq: Method
    var haveSentFinalResponse: bool
    var candidates: Branches
    var actives: Branches
    var terminateds: Branches
    var targetList: seq<Rec>
    var best: Response
    var bestPriority: int
    var transactionCount: int
    var timerCSerial: nat
    var initialTimerCSet: bool
    var sent: seq<Sent>
    ghost var known: set<Tid>
    ghost var failures: seq<Response>

    ghost function Abs(): Ctx
      reads this
    {
      Ctx(cseq, haveSentFinalResponse, candidates, actives, terminateds, targetList, Held(best, bestPriority),
          transactionCount, timerCSerial, initialTimerCSet, sent, known, failures)
    }

    /** Candidates, and only they, are in their initial state, as the source asserts when it looks one up. */
    ghost predicate Ready()
      reads this
    {
      && (forall k :: k in candidates ==> candidates[k].status == Candidate)
      && (forall k :: k in actives ==> actives[k].status != Candidate)
    }

    constructor (cseq: Method)
      ensures Abs() == Init(cseq)
    {
      this.cseq := cseq;
      haveSentFinalResponse := false;
      candidates, actives, terminateds := map[], map[], map[];
      targetList := [];
      best, bestPriority := Response(0, OTHER, [], None, []), 50;
      transactionCount := 1;
      timerCSerial, initialTimerCSet := 0, false;
      sent := [];
      known, failures := {}, [];
    }

    // ----- sending -----

    method SendResponse(code: int, method': Method)
      modifies this
      ensures Abs() == Send(old(Abs()), code, method')
    {
      if code > 199 && method' != CANCEL {
        haveSentFinalResponse := true;
      }
      sent := sent + [Upstream(code, method')];
    }

    /** Sends the request of a target; the caller moves the target between the maps. */
    method SendBranchRequest(tid: Tid, t: Target) returns (started: Target)
      requires t.status == Candidate
      modifies this
      ensures started == t.(status := Started)
      ensures Abs() == Launch(old(Abs()), tid, t).(candidate := old(candidates), active := old(actives), targetList := old(targetList))
    {
      if !initialTimerCSet {
        initialTimerCSet := true;
        timerCSerial := timerCSerial + 1;
      }
      transactionCount := transactionCount + 1;
      sent := sent + [Request(tid, t.rec)];
      started := t.(status := Started);
    }

    /** Takes note of the contact, sends the request and makes the branch active. */
    method Start(tid: Tid, t: Target)
      requires t.status == Candidate
      modifies this
      ensures Abs() == Launch(old(Abs()), tid, t).(candidate := old(candidates))
    {
      targetList := targetList + [t.rec];
      var started := SendBranchRequest(tid, t);
      actives := actives[tid := started];
    }

    method IsDuplicate(t: Target) returns (found: bool)
      ensures found == Duplicate(Abs(), t)
    {
      for i := 0 to |targetList|
        invariant t.rec !in targetList[..i]
      {
        if targetList[i] == t.rec {
          return true;
        }
      }
      found := false;
    }

    // ----- the calls that processors make -----

    method AddTarget(tid: Tid, t: Target, begin: bool) returns (added: bool)
      requires Ready() && tid !in known && tid !in candidates
      modifies this
      ensures Abs() == Forking.AddTarget(old(Abs()), tid, t, begin)
      ensures added <==> Abs() != old(Abs())
    {
      if haveSentFinalResponse || t.status != Candidate {
        return false;
      }
      if begin {
        var duplicate := IsDuplicate(t);
        if duplicate {
          return false;
        }
        Start(tid, t);
        assert candidates - {tid} == candidates;
      } else {
        candidates := candidates[tid := t];
      }
      known := known + {tid};
      added := true;
      assert tid in Abs().known && tid !in old(Abs()).known;
    }

    /** Takes every target of a batch that is in its initial state. */
    method AddTargets(batch: seq<(Tid, Target)>)
      modifies this
      ensures Abs() == AddEach(old(Abs()), batch)
    {
      var i := 0;
      while i < |batch|
        invariant 0 <= i <= |batch|
        invariant AddEach(Abs(), batch[i..]) == AddEach(old(Abs()), batch)
      {
        var (tid, t) := batch[i];
        assert batch[i..][1..] == batch[i + 1..];
        if t.status == Candidate {
          candidates := candidates[tid := t];
          known := known + {tid};
        }
        i := i + 1;
      }
    }

    method AddTargetBatch(batch: seq<(Tid, Target)>) returns (added: bool)
      modifies this
      ensures Abs() == AddBatch(old(Abs()), batch)
      ensures added <==> !old(haveSentFinalResponse) && batch != []
    {
      if haveSentFinalResponse || batch == [] {
        return false;
      }
      AddTargets(batch);
      added := true;
    }

    method AddOutboundBatch(batch: seq<(Tid, Target)>)
      modifies this
      ensures Abs() == AddOutbound(old(Abs()), batch)
    {
      var i := 0;
      while i < |batch|
        invariant 0 <= i <= |batch|
        invariant AddOutbound(Abs(), batch[i..]) == AddOutbound(old(Abs()), batch)
      {
        var (tid, t) := batch[i];
        assert batch[i..][1..] == batch[i + 1..];
        candidates := candidates[tid := t];
        known := known + {tid};
        i := i + 1;
      }
    }

    /** Starts a candidate, or retires it when its contact was tried before or the request is answered. */
    method BeginCandidate(tid: Tid) returns (result: bool)
      requires Ready() && tid in candidates
      modifies this
      ensures Ready()
      ensures Abs() == BeginOne(old(Abs()), tid)
      ensures sent == old(sent) + (if result then [Request(tid, old(candidates)[tid].rec)] else [])
    {
      var t := candidates[tid];
      result := IsDuplicate(t);
      result := !result && !haveSentFinalResponse;
      if result {
        Start(tid, t);
      } else {
        terminateds := terminateds[tid := t.(status := Terminated)];
      }
      candidates := candidates - {tid};
    }

    method BeginClientTransactions() returns (result: bool)
      requires Ready()
      modifies this
      ensures Abs() == BeginAll(old(Abs()))
      ensures result <==> sent != old(sent)
    {
      hide BeginAll, First, BeginOne;
      result := false;
      while candidates != map[]
        invariant Ready()
        invariant BeginAll(Abs()) == BeginAll(old(Abs()))
        invariant |old(sent)| <= |sent| && (if result then |sent| > |old(sent)| else sent == old(sent))
        decreases candidates.Keys
      {
        ghost var before := Abs();
        BeginAllStep(before);
        var tid := First(candidates.Keys);
        BeginOneRemoves(before, tid);
        var started := BeginCandidate(tid);
        result := result || started;
      }
      BeginAllOfNone(Abs());
    }

    method BeginClientTransaction(tid: Tid) returns (result: bool)
      requires Ready()
      modifies this
      ensures Abs() == Begin(old(Abs()), tid)
      ensures result <==> sent != old(sent)
    {
      if tid !in candidates {
        return false;
      }
      result := BeginCandidate(tid);
    }

    /** Cancels a started branch; a candidate is simply terminated. */
    method CancelTarget(tid: Tid, t: Target) returns (t': Target)
      modifies this`sent
      ensures t' == if t.status == Candidate then t.(status := Terminated) else CancelledTarget(t)
      ensures sent == old(sent) + (if t.status == Started then [CancelBranch(tid)] else [])
    {
      t' := t;
      if t.status == Started {
        sent := sent + [CancelBranch(tid)];
        t' := t.(status := Cancelled);
      } else if t.status == Candidate {
        t' := t.(status := Terminated);
      }
    }

    method CancelOneActive(tid: Tid)
      requires Ready() && tid in actives
      modifies this`actives, this`sent
      ensures Ready()
      ensures actives == old(actives)[tid := CancelledTarget(old(actives)[tid])]
      ensures sent == old(sent) + (if old(actives)[tid].status == Started then [CancelBranch(tid)] else [])
    {
      var t' := CancelTarget(tid, actives[tid]);
      actives := actives[tid := t'];
    }

    method CancelEachActive()
      requires Ready()
      modifies this`actives, this`sent
      ensures Ready()
      ensures Abs() == CancelBranches(old(Abs()))
    {
      hide Sorted, Cancels, First, CancelledTarget, CancelBranches;
      ghost var was := actives;
      var rest := actives.Keys;
      while rest != {}
        invariant Ready()
        invariant rest <= actives.Keys == was.Keys
        invariant forall k :: k in was ==> actives[k] == if k in rest then was[k] else CancelledTarget(was[k])
        invariant sent + Cancels(was, Sorted(rest)) == old(sent) + Cancels(was, Sorted(was.Keys))
      {
        var tid := First(rest);
        SortedStep(was, rest);
        CancelOneActive(tid);
        rest := rest - {tid};
      }
      NoCancels(was);
      AllCancelled(old(Abs()), actives);
    }

    method CancelActiveClientTransactions() returns (result: bool)
      requires Ready()
      modifies this
      ensures Abs() == CancelActive(old(Abs()))
      ensures result <==> !haveSentFinalResponse && old(actives) != map[]
    {
      if haveSentFinalResponse {
        return false;
      }
      if actives == map[] {
        assert CancelBranches(Abs()) == Abs();
        return false;
      }
      CancelEachActive();
      result := true;
    }

    method ClearCandidateTransactions() returns (result: bool)
      requires Ready()
      modifies this
      ensures Abs() == ClearCandidates(old(Abs()))
      ensures result <==> old(candidates) != map[]
    {
      hide ClearCandidates;
      result := false;
      while candidates != map[]
        invariant Ready()
        invariant ClearCandidates(Abs()) == ClearCandidates(old(Abs()))
        invariant if result then old(candidates) != map[] else candidates == old(candidates)
        decreases candidates.Keys
      {
        ghost var before := Abs();
        result := true;
        var tid := First(candidates.Keys);
        var t' := CancelTarget(tid, candidates[tid]);
        terminateds := terminateds[tid := t'];
        candidates := candidates - {tid};
        assert Abs() == Retire(before, tid);
        ClearCandidatesStep(before, tid);
      }
      ClearCandidatesOfNone(Abs());
    }

    method CancelAllClientTransactions() returns (result: bool)
      requires Ready()
      modifies this
      ensures Abs() == CancelAll(old(Abs()))
      ensures result <==> old(actives) != map[] || old(candidates) != map[]
    {
      if actives == map[] && candidates == map[] {
        assert CancelBranches(Abs()) == Abs();
        assert ClearCandidates(Abs()) == Abs();
        return false;
      }
      if cseq == INVITE {
        CancelEachActive();
      }
      var _ := ClearCandidateTransactions();
      result := true;
    }

    method CancelClientTransaction(tid: Tid) returns (result: bool)
      requires Ready()
      modifies this
      ensures Abs() == CancelOne(old(Abs()), tid)
      ensures result <==> (cseq == INVITE && tid in old(actives)) || tid in old(candidates)
    {
      if cseq == INVITE && tid in actives {
        CancelOneActive(tid);
        OneCancel(old(actives), tid);
        return true;
      }
      if tid in candidates {
        var t' := CancelTarget(tid, candidates[tid]);
        terminateds := terminateds[tid := t'];
        candidates := candidates - {tid};
        return true;
      }
      result := false;
    }

    // ----- ends of branches -----

    method RemoveClientTransaction(tid: Tid)
      modifies this
      ensures Abs() == Remove(old(Abs()), tid)
    {
      if tid in terminateds {
        terminateds := terminateds - {tid};
        return;
      }
      if tid in candidates {
        candidates := candidates - {tid};
        return;
      }
      actives := actives - {tid};
    }

    method TerminateClientTransaction(tid: Tid)
      modifies this
      ensures Abs() == Terminate(old(Abs()), tid)
    {
      if tid in actives {
        terminateds := terminateds[tid := actives[tid].(status := Terminated)];
        actives := actives - {tid};
        return;
      }
      if tid in candidates {
        terminateds := terminateds[tid := candidates[tid].(status := Terminated)];
        candidates := candidates - {tid};
        return;
      }
    }

    // ----- answering the client -----

    method ForwardBestResponse()
      requires Ready()
      modifies this
      ensures Abs() == ForwardBest(old(Abs()))
    {
      var _ := ClearCandidateTransactions();
      if cseq == INVITE {
        var _ := CancelActiveClientTransactions();
      }
      if best.code == 0 {
        sent := sent + [NoBestResponse];
        return;
      }
      if best.code == 503 || (best.code == 408 && best.cseq != INVITE) {
        best := best.(code := 480);
      }
      SendResponse(best.code, best.cseq);
    }

    method ProcessCancelRequest()
      requires Ready()
      modifies this
      ensures Abs() == ProcessCancel(old(Abs()))
    {
      sent := sent + [CancelOk];
      if !haveSentFinalResponse {
        var _ := CancelAllClientTransactions();
        if actives == map[] {
          SendResponse(487, cseq);
        }
      }
    }

    method ProcessTimer(serial: nat)
      requires Inv(Abs())
      modifies this
      ensures Abs() == ProcessTimerC(old(Abs()), serial)
    {
      if serial == timerCSerial && !haveSentFinalResponse {
        var _ := CancelAllClientTransactions();
      }
    }

    method PushWww(challenges: seq<int>)
      modifies this`best
      ensures best == old(best).(www := old(best).www + challenges)
    {
      for i := 0 to |challenges|
        invariant best == old(best).(www := old(best).www + challenges[..i])
      {
        best := best.(www := best.www + [challenges[i]]);
        assert challenges[..i + 1] == challenges[..i] + [challenges[i]];
      }
      assert challenges[..|challenges|] == challenges;
    }

    method PushProxy(challenges: seq<int>)
      modifies this`best
      ensures best == old(best).(proxy := AppendTo(old(best).proxy, challenges))
    {
      for i := 0 to |challenges|
        invariant best == old(best).(proxy := AppendTo(old(best).proxy, challenges[..i]))
      {
        best := best.(proxy := Some(ListOf(best.proxy) + [challenges[i]]));
        assert challenges[..i + 1] == challenges[..i] + [challenges[i]];
        assert ListOf(best.proxy) == ListOf(old(best).proxy) + challenges[..i + 1];
      }
      assert challenges[..|challenges|] == challenges;
    }

    /** Malformed contacts and "*" are skipped. */
    method PushContacts(contacts: seq<Contact>)
      modifies this`best
      ensures best == old(best).(contacts := old(best).contacts + Usable(contacts))
    {
      for i := 0 to |contacts|
        invariant best == old(best).(contacts := old(best).contacts + Usable(contacts[..i]))
      {
        var upTo := contacts[..i + 1];
        assert upTo[..|upTo| - 1] == contacts[..i];
        if contacts[i].usable {
          best := best.(contacts := best.contacts + [contacts[i]]);
        }
        assert Usable(upTo) == Usable(contacts[..i]) + (if contacts[i].usable then [contacts[i]] else []);
      }
      assert contacts[..|contacts|] == contacts;
    }

    /** Folds a 3xx, 4xx or 5xx into the held response. */
    method MergeIntoBest(r: Response)
      requires 300 <= r.code <= 599
      modifies this`best, this`bestPriority
      ensures Held(best, bestPriority) == Absorb(old(Held(best, bestPriority)), r)
    {
      var priority := Priority(r.code);
      if priority == bestPriority {
        if r.code == 401 || r.code == 407 {
          PushWww(r.www);
          if r.proxy.Some? {
            PushProxy(r.proxy.value);
            best := best.(code := 407);
          }
        } else if r.code / 100 == 3 {
          if best.code / 100 != 3 {
            best := best.(contacts := []);
          }
          PushContacts(r.contacts);
          best := best.(code := 300);
        }
      } else if priority < bestPriority {
        bestPriority := priority;
        best := r;
      }
    }

    method ProcessBranchResponse(tid: Tid, r: Response, via: ViaState)
      requires Ready() && 100 <= r.code <= 699
      modifies this
      ensures Abs() == ProcessResponse(old(Abs()), tid, r, via)
    {
      if via == NoVia {
        if r.cseq == CANCEL {
          return;
        } else if r.code > 199 {
          TerminateClientTransaction(tid);
          return;
        } else if r.code != 100 {
          return;
        }
      } else if via == BadVia {
        if r.code > 199 {
          TerminateClientTransaction(tid);
        }
        return;
      }
      if tid !in actives {
        if r.code / 100 == 2 {
          SendResponse(r.code, r.cseq);
        }
        return;
      }
      match r.code / 100 {
        case 1 =>
          timerCSerial := timerCSerial + 1;
          if !haveSentFinalResponse {
            if r.code == 100 {
              return;
            }
            SendResponse(r.code, r.cseq);
          }
        case 2 => ForwardSuccess(tid, r);
        case 6 => TakeGlobalFailure(tid, r);
        case _ => TakeFailure(tid, r);
      }
    }

    method ForwardSuccess(tid: Tid, r: Response)
      requires Ready() && 200 <= r.code <= 299
      modifies this
      ensures Abs() == ProcessSuccess(old(Abs()), tid, r)
    {
      TerminateClientTransaction(tid);
      if cseq == INVITE {
        var _ := CancelAllClientTransactions();
        haveSentFinalResponse := true;
        best := best.(code := r.code);
        SendResponse(r.code, r.cseq);
      } else if !haveSentFinalResponse {
        var _ := ClearCandidateTransactions();
        haveSentFinalResponse := true;
        best := best.(code := r.code);
        SendResponse(r.code, r.cseq);
      }
    }

    method TakeFailure(tid: Tid, r: Response)
      requires Ready() && 300 <= r.code <= 599
      modifies this
      ensures Abs() == ProcessFailure(old(Abs()), tid, r)
    {
      TerminateClientTransaction(tid);
      if !haveSentFinalResponse {
        MergeIntoBest(r);
        failures := failures + [r];
        if candidates == map[] && actives == map[] {
          ForwardBestResponse();
        }
      }
    }

    method TakeGlobalFailure(tid: Tid, r: Response)
      requires Ready() && 600 <= r.code <= 699
      modifies this
      ensures Abs() == ProcessFailure(old(Abs()), tid, r)
    {
      TerminateClientTransaction(tid);
      if !haveSentFinalResponse {
        failures := failures + [r];
        if best.code / 100 != 6 {
          best := r;
          bestPriority := 0;
          if cseq == INVITE {
            var _ := CancelAllClientTransactions();
          }
        }
        if candidates == map[] && actives == map[] {
          ForwardBestResponse();
        }
      }
    }

    // ----- events -----

    method RunChain(ops: seq<Op>)
      requires Inv(Abs()) && AllAllowed(Abs(), ops)
      modifies this
      ensures Abs() == ApplyAll(old(Abs()), ops)
    {
      var i := 0;
      assert ops[0..] == ops;
      while i < |ops|
        invariant 0 <= i <= |ops|
        invariant Inv(Abs()) && AllAllowed(Abs(), ops[i..])
        invariant ApplyAll(Abs(), ops[i..]) == ApplyAll(old(Abs()), ops)
      {
        assert ops[i..][1..] == ops[i + 1..];
        ApplySound(Abs(), ops[i]);
        Perform(ops[i]);
        i := i + 1;
      }
    }

    method Perform(op: Op)
      requires Inv(Abs()) && Allowed(Abs(), op)
      modifies this
      ensures Abs() == Apply(old(Abs()), op)
    {
      match op {
        case OpAddTarget(tid, t, begin) => var _ := AddTarget(tid, t, begin);
        case OpAddBatch(batch) => var _ := AddTargetBatch(batch);
        case OpAddOutbound(batch) => AddOutboundBatch(batch);
        case OpBeginAll => var _ := BeginClientTransactions();
        case OpBegin(tid) => var _ := BeginClientTransaction(tid);
        case OpCancelActive => var _ := CancelActiveClientTransactions();
        case OpCancelAll => var _ := CancelAllClientTransactions();
        case OpClearCandidates => var _ := ClearCandidateTransactions();
        case OpCancel(tid) => var _ := CancelClientTransaction(tid);
      }
    }

    method FinishRequest(result: Action, targets: Chain, resumed: bool)
      requires Inv(Abs()) && AllAllowed(Abs(), targets.ops)
      modifies this
      ensures Abs() == AfterRequestChain(old(Abs()), result, targets, resumed)
    {
      if result != WaitingForEvent && !haveSentFinalResponse {
        if candidates == map[] && actives == map[] && terminateds == map[] {
          SendResponse(480, cseq);
        } else {
          ApplyAllSound(Abs(), targets.ops);
          RunChain(targets.ops);
          if targets.result != WaitingForEvent && !haveSentFinalResponse && actives == map[] {
            if candidates != map[] {
              SendResponse(500, cseq);
            } else if !(resumed && best.code == 408) {
              ForwardBestResponse();
            }
          }
        }
      }
    }

    method FinishResponse(targets: Chain)
      requires Inv(Abs()) && AllAllowed(Abs(), targets.ops)
      modifies this
      ensures Abs() == AfterResponse(old(Abs()), targets)
    {
      ApplyAllSound(Abs(), targets.ops);
      RunChain(targets.ops);
      if !haveSentFinalResponse && actives == map[] {
        if candidates != map[] {
          SendResponse(500, cseq);
        } else {
          ForwardBestResponse();
        }
      }
    }

    /** Handles one event; the whole new state is that of the state machine. */
    method Process(e: Event)
      requires Inv(Abs()) && Legal(Abs(), e)
      modifies this
      ensures Abs() == Step(old(Abs()), e) && Inv(Abs())
      ensures sent == Abs().log && known == Abs().known && transactionCount == Abs().txCount
    {
      hide Inv, Advances, Balance, AllAllowed, ApplyAll, AfterRequestChain, AfterResponse, OnResponse, Remove, ProcessTimerC, ProcessCancel;
      StepSound(Abs(), e);
      match e {
        case NewRequest(q, ts) => HandleRequest(q, ts, false);
        case CancelRequest(ts) => HandleCancel(ts);
        case BranchResponse(tid, r, via, eaten, ts) => HandleResponse(tid, r, via, eaten, ts);
        case TimerC(serial) => ProcessTimer(serial);
        case ResumeRequest(q, ts) => HandleRequest(q, ts, true);
        case ResumeResponse(p, ts) => RunTwoChains(p, ts);
        case ResumeTarget(ts) => RunChain(ts.ops);
        case BranchEnded(tid) =>
          RemoveKeepsCount(Abs(), tid);
          RemoveClientTransaction(tid);
          transactionCount := transactionCount - 1;
        case ServerEnded => transactionCount := transactionCount - 1;
      }
    }

    method HandleCancel(ts: Chain)
      requires Inv(Abs()) && AllAllowed(ProcessCancel(Abs()), ts.ops)
      modifies this
      ensures Abs() == AfterRequestChain(ProcessCancel(old(Abs())), Continue, ts, false)
    {
      ProcessCancelSound(Abs());
      ProcessCancelRequest();
      FinishRequest(Continue, ts, false);
    }

    method HandleResponse(tid: Tid, r: Response, via: ViaState, eaten: bool, ts: Chain)
      requires Inv(Abs()) && 100 <= r.code <= 699 && AllAllowed(OnResponse(Abs(), tid, r, via, eaten), ts.ops)
      modifies this
      ensures Abs() == AfterResponse(OnResponse(old(Abs()), tid, r, via, eaten), ts)
    {
      OnResponseSound(Abs(), tid, r, via, eaten);
      if eaten {
        TerminateClientTransaction(tid);
      } else {
        ProcessBranchResponse(tid, r, via);
      }
      FinishResponse(ts);
    }

    method RunTwoChains(p: Chain, ts: Chain)
      requires Inv(Abs()) && AllAllowed(Abs(), p.ops) && AllAllowed(ApplyAll(Abs(), p.ops), ts.ops)
      modifies this
      ensures Abs() == ApplyAll(ApplyAll(old(Abs()), p.ops), ts.ops)
    {
      ApplyAllSound(Abs(), p.ops);
      RunChain(p.ops);
      RunChain(ts.ops);
    }

    method HandleRequest(q: Chain, ts: Chain, resumed: bool)
      requires Inv(Abs()) && AllAllowed(Abs(), q.ops) && AllAllowed(ApplyAll(Abs(), q.ops), ts.ops)
      modifies this
      ensures Abs() == AfterRequestChain(ApplyAll(old(Abs()), q.ops), q.result, ts, resumed)
    {
      ApplyAllSound(Abs(), q.ops);
      RunChain(q.ops);
      FinishRequest(q.result, ts, resumed);
    }
  }
}
