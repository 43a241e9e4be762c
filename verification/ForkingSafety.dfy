/** Safety of a forwarded request over every run: what is sent, in which order, and how branches move. */
module ForkingSafety {
  import opened Common
  import opened BestResponse
  import opened Forking

  // ----- what a log of sent messages says -----

  function Launched(log: seq<Sent>): set<Tid> {
    if log == [] then {}
    else Launched(log[..|log| - 1]) + (if log[|log| - 1].Request? then {log[|log| - 1].tid} else {})
  }

  function Contacted(log: seq<Sent>): set<Rec> {
    if log == [] then {}
    else Contacted(log[..|log| - 1]) + (if log[|log| - 1].Request? then {log[|log| - 1].rec} else {})
  }

  function Revoked(log: seq<Sent>): set<Tid> {
    if log == [] then {}
    else Revoked(log[..|log| - 1]) + (if log[|log| - 1].CancelBranch? then {log[|log| - 1].tid} else {})
  }

  /** A final response to the forwarded request itself, not to its CANCEL. */
  predicate IsFinal(e: Sent) {
    e.Upstream? && FinalFor(e.code, e.cseq)
  }

  predicate Answered(log: seq<Sent>) {
    log != [] && (IsFinal(log[|log| - 1]) || Answered(log[..|log| - 1]))
  }

  predicate IsSuccess(e: Sent) {
    e.Upstream? && 200 <= e.code <= 299
  }

  /** `e` may follow `log`. */
  predicate MayFollow(log: seq<Sent>, e: Sent) {
    match e
    case Request(tid, rec) => tid !in Launched(log) && rec !in Contacted(log) && !Answered(log)
    case CancelBranch(tid) => tid in Launched(log) && tid !in Revoked(log)
    case Upstream(code, cseq) => Answered(log) ==> cseq == CANCEL || IsSuccess(e)
    case CancelOk => true
    case NoBestResponse => !Answered(log)
  }

  predicate Orderly(log: seq<Sent>) {
    log == [] || (Orderly(log[..|log| - 1]) && MayFollow(log[..|log| - 1], log[|log| - 1]))
  }

  lemma {:induction false} Grow(log: seq<Sent>, e: Sent)
    ensures Launched(log + [e]) == Launched(log) + (if e.Request? then {e.tid} else {})
    ensures Contacted(log + [e]) == Contacted(log) + (if e.Request? then {e.rec} else {})
    ensures Revoked(log + [e]) == Revoked(log) + (if e.CancelBranch? then {e.tid} else {})
    ensures Answered(log + [e]) == (IsFinal(e) || Answered(log))
    ensures Orderly(log + [e]) == (Orderly(log) && MayFollow(log, e))
  {
    assert (log + [e])[..|log + [e]| - 1] == log;
  }

  // ----- the invariant -----

  /** The three maps are disjoint and agree with the status of their targets. */
  ghost predicate MapsAgree(c: Ctx) {
    && (forall k :: k in c.candidate ==> k in c.known && k !in c.active && k !in c.terminated)
    && (forall k :: k in c.active ==> k in c.known && k !in c.terminated)
    && (forall k :: k in c.terminated ==> k in c.known)
    && (forall k :: k in c.candidate ==> c.candidate[k].status == Candidate)
    && (forall k :: k in c.active ==> c.active[k].status == Started || c.active[k].status == Cancelled)
    && (forall k :: k in c.terminated ==> c.terminated[k].status == Terminated)
  }

  ghost predicate LogAgrees(c: Ctx) {
    && Orderly(c.log)
    && (Answered(c.log) ==> c.finalSent)
    && (forall r :: r in Contacted(c.log) ==> r in c.targetList)
    && (forall k :: k in c.active ==> k in Launched(c.log) && (k in Revoked(c.log) <==> c.active[k].status == Cancelled))
    && (forall k :: k in Launched(c.log) ==> k in c.known && k !in c.candidate)
    && Revoked(c.log) <= Launched(c.log)
    && c.cseq != CANCEL
  }

  ghost predicate Inv(c: Ctx) {
    MapsAgree(c) && LogAgrees(c)
  }

  /** Where a branch stands; it never moves back. */
  function Rank(c: Ctx, tid: Tid): nat {
    if tid in c.candidate then 0
    else if tid in c.active then (if c.active[tid].status == Started then 1 else 2)
    else if tid in c.terminated then 3
    else 4
  }

  ghost predicate Advances(c: Ctx, d: Ctx) {
    && c.known <= d.known
    && (forall t :: t in c.known ==> Rank(c, t) <= Rank(d, t))
    && c.log <= d.log
    && (c.finalSent ==> d.finalSent)
    && c.cseq == d.cseq
  }

  /** Transactions counted beyond the branches ever started. */
  function Balance(c: Ctx): int {
    c.txCount - |Launched(c.log)|
  }

  ghost predicate Sound(c: Ctx, d: Ctx) {
    Inv(d) && Advances(c, d) && Balance(c) == Balance(d)
  }

  lemma {:induction false} AdvancesTransitive(c: Ctx, d: Ctx, e: Ctx)
    requires Advances(c, d) && Advances(d, e)
    ensures Advances(c, e)
  {
  }

  lemma {:induction false} SoundTransitive(c: Ctx, d: Ctx, e: Ctx)
    requires Sound(c, d) && Sound(d, e)
    ensures Sound(c, e)
  {
    AdvancesTransitive(c, d, e);
  }

  // ----- each primitive keeps the invariant -----

  lemma {:induction false} OnlyLogGrows(c: Ctx, d: Ctx)
    requires MapsAgree(c) && d == c.(log := d.log, finalSent := d.finalSent)
    requires c.log <= d.log && (c.finalSent ==> d.finalSent)
    ensures MapsAgree(d) && Advances(c, d)
  {
  }

  lemma {:induction false} SendSound(c: Ctx, code: int, cseq: Method)
    requires Inv(c)
    requires c.finalSent ==> cseq == CANCEL || 200 <= code <= 299
    ensures Sound(c, Send(c, code, cseq))
  {
    hide Orderly, Launched, Contacted, Revoked, Answered;
    Grow(c.log, Upstream(code, cseq));
    SendKeepsLog(c, code, cseq);
    OnlyLogGrows(c, Send(c, code, cseq));
    hide MapsAgree, LogAgrees, Advances;
  }

  lemma {:induction false} SendKeepsLog(c: Ctx, code: int, cseq: Method)
    requires LogAgrees(c)
    requires c.finalSent ==> cseq == CANCEL || 200 <= code <= 299
    ensures LogAgrees(Send(c, code, cseq))
  {
    hide Orderly, Launched, Contacted, Revoked, Answered;
    Grow(c.log, Upstream(code, cseq));
    assert MayFollow(c.log, Upstream(code, cseq));
  }

  lemma {:induction false} NoteSound(c: Ctx, e: Sent)
    requires Inv(c)
    requires e.CancelOk? || (e.NoBestResponse? && !c.finalSent)
    ensures Sound(c, c.(log := c.log + [e]))
  {
    hide Orderly, Launched, Contacted, Revoked, Answered;
    Grow(c.log, e);
    NoteKeepsLog(c, e);
    OnlyLogGrows(c, c.(log := c.log + [e]));
    hide MapsAgree, LogAgrees, Advances;
  }

  lemma {:induction false} NoteKeepsLog(c: Ctx, e: Sent)
    requires LogAgrees(c)
    requires e.CancelOk? || (e.NoBestResponse? && !c.finalSent)
    ensures LogAgrees(c.(log := c.log + [e]))
  {
    hide Orderly, Launched, Contacted, Revoked, Answered;
    Grow(c.log, e);
    assert MayFollow(c.log, e);
  }

  lemma {:induction false} LaunchKeepsMaps(c: Ctx, tid: Tid, t: Target)
    requires MapsAgree(c)
    requires tid in c.candidate || tid !in c.known
    ensures MapsAgree(Launch(c, tid, t).(known := c.known + {tid}))
    ensures Advances(c, Launch(c, tid, t).(known := c.known + {tid}))
  {
  }

  lemma {:induction false} LaunchKeepsLog(c: Ctx, tid: Tid, t: Target)
    requires LogAgrees(c) && !c.finalSent && !Duplicate(c, t)
    requires tid in c.candidate || tid !in c.known
    ensures LogAgrees(Launch(c, tid, t).(known := c.known + {tid}))
    ensures Balance(c) == Balance(Launch(c, tid, t).(known := c.known + {tid}))
  {
    hide Orderly, Launched, Contacted, Revoked, Answered;
    Grow(c.log, Request(tid, t.rec));
    assert MayFollow(c.log, Request(tid, t.rec));
  }

  lemma {:induction false} LaunchSound(c: Ctx, tid: Tid, t: Target)
    requires Inv(c) && !c.finalSent && !Duplicate(c, t)
    requires tid in c.candidate || tid !in c.known
    ensures Sound(c, Launch(c, tid, t).(known := c.known + {tid}))
  {
    hide MapsAgree, LogAgrees, Advances, Balance;
    LaunchKeepsMaps(c, tid, t);
    LaunchKeepsLog(c, tid, t);
  }

  lemma {:induction false} RetireSound(c: Ctx, tid: Tid)
    requires Inv(c) && tid in c.candidate
    ensures Sound(c, Retire(c, tid))
  {
    hide Orderly, Launched, Contacted, Revoked, Answered;
  }

  lemma {:induction false} BeginOneSound(c: Ctx, tid: Tid)
    requires Inv(c) && tid in c.candidate
    ensures Sound(c, BeginOne(c, tid))
  {
    hide Advances, Balance, Orderly, Launched, Contacted, Revoked, Answered;
    if Duplicate(c, c.candidate[tid]) || c.finalSent {
      RetireSound(c, tid);
    } else {
      LaunchSound(c, tid, c.candidate[tid]);
      assert c.known + {tid} == c.known;
    }
  }

  lemma {:induction false} BeginOneRemoves(c: Ctx, tid: Tid)
    requires tid in c.candidate
    ensures BeginOne(c, tid).candidate == c.candidate - {tid}
  {
  }

  lemma {:induction false} BeginKeysSound(c: Ctx, ks: seq<Tid>)
    requires Inv(c) && Ascending(ks) && forall k :: k in ks ==> k in c.candidate
    ensures Sound(c, BeginKeys(c, ks))
    decreases |ks|
  {
    if ks != [] {
      hide Inv, Advances, Balance;
      BeginOneSound(c, ks[0]);
      BeginOneRemoves(c, ks[0]);
      hide BeginOne;
      BeginKeysSound(BeginOne(c, ks[0]), ks[1..]);
      SoundTransitive(c, BeginOne(c, ks[0]), BeginKeys(c, ks));
    }
  }

  lemma {:induction false} CandidateSound(c: Ctx, tid: Tid, t: Target)
    requires Inv(c) && tid !in c.known && t.status == Candidate
    ensures Sound(c, c.(candidate := c.candidate[tid := t], known := c.known + {tid}))
  {
    hide Orderly, Launched, Contacted, Revoked, Answered;
  }

  ghost function StartedOf(m: Branches, ks: seq<Tid>): set<Tid> {
    set k | k in ks && k in m && m[k].status == Started
  }

  lemma {:induction false} MayCancel(log: seq<Sent>, k: Tid)
    requires k in Launched(log) && k !in Revoked(log)
    ensures MayFollow(log, CancelBranch(k))
  {
    hide Orderly, Launched, Contacted, Revoked, Answered;
  }

  lemma {:induction false} StartedOfStep(m: Branches, ks: seq<Tid>)
    ensures StartedOf(m, ks) == if ks == [] then {} else StartedOf(m, [ks[0]]) + StartedOf(m, ks[1..])
    ensures ks != [] && ks[0] in m ==> StartedOf(m, [ks[0]]) == if m[ks[0]].status == Started then {ks[0]} else {}
  {
    assert forall k :: k in ks <==> ks != [] && (k == ks[0] || k in ks[1..]);
  }

  /** The branches named by the CANCELs of a walk are the started ones. */
  lemma {:induction false} CancelsGrow(log: seq<Sent>, m: Branches, ks: seq<Tid>)
    requires Ascending(ks) && forall k :: k in ks ==> k in m
    requires forall k :: k in ks && m[k].status == Started ==> k in Launched(log) && k !in Revoked(log)
    ensures Orderly(log) ==> Orderly(log + Cancels(m, ks))
    ensures Launched(log + Cancels(m, ks)) == Launched(log)
    ensures Contacted(log + Cancels(m, ks)) == Contacted(log)
    ensures Answered(log + Cancels(m, ks)) == Answered(log)
    ensures Revoked(log + Cancels(m, ks)) == Revoked(log) + StartedOf(m, ks)
    decreases |ks|
  {
    hide Orderly, Launched, Contacted, Revoked, Answered, StartedOf, MayFollow, Ascending;
    StartedOfStep(m, ks);
    if ks == [] {
      assert log + Cancels(m, ks) == log;
    } else {
      var k, rest := ks[0], ks[1..];
      var next := if m[k].status == Started then log + [CancelBranch(k)] else log;
      assert log + Cancels(m, ks) == next + Cancels(m, rest);
      AscendingRest(ks);
      if m[k].status == Started {
        Grow(log, CancelBranch(k));
        MayCancel(log, k);
      }
      hide Cancels;
      CancelsGrow(next, m, rest);
    }
  }

  lemma {:induction false} AscendingRest(ks: seq<Tid>)
    requires Ascending(ks) && ks != []
    ensures Ascending(ks[1..]) && ks[0] !in ks[1..]
  {
  }

  lemma {:induction false} CancelBranchesMaps(c: Ctx)
    requires MapsAgree(c)
    ensures MapsAgree(CancelBranches(c)) && Advances(c, CancelBranches(c))
  {
    hide Cancels, Sorted;
  }

  lemma {:induction false} CancelBranchesSound(c: Ctx)
    requires Inv(c)
    ensures Sound(c, CancelBranches(c))
  {
    hide Orderly, Launched, Contacted, Revoked, Answered, Cancels, Sorted;
    CancelBranchesMaps(c);
    CancelsGrow(c.log, c.active, Sorted(c.active.Keys));
    assert LogAgrees(CancelBranches(c));
    hide MapsAgree, LogAgrees, Advances;
  }

  lemma {:induction false} RevokeSound(c: Ctx, tid: Tid)
    requires Inv(c) && tid in c.active && c.active[tid].status == Started
    ensures Sound(c, c.(active := c.active[tid := c.active[tid].(status := Cancelled)], log := c.log + [CancelBranch(tid)]))
  {
    hide Orderly, Launched, Contacted, Revoked, Answered;
    Grow(c.log, CancelBranch(tid));
  }

  lemma {:induction false} CancelOneSound(c: Ctx, tid: Tid)
    requires Inv(c)
    ensures Sound(c, CancelOne(c, tid))
  {
    hide Inv, Advances, Balance;
    HeldIsFree(c, c);
    if c.cseq == INVITE && tid in c.active {
      if c.active[tid].status == Started {
        assert Cancels(c.active, [tid]) == [CancelBranch(tid)];
        RevokeSound(c, tid);
      } else {
        assert Cancels(c.active, [tid]) == [];
        assert CancelOne(c, tid) == c;
      }
    } else if tid in c.candidate {
      RetireSound(c, tid);
    }
  }

  lemma {:induction false} ClearCandidatesSound(c: Ctx)
    requires Inv(c)
    ensures Sound(c, ClearCandidates(c))
  {
    hide Orderly, Launched, Contacted, Revoked, Answered;
  }

  lemma {:induction false} CancelAllSound(c: Ctx)
    requires Inv(c)
    ensures Sound(c, CancelAll(c))
  {
    if c.cseq == INVITE {
      CancelBranchesSound(c);
      ClearCandidatesSound(CancelBranches(c));
    } else {
      ClearCandidatesSound(c);
    }
  }

  lemma {:induction false} TerminateSound(c: Ctx, tid: Tid)
    requires Inv(c)
    ensures Sound(c, Terminate(c, tid))
  {
    hide Orderly, Launched, Contacted, Revoked, Answered;
    if tid in c.active {
      assert MapsAgree(Terminate(c, tid));
    } else if tid in c.candidate {
      RetireSound(c, tid);
    }
  }

  lemma {:induction false} RemoveSound(c: Ctx, tid: Tid)
    requires Inv(c)
    ensures Sound(c, Remove(c, tid))
  {
    hide MapsAgree, LogAgrees, Advances, Launched;
    RemoveKeepsMaps(c, tid);
    RemoveAdvances(c, tid);
    RemoveKeepsLog(c, tid);
  }

  lemma {:induction false} RemoveKeepsMaps(c: Ctx, tid: Tid)
    requires MapsAgree(c)
    ensures MapsAgree(Remove(c, tid))
  {
  }

  lemma {:induction false} RemoveKeepsCount(c: Ctx, tid: Tid)
    ensures Remove(c, tid).txCount == c.txCount
  {
  }

  lemma {:induction false} RemoveAdvances(c: Ctx, tid: Tid)
    requires MapsAgree(c)
    ensures Advances(c, Remove(c, tid))
  {
  }

  lemma {:induction false} RemoveKeepsLog(c: Ctx, tid: Tid)
    requires LogAgrees(c)
    ensures LogAgrees(Remove(c, tid))
  {
    hide Orderly, Launched, Contacted, Revoked, Answered;
  }

  /** Fields that only the answer depends on do not matter to the invariant. */
  lemma {:induction false} HeldIsFree(c: Ctx, d: Ctx)
    requires Inv(c)
    requires d == c.(finalSent := d.finalSent, held := d.held, failures := d.failures, tcSerial := d.tcSerial)
    requires c.finalSent ==> d.finalSent
    ensures Sound(c, d)
  {
    hide Orderly, Launched, Contacted, Revoked, Answered;
    assert d.log == c.log && d.known == c.known && d.cseq == c.cseq && d.targetList == c.targetList;
    assert d.candidate == c.candidate && d.active == c.active && d.terminated == c.terminated;
  }

  lemma {:induction false} ForwardBestSound(c: Ctx)
    requires Inv(c) && !c.finalSent
    ensures Sound(c, ForwardBest(c))
  {
    hide Inv, Advances, Balance;
    var d := ClearCandidates(c);
    ClearCandidatesSound(c);
    var e := if c.cseq == INVITE then CancelActive(d) else d;
    if c.cseq == INVITE {
      CancelBranchesSound(d);
      SoundTransitive(c, d, e);
    }
    if e.held.best.code == 0 {
      NoteSound(e, NoBestResponse);
    } else {
      var f := e.(held := e.held.(best := e.held.best.(code := Presentable(e.held.best))));
      HeldIsFree(e, f);
      SendSound(f, Presentable(e.held.best), e.held.best.cseq);
      SoundTransitive(e, f, ForwardBest(c));
    }
    SoundTransitive(c, e, ForwardBest(c));
  }

  // ----- each event keeps the invariant -----

  /** Branch ids are never reused. */
  ghost predicate FreshBatch(c: Ctx, batch: seq<(Tid, Target)>) {
    && (forall i :: 0 <= i < |batch| ==> batch[i].0 !in c.known)
    && (forall i, j :: 0 <= i < j < |batch| ==> batch[i].0 != batch[j].0)
  }

  /** An outbound batch holds targets that no one has touched: the source does not look at their state. */
  ghost predicate AllCandidates(batch: seq<(Tid, Target)>) {
    forall i :: 0 <= i < |batch| ==> batch[i].1.status == Candidate
  }

  ghost predicate Allowed(c: Ctx, op: Op) {
    match op
    case OpAddTarget(tid, t, begin) => tid !in c.known
    case OpAddBatch(batch) => FreshBatch(c, batch)
    case OpAddOutbound(batch) => FreshBatch(c, batch) && AllCandidates(batch)
    case _ => true
  }

  ghost predicate AllAllowed(c: Ctx, ops: seq<Op>)
    decreases |ops|
  {
    ops != [] ==> Allowed(c, ops[0]) && AllAllowed(Apply(c, ops[0]), ops[1..])
  }

  lemma {:induction false} AddEachSound(c: Ctx, batch: seq<(Tid, Target)>)
    requires Inv(c) && FreshBatch(c, batch)
    ensures Sound(c, AddEach(c, batch))
    decreases |batch|
  {
    if batch != [] {
      var (tid, t) := batch[0];
      if t.status == Candidate {
        CandidateSound(c, tid, t);
        var d := c.(candidate := c.candidate[tid := t], known := c.known + {tid});
        AddEachSound(d, batch[1..]);
        AdvancesTransitive(c, d, AddEach(c, batch));
      } else {
        AddEachSound(c, batch[1..]);
      }
    }
  }

  lemma {:induction false} OutboundOfCandidates(c: Ctx, batch: seq<(Tid, Target)>)
    requires AllCandidates(batch)
    ensures AddOutbound(c, batch) == AddEach(c, batch)
    decreases |batch|
  {
    if batch != [] {
      var (tid, t) := batch[0];
      assert AllCandidates(batch[1..]);
      OutboundOfCandidates(c.(candidate := c.candidate[tid := t], known := c.known + {tid}), batch[1..]);
    }
  }

  lemma {:induction false} ApplySound(c: Ctx, op: Op)
    requires Inv(c) && Allowed(c, op)
    ensures Sound(c, Apply(c, op))
  {
    match op
    case OpAddTarget(tid, t, begin) =>
      if !c.finalSent && t.status == Candidate {
        if !begin {
          CandidateSound(c, tid, t);
        } else if !Duplicate(c, t) {
          LaunchSound(c, tid, t);
        }
      }
    case OpAddBatch(batch) => AddEachSound(c, batch);
    case OpAddOutbound(batch) =>
      OutboundOfCandidates(c, batch);
      AddEachSound(c, batch);
    case OpBeginAll => BeginKeysSound(c, Sorted(c.candidate.Keys));
    case OpBegin(tid) => if tid in c.candidate { BeginOneSound(c, tid); }
    case OpCancelActive => CancelBranchesSound(c);
    case OpCancelAll => CancelAllSound(c);
    case OpClearCandidates => ClearCandidatesSound(c);
    case OpCancel(tid) => CancelOneSound(c, tid);
  }

  lemma {:induction false} ApplyAllSound(c: Ctx, ops: seq<Op>)
    requires Inv(c) && AllAllowed(c, ops)
    ensures Sound(c, ApplyAll(c, ops))
    decreases |ops|
  {
    if ops != [] {
      ApplySound(c, ops[0]);
      ApplyAllSound(Apply(c, ops[0]), ops[1..]);
      AdvancesTransitive(c, Apply(c, ops[0]), ApplyAll(c, ops));
    }
  }

  lemma {:induction false} ProvisionalSound(c: Ctx, r: Response)
    requires Inv(c)
    ensures Sound(c, ProcessProvisional(c, r))
  {
    hide Inv, Advances, Balance;
    var d := UpdateTimerC(c);
    HeldIsFree(c, d);
    if !d.finalSent {
      SendSound(d, r.code, r.cseq);
      SoundTransitive(c, d, Send(d, r.code, r.cseq));
    }
  }

  lemma {:induction false} SuccessSound(c: Ctx, tid: Tid, r: Response)
    requires Inv(c) && 200 <= r.code <= 299
    ensures Sound(c, ProcessSuccess(c, tid, r))
  {
    hide Inv, Advances, Balance;
    var d := Terminate(c, tid);
    TerminateSound(c, tid);
    if c.cseq == INVITE || !c.finalSent {
      var e := if c.cseq == INVITE then CancelAll(d) else ClearCandidates(d);
      CancelAllSound(d);
      ClearCandidatesSound(d);
      var f := e.(finalSent := true, held := e.held.(best := e.held.best.(code := r.code)));
      HeldIsFree(e, f);
      SendSound(f, r.code, r.cseq);
      SoundTransitive(c, d, e);
      SoundTransitive(c, e, f);
      SoundTransitive(c, f, ProcessSuccess(c, tid, r));
    }
  }

  lemma {:induction false} FailureSound(c: Ctx, tid: Tid, r: Response)
    requires Inv(c) && BranchFailure(r)
    ensures Sound(c, ProcessFailure(c, tid, r))
  {
    hide Inv, Advances, Balance, Hold;
    var d := Terminate(c, tid);
    TerminateSound(c, tid);
    if !d.finalSent {
      var e := d.(held := Hold(d.held, r), failures := d.failures + [r]);
      HeldIsFree(d, e);
      CancelAllSound(e);
      var f := if r.code >= 600 && d.held.best.code / 100 != 6 && c.cseq == INVITE then CancelAll(e) else e;
      SoundTransitive(c, d, e);
      if f != e {
        SoundTransitive(c, e, f);
      }
      if f.candidate == map[] && f.active == map[] {
        ForwardBestSound(f);
        SoundTransitive(c, f, ForwardBest(f));
      }
    }
  }

  lemma {:induction false} OnResponseSound(c: Ctx, tid: Tid, r: Response, via: ViaState, eaten: bool)
    requires Inv(c) && 100 <= r.code <= 699
    ensures Sound(c, OnResponse(c, tid, r, via, eaten))
  {
    hide Inv, Advances, Balance, Terminate, ProcessProvisional, ProcessSuccess, ProcessFailure;
    HeldIsFree(c, c);
    TerminateSound(c, tid);
    if tid !in c.active {
      if r.code / 100 == 2 {
        SendSound(c, r.code, r.cseq);
      }
    } else if r.code <= 199 {
      ProvisionalSound(c, r);
    } else if r.code <= 299 {
      SuccessSound(c, tid, r);
    } else {
      FailureSound(c, tid, r);
    }
  }

  lemma {:induction false} ForwardOrFailSound(c: Ctx, d: Ctx)
    requires Sound(c, d) && !d.finalSent
    ensures Sound(c, Send(d, 480, d.cseq)) && Sound(c, Send(d, 500, d.cseq)) && Sound(c, ForwardBest(d))
  {
    SendSound(d, 480, d.cseq);
    SendSound(d, 500, d.cseq);
    ForwardBestSound(d);
    SoundTransitive(c, d, Send(d, 480, d.cseq));
    SoundTransitive(c, d, Send(d, 500, d.cseq));
    SoundTransitive(c, d, ForwardBest(d));
  }

  lemma {:induction false} AfterRequestChainSound(c: Ctx, result: Action, targets: Chain, resumed: bool)
    requires Inv(c) && AllAllowed(c, targets.ops)
    ensures Sound(c, AfterRequestChain(c, result, targets, resumed))
  {
    hide Inv, Advances, Balance, ApplyAll, AllAllowed, ForwardBest;
    HeldIsFree(c, c);
    ApplyAllSound(c, targets.ops);
    if !c.finalSent {
      ForwardOrFailSound(c, c);
    }
    if !ApplyAll(c, targets.ops).finalSent {
      ForwardOrFailSound(c, ApplyAll(c, targets.ops));
    }
  }

  lemma {:induction false} AfterResponseSound(c: Ctx, targets: Chain)
    requires Inv(c) && AllAllowed(c, targets.ops)
    ensures Sound(c, AfterResponse(c, targets))
  {
    hide Inv, Advances, Balance, ApplyAll, AllAllowed, ForwardBest;
    ApplyAllSound(c, targets.ops);
    if !ApplyAll(c, targets.ops).finalSent {
      ForwardOrFailSound(c, ApplyAll(c, targets.ops));
    }
  }

  lemma {:induction false} ProcessCancelSound(c: Ctx)
    requires Inv(c)
    ensures Sound(c, ProcessCancel(c))
  {
    hide Inv, Advances, Balance;
    NoteSound(c, CancelOk);
    var d := c.(log := c.log + [CancelOk]);
    CancelAllSound(d);
    SoundTransitive(c, d, CancelAll(d));
    if !d.finalSent && CancelAll(d).active == map[] {
      ForwardOrFailSound(c, CancelAll(d));
      SendSound(CancelAll(d), 487, d.cseq);
      SoundTransitive(c, CancelAll(d), ProcessCancel(c));
    }
  }

  /** What a run assumes of an event: the chains use fresh branch ids. */
  ghost predicate Legal(c: Ctx, e: Event) {
    && WellCoded(e)
    && match e
       case NewRequest(q, ts) => AllAllowed(c, q.ops) && AllAllowed(ApplyAll(c, q.ops), ts.ops)
       case CancelRequest(ts) => AllAllowed(ProcessCancel(c), ts.ops)
       case BranchResponse(tid, r, via, eaten, ts) => AllAllowed(OnResponse(c, tid, r, via, eaten), ts.ops)
       case TimerC(_) => true
       case ResumeRequest(q, ts) => AllAllowed(c, q.ops) && AllAllowed(ApplyAll(c, q.ops), ts.ops)
       case ResumeResponse(p, ts) => AllAllowed(c, p.ops) && AllAllowed(ApplyAll(c, p.ops), ts.ops)
       case ResumeTarget(ts) => AllAllowed(c, ts.ops)
       case BranchEnded(_) => true
       case ServerEnded => true
  }

  /** 1 for the end of a transaction, 0 for any other event. */
  function Ended(e: Event): int {
    if e.BranchEnded? || e.ServerEnded? then 1 else 0
  }

  /** A transaction that ends is counted off. */
  lemma {:induction false} CountedOff(c: Ctx, d: Ctx)
    requires Sound(c, d)
    ensures Inv(d.(txCount := d.txCount - 1)) && Advances(c, d.(txCount := d.txCount - 1))
    ensures Balance(d.(txCount := d.txCount - 1)) == Balance(c) - 1
  {
    hide Orderly, Launched, Contacted, Revoked, Answered;
  }

  lemma {:induction false} StepSound(c: Ctx, e: Event)
    requires Inv(c) && Legal(c, e)
    ensures Inv(Step(c, e)) && Advances(c, Step(c, e))
    ensures Balance(Step(c, e)) == Balance(c) - Ended(e)
  {
    hide Inv, Advances, Balance, AfterRequestChain, AfterResponse, OnResponse, ProcessCancel, ApplyAll, AllAllowed, Remove, CancelAll;
    HeldIsFree(c, c);
    match e
    case NewRequest(q, ts) =>
      ApplyAllSound(c, q.ops);
      AfterRequestChainSound(ApplyAll(c, q.ops), q.result, ts, false);
      SoundTransitive(c, ApplyAll(c, q.ops), Step(c, e));
    case CancelRequest(ts) =>
      ProcessCancelSound(c);
      AfterRequestChainSound(ProcessCancel(c), Continue, ts, false);
      SoundTransitive(c, ProcessCancel(c), Step(c, e));
    case BranchResponse(tid, r, via, eaten, ts) =>
      OnResponseSound(c, tid, r, via, eaten);
      AfterResponseSound(OnResponse(c, tid, r, via, eaten), ts);
      SoundTransitive(c, OnResponse(c, tid, r, via, eaten), Step(c, e));
    case TimerC(_) => CancelAllSound(c);
    case ResumeRequest(q, ts) =>
      ApplyAllSound(c, q.ops);
      AfterRequestChainSound(ApplyAll(c, q.ops), q.result, ts, true);
      SoundTransitive(c, ApplyAll(c, q.ops), Step(c, e));
    case ResumeResponse(p, ts) =>
      ApplyAllSound(c, p.ops);
      ApplyAllSound(ApplyAll(c, p.ops), ts.ops);
      SoundTransitive(c, ApplyAll(c, p.ops), Step(c, e));
    case ResumeTarget(ts) => ApplyAllSound(c, ts.ops);
    case BranchEnded(tid) =>
      RemoveSound(c, tid);
      RemoveKeepsCount(c, tid);
      CountedOff(c, Remove(c, tid));
    case ServerEnded => CountedOff(c, c);
  }

  // ----- every run -----

  /** The states of a run, first to last. */
  ghost predicate IsRun(states: seq<Ctx>, events: seq<Event>) {
    && |states| == |events| + 1
    && states[0] == Init(states[0].cseq) && states[0].cseq != CANCEL
    && (forall i :: 0 <= i < |events| ==> Legal(states[i], events[i]) && states[i + 1] == Step(states[i], events[i]))
  }

  lemma {:induction false} RunSound(states: seq<Ctx>, events: seq<Event>, n: nat)
    requires IsRun(states, events) && n < |states|
    ensures Inv(states[n])
    ensures forall m :: 0 <= m <= n ==> Advances(states[m], states[n])
  {
    if n > 0 {
      RunSound(states, events, n - 1);
      StepSound(states[n - 1], events[n - 1]);
      forall m | 0 <= m <= n
        ensures Advances(states[m], states[n])
      {
        if m < n {
          AdvancesTransitive(states[m], states[n - 1], states[n]);
        }
      }
    }
  }

  // ----- the theorems, in plain terms -----

  /** What may not be sent once the request has been answered. */
  ghost predicate TooLate(e: Sent) {
    e.Request? || (e.Upstream? && e.cseq != CANCEL && !(200 <= e.code <= 299))
  }

  lemma {:induction false} PrefixFacts(log: seq<Sent>, i: nat)
    requires i < |log|
    ensures log[i].Request? ==> log[i].tid in Launched(log) && log[i].rec in Contacted(log)
    ensures log[i].CancelBranch? ==> log[i].tid in Revoked(log)
    ensures IsFinal(log[i]) ==> Answered(log)
    ensures Orderly(log) ==> Orderly(log[..i]) && MayFollow(log[..i], log[i])
  {
    if i < |log| - 1 {
      PrefixFacts(log[..|log| - 1], i);
      assert log[..|log| - 1][..i] == log[..i];
    }
  }

  lemma {:induction false} LaunchedAt(log: seq<Sent>, tid: Tid)
    ensures tid in Launched(log) <==> exists i :: 0 <= i < |log| && log[i].Request? && log[i].tid == tid
  {
    if log != [] {
      LaunchedAt(log[..|log| - 1], tid);
      if tid in Launched(log[..|log| - 1]) {
        var i :| 0 <= i < |log| - 1 && log[..|log| - 1][i].Request? && log[..|log| - 1][i].tid == tid;
        assert log[i].Request? && log[i].tid == tid;
      } else if log[|log| - 1].Request? && log[|log| - 1].tid == tid {
        assert tid in Launched(log);
      }
      if exists i :: 0 <= i < |log| && log[i].Request? && log[i].tid == tid {
        var i :| 0 <= i < |log| && log[i].Request? && log[i].tid == tid;
        PrefixFacts(log, i);
      }
    }
  }

  /** In every run: no response but a 2xx and no new branch after a final response, hence at most one
      final response that is not a 2xx. */
  lemma {:induction false} AnsweredOnce(states: seq<Ctx>, events: seq<Event>, n: nat, i: nat, j: nat)
    requires IsRun(states, events) && n < |states|
    requires i < j < |states[n].log|
    ensures IsFinal(states[n].log[i]) ==> !TooLate(states[n].log[j])
  {
    var log := states[n].log;
    RunSound(states, events, n);
    PrefixFacts(log, j);
    PrefixFacts(log[..j], i);
  }

  /** In every run: one request per branch, to a contact never tried before; one CANCEL per branch, and
      only after its request. */
  lemma {:induction false} BranchesOnce(states: seq<Ctx>, events: seq<Event>, n: nat, i: nat, j: nat)
    requires IsRun(states, events) && n < |states|
    requires i < j < |states[n].log|
    ensures states[n].log[i].Request? && states[n].log[j].Request? ==>
              states[n].log[i].tid != states[n].log[j].tid && states[n].log[i].rec != states[n].log[j].rec
    ensures states[n].log[i].CancelBranch? && states[n].log[j].CancelBranch? ==>
              states[n].log[i].tid != states[n].log[j].tid
    ensures states[n].log[j].CancelBranch? ==>
              exists k :: 0 <= k < j && states[n].log[k].Request? && states[n].log[k].tid == states[n].log[j].tid
  {
    var log := states[n].log;
    RunSound(states, events, n);
    PrefixFacts(log, j);
    PrefixFacts(log[..j], i);
    if log[j].CancelBranch? {
      LaunchedAt(log[..j], log[j].tid);
      var k :| 0 <= k < |log[..j]| && log[..j][k].Request? && log[..j][k].tid == log[j].tid;
      assert log[k].Request? && log[k].tid == log[j].tid;
    }
  }

  /** In every run: each branch is in at most one map, the one its status names, and its status only
      advances through Candidate, Started, Cancelled, Terminated and removal. */
  lemma {:induction false} BranchesAdvance(states: seq<Ctx>, events: seq<Event>, m: nat, n: nat, tid: Tid)
    requires IsRun(states, events) && m <= n < |states|
    ensures MapsAgree(states[n])
    ensures tid in states[m].known ==> Rank(states[m], tid) <= Rank(states[n], tid)
    ensures states[m].log <= states[n].log
  {
    RunSound(states, events, n);
  }
}
