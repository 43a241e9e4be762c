/** The state machine of one forwarded request: its branches, its held response and everything
    sent on its behalf. The functions here are the specification of class RequestContext. */
module Forking {
  import opened Common
  import opened BestResponse

  type Tid = nat

  /** Two records denote the same target when all three parts agree. */
  datatype Rec = Rec(regId: nat, instance: string, uri: string)

  datatype Status = Candidate | Started | Cancelled | Terminated

  datatype Target = Target(rec: Rec, status: Status)

  type Branches = map<Tid, Target>

  /** What leaves the proxy: a branch request, the CANCEL of a branch, a response towards the client,
      the 200 for a CANCEL, and the attempt to forward a best response when none is held. */
  datatype Sent =
    | Request(tid: Tid, rec: Rec)
    | CancelBranch(tid: Tid)
    | Upstream(code: int, cseq: Method)
    | CancelOk
    | NoBestResponse

  /** `known` and `failures` only record history: all branch ids ever added, and the branch failures
      that were weighed against each other. */
  datatype Ctx = Ctx(
    cseq: Method,
    finalSent: bool,
    candidate: Branches,
    active: Branches,
    terminated: Branches,
    targetList: seq<Rec>,
    held: Held,
    txCount: int,
    tcSerial: nat,
    tcSet: bool,
    log: seq<Sent>,
    known: set<Tid>,
    failures: seq<Response>)

  function Init(cseq: Method): Ctx {
    Ctx(cseq, false, map[], map[], map[], [], NOTHING_HELD, 1, 0, false, [], {}, [])
  }

  // ----- sending -----

  predicate FinalFor(code: int, cseq: Method) {
    code > 199 && cseq != CANCEL
  }

  function Send(c: Ctx, code: int, cseq: Method): Ctx {
    c.(finalSent := c.finalSent || FinalFor(code, cseq), log := c.log + [Upstream(code, cseq)])
  }

  function UpdateTimerC(c: Ctx): Ctx {
    c.(tcSerial := c.tcSerial + 1)
  }

  /** Sends the request of one branch and makes the branch active. */
  function Launch(c: Ctx, tid: Tid, t: Target): Ctx {
    var d := if c.tcSet then c else UpdateTimerC(c).(tcSet := true);
    d.(targetList := c.targetList + [t.rec],
       txCount := c.txCount + 1,
       log := c.log + [Request(tid, t.rec)],
       candidate := c.candidate - {tid},
       active := c.active[tid := t.(status := Started)])
  }

  // ----- adding targets -----

  predicate Duplicate(c: Ctx, t: Target) {
    t.rec in c.targetList
  }

  function AddTarget(c: Ctx, tid: Tid, t: Target, begin: bool): Ctx {
    if c.finalSent || t.status != Candidate then c
    else if !begin then c.(candidate := c.candidate[tid := t], known := c.known + {tid})
    else if Duplicate(c, t) then c
    else Launch(c, tid, t).(known := c.known + {tid})
  }

  /** Adds the targets of a batch one after the other; those not in their initial state are dropped. */
  function AddEach(c: Ctx, batch: seq<(Tid, Target)>): Ctx
    decreases |batch|
  {
    if batch == [] then c
    else
      var (tid, t) := batch[0];
      AddEach(if t.status == Candidate then c.(candidate := c.candidate[tid := t], known := c.known + {tid}) else c, batch[1..])
  }

  /** An outbound batch is taken as it is, whatever the state of its targets and of the request. */
  function AddOutbound(c: Ctx, batch: seq<(Tid, Target)>): Ctx
    decreases |batch|
  {
    if batch == [] then c
    else
      var (tid, t) := batch[0];
      AddOutbound(c.(candidate := c.candidate[tid := t], known := c.known + {tid}), batch[1..])
  }

  function AddBatch(c: Ctx, batch: seq<(Tid, Target)>): Ctx {
    if c.finalSent then c else AddEach(c, batch)
  }

  // ----- starting branches -----

  function Retire(c: Ctx, tid: Tid): Ctx
    requires tid in c.candidate
  {
    c.(candidate := c.candidate - {tid}, terminated := c.terminated[tid := c.candidate[tid].(status := Terminated)])
  }

  function BeginOne(c: Ctx, tid: Tid): Ctx
    requires tid in c.candidate
  {
    if Duplicate(c, c.candidate[tid]) || c.finalSent then Retire(c, tid) else Launch(c, tid, c.candidate[tid])
  }

  ghost predicate Ascending(ks: seq<Tid>) {
    forall i, j :: 0 <= i < j < |ks| ==> ks[i] < ks[j]
  }

  predicate IsMinimum(m: Tid, s: set<Tid>) {
    m in s && forall k :: k in s ==> m <= k
  }

  /** The key at which the walk of a transaction map begins. */
  function First(s: set<Tid>): (m: Tid)
    requires s != {}
    ensures IsMinimum(m, s)
  {
    HasMinimum(s);
    var m :| IsMinimum(m, s);
    m
  }

  /** The keys of a transaction map in the order in which the map is walked. */
  function Sorted(s: set<Tid>): (ks: seq<Tid>)
    ensures Ascending(ks)
    ensures forall k :: k in ks <==> k in s
  {
    if s == {} then [] else [First(s)] + Sorted(s - {First(s)})
  }

  lemma {:induction false} HasMinimum(s: set<Tid>)
    requires s != {}
    ensures exists m :: IsMinimum(m, s)
    ensures forall m, n :: IsMinimum(m, s) && IsMinimum(n, s) ==> m == n
  {
    var x :| x in s;
    var rest := s - {x};
    if rest == {} {
      assert s == {x};
      assert IsMinimum(x, s);
    } else {
      HasMinimum(rest);
      var m :| IsMinimum(m, rest);
      assert forall k :: k in s ==> k == x || k in rest;
      assert IsMinimum(if x <= m then x else m, s);
    }
  }

  function BeginKeys(c: Ctx, ks: seq<Tid>): Ctx
    requires Ascending(ks) && forall k :: k in ks ==> k in c.candidate
    decreases |ks|
  {
    if ks == [] then c
    else BeginKeys(BeginOne(c, ks[0]), ks[1..])
  }

  function BeginAll(c: Ctx): Ctx {
    BeginKeys(c, Sorted(c.candidate.Keys))
  }

  function Begin(c: Ctx, tid: Tid): Ctx {
    if tid in c.candidate then BeginOne(c, tid) else c
  }

  // ----- cancelling and ending branches -----

  function CancelledTarget(t: Target): Target {
    if t.status == Started then t.(status := Cancelled) else t
  }

  /** The CANCELs sent while walking the branches `ks`. */
  function Cancels(m: Branches, ks: seq<Tid>): seq<Sent>
    requires forall k :: k in ks ==> k in m
  {
    if ks == [] then []
    else (if m[ks[0]].status == Started then [CancelBranch(ks[0])] else []) + Cancels(m, ks[1..])
  }

  function CancelBranches(c: Ctx): Ctx {
    c.(active := map k | k in c.active :: CancelledTarget(c.active[k]),
       log := c.log + Cancels(c.active, Sorted(c.active.Keys)))
  }

  function CancelActive(c: Ctx): Ctx {
    if c.finalSent then c else CancelBranches(c)
  }

  function ClearCandidates(c: Ctx): Ctx {
    c.(candidate := map[],
       terminated := c.terminated + map k | k in c.candidate :: c.candidate[k].(status := Terminated))
  }

  function CancelAll(c: Ctx): Ctx {
    ClearCandidates(if c.cseq == INVITE then CancelBranches(c) else c)
  }

  function CancelOne(c: Ctx, tid: Tid): Ctx {
    if c.cseq == INVITE && tid in c.active then
      c.(active := c.active[tid := CancelledTarget(c.active[tid])], log := c.log + Cancels(c.active, [tid]))
    else if tid in c.candidate then Retire(c, tid)
    else c
  }

  function Terminate(c: Ctx, tid: Tid): Ctx {
    if tid in c.active then
      c.(active := c.active - {tid}, terminated := c.terminated[tid := c.active[tid].(status := Terminated)])
    else if tid in c.candidate then Retire(c, tid)
    else c
  }

  function Remove(c: Ctx, tid: Tid): Ctx {
    if tid in c.terminated then c.(terminated := c.terminated - {tid})
    else if tid in c.candidate then c.(candidate := c.candidate - {tid})
    else c.(active := c.active - {tid})
  }

  // ----- answering -----

  /** 503, and 408 for anything but an INVITE, are not passed on (section 16.7 of RFC 3261). */
  function Presentable(r: Response): int {
    if r.code == 503 || (r.code == 408 && r.cseq != INVITE) then 480 else r.code
  }

  function ForwardBest(c: Ctx): Ctx {
    var d := ClearCandidates(c);
    var e := if c.cseq == INVITE then CancelActive(d) else d;
    if e.held.best.code == 0 then e.(log := e.log + [NoBestResponse])
    else
      var code := Presentable(e.held.best);
      Send(e.(held := e.held.(best := e.held.best.(code := code))), code, e.held.best.cseq)
  }

  function ProcessCancel(c: Ctx): Ctx {
    var d := c.(log := c.log + [CancelOk]);
    if d.finalSent then d
    else
      var e := CancelAll(d);
      if e.active == map[] then Send(e, 487, e.cseq) else e
  }

  function ProcessTimerC(c: Ctx, serial: nat): Ctx {
    if serial == c.tcSerial && !c.finalSent then CancelAll(c) else c
  }

  /** What the topmost Via of a response looks like once the proxy's own has been popped. */
  datatype ViaState = NoVia | BadVia | GoodVia

  function ProcessProvisional(c: Ctx, r: Response): Ctx {
    var d := UpdateTimerC(c);
    if d.finalSent || r.code == 100 then d else Send(d, r.code, r.cseq)
  }

  function ProcessSuccess(c: Ctx, tid: Tid, r: Response): Ctx {
    var d := Terminate(c, tid);
    if c.cseq != INVITE && c.finalSent then d
    else
      var e := if c.cseq == INVITE then CancelAll(d) else ClearCandidates(d);
      Send(e.(finalSent := true, held := e.held.(best := e.held.best.(code := r.code))), r.code, r.cseq)
  }

  function ProcessFailure(c: Ctx, tid: Tid, r: Response): Ctx
    requires BranchFailure(r)
  {
    var d := Terminate(c, tid);
    if d.finalSent then d
    else
      var e := d.(held := Hold(d.held, r), failures := d.failures + [r]);
      var f := if r.code >= 600 && d.held.best.code / 100 != 6 && c.cseq == INVITE then CancelAll(e) else e;
      if f.candidate == map[] && f.active == map[] then ForwardBest(f) else f
  }

  function ProcessResponse(c: Ctx, tid: Tid, r: Response, via: ViaState): Ctx
    requires 100 <= r.code <= 699
  {
    if via == NoVia && (r.cseq == CANCEL || (100 < r.code <= 199)) then c
    else if via == BadVia && r.code <= 199 then c
    else if via != GoodVia && r.code > 199 then Terminate(c, tid)
    else if tid !in c.active then (if r.code / 100 == 2 then Send(c, r.code, r.cseq) else c)
    else if r.code <= 199 then ProcessProvisional(c, r)
    else if r.code <= 299 then ProcessSuccess(c, tid, r)
    else ProcessFailure(c, tid, r)
  }

  // ----- processor chains as scripts of calls -----

  datatype Op =
    | OpAddTarget(tid: Tid, target: Target, begin: bool)
    | OpAddBatch(batch: seq<(Tid, Target)>)
    | OpAddOutbound(outbound: seq<(Tid, Target)>)
    | OpBeginAll
    | OpBegin(tid: Tid)
    | OpCancelActive
    | OpCancelAll
    | OpClearCandidates
    | OpCancel(tid: Tid)

  datatype Chain = Chain(ops: seq<Op>, result: Action)

  function Apply(c: Ctx, op: Op): Ctx {
    match op
    case OpAddTarget(tid, t, begin) => AddTarget(c, tid, t, begin)
    case OpAddBatch(batch) => AddBatch(c, batch)
    case OpAddOutbound(batch) => AddOutbound(c, batch)
    case OpBeginAll => BeginAll(c)
    case OpBegin(tid) => Begin(c, tid)
    case OpCancelActive => CancelActive(c)
    case OpCancelAll => CancelAll(c)
    case OpClearCandidates => ClearCandidates(c)
    case OpCancel(tid) => CancelOne(c, tid)
  }

  function ApplyAll(c: Ctx, ops: seq<Op>): Ctx
    decreases |ops|
  {
    if ops == [] then c else ApplyAll(Apply(c, ops[0]), ops[1..])
  }

  // ----- one event -----

  predicate HasTargets(c: Ctx) {
    (!c.finalSent && c.candidate != map[]) || c.active != map[] || c.terminated != map[]
  }

  /** What follows the request chain: no target at all is a 480; otherwise the target chain runs, and
      if it leaves nothing running the client is answered. */
  function AfterRequestChain(c: Ctx, result: Action, targets: Chain, resumed: bool): Ctx {
    if result == WaitingForEvent || c.finalSent then c
    else if !HasTargets(c) then Send(c, 480, c.cseq)
    else
      var d := ApplyAll(c, targets.ops);
      if targets.result == WaitingForEvent || d.finalSent || d.active != map[] then d
      else if d.candidate != map[] then Send(d, 500, d.cseq)
      else if resumed && d.held.best.code == 408 then d
      else ForwardBest(d)
  }

  function AfterResponse(c: Ctx, targets: Chain): Ctx {
    var d := ApplyAll(c, targets.ops);
    if d.finalSent || d.active != map[] then d
    else if d.candidate != map[] then Send(d, 500, d.cseq)
    else ForwardBest(d)
  }

  datatype Event =
    | NewRequest(request: Chain, targets: Chain)
    | CancelRequest(targets: Chain)
    | BranchResponse(tid: Tid, r: Response, via: ViaState, eaten: bool, targets: Chain)
    | TimerC(serial: nat)
    | ResumeRequest(request: Chain, targets: Chain)
    | ResumeResponse(response: Chain, targets: Chain)
    | ResumeTarget(targets: Chain)
    | BranchEnded(tid: Tid)
    | ServerEnded

  function OnResponse(c: Ctx, tid: Tid, r: Response, via: ViaState, eaten: bool): Ctx
    requires 100 <= r.code <= 699
  {
    if eaten then Terminate(c, tid) else ProcessResponse(c, tid, r, via)
  }

  predicate WellCoded(e: Event) {
    e.BranchResponse? ==> 100 <= e.r.code <= 699
  }

  function Step(c: Ctx, e: Event): Ctx
    requires WellCoded(e)
  {
    match e
    case NewRequest(q, ts) => AfterRequestChain(ApplyAll(c, q.ops), q.result, ts, false)
    case CancelRequest(ts) => AfterRequestChain(ProcessCancel(c), Continue, ts, false)
    case BranchResponse(tid, r, via, eaten, ts) => AfterResponse(OnResponse(c, tid, r, via, eaten), ts)
    case TimerC(serial) => ProcessTimerC(c, serial)
    case ResumeRequest(q, ts) => AfterRequestChain(ApplyAll(c, q.ops), q.result, ts, true)
    case ResumeResponse(p, ts) => ApplyAll(ApplyAll(c, p.ops), ts.ops)
    case ResumeTarget(ts) => ApplyAll(c, ts.ops)
    case BranchEnded(tid) => Remove(c, tid).(txCount := c.txCount - 1)
    case ServerEnded => c.(txCount := c.txCount - 1)
  }
}
