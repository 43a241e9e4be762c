/** Which targets of a forked request are taken, and which of them are tried: each contact once, by the first
    branch that leads to it. */
module ForkingStart {
  import opened Common
  import opened BestResponse
  import opened Forking
  import opened ForkingSafety

  // ----- taking targets -----

  /** A target offered under a new id is taken exactly while the request is unanswered and the target untouched,
      and if it is to be tried at once, not for a contact that was tried before. It then waits as a candidate,
      or its request has gone out. */
  lemma {:induction false} TargetIsTaken(c: Ctx, tid: Tid, t: Target, begin: bool)
    requires Inv(c) && tid !in c.known
    ensures var d := AddTarget(c, tid, t, begin);
            if c.finalSent || t.status != Candidate || (begin && t.rec in c.targetList) then d == c
            else
              && d.known == c.known + {tid} && d.terminated == c.terminated && d.finalSent == c.finalSent
              && if begin then
                   && d.candidate == c.candidate && d.active == c.active[tid := t.(status := Started)]
                   && d.log == c.log + [Request(tid, t.rec)] && d.targetList == c.targetList + [t.rec]
                   && d.txCount == c.txCount + 1
                 else
                   && d.candidate == c.candidate[tid := t] && d.active == c.active
                   && d.log == c.log && d.targetList == c.targetList && d.txCount == c.txCount
  {
    hide LogAgrees;
    assert c.candidate - {tid} == c.candidate;
  }

  /** Of a batch with distinct ids, the untouched targets become candidates, unless the request is answered. */
  lemma {:induction false} BatchIsTaken(c: Ctx, batch: seq<(Tid, Target)>, i: nat)
    requires i < |batch| && FreshBatch(c, batch)
    ensures var (k, t) := batch[i];
            var d := AddBatch(c, batch);
            if c.finalSent || t.status != Candidate then
              (k in d.candidate <==> k in c.candidate) && (k in d.known <==> k in c.known)
            else k in d.candidate && d.candidate[k] == t && k in d.known
  {
    if !c.finalSent {
      EachIsTaken(c, batch, i);
    }
  }

  lemma {:induction false} EachIsTaken(c: Ctx, batch: seq<(Tid, Target)>, i: nat)
    requires i < |batch| && forall j, k :: 0 <= j < k < |batch| ==> batch[j].0 != batch[k].0
    ensures var (k, t) := batch[i];
            var d := AddEach(c, batch);
            if t.status != Candidate then (k in d.candidate <==> k in c.candidate) && (k in d.known <==> k in c.known)
            else k in d.candidate && d.candidate[k] == t && k in d.known
    decreases |batch|
  {
    var (tid, t) := batch[0];
    var next := if t.status == Candidate then c.(candidate := c.candidate[tid := t], known := c.known + {tid}) else c;
    if i > 0 {
      EachIsTaken(next, batch[1..], i - 1);
    } else {
      forall j | 0 <= j < |batch[1..]|
        ensures batch[1..][j].0 != tid
      {
        assert batch[1..][j] == batch[j + 1];
      }
      OthersUntouched(next, batch[1..], tid);
    }
  }

  lemma {:induction false} OthersUntouched(c: Ctx, batch: seq<(Tid, Target)>, k: Tid)
    requires forall j :: 0 <= j < |batch| ==> batch[j].0 != k
    ensures var d := AddEach(c, batch);
            (k in d.candidate <==> k in c.candidate) && (k in c.candidate ==> d.candidate[k] == c.candidate[k])
            && (k in d.known <==> k in c.known)
    decreases |batch|
  {
    if batch != [] {
      var (tid, t) := batch[0];
      assert batch[0].0 != k;
      forall j | 0 <= j < |batch[1..]|
        ensures batch[1..][j].0 != k
      {
        assert batch[1..][j] == batch[j + 1];
      }
      OthersUntouched(if t.status == Candidate then c.(candidate := c.candidate[tid := t], known := c.known + {tid}) else c,
                      batch[1..], k);
    }
  }

  /** Of an outbound batch with distinct ids every target becomes a candidate, whether or not the request is
      answered. */
  lemma {:induction false} OutboundIsTaken(c: Ctx, batch: seq<(Tid, Target)>, i: nat)
    requires i < |batch| && forall j, k :: 0 <= j < k < |batch| ==> batch[j].0 != batch[k].0
    ensures var (k, t) := batch[i];
            var d := AddOutbound(c, batch);
            k in d.candidate && d.candidate[k] == t && k in d.known && d.active == c.active && d.log == c.log
    decreases |batch|
  {
    var (tid, t) := batch[0];
    var next := c.(candidate := c.candidate[tid := t], known := c.known + {tid});
    if i > 0 {
      OutboundIsTaken(next, batch[1..], i - 1);
    } else {
      forall j | 0 <= j < |batch[1..]|
        ensures batch[1..][j].0 != tid
      {
        assert batch[1..][j] == batch[j + 1];
      }
      OutboundElsewhere(next, batch[1..], tid);
    }
  }

  lemma {:induction false} OutboundElsewhere(c: Ctx, batch: seq<(Tid, Target)>, k: Tid)
    requires forall j :: 0 <= j < |batch| ==> batch[j].0 != k
    ensures var d := AddOutbound(c, batch);
            (k in d.candidate <==> k in c.candidate) && (k in c.candidate ==> d.candidate[k] == c.candidate[k])
            && (k in d.known <==> k in c.known) && d.active == c.active && d.log == c.log
    decreases |batch|
  {
    if batch != [] {
      var (tid, t) := batch[0];
      assert batch[0].0 != k;
      forall j | 0 <= j < |batch[1..]|
        ensures batch[1..][j].0 != k
      {
        assert batch[1..][j] == batch[j + 1];
      }
      OutboundElsewhere(c.(candidate := c.candidate[tid := t], known := c.known + {tid}), batch[1..], k);
    }
  }

  // ----- trying candidates -----

  /** Of the ids `ks`, walked in this order, `k` is the first that leads to a contact not tried before. */
  ghost predicate FirstToTry(c: Ctx, ks: seq<Tid>, k: Tid)
    requires forall j :: j in ks ==> j in c.candidate
  {
    && k in ks && c.candidate[k].rec !in c.targetList
    && forall j :: j in ks && c.candidate[j].rec == c.candidate[k].rec ==> k <= j
  }

  ghost predicate Tried(c: Ctx, d: Ctx, k: Tid, t: Target) {
    && k in d.active && d.active[k] == t.(status := Started) && k !in d.terminated
    && c.log <= d.log && Request(k, t.rec) in d.log[|c.log|..]
  }

  ghost predicate SetAside(c: Ctx, d: Ctx, k: Tid, t: Target) {
    && k !in d.active && k in d.terminated && d.terminated[k] == t.(status := Terminated)
    && c.log <= d.log && Request(k, t.rec) !in d.log[|c.log|..]
  }

  lemma {:induction false} OthersKept(c: Ctx, ks: seq<Tid>, k: Tid)
    requires Ascending(ks) && (forall j :: j in ks ==> j in c.candidate) && k !in ks
    ensures var d := BeginKeys(c, ks);
            && c.log <= d.log && (k in d.active <==> k in c.active) && (k in d.terminated <==> k in c.terminated)
            && (k in d.candidate <==> k in c.candidate)
            && (k in c.active ==> d.active[k] == c.active[k]) && (k in c.terminated ==> d.terminated[k] == c.terminated[k])
            && forall r :: Request(k, r) !in d.log[|c.log|..]
    decreases |ks|
  {
    if ks != [] {
      BeginOneRemoves(c, ks[0]);
      var e := BeginOne(c, ks[0]);
      OthersKept(e, ks[1..], k);
      var d := BeginKeys(c, ks);
      assert d.log[|c.log|..] == e.log[|c.log|..] + d.log[|e.log|..];
    }
  }

  lemma {:induction false} FirstToTryLater(c: Ctx, ks: seq<Tid>, k: Tid)
    requires Ascending(ks) && (forall j :: j in ks ==> j in c.candidate) && k in ks && k != ks[0] && !c.finalSent
    ensures forall j :: j in ks[1..] ==> j in BeginOne(c, ks[0]).candidate
    ensures FirstToTry(BeginOne(c, ks[0]), ks[1..], k) <==> FirstToTry(c, ks, k)
  {
    var e, first := BeginOne(c, ks[0]), ks[0];
    AscendingRest(ks);
    BeginOneRemoves(c, first);
    assert forall j :: j in ks <==> j == first || j in ks[1..];
    assert forall j :: j in ks[1..] ==> first < j && e.candidate[j] == c.candidate[j];
  }

  lemma {:induction false} FirstIsDecided(c: Ctx, k: Tid)
    requires k in c.candidate && k !in c.active
    ensures var d := BeginOne(c, k);
            if !c.finalSent && c.candidate[k].rec !in c.targetList then
              k !in c.terminated ==> Tried(c, d, k, c.candidate[k])
            else SetAside(c, d, k, c.candidate[k])
  {
  }

  lemma {:induction false} DecisionKept(c: Ctx, e: Ctx, ks: seq<Tid>, k: Tid, t: Target)
    requires Ascending(ks) && (forall j :: j in ks ==> j in e.candidate) && k !in ks && c.log <= e.log
    ensures Tried(c, e, k, t) ==> Tried(c, BeginKeys(e, ks), k, t)
    ensures SetAside(c, e, k, t) ==> SetAside(c, BeginKeys(e, ks), k, t)
  {
    OthersKept(e, ks, k);
    hide BeginKeys;
    var d := BeginKeys(e, ks);
    assert d.log[|c.log|..] == e.log[|c.log|..] + d.log[|e.log|..];
  }

  lemma {:induction false} LaterDecided(c: Ctx, e: Ctx, d: Ctx, k: Tid, t: Target)
    requires c.log <= e.log && (forall r :: Request(k, r) !in e.log[|c.log|..])
    ensures Tried(e, d, k, t) ==> Tried(c, d, k, t)
    ensures SetAside(e, d, k, t) ==> SetAside(c, d, k, t)
  {
    if e.log <= d.log {
      assert d.log[|c.log|..] == e.log[|c.log|..] + d.log[|e.log|..];
    }
  }

  lemma {:induction false} KeysDecided(c: Ctx, ks: seq<Tid>, k: Tid)
    requires Ascending(ks) && (forall j :: j in ks ==> j in c.candidate && j !in c.active && j !in c.terminated) && k in ks
    ensures if !c.finalSent && FirstToTry(c, ks, k) then Tried(c, BeginKeys(c, ks), k, c.candidate[k])
            else SetAside(c, BeginKeys(c, ks), k, c.candidate[k])
    decreases |ks|
  {
    hide Tried, SetAside;
    var first, rest, e := ks[0], ks[1..], BeginOne(c, ks[0]);
    AscendingRest(ks);
    assert forall j :: j in ks <==> j == first || j in rest;
    assert forall j :: j in rest ==> first < j;
    BeginOneRemoves(c, first);
    if k == first {
      FirstIsDecided(c, k);
      DecisionKept(c, e, rest, k, c.candidate[k]);
    } else {
      BeginOneElsewhere(c, first);
      KeysDecided(e, rest, k);
      if !c.finalSent {
        FirstToTryLater(c, ks, k);
      }
      LaterDecided(c, e, BeginKeys(e, rest), k, c.candidate[k]);
    }
  }

  lemma {:induction false} BeginOneElsewhere(c: Ctx, first: Tid)
    requires first in c.candidate
    ensures var e := BeginOne(c, first);
            && c.log <= e.log && e.finalSent == c.finalSent
            && (forall j :: j != first ==> (j in e.active <==> j in c.active) && (j in e.terminated <==> j in c.terminated))
            && (forall k, r :: k != first ==> Request(k, r) !in e.log[|c.log|..])
  {
  }

  lemma {:induction false} NoneIsLeft(c: Ctx, ks: seq<Tid>)
    requires Ascending(ks) && (forall j :: j in ks ==> j in c.candidate)
    ensures BeginKeys(c, ks).candidate == map k | k in c.candidate && k !in ks :: c.candidate[k]
    decreases |ks|
  {
    if ks != [] {
      AscendingRest(ks);
      BeginOneRemoves(c, ks[0]);
      NoneIsLeft(BeginOne(c, ks[0]), ks[1..]);
      assert forall j :: j in ks <==> j == ks[0] || j in ks[1..];
    }
  }

  /** When the candidates of an unanswered request are started, none is left: for each contact that was not tried
      before, the one with the least id is sent its request, and the others are set aside; so are all of them once
      the request is answered. */
  lemma {:induction false} EachContactIsTriedOnce(c: Ctx, k: Tid)
    requires Inv(c) && k in c.candidate
    ensures BeginAll(c).candidate == map[]
    ensures var t := c.candidate[k];
            if !c.finalSent && t.rec !in c.targetList
               && (forall j :: j in c.candidate && c.candidate[j].rec == t.rec ==> k <= j)
            then Tried(c, BeginAll(c), k, t)
            else SetAside(c, BeginAll(c), k, t)
  {
    hide LogAgrees, Tried, SetAside, BeginKeys;
    var ks := Sorted(c.candidate.Keys);
    NoneIsLeft(c, ks);
    KeysDecided(c, ks, k);
  }

  /** A single candidate that is to be started is tried if the request is unanswered and its contact was not tried
      before, and set aside otherwise; any other id changes nothing. */
  lemma {:induction false} OneIsTried(c: Ctx, k: Tid)
    requires Inv(c)
    ensures var d := Apply(c, OpBegin(k));
            if k !in c.candidate then d == c
            else
              && d.candidate == c.candidate - {k}
              && if !c.finalSent && c.candidate[k].rec !in c.targetList then Tried(c, d, k, c.candidate[k])
                 else SetAside(c, d, k, c.candidate[k])
  {
    hide LogAgrees, Tried, SetAside, BeginOne;
    if k in c.candidate {
      BeginOneRemoves(c, k);
      FirstIsDecided(c, k);
    }
  }
}
