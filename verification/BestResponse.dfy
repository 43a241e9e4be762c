/** The response a forking proxy holds for its client while branches are still running
    (section 16.7 of RFC 3261, with the proxy's own order of preference). */
module BestResponse {
  import opened Common

  datatype Method = INVITE | CANCEL | OTHER

  /** A contact of a redirect; it is merged only when it is well formed and is not "*". */
  datatype Contact = Contact(id: int, usable: bool)

  /** What the proxy looks at in a response. `proxy` is None when the header is absent. */
  datatype Response = Response(code: int, cseq: Method, www: seq<int>, proxy: Option<seq<int>>, contacts: seq<Contact>)

  datatype Held = Held(best: Response, priority: int)

  const NOTHING_HELD := Held(Response(0, OTHER, [], None, []), 50)

  function Priority(code: int): (p: int)
    requires 300 <= code <= 599
  {
    if code <= 399 then 5
    else if code >= 500 && code !in {501, 503, 580, 513} then 42
    else
      match code
      case 412 => 1
      case 484 => 2
      case 422 => 3
      case 423 => 3
      case 407 => 4
      case 401 => 4
      case 402 => 6
      case 493 => 10
      case 420 => 12
      case 406 => 13
      case 415 => 13
      case 488 => 13
      case 416 => 20
      case 417 => 20
      case 405 => 21
      case 501 => 21
      case 580 => 22
      case 485 => 23
      case 428 => 24
      case 429 => 24
      case 494 => 24
      case 413 => 25
      case 414 => 25
      case 421 => 26
      case 486 => 30
      case 480 => 31
      case 410 => 32
      case 436 => 33
      case 437 => 33
      case 513 => 33
      case 403 => 34
      case 404 => 35
      case 487 => 36
      case 503 => 43
      case 483 => 41
      case 482 => 41
      case 408 => 49
      case _ => 43
  }

  function ListOf<T>(o: Option<seq<T>>): seq<T> {
    if o.Some? then o.value else []
  }

  function Usable(cs: seq<Contact>): seq<Contact> {
    if cs == [] then []
    else Usable(cs[..|cs| - 1]) + (if cs[|cs| - 1].usable then [cs[|cs| - 1]] else [])
  }

  /** Absorbs one 3xx, 4xx or 5xx. */
  function Absorb(h: Held, r: Response): Held
    requires 300 <= r.code <= 599
  {
    var p := Priority(r.code);
    if p == h.priority then
      if r.code == 401 || r.code == 407 then
        var best := h.best.(www := h.best.www + r.www);
        h.(best := if r.proxy.None? then best
                   else best.(proxy := AppendTo(best.proxy, r.proxy.value), code := 407))
      else if r.code / 100 == 3 then
        var kept := if h.best.code / 100 != 3 then [] else h.best.contacts;
        h.(best := h.best.(contacts := kept + Usable(r.contacts), code := 300))
      else h
    else if p < h.priority then Held(r, p)
    else h
  }

  /** Pushing challenges one by one creates the header only when there is one to push. */
  function AppendTo(o: Option<seq<int>>, more: seq<int>): Option<seq<int>> {
    if more == [] then o else Some(ListOf(o) + more)
  }

  /** Absorbs one 6xx: the first one wins over everything. */
  function AbsorbGlobal(h: Held, r: Response): Held {
    if h.best.code / 100 != 6 then Held(r, 0) else h
  }

  predicate BranchFailure(r: Response) {
    300 <= r.code <= 699
  }

  function Hold(h: Held, r: Response): Held
    requires BranchFailure(r)
  {
    if r.code >= 600 then AbsorbGlobal(h, r) else Absorb(h, r)
  }

  ghost predicate Failures(fs: seq<Response>) {
    forall i :: 0 <= i < |fs| ==> BranchFailure(fs[i])
  }

  /** What is held once the failures `fs` arrived in this order. */
  function HoldAll(fs: seq<Response>): Held
    requires Failures(fs)
  {
    if fs == [] then NOTHING_HELD else Hold(HoldAll(fs[..|fs| - 1]), fs[|fs| - 1])
  }

  // ----- an independent description of what ought to be held -----

  ghost predicate Global(r: Response) {
    r.code >= 600
  }

  ghost predicate FirstGlobal(fs: seq<Response>, i: nat) {
    i < |fs| && Global(fs[i]) && forall j :: 0 <= j < i ==> !Global(fs[j])
  }

  ghost predicate NoGlobal(fs: seq<Response>) {
    forall i :: 0 <= i < |fs| ==> !Global(fs[i])
  }

  /** The responses of priority `p`, in arrival order. */
  function Pick(fs: seq<Response>, p: int): (s: seq<Response>)
    requires forall i :: 0 <= i < |fs| ==> 300 <= fs[i].code <= 599
    ensures forall i :: 0 <= i < |s| ==> 300 <= s[i].code <= 599 && Priority(s[i].code) == p
  {
    if fs == [] then []
    else
      var r := fs[|fs| - 1];
      Pick(fs[..|fs| - 1], p) + (if Priority(r.code) == p then [r] else [])
  }

  function AllWww(s: seq<Response>): seq<int> {
    if s == [] then [] else AllWww(s[..|s| - 1]) + s[|s| - 1].www
  }

  function AllProxy(s: seq<Response>): seq<int> {
    if s == [] then [] else AllProxy(s[..|s| - 1]) + ListOf(s[|s| - 1].proxy)
  }

  /** The first redirect is taken as it is; later ones add only their usable contacts. */
  function AllContacts(s: seq<Response>): seq<Contact> {
    if s == [] then []
    else if |s| == 1 then s[0].contacts
    else AllContacts(s[..|s| - 1]) + Usable(s[|s| - 1].contacts)
  }

  ghost predicate LaterProxyChallenge(s: seq<Response>) {
    exists i :: 1 <= i < |s| && s[i].proxy.Some?
  }

  /** `best` is what the responses `s`, all of the winning priority `p`, amount to. */
  ghost predicate Summary(best: Response, s: seq<Response>, p: int) {
    && |s| > 0
    && (p == 4 ==>
          && best.www == AllWww(s)
          && ListOf(best.proxy) == AllProxy(s)
          && best.contacts == s[0].contacts
          && best.code == (if LaterProxyChallenge(s) then 407 else s[0].code))
    && (p == 5 ==>
          && best.contacts == AllContacts(s)
          && best.www == s[0].www && best.proxy == s[0].proxy
          && best.code == (if |s| == 1 then s[0].code else 300))
    && (p != 4 && p != 5 ==> best == s[0])
  }

  ghost predicate IsMinimum(p: int, fs: seq<Response>)
    requires forall i :: 0 <= i < |fs| ==> 300 <= fs[i].code <= 599
  {
    && (exists i :: 0 <= i < |fs| && Priority(fs[i].code) == p)
    && (forall i :: 0 <= i < |fs| ==> p <= Priority(fs[i].code))
  }

  /** `h` holds what the 3xx to 5xx responses `fs` amount to. */
  ghost predicate Preferred(h: Held, fs: seq<Response>)
    requires forall i :: 0 <= i < |fs| ==> 300 <= fs[i].code <= 599
  {
    && IsMinimum(h.priority, fs)
    && 300 <= h.best.code <= 599 && Priority(h.best.code) == h.priority
    && Summary(h.best, Pick(fs, h.priority), h.priority)
  }

  ghost predicate HeldIsBest(h: Held, fs: seq<Response>)
    requires Failures(fs)
  {
    && (fs == [] ==> h == NOTHING_HELD)
    && (forall i: nat :: FirstGlobal(fs, i) ==> h == Held(fs[i], 0))
    && (fs != [] && NoGlobal(fs) ==> Preferred(h, fs))
  }

  /** The usable contacts in the order in which they come, and no others. */
  lemma {:induction false} UsableExactly(cs: seq<Contact>, ds: seq<Contact>, c: Contact)
    ensures Usable([]) == [] && Usable([c]) == (if c.usable then [c] else [])
    ensures Usable(cs + ds) == Usable(cs) + Usable(ds)
    ensures c in Usable(cs) <==> c in cs && c.usable
  {
    assert [c][..0] == [];
    UsableIn(cs, c);
    UsableJoins(cs, ds);
  }

  lemma {:induction false} UsableIn(cs: seq<Contact>, c: Contact)
    ensures c in Usable(cs) <==> c in cs && c.usable
  {
    if cs != [] {
      UsableIn(cs[..|cs| - 1], c);
      assert cs == cs[..|cs| - 1] + [cs[|cs| - 1]];
    }
  }

  lemma {:induction false} UsableJoins(cs: seq<Contact>, ds: seq<Contact>)
    ensures Usable(cs + ds) == Usable(cs) + Usable(ds)
    decreases |ds|
  {
    if ds == [] {
      assert cs + ds == cs;
    } else {
      var front := ds[..|ds| - 1];
      UsableJoins(cs, front);
      assert (cs + ds)[..|cs + ds| - 1] == cs + front;
    }
  }

  /** A proxy challenge joins those held before, and the header is there once there was any. */
  lemma {:induction false} ChallengesJoin(h: Held, r: Response)
    requires r.code in {401, 407} && Priority(r.code) == h.priority
    ensures var merged, more := Absorb(h, r).best.proxy, if r.proxy.Some? then r.proxy.value else [];
            if more == [] then merged == h.best.proxy
            else merged == Some((if h.best.proxy.Some? then h.best.proxy.value else []) + more)
    ensures Absorb(h, r).best.www == h.best.www + r.www
    ensures Absorb(h, r).best.code == (if r.proxy.Some? then 407 else h.best.code)
  {
  }

  lemma {:induction false} PickNothing(fs: seq<Response>, p: int)
    requires forall i :: 0 <= i < |fs| ==> 300 <= fs[i].code <= 599
    requires forall i :: 0 <= i < |fs| ==> Priority(fs[i].code) != p
    ensures Pick(fs, p) == []
  {
    if fs != [] {
      PickNothing(fs[..|fs| - 1], p);
    }
  }

  /** A response as good as the held one is folded into it. */
  lemma {:induction false} FoldEqual(h: Held, s: seq<Response>, r: Response)
    requires 300 <= r.code <= 599 && Priority(r.code) == h.priority
    requires 300 <= h.best.code <= 599 && Priority(h.best.code) == h.priority
    requires forall i :: 0 <= i < |s| ==> 300 <= s[i].code <= 599 && Priority(s[i].code) == h.priority
    requires Summary(h.best, s, h.priority)
    ensures Summary(Absorb(h, r).best, s + [r], h.priority)
    ensures Absorb(h, r).priority == h.priority
    ensures 300 <= Absorb(h, r).best.code <= 599 && Priority(Absorb(h, r).best.code) == h.priority
  {
    assert (s + [r])[..|s + [r]| - 1] == s;
    assert (s + [r])[|s|] == r;
    if LaterProxyChallenge(s + [r]) {
      var i :| 1 <= i < |s + [r]| && (s + [r])[i].proxy.Some?;
      assert i < |s| ==> s[i].proxy.Some?;
    }
    if LaterProxyChallenge(s) {
      var i :| 1 <= i < |s| && s[i].proxy.Some?;
      assert (s + [r])[i].proxy.Some?;
    }
  }

  /** A strictly better response displaces the held one and stands alone. */
  lemma {:induction false} FoldBetter(fs: seq<Response>, r: Response)
    requires 300 <= r.code <= 599
    requires forall i :: 0 <= i < |fs| ==> 300 <= fs[i].code <= 599 && Priority(r.code) < Priority(fs[i].code)
    ensures Pick(fs + [r], Priority(r.code)) == [r]
    ensures Summary(r, [r], Priority(r.code))
  {
    hide Priority, Summary;
    PickNothing(fs, Priority(r.code));
    assert (fs + [r])[..|fs + [r]| - 1] == fs;
    AloneIsSummary(r, Priority(r.code));
  }

  lemma {:induction false} AloneIsSummary(r: Response, p: int)
    ensures Summary(r, [r], p)
  {
    hide Usable;
    assert [r][..0] == [];
    assert AllWww([r]) == [] + r.www && AllProxy([r]) == [] + ListOf(r.proxy);
  }

  /** Once a 6xx has come, the first one is held and nothing changes any more. */
  lemma {:induction false} FoldGlobal(h: Held, before: seq<Response>, r: Response)
    requires Failures(before) && BranchFailure(r) && HeldIsBest(h, before)
    requires !NoGlobal(before + [r])
    ensures HeldIsBest(Hold(h, r), before + [r])
  {
    hide Absorb, Priority, Summary, Pick, IsMinimum;
    var fs := before + [r];
    if NoGlobal(before) {
      forall i: nat | FirstGlobal(fs, i)
        ensures Hold(h, r) == Held(fs[i], 0)
      {
        assert i == |before|;
        assert h.best.code / 100 != 6;
      }
    } else {
      SomeFirstGlobal(before);
      var k: nat :| FirstGlobal(before, k);
      assert FirstGlobal(fs, k);
      forall i: nat | FirstGlobal(fs, i)
        ensures i == k
      {
        assert !(i < k) && !(k < i);
      }
      assert h == Held(before[k], 0);
      GlobalStays(before[k], r);
    }
  }

  lemma {:induction false} GlobalStays(best: Response, r: Response)
    requires BranchFailure(best) && BranchFailure(r) && best.code >= 600
    ensures Hold(Held(best, 0), r) == Held(best, 0)
  {
    if r.code <= 599 {
      assert Priority(r.code) > 0;
    }
  }

  lemma {:induction false} MinimumGrows(p: int, before: seq<Response>, r: Response)
    requires 300 <= r.code <= 599
    requires forall i :: 0 <= i < |before| ==> 300 <= before[i].code <= 599
    requires before != [] ==> IsMinimum(p, before)
    ensures IsMinimum(if before == [] || Priority(r.code) < p then Priority(r.code) else p, before + [r])
  {
    var fs := before + [r];
    assert forall i :: 0 <= i < |before| ==> fs[i] == before[i];
    assert fs[|before|] == r;
    if before != [] {
      var k :| 0 <= k < |before| && Priority(before[k].code) == p;
      assert fs[k] == before[k];
    }
  }

  lemma {:induction false} PickGrows(before: seq<Response>, r: Response, p: int)
    requires 300 <= r.code <= 599
    requires forall i :: 0 <= i < |before| ==> 300 <= before[i].code <= 599
    ensures Pick(before + [r], p) == Pick(before, p) + (if Priority(r.code) == p then [r] else [])
  {
    assert (before + [r])[..|before + [r]| - 1] == before;
  }

  lemma {:induction false} DisplaceHeld(h: Held, before: seq<Response>, r: Response)
    requires 300 <= r.code <= 599 && Priority(r.code) < h.priority
    requires forall i :: 0 <= i < |before| ==> 300 <= before[i].code <= 599
    requires if before == [] then h == NOTHING_HELD else Preferred(h, before)
    ensures Preferred(Absorb(h, r), before + [r])
  {
    hide Priority, Pick, Summary, Usable, AppendTo;
    if before != [] {
      assert IsMinimum(h.priority, before);
    } else {
      assert h.priority == 50;
    }
    MinimumGrows(h.priority, before, r);
    assert Absorb(h, r) == Held(r, Priority(r.code));
    hide IsMinimum, Absorb;
    assert forall i :: 0 <= i < |before| ==> Priority(r.code) < Priority(before[i].code) by { BelowAll(h, before, r); }
    FoldBetter(before, r);
  }

  lemma {:induction false} BelowAll(h: Held, before: seq<Response>, r: Response)
    requires 300 <= r.code <= 599 && Priority(r.code) < h.priority
    requires forall i :: 0 <= i < |before| ==> 300 <= before[i].code <= 599
    requires before != [] ==> IsMinimum(h.priority, before)
    ensures forall i :: 0 <= i < |before| ==> Priority(r.code) < Priority(before[i].code)
  {
    hide Priority;
  }

  lemma {:induction false} JoinHeld(h: Held, before: seq<Response>, r: Response)
    requires 300 <= r.code <= 599 && Priority(r.code) == h.priority
    requires forall i :: 0 <= i < |before| ==> 300 <= before[i].code <= 599
    requires before != [] && Preferred(h, before)
    ensures Preferred(Absorb(h, r), before + [r])
  {
    MinimumGrows(h.priority, before, r);
    PickGrows(before, r, h.priority);
    FoldEqual(h, Pick(before, h.priority), r);
  }

  lemma {:induction false} KeepHeld(h: Held, before: seq<Response>, r: Response)
    requires 300 <= r.code <= 599 && h.priority < Priority(r.code)
    requires forall i :: 0 <= i < |before| ==> 300 <= before[i].code <= 599
    requires before != [] && Preferred(h, before)
    ensures Preferred(Absorb(h, r), before + [r])
  {
    MinimumGrows(h.priority, before, r);
    PickGrows(before, r, h.priority);
    assert Pick(before + [r], h.priority) == Pick(before, h.priority);
    assert Absorb(h, r) == h;
  }

  /** Among 3xx to 5xx responses the preferred one is held, with its equals folded in. */
  lemma {:induction false} FoldFailure(h: Held, before: seq<Response>, r: Response)
    requires 300 <= r.code <= 599
    requires forall i :: 0 <= i < |before| ==> 300 <= before[i].code <= 599
    requires if before == [] then h == NOTHING_HELD else Preferred(h, before)
    ensures Preferred(Absorb(h, r), before + [r])
  {
    if Priority(r.code) < h.priority {
      DisplaceHeld(h, before, r);
    } else if Priority(r.code) == h.priority {
      JoinHeld(h, before, r);
    } else {
      KeepHeld(h, before, r);
    }
  }

  /** Whatever failures arrived, in whatever order, the held response is the right one. */
  lemma {:induction false} HeldIsAlwaysBest(fs: seq<Response>)
    requires Failures(fs)
    ensures HeldIsBest(HoldAll(fs), fs)
  {
    if fs != [] {
      var before, r := fs[..|fs| - 1], fs[|fs| - 1];
      assert fs == before + [r];
      HeldIsAlwaysBest(before);
      hide Absorb, Priority, Preferred;
      if NoGlobal(fs) {
        FoldFailure(HoldAll(before), before, r);
      } else {
        FoldGlobal(HoldAll(before), before, r);
      }
    }
  }

  lemma {:induction false} SomeFirstGlobal(fs: seq<Response>)
    requires !NoGlobal(fs)
    ensures exists i: nat :: FirstGlobal(fs, i)
  {
    if NoGlobal(fs[..|fs| - 1]) {
      assert FirstGlobal(fs, |fs| - 1);
    } else {
      SomeFirstGlobal(fs[..|fs| - 1]);
      var i: nat :| FirstGlobal(fs[..|fs| - 1], i);
      assert FirstGlobal(fs, i);
    }
  }

  /** The guard that would throw away non-redirect contacts never fires. */
  lemma {:induction false} MergeKeepsContacts(fs: seq<Response>, r: Response)
    requires Failures(fs)
    requires 300 <= r.code <= 399 && HoldAll(fs).priority == Priority(r.code)
    ensures HoldAll(fs).best.code / 100 == 3
    ensures Absorb(HoldAll(fs), r).best.contacts == HoldAll(fs).best.contacts + Usable(r.contacts)
  {
    HeldClass(fs);
  }

  /** The class of the held response goes with its priority. */
  lemma {:induction false} HeldClass(fs: seq<Response>)
    requires Failures(fs)
    ensures HoldAll(fs).priority == 5 ==> HoldAll(fs).best.code / 100 == 3
  {
    HeldIsAlwaysBest(fs);
    if !NoGlobal(fs) {
      SomeFirstGlobal(fs);
    } else if fs != [] {
      OnlyRedirects(HoldAll(fs).best.code);
    }
  }

  lemma {:induction false} OnlyRedirects(code: int)
    requires 300 <= code <= 599
    ensures Priority(code) == 5 <==> code / 100 == 3
  {
  }

  /** As soon as one branch has failed, there is something to forward. */
  lemma {:induction false} SomethingHeld(fs: seq<Response>)
    requires Failures(fs) && fs != []
    ensures BranchFailure(HoldAll(fs).best)
  {
    HeldIsAlwaysBest(fs);
    if !NoGlobal(fs) {
      SomeFirstGlobal(fs);
    }
  }
}
