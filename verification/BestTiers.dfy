/** Which failure a client gets to see: the proxy's order of preference as a list of tiers of status codes, and
    what it makes of the failures of several branches. */
module BestTiers {
  import opened BestResponse

  const REDIRECTS: set<int> := set code | 300 <= code <= 399

  /** The codes with a tier of their own, from what a client can most easily repair to what tells it least. */
  const NAMED: seq<set<int>> := [
    {412}, {484}, {422, 423}, {401, 407}, REDIRECTS, {402},
    {493}, {420}, {406, 415, 488},
    {416, 417}, {405, 501}, {580}, {485}, {428, 429, 494}, {413, 414}, {421},
    {486}, {480}, {410}, {436, 437, 513}, {403}, {404}, {487},
    {482, 483}]

  predicate Named(code: int) {
    exists i :: 0 <= i < |NAMED| && code in NAMED[i]
  }

  /** Behind them come the other failures of servers but 503, then 503 with the other failures of clients, and
      last 408. */
  predicate InTier(i: nat, code: int) {
    if i < |NAMED| then code in NAMED[i]
    else if i == |NAMED| then 500 <= code <= 599 && code != 503 && !Named(code)
    else if i == |NAMED| + 1 then code == 503 || (400 <= code <= 499 && code != 408 && !Named(code))
    else i == |NAMED| + 2 && code == 408
  }

  // ----- the tiers against the priorities -----

  const PRIORITIES: seq<int> :=
    [1, 2, 3, 4, 5, 6, 10, 12, 13, 20, 21, 22, 23, 24, 25, 26, 30, 31, 32, 33, 34, 35, 36, 41, 42, 43, 49]

  lemma {:induction false} PrioritiesAscend(i: nat, j: nat)
    requires i < |PRIORITIES| && j < |PRIORITIES|
    ensures i < j <==> PRIORITIES[i] < PRIORITIES[j]
  {
  }

  lemma {:induction false} NamedPriority(i: nat, code: int)
    requires i < |NAMED| && code in NAMED[i]
    ensures 300 <= code <= 599 && Priority(code) == PRIORITIES[i]
  {
    assert NAMED[4] == REDIRECTS;
  }

  /** The named codes in one set. */
  const LISTED: set<int> :=
    {412, 484, 422, 423, 401, 407, 402, 493, 420, 406, 415, 488, 416, 417, 405, 501, 580, 485, 428, 429, 494, 413, 414,
      421, 486, 480, 410, 436, 437, 513, 403, 404, 487, 482, 483}

  lemma {:induction false} ListedIsNamed(code: int)
    requires code in LISTED || code in REDIRECTS
    ensures Named(code)
  {
    assert NAMED[0] == {412} && NAMED[1] == {484} && NAMED[2] == {422, 423} && NAMED[3] == {401, 407};
    assert NAMED[4] == REDIRECTS && NAMED[5] == {402} && NAMED[6] == {493} && NAMED[7] == {420};
    assert NAMED[8] == {406, 415, 488} && NAMED[9] == {416, 417} && NAMED[10] == {405, 501} && NAMED[11] == {580};
    assert NAMED[12] == {485} && NAMED[13] == {428, 429, 494} && NAMED[14] == {413, 414} && NAMED[15] == {421};
    assert NAMED[16] == {486} && NAMED[17] == {480} && NAMED[18] == {410} && NAMED[19] == {436, 437, 513};
    assert NAMED[20] == {403} && NAMED[21] == {404} && NAMED[22] == {487} && NAMED[23] == {482, 483};
  }

  lemma {:induction false} UnnamedPriority(code: int)
    requires 300 <= code <= 599 && !Named(code)
    ensures code >= 400
    ensures Priority(code) == if code == 408 then 49 else if code >= 500 && code != 503 then 42 else 43
  {
    hide Named;
    if code in LISTED || code in REDIRECTS {
      ListedIsNamed(code);
    }
  }

  lemma {:induction false} TierPriority(i: nat, code: int)
    requires InTier(i, code)
    ensures i < |PRIORITIES| && 300 <= code <= 599 && Priority(code) == PRIORITIES[i]
  {
    hide Priority;
    if i < |NAMED| {
      NamedPriority(i, code);
    } else if code != 503 && code != 408 {
      UnnamedPriority(code);
    } else {
      NotNamed();
      UnnamedPriority(code);
    }
  }

  lemma {:induction false} NotNamed()
    ensures !Named(408) && !Named(503)
  {
  }

  lemma {:induction false} SomeTier(code: int) returns (i: nat)
    requires 300 <= code <= 599
    ensures InTier(i, code)
  {
    if Named(code) {
      i :| 0 <= i < |NAMED| && code in NAMED[i];
    } else {
      UnnamedPriority(code);
      i := if code == 408 then |NAMED| + 2 else if code >= 500 && code != 503 then |NAMED| else |NAMED| + 1;
    }
  }

  // ----- what the tiers are for -----

  /** Every failure but a 6xx is of exactly one tier. */
  lemma {:induction false} OneTier(code: int)
    requires 300 <= code <= 599
    ensures exists i :: InTier(i, code)
    ensures forall i, j :: InTier(i, code) && InTier(j, code) ==> i == j
  {
    hide Priority, InTier;
    var k := SomeTier(code);
    forall i, j | InTier(i, code) && InTier(j, code)
      ensures i == j
    {
      TierPriority(i, code);
      TierPriority(j, code);
      PrioritiesAscend(i, j);
      PrioritiesAscend(j, i);
    }
  }

  /** Of two failures of different tiers, whichever arrives first, that of the earlier tier is held. */
  lemma {:induction false} EarlierTierWins(a: Response, b: Response, i: nat, j: nat)
    requires InTier(i, a.code) && InTier(j, b.code) && i < j
    ensures Failures([a, b]) && HoldAll([a, b]).best == a
    ensures Failures([b, a]) && HoldAll([b, a]).best == a
  {
    hide InTier;
    TierPriority(i, a.code);
    TierPriority(j, b.code);
    PrioritiesAscend(i, j);
    PriorityBelow50(a.code);
    PriorityBelow50(b.code);
    hide Priority, HoldAll;
    HoldTwo(a, b);
    HoldTwo(b, a);
    assert Hold(NOTHING_HELD, a) == Held(a, Priority(a.code));
    assert Hold(NOTHING_HELD, b) == Held(b, Priority(b.code));
  }

  lemma {:induction false} PriorityBelow50(code: int)
    requires 300 <= code <= 599
    ensures Priority(code) < 50
  {
  }

  lemma {:induction false} HoldTwo(a: Response, b: Response)
    requires BranchFailure(a) && BranchFailure(b)
    ensures Failures([a, b]) && HoldAll([a, b]) == Hold(Hold(NOTHING_HELD, a), b)
  {
    hide Hold;
    assert [a][..0] == [];
    assert HoldAll([a]) == Hold(HoldAll([]), a);
    assert [a, b][..1] == [a];
  }

  ghost predicate OfEarliestTier(code: int, fs: seq<Response>) {
    exists i ::
      && InTier(i, code)
      && (exists k :: 0 <= k < |fs| && InTier(i, fs[k].code))
      && (forall k, j :: 0 <= k < |fs| && InTier(j, fs[k].code) ==> i <= j)
  }

  /** Of any number of failures without a 6xx, in any order, one of the earliest tier present is held. */
  lemma {:induction false} HeldIsOfEarliestTier(fs: seq<Response>)
    requires Failures(fs) && fs != [] && NoGlobal(fs)
    ensures OfEarliestTier(HoldAll(fs).best.code, fs)
  {
    hide InTier, Priority, Summary, HoldAll, Pick;
    HeldIsAlwaysBest(fs);
    var h := HoldAll(fs);
    assert Preferred(h, fs);
    var i := SomeTier(h.best.code);
    TierPriority(i, h.best.code);
    var m :| 0 <= m < |fs| && Priority(fs[m].code) == h.priority;
    var n := SomeTier(fs[m].code);
    TierPriority(n, fs[m].code);
    PrioritiesAscend(i, n);
    PrioritiesAscend(n, i);
    forall k, j | 0 <= k < |fs| && InTier(j, fs[k].code)
      ensures i <= j
    {
      TierPriority(j, fs[k].code);
      PrioritiesAscend(j, i);
    }
  }
}
