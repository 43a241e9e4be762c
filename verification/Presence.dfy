/** The presence server: subscriptions that are created, refreshed and lazily expired, dialog state shared
    by subscriptions and counted, and observers of the documents. */
module Presence {
  import opened Common

  /** The tags are run together without a separator, as the source hashes them. */
  datatype SetKey = SetKey(callId: string, tags: string)
  datatype Key = Key(dialogSet: SetKey, event: string, id: string)

  datatype Subscription = Subscription(resource: string, expires: int)

  /** `refs` counts the subscriptions attached; `instance` tells apart dialog states that had the same key
      at different times. */
  datatype DialogState = DialogState(refs: int, localCSeq: nat, instance: nat)

  datatype Resource = Resource(document: string, observers: set<Key>)

  datatype Substate = Active(remaining: int) | Terminated

  datatype Sent =
    | Response(code: nat)
    | Notify(key: Key, instance: nat, cseq: nat, document: string, state: Substate)

  datatype Server = Server(
    dialogs: map<Key, Subscription>,
    sets: map<SetKey, DialogState>,
    expirations: seq<(int, Key)>,
    resources: map<string, Resource>,
    instances: nat,
    log: seq<Sent>)

  datatype Event =
    | Subscribe(callId: string, toTag: Option<string>, freshTag: string, fromTag: string, event: string, id: string,
                resource: string, expires: Option<nat>, now: int)
    | NotifyResponse(key: Key, code: nat)
    | Publish(resource: string, document: Option<string>, order: seq<Key>, now: int)
    | Tick(now: int)
    | AddResource(resource: string)

  const DEFAULT_EXPIRES: nat := 3600

  function Init(): Server {
    Server(map[], map[], [], map[], 0, [])
  }

  // ----- dialog state -----

  function Attach(s: Server, sk: SetKey): Server {
    if sk in s.sets then s.(sets := s.sets[sk := s.sets[sk].(refs := s.sets[sk].refs + 1)])
    else s.(sets := s.sets[sk := DialogState(1, 0, s.instances)], instances := s.instances + 1)
  }

  function Detach(s: Server, sk: SetKey): Server {
    if sk !in s.sets then s
    else if s.sets[sk].refs == 1 then s.(sets := s.sets - {sk})
    else s.(sets := s.sets[sk := s.sets[sk].(refs := s.sets[sk].refs - 1)])
  }

  // ----- subscriptions -----

  /** Every subscription has its dialog state and its resource. */
  ghost predicate Linked(s: Server) {
    forall k :: k in s.dialogs ==> k.dialogSet in s.sets && s.dialogs[k].resource in s.resources
  }

  function SubstateAt(sub: Subscription, now: int): Substate {
    if sub.expires <= now then Terminated else Active(sub.expires - now)
  }

  predicate Known(s: Server, k: Key) {
    k in s.dialogs && k.dialogSet in s.sets && s.dialogs[k].resource in s.resources
  }

  function SendNotify(s: Server, k: Key, now: int): Server {
    if !Known(s, k) then s
    else
      var d := s.sets[k.dialogSet];
      s.(sets := s.sets[k.dialogSet := d.(localCSeq := d.localCSeq + 1)],
         log := s.log + [Notify(k, d.instance, d.localCSeq + 1, s.resources[s.dialogs[k].resource].document,
                                SubstateAt(s.dialogs[k], now))])
  }

  function Observe(s: Server, a: string, k: Key): Server {
    if a in s.resources then s.(resources := s.resources[a := s.resources[a].(observers := s.resources[a].observers + {k})])
    else s
  }

  function Unobserve(s: Server, a: string, k: Key): Server {
    if a in s.resources then s.(resources := s.resources[a := s.resources[a].(observers := s.resources[a].observers - {k})])
    else s
  }

  function Destroy(s: Server, k: Key): Server {
    if k !in s.dialogs then s
    else
      var a := s.dialogs[k].resource;
      var t := Detach(s, k.dialogSet);
      Unobserve(t.(dialogs := t.dialogs - {k}), a, k)
  }

  /** Before the first entry that is later than `t`. */
  function Insert(es: seq<(int, Key)>, t: int, k: Key): seq<(int, Key)> {
    if es == [] || es[0].0 > t then [(t, k)] + es else [es[0]] + Insert(es[1..], t, k)
  }

  function Schedule(s: Server, k: Key): Server {
    if k in s.dialogs then s.(expirations := Insert(s.expirations, s.dialogs[k].expires, k)) else s
  }

  /** The 202, the first NOTIFY and the entry for the expiry of a subscription just created or refreshed. */
  function Confirm(s: Server, k: Key, now: int): Server {
    Schedule(SendNotify(s.(log := s.log + [Response(202)]), k, now), k)
  }

  function Renewed(s: Server, k: Key, expires: int): Server {
    if k in s.dialogs then s.(dialogs := s.dialogs[k := s.dialogs[k].(expires := expires)]) else s
  }

  function Created(s: Server, k: Key, a: string, expires: int): Server {
    var t := Attach(s, k.dialogSet);
    Observe(t.(dialogs := t.dialogs[k := Subscription(a, expires)]), a, k)
  }

  function Reply(s: Server, code: nat): Server {
    s.(log := s.log + [Response(code)])
  }

  function MatchKey(e: Event): Key
    requires e.Subscribe?
  {
    Key(SetKey(e.callId, (if e.toTag.Some? then e.toTag.value else "") + e.fromTag), e.event, e.id)
  }

  /** The key of a new subscription, whose To tag is the server's own if the request has none. */
  function NewKey(e: Event): Key
    requires e.Subscribe?
  {
    Key(SetKey(e.callId, (if e.toTag.Some? then e.toTag.value else e.freshTag) + e.fromTag), e.event, e.id)
  }

  /** A refresh reads its Expires header without asking whether there is one, and a missing one reads as 0. */
  function RenewedUntil(e: Event): int
    requires e.Subscribe?
  {
    e.now + (if e.expires.Some? then e.expires.value else 0)
  }

  function OnSubscribe(s: Server, e: Event): Server
    requires e.Subscribe?
  {
    var k := MatchKey(e);
    var expires := e.now + (if e.expires.Some? then e.expires.value else DEFAULT_EXPIRES);
    if k in s.dialogs then Confirm(Renewed(s, k, RenewedUntil(e)), k, e.now)
    else if e.event != "presence" then Reply(s, 489)
    else if e.resource !in s.resources then Reply(s, 404)
    else Confirm(Created(s, NewKey(e), e.resource, expires), NewKey(e), e.now)
  }

  /** One NOTIFY to each observer, in the order in which the set is walked. */
  function NotifyAll(s: Server, order: seq<Key>, now: int): Server
    decreases |order|
  {
    if order == [] then s else NotifyAll(SendNotify(s, order[0], now), order[1..], now)
  }

  function OnPublish(s: Server, e: Event): Server
    requires e.Publish?
  {
    if e.resource !in s.resources then Reply(s, 404)
    else if e.document.None? then Reply(s, 400)
    else
      var r := s.resources[e.resource].(document := e.document.value);
      Reply(NotifyAll(s.(resources := s.resources[e.resource := r]), e.order, e.now), 200)
  }

  // ----- expiry -----

  predicate Due(s: Server, k: Key, now: int) {
    k in s.dialogs && s.dialogs[k].expires <= now
  }

  /** What becomes of the subscription that an entry names: a last NOTIFY and its end if it is still there and
      has not been refreshed beyond `now`, nothing otherwise. */
  function ExpireOne(s: Server, k: Key, now: int): Server {
    if Due(s, k, now) then Destroy(SendNotify(s, k, now), k) else s
  }

  /** A pass removes entries from the front, handling each, until one lies in the future. */
  function Expire(s: Server, now: int): Server
    decreases |s.expirations|
  {
    if s.expirations == [] || s.expirations[0].0 > now then s
    else Expire(ExpireOne(s.(expirations := s.expirations[1..]), s.expirations[0].1, now), now)
  }

  // ----- what is kept -----

  ghost function Sharing(dialogs: map<Key, Subscription>, sk: SetKey): set<Key> {
    set k | k in dialogs && k.dialogSet == sk
  }

  ghost function Watching(dialogs: map<Key, Subscription>, a: string): set<Key> {
    set k | k in dialogs && dialogs[k].resource == a
  }

  /** A dialog state exists exactly while some subscription shares it, and counts those that do. */
  ghost predicate CountsRight(s: Server) {
    forall sk :: if sk in s.sets then s.sets[sk].refs == |Sharing(s.dialogs, sk)| > 0 else Sharing(s.dialogs, sk) == {}
  }

  /** The observers of a document are exactly the live subscriptions to it. */
  ghost predicate ObserversRight(s: Server) {
    && (forall k :: k in s.dialogs ==> s.dialogs[k].resource in s.resources)
    && (forall a :: a in s.resources ==> s.resources[a].observers == Watching(s.dialogs, a))
  }

  ghost predicate Sorted(es: seq<(int, Key)>) {
    forall i, j :: 0 <= i < j < |es| ==> es[i].0 <= es[j].0
  }

  /** Whatever stale entries there are, every live subscription has one at its current expiry. */
  ghost predicate Scheduled(s: Server) {
    Sorted(s.expirations) && forall k :: k in s.dialogs ==> (s.dialogs[k].expires, k) in s.expirations
  }

  /** The sequence numbers of the NOTIFYs sent in one dialog state, in order. */
  ghost function Numbers(log: seq<Sent>, instance: nat): seq<nat> {
    if log == [] then []
    else
      var m := log[|log| - 1];
      Numbers(log[..|log| - 1], instance) + (if m.Notify? && m.instance == instance then [m.cseq] else [])
  }

  ghost predicate FromOne(ns: seq<nat>) {
    forall i :: 0 <= i < |ns| ==> ns[i] == i + 1
  }

  ghost predicate NumbersRight(s: Server) {
    && (forall i: nat :: FromOne(Numbers(s.log, i)))
    && (forall i: nat :: i >= s.instances ==> Numbers(s.log, i) == [])
    && (forall sk :: sk in s.sets ==> s.sets[sk].instance < s.instances
                                      && |Numbers(s.log, s.sets[sk].instance)| == s.sets[sk].localCSeq)
    && (forall x, y :: x in s.sets && y in s.sets && x != y ==> s.sets[x].instance != s.sets[y].instance)
  }

  ghost predicate Steady(s: Server) {
    CountsRight(s) && ObserversRight(s) && NumbersRight(s)
  }

  ghost predicate Sound(s: Server) {
    Steady(s) && Scheduled(s)
  }

  lemma {:induction false} SteadyLinked(s: Server)
    requires Steady(s)
    ensures Linked(s)
  {
    forall k | k in s.dialogs
      ensures k.dialogSet in s.sets
    {
      assert k in Sharing(s.dialogs, k.dialogSet);
    }
  }

  // ----- one NOTIFY -----

  lemma {:induction false} NumbersSnoc(log: seq<Sent>, m: Sent, instance: nat)
    ensures Numbers(log + [m], instance)
         == Numbers(log, instance) + (if m.Notify? && m.instance == instance then [m.cseq] else [])
  {
    assert (log + [m])[..|log|] == log;
  }

  lemma {:induction false} ReplySound(s: Server, code: nat)
    requires NumbersRight(s)
    ensures NumbersRight(Reply(s, code))
  {
    forall i: nat
      ensures Numbers(Reply(s, code).log, i) == Numbers(s.log, i)
    {
      NumbersSnoc(s.log, Response(code), i);
    }
  }

  lemma {:induction false} NotifyNumbers(s: Server, k: Key, now: int)
    requires NumbersRight(s) && k in s.dialogs && k.dialogSet in s.sets && s.dialogs[k].resource in s.resources
    ensures NumbersRight(SendNotify(s, k, now))
  {
    var t := SendNotify(s, k, now);
    var m := t.log[|s.log|];
    forall i: nat
      ensures Numbers(t.log, i) == Numbers(s.log, i) + (if i == m.instance then [m.cseq] else [])
    {
      NumbersSnoc(s.log, m, i);
    }
    assert |Numbers(s.log, m.instance)| == s.sets[k.dialogSet].localCSeq;
    forall i: nat
      ensures FromOne(Numbers(t.log, i))
    {
      assert FromOne(Numbers(s.log, i));
    }
  }

  lemma {:induction false} NotifySteady(s: Server, k: Key, now: int)
    requires Steady(s)
    ensures Steady(SendNotify(s, k, now))
  {
    if Known(s, k) {
      NotifyNumbers(s, k, now);
      hide NumbersRight, Sharing, Watching;
    }
  }

  lemma {:induction false} NotifyAllSound(s: Server, order: seq<Key>, now: int)
    requires Sound(s)
    ensures Sound(NotifyAll(s, order, now))
    decreases |order|
  {
    if order != [] {
      NotifySteady(s, order[0], now);
      hide Steady;
      NotifyAllSound(SendNotify(s, order[0], now), order[1..], now);
    }
  }

  // ----- the end of a subscription -----

  lemma {:induction false} DestroyCounts(s: Server, k: Key)
    requires CountsRight(s) && k in s.dialogs
    ensures CountsRight(Destroy(s, k))
  {
    hide Sharing;
    var t := Destroy(s, k);
    forall sk
      ensures if sk in t.sets then t.sets[sk].refs == |Sharing(t.dialogs, sk)| > 0 else Sharing(t.dialogs, sk) == {}
    {
      SharingRemoved(s.dialogs, k, sk);
    }
  }

  lemma {:induction false} SharingRemoved(dialogs: map<Key, Subscription>, k: Key, sk: SetKey)
    requires k in dialogs
    ensures k in Sharing(dialogs, k.dialogSet)
    ensures Sharing(dialogs - {k}, sk) == if sk == k.dialogSet then Sharing(dialogs, sk) - {k} else Sharing(dialogs, sk)
  {
  }

  lemma {:induction false} DestroyObservers(s: Server, k: Key)
    requires ObserversRight(s) && k in s.dialogs
    ensures ObserversRight(Destroy(s, k))
  {
    var t := Destroy(s, k);
    forall a | a in t.resources
      ensures t.resources[a].observers == Watching(t.dialogs, a)
    {
      assert Watching(t.dialogs, a) == Watching(s.dialogs, a) - {k};
    }
  }

  lemma {:induction false} DestroyNumbers(s: Server, k: Key)
    requires NumbersRight(s)
    ensures NumbersRight(Destroy(s, k))
  {
    FewerSetsNumbered(s, Destroy(s, k));
  }

  lemma {:induction false} FewerSetsNumbered(s: Server, t: Server)
    requires NumbersRight(s) && t.log == s.log && t.instances == s.instances
    requires forall sk :: sk in t.sets ==> sk in s.sets && t.sets[sk] == s.sets[sk].(refs := t.sets[sk].refs)
    ensures NumbersRight(t)
  {
    hide Numbers, FromOne;
  }

  lemma {:induction false} DestroySteady(s: Server, k: Key)
    requires Steady(s)
    ensures Steady(Destroy(s, k))
  {
    if k in s.dialogs {
      DestroyCounts(s, k);
      DestroyObservers(s, k);
      DestroyNumbers(s, k);
      hide CountsRight, ObserversRight, NumbersRight, Destroy;
    }
  }

  lemma {:induction false} ExpireOneSteady(s: Server, k: Key, now: int)
    requires Steady(s)
    ensures Steady(ExpireOne(s, k, now))
  {
    hide Steady;
    NotifySteady(s, k, now);
    DestroySteady(SendNotify(s, k, now), k);
  }

  /** The NOTIFYs sent for one subscription, in order. */
  ghost function NotesOf(log: seq<Sent>, k: Key): seq<Sent> {
    if log == [] then []
    else
      var m := log[|log| - 1];
      NotesOf(log[..|log| - 1], k) + (if m.Notify? && m.key == k then [m] else [])
  }

  lemma {:induction false} NotesSnoc(log: seq<Sent>, m: Sent, k: Key)
    ensures NotesOf(log + [m], k) == NotesOf(log, k) + (if m.Notify? && m.key == k then [m] else [])
  {
    assert (log + [m])[..|log|] == log;
  }

  predicate Farewell(m: Sent) {
    m.Notify? && m.state.Terminated?
  }

  /** What one pass has done to one subscription. */
  ghost predicate PassedOver(s: Server, t: Server, k: Key, now: int) {
    if Due(s, k, now) then
      k !in t.dialogs
      && |NotesOf(t.log, k)| == |NotesOf(s.log, k)| + 1
      && NotesOf(t.log, k)[..|NotesOf(s.log, k)|] == NotesOf(s.log, k)
      && Farewell(NotesOf(t.log, k)[|NotesOf(s.log, k)|])
    else
      (k in t.dialogs <==> k in s.dialogs)
      && (k in s.dialogs ==> t.dialogs[k] == s.dialogs[k])
      && NotesOf(t.log, k) == NotesOf(s.log, k)
  }

  lemma {:induction false} ExpireOnePasses(s: Server, j: Key, k: Key, now: int)
    requires Linked(s)
    ensures var t := ExpireOne(s, j, now);
            if j == k || !Due(s, k, now) then PassedOver(s, t, k, now)
            else Due(t, k, now) && t.dialogs[k] == s.dialogs[k] && NotesOf(t.log, k) == NotesOf(s.log, k)
  {
    if Due(s, j, now) {
      NotesSnoc(s.log, SendNotify(s, j, now).log[|s.log|], k);
    }
  }

  lemma {:induction false} ExpireOneKeepsSchedule(s: Server, now: int)
    requires Scheduled(s) && Linked(s) && s.expirations != [] && s.expirations[0].0 <= now
    ensures Scheduled(ExpireOne(s.(expirations := s.expirations[1..]), s.expirations[0].1, now))
  {
    var t := ExpireOne(s.(expirations := s.expirations[1..]), s.expirations[0].1, now);
    forall k | k in t.dialogs
      ensures (t.dialogs[k].expires, k) in t.expirations
    {
      var e := (s.dialogs[k].expires, k);
      assert e in s.expirations;
      assert s.expirations == [s.expirations[0]] + s.expirations[1..];
    }
  }

  lemma {:induction false} NothingIsDue(s: Server, now: int, k: Key)
    requires Scheduled(s) && (s.expirations == [] || s.expirations[0].0 > now)
    ensures PassedOver(s, s, k, now) && forall e :: e in s.expirations ==> e.0 > now
  {
    if k in s.dialogs {
      assert (s.dialogs[k].expires, k) in s.expirations;
    }
  }

  lemma {:induction false} PassesOn(s: Server, t: Server, u: Server, j: Key, k: Key, now: int)
    requires if j == k || !Due(s, k, now) then PassedOver(s, t, k, now)
             else Due(t, k, now) && t.dialogs[k] == s.dialogs[k] && NotesOf(t.log, k) == NotesOf(s.log, k)
    requires PassedOver(t, u, k, now)
    ensures PassedOver(s, u, k, now)
  {
    hide NotesOf, Farewell;
  }

  /** A pass is sound and complete: exactly the live subscriptions whose expiry has come are ended, with one
      last NOTIFY each that says so, and every other one is left alone, whatever stale entries there are. */
  lemma {:induction false} ExpireExactly(s: Server, now: int, k: Key)
    requires Sound(s)
    ensures Sound(Expire(s, now)) && PassedOver(s, Expire(s, now), k, now)
    ensures forall e :: e in Expire(s, now).expirations ==> e.0 > now
    decreases |s.expirations|
  {
    hide Steady, Scheduled, ExpireOne, Linked, PassedOver, NotesOf, Due;
    SteadyLinked(s);
    if s.expirations == [] || s.expirations[0].0 > now {
      NothingIsDue(s, now, k);
    } else {
      var j, t := s.expirations[0].1, s.(expirations := s.expirations[1..]);
      SameButEntries(s, t);
      ExpireOneSteady(t, j, now);
      ExpireOneKeepsSchedule(s, now);
      ExpireOneKeepsEntries(t, j, now);
      SteadyLinked(t);
      var u := ExpireOne(t, j, now);
      ExpireOnePasses(t, j, k, now);
      ExpireExactly(u, now, k);
      PassesOn(t, u, Expire(u, now), j, k, now);
      SameUpToEntries(s, t, Expire(u, now), k, now);
    }
  }

  lemma {:induction false} SameUpToEntries(s: Server, t: Server, u: Server, k: Key, now: int)
    requires t == s.(expirations := t.expirations) && PassedOver(t, u, k, now)
    ensures PassedOver(s, u, k, now)
  {
    hide NotesOf, Farewell;
  }

  lemma {:induction false} ExpireOneKeepsEntries(s: Server, k: Key, now: int)
    ensures ExpireOne(s, k, now).expirations == s.expirations
  {
  }

  lemma {:induction false} SameButEntries(s: Server, t: Server)
    requires Steady(s) && t == s.(expirations := t.expirations)
    ensures Steady(t)
  {
  }

  // ----- new and refreshed subscriptions -----

  lemma {:induction false} InsertSorted(es: seq<(int, Key)>, t: int, k: Key)
    requires Sorted(es)
    ensures Sorted(Insert(es, t, k))
    ensures forall e :: e in Insert(es, t, k) <==> e == (t, k) || e in es
  {
    if es != [] && es[0].0 <= t {
      InsertSorted(es[1..], t, k);
      var r := Insert(es[1..], t, k);
      assert forall e :: e in es <==> e == es[0] || e in es[1..];
      forall i | 0 <= i < |r|
        ensures es[0].0 <= r[i].0
      {
        assert r[i] in r;
      }
    }
  }

  lemma {:induction false} ScheduleSound(s: Server, k: Key)
    requires k in s.dialogs && Sorted(s.expirations)
    requires forall l :: l in s.dialogs && l != k ==> (s.dialogs[l].expires, l) in s.expirations
    ensures Scheduled(Schedule(s, k))
  {
    InsertSorted(s.expirations, s.dialogs[k].expires, k);
  }

  /** Every subscription but `k` has its entry. */
  ghost predicate ScheduledBut(s: Server, k: Key) {
    Sorted(s.expirations) && forall l :: l in s.dialogs && l != k ==> (s.dialogs[l].expires, l) in s.expirations
  }

  lemma {:induction false} ConfirmSound(s: Server, k: Key, now: int)
    requires Steady(s) && k in s.dialogs && ScheduledBut(s, k)
    ensures Sound(Confirm(s, k, now))
  {
    ReplySteady(s, 202);
    var r := Reply(s, 202);
    NotifySteady(r, k, now);
    hide Steady;
    var t := SendNotify(r, k, now);
    ScheduleSound(t, k);
    SameButEntries(t, Schedule(t, k));
  }

  lemma {:induction false} ReplySteady(s: Server, code: nat)
    requires Steady(s)
    ensures Steady(Reply(s, code))
  {
    ReplySound(s, code);
    hide NumbersRight;
  }

  lemma {:induction false} RenewedSteady(s: Server, k: Key, expires: int)
    requires Steady(s)
    ensures Steady(Renewed(s, k, expires))
  {
    var t := Renewed(s, k, expires);
    forall sk
      ensures Sharing(t.dialogs, sk) == Sharing(s.dialogs, sk)
    {
    }
    forall a
      ensures Watching(t.dialogs, a) == Watching(s.dialogs, a)
    {
    }
  }

  lemma {:induction false} SharingAdded(dialogs: map<Key, Subscription>, k: Key, sub: Subscription, sk: SetKey)
    requires k !in dialogs
    ensures k !in Sharing(dialogs, sk)
    ensures Sharing(dialogs[k := sub], sk) == Sharing(dialogs, sk) + (if sk == k.dialogSet then {k} else {})
  {
  }

  lemma {:induction false} CreatedCounts(s: Server, k: Key, a: string, expires: int)
    requires CountsRight(s) && k !in s.dialogs
    ensures CountsRight(Created(s, k, a, expires))
  {
    hide Sharing;
    var t := Created(s, k, a, expires);
    forall sk
      ensures if sk in t.sets then t.sets[sk].refs == |Sharing(t.dialogs, sk)| > 0 else Sharing(t.dialogs, sk) == {}
    {
      SharingAdded(s.dialogs, k, Subscription(a, expires), sk);
    }
  }

  lemma {:induction false} CreatedObservers(s: Server, k: Key, a: string, expires: int)
    requires ObserversRight(s) && k !in s.dialogs && a in s.resources
    ensures ObserversRight(Created(s, k, a, expires))
  {
    var t := Created(s, k, a, expires);
    forall b | b in t.resources
      ensures t.resources[b].observers == Watching(t.dialogs, b)
    {
      assert Watching(t.dialogs, b) == Watching(s.dialogs, b) + (if a == b then {k} else {});
    }
  }

  lemma {:induction false} CreatedNumbers(s: Server, k: Key, a: string, expires: int)
    requires NumbersRight(s)
    ensures NumbersRight(Created(s, k, a, expires))
  {
    var t := Created(s, k, a, expires);
    if k.dialogSet in s.sets {
      FewerSetsNumbered(s, t);
    } else {
      hide Numbers, FromOne;
      assert |Numbers(s.log, s.instances)| == 0;
    }
  }

  lemma {:induction false} CreatedSteady(s: Server, k: Key, a: string, expires: int)
    requires Steady(s) && k !in s.dialogs && a in s.resources
    ensures Steady(Created(s, k, a, expires))
  {
    hide CountsRight, ObserversRight, NumbersRight, Created;
    CreatedCounts(s, k, a, expires);
    CreatedObservers(s, k, a, expires);
    CreatedNumbers(s, k, a, expires);
  }

  // ----- publications -----

  ghost predicate Distinct(order: seq<Key>) {
    forall i, j :: 0 <= i < j < |order| ==> order[i] != order[j]
  }

  lemma {:induction false} NotifyAllOnce(s: Server, order: seq<Key>, now: int, k: Key)
    requires Distinct(order) && forall j :: j in order ==> Known(s, j)
    ensures var was, got := NotesOf(s.log, k), NotesOf(NotifyAll(s, order, now).log, k);
            if k in order then
              Known(s, k) && |got| == |was| + 1 && got[..|was|] == was && got[|was|].Notify?
              && got[|was|].document == s.resources[s.dialogs[k].resource].document
            else got == was
    decreases |order|
  {
    if order != [] {
      var t, rest := SendNotify(s, order[0], now), order[1..];
      forall j | j in rest
        ensures Known(t, j)
      {
        assert Known(s, j);
      }
      assert k in order <==> k == order[0] || k in rest;
      assert order[0] !in rest;
      assert Known(s, order[0]);
      NotesSnoc(s.log, t.log[|s.log|], k);
      NotifyAllOnce(t, rest, now, k);
    }
  }

  /** A publication is accepted for a known resource, and sends exactly one NOTIFY with the new document to
      each live subscription to it and none to any other. */
  lemma {:induction false} PublishExactly(s: Server, e: Event, k: Key)
    requires Sound(s) && e.Publish? && Legal(s, e) && e.resource in s.resources && e.document.Some?
    ensures var was, got := NotesOf(s.log, k), NotesOf(Step(s, e).log, k);
            if k in s.dialogs && s.dialogs[k].resource == e.resource then
              |got| == |was| + 1 && got[..|was|] == was && got[|was|].Notify? && got[|was|].document == e.document.value
            else got == was
  {
    SteadyLinked(s);
    var r := s.resources[e.resource].(document := e.document.value);
    var t := s.(resources := s.resources[e.resource := r]);
    assert s.resources[e.resource].observers == Watching(s.dialogs, e.resource);
    assert k in e.order <==> k in Watching(s.dialogs, e.resource);
    forall j | j in e.order
      ensures Known(t, j)
    {
      assert j in s.resources[e.resource].observers;
    }
    NotifyAllOnce(t, e.order, e.now, k);
    NotesSnoc(NotifyAll(t, e.order, e.now).log, Response(200), k);
  }

  // ----- every run -----

  /** A tag that the server makes up does not clash with a live subscription, and a publication reaches each
      observer once. */
  ghost predicate Legal(s: Server, e: Event) {
    match e
    case Subscribe(_, _, _, _, _, _, _, _, _) =>
      MatchKey(e) !in s.dialogs ==> NewKey(e) !in s.dialogs
    case Publish(a, _, order, _) =>
      a in s.resources ==> (forall k :: k in order <==> k in s.resources[a].observers)
                           && Distinct(order)
    case _ => true
  }

  function Step(s: Server, e: Event): Server {
    match e
    case Subscribe(_, _, _, _, _, _, _, _, _) => OnSubscribe(s, e)
    case NotifyResponse(k, code) => if code == 481 then Destroy(s, k) else s
    case Publish(_, _, _, _) => OnPublish(s, e)
    case Tick(now) => Expire(s, now)
    case AddResource(a) =>
      if a in s.resources then s else s.(resources := s.resources[a := Resource("No known Presence document", {})])
  }

  lemma {:induction false} SubscribeSound(s: Server, e: Event)
    requires Sound(s) && e.Subscribe? && Legal(s, e)
    ensures Sound(OnSubscribe(s, e))
  {
    hide Steady, MatchKey, NewKey, Confirm;
    var expires := e.now + (if e.expires.Some? then e.expires.value else DEFAULT_EXPIRES);
    if MatchKey(e) in s.dialogs {
      var t := Renewed(s, MatchKey(e), RenewedUntil(e));
      RenewedSteady(s, MatchKey(e), RenewedUntil(e));
      ConfirmSound(t, MatchKey(e), e.now);
    } else if e.event == "presence" && e.resource in s.resources {
      var t := Created(s, NewKey(e), e.resource, expires);
      CreatedSteady(s, NewKey(e), e.resource, expires);
      ConfirmSound(t, NewKey(e), e.now);
    } else {
      ReplySteady(s, 489);
      ReplySteady(s, 404);
    }
  }

  /** The subscription that a request creates or refreshes. */
  function SubscribedKey(s: Server, e: Event): Key
    requires e.Subscribe?
  {
    if MatchKey(e) in s.dialogs then MatchKey(e) else NewKey(e)
  }

  /** Does it ask for 0 seconds, or refresh without an Expires header? */
  predicate AsksForNothing(s: Server, e: Event)
    requires e.Subscribe?
  {
    e.expires == Some(0) || (e.expires.None? && MatchKey(e) in s.dialogs)
  }

  lemma {:induction false} ConfirmNotifies(s: Server, k: Key, now: int)
    requires Known(s, k)
    ensures Confirm(s, k, now).dialogs == s.dialogs
    ensures var notes := NotesOf(Confirm(s, k, now).log, k);
            notes != [] && notes[|notes| - 1].Notify? && notes[|notes| - 1].state == SubstateAt(s.dialogs[k], now)
  {
    hide Insert;
    var r := Reply(s, 202);
    NotesSnoc(r.log, SendNotify(r, k, now).log[|r.log|], k);
  }

  lemma {:induction false} SubscribeConfirms(s: Server, e: Event)
    requires Linked(s) && e.Subscribe?
    requires MatchKey(e) in s.dialogs || (e.event == "presence" && e.resource in s.resources)
    ensures var k, t := SubscribedKey(s, e), OnSubscribe(s, e);
            var notes := NotesOf(t.log, k);
            && k in t.dialogs && (t.dialogs[k].expires <= e.now <==> AsksForNothing(s, e))
            && notes != [] && notes[|notes| - 1].Notify?
            && notes[|notes| - 1].state == SubstateAt(t.dialogs[k], e.now)
  {
    hide Confirm, NotesOf, MatchKey, NewKey;
    var k := SubscribedKey(s, e);
    var expires := e.now + (if e.expires.Some? then e.expires.value else DEFAULT_EXPIRES);
    if MatchKey(e) in s.dialogs {
      ConfirmNotifies(Renewed(s, k, RenewedUntil(e)), k, e.now);
    } else {
      ConfirmNotifies(Created(s, k, e.resource, expires), k, e.now);
    }
  }

  /** Which subscriptions are over as soon as they are confirmed, so that their first NOTIFY says terminated and
      the pass that follows ends them: those that ask for 0 seconds, and those refreshed without an Expires
      header, although a new one without it lasts for an hour. */
  lemma {:induction false} OverAtOnceExactly(s: Server, e: Event, later: int)
    requires Sound(s) && e.Subscribe? && Legal(s, e) && later >= e.now
    requires MatchKey(e) in s.dialogs || (e.event == "presence" && e.resource in s.resources)
    ensures var k, t := SubscribedKey(s, e), OnSubscribe(s, e);
            var notes := NotesOf(t.log, k);
            && k in t.dialogs && notes != [] && notes[|notes| - 1].Notify?
            && (notes[|notes| - 1].state.Terminated? <==> AsksForNothing(s, e))
            && (k !in Expire(t, e.now).dialogs <==> AsksForNothing(s, e))
            && (AsksForNothing(s, e) ==> k !in Expire(t, later).dialogs)
  {
    assert Linked(s) by { SteadyLinked(s); }
    hide Sound, OnSubscribe, Expire, NotesOf, MatchKey, NewKey, Linked, Legal;
    var k, t := SubscribedKey(s, e), OnSubscribe(s, e);
    SubscribeConfirms(s, e);
    SubscribeSound(s, e);
    ExpireExactly(t, e.now, k);
    ExpireExactly(t, later, k);
  }

  lemma {:induction false} PublishedSteady(s: Server, a: string, document: string)
    requires Steady(s) && a in s.resources
    ensures Steady(s.(resources := s.resources[a := s.resources[a].(document := document)]))
  {
  }

  lemma {:induction false} PublishSound(s: Server, e: Event)
    requires Sound(s) && e.Publish?
    ensures Sound(OnPublish(s, e))
  {
    if e.resource in s.resources && e.document.Some? {
      PublishedSteady(s, e.resource, e.document.value);
      hide Steady;
      var t := s.(resources := s.resources[e.resource := s.resources[e.resource].(document := e.document.value)]);
      NotifyAllSound(t, e.order, e.now);
      ReplySteady(NotifyAll(t, e.order, e.now), 200);
    } else {
      ReplySteady(s, 404);
      ReplySteady(s, 400);
    }
  }

  lemma {:induction false} AddedSteady(s: Server, a: string)
    requires Steady(s) && a !in s.resources
    ensures Steady(s.(resources := s.resources[a := Resource("No known Presence document", {})]))
  {
    assert Watching(s.dialogs, a) == {};
  }

  lemma {:induction false} StepSound(s: Server, e: Event)
    requires Sound(s) && Legal(s, e)
    ensures Sound(Step(s, e))
  {
    match e
    case Subscribe(_, _, _, _, _, _, _, _, _) => SubscribeSound(s, e);
    case NotifyResponse(k, code) =>
      DestroySteady(s, k);
      hide Steady;
    case Publish(_, _, _, _) => PublishSound(s, e);
    case Tick(now) => ExpireExactly(s, now, Key(SetKey("", ""), "", ""));
    case AddResource(a) =>
      if a !in s.resources {
        AddedSteady(s, a);
        hide Steady;
      }
  }

  ghost predicate IsRun(states: seq<Server>, events: seq<Event>) {
    && |states| == |events| + 1 && states[0] == Init()
    && forall i :: 0 <= i < |events| ==>
      Legal(states[i], events[i]) && states[i + 1] == Step(states[i], events[i])
  }

  lemma {:induction false} InitSound()
    ensures Sound(Init())
  {
    assert forall sk :: Sharing(map[], sk) == {};
  }

  /** In every run: reference counts, observers, scheduled expiries and NOTIFY numbers are right. */
  lemma {:induction false} RunSound(states: seq<Server>, events: seq<Event>, n: nat)
    requires IsRun(states, events) && n < |states|
    ensures Sound(states[n])
  {
    hide Sound, Step, Legal;
    if n == 0 {
      InitSound();
    } else {
      RunSound(states, events, n - 1);
      StepSound(states[n - 1], events[n - 1]);
    }
  }
}
