/** What a watcher may rely on: how its requests are answered, which of them belong to one subscription, and that a
    subscription lasts for the time it was confirmed for. */
module PresenceClients {
  import opened Common
  import opened Presence

  // ----- subscribing -----

  /** When a new or a refreshed subscription is due to end. */
  function AskedUntil(s: Server, e: Event): int
    requires e.Subscribe?
  {
    e.now + (if e.expires.Some? then e.expires.value else if MatchKey(e) in s.dialogs then 0 else 3600)
  }

  /** A request within a subscription, or for presence of a resource that is there, is accepted with 202: the
      subscription lasts for what it asks for, a new one for an hour and a refreshed one for no time if it does not
      ask, and no other subscription changes. Any other request is refused, with 489 for another event and with 404
      for an unknown resource, and changes nothing. */
  lemma {:induction false} SubscribedExactly(s: Server, e: Event)
    requires Linked(s) && e.Subscribe?
    ensures var k, t := SubscribedKey(s, e), OnSubscribe(s, e);
            var a := if MatchKey(e) in s.dialogs then s.dialogs[k].resource else e.resource;
            if MatchKey(e) in s.dialogs || (e.event == "presence" && e.resource in s.resources) then
              && t.dialogs == s.dialogs[k := Subscription(a, AskedUntil(s, e))]
              && |t.log| == |s.log| + 2 && t.log[..|s.log|] == s.log && t.log[|s.log|] == Response(202)
              && t.log[|s.log| + 1].Notify? && t.log[|s.log| + 1].key == k
              && t.log[|s.log| + 1].state == (if AskedUntil(s, e) <= e.now then Terminated else Active(AskedUntil(s, e) - e.now))
            else t == s.(log := s.log + [Response(if e.event != "presence" then 489 else 404)])
  {
    hide Insert, MatchKey, NewKey;
  }

  /** Two requests belong to the same subscription exactly if they agree in call, event and event id, and their two
      tags, run together, are the same. */
  lemma {:induction false} SameSubscriptionExactly(e: Event, f: Event)
    requires e.Subscribe? && f.Subscribe? && e.toTag.Some? && f.toTag.Some?
    ensures MatchKey(e) == MatchKey(f) <==>
              e.callId == f.callId && e.event == f.event && e.id == f.id
              && e.toTag.value + e.fromTag == f.toTag.value + f.fromTag
  {
  }

  /** A later request with the tags of the dialog finds the subscription that the first one made. */
  lemma {:induction false} RefreshFindsSubscription(e: Event, f: Event)
    requires e.Subscribe? && f.Subscribe?
    requires e.callId == f.callId && e.event == f.event && e.id == f.id && e.fromTag == f.fromTag
    requires f.toTag == Some(if e.toTag.Some? then e.toTag.value else e.freshTag)
    ensures MatchKey(f) == NewKey(e)
  {
  }

  /** As the tags are not kept apart, two dialogs of one call can be taken for one another. */
  lemma {:induction false} TagsCanClash()
    ensures var e := Subscribe("call", Some("ab"), "", "c", "presence", "", "a", None, 0);
            var f := Subscribe("call", Some("a"), "", "bc", "presence", "", "a", None, 0);
            (e.toTag, e.fromTag) != (f.toTag, f.fromTag) && MatchKey(e) == MatchKey(f)
  {
    assert "ab" + "c" == "a" + "bc";
  }

  // ----- publishing -----

  /** A document is answered with 200 for a known resource; 404 answers an unknown one, and 400 a request without a
      document, which change nothing. */
  lemma {:induction false} PublishAnswered(s: Server, e: Event)
    requires e.Publish?
    ensures var t := OnPublish(s, e);
            if e.resource in s.resources && e.document.Some? then
              && t.log != [] && t.log[|t.log| - 1] == Response(200)
              && e.resource in t.resources && t.resources[e.resource].document == e.document.value
            else t == s.(log := s.log + [Response(if e.resource !in s.resources then 404 else 400)])
  {
    if e.resource in s.resources && e.document.Some? {
      var r := s.resources[e.resource].(document := e.document.value);
      NotifyAllKeepsResources(s.(resources := s.resources[e.resource := r]), e.order, e.now);
    }
  }

  lemma {:induction false} NotifyAllKeepsResources(s: Server, order: seq<Key>, now: int)
    ensures NotifyAll(s, order, now).resources == s.resources && NotifyAll(s, order, now).dialogs == s.dialogs
    decreases |order|
  {
    if order != [] {
      NotifyAllKeepsResources(SendNotify(s, order[0], now), order[1..], now);
    }
  }

  /** A resource is made known without observers; one that is known already stays as it is. */
  lemma {:induction false} ResourceAdded(s: Server, a: string)
    ensures var t := Step(s, AddResource(a));
            && t == s.(resources := t.resources)
            && t.resources.Keys == s.resources.Keys + {a}
            && (forall b :: b in s.resources ==> t.resources[b] == s.resources[b])
            && (a !in s.resources ==> t.resources[a].observers == {})
  {
  }

  // ----- how long a subscription lasts -----

  /** When the subscription `k` is due to end, going by its refreshes since step `m`, where it was due at `x`. */
  ghost function DueAt(events: seq<Event>, m: nat, n: nat, k: Key, x: int): int
    requires m <= n <= |events|
  {
    if n == m then x
    else
      var e := events[n - 1];
      if e.Subscribe? && MatchKey(e) == k then e.now + (if e.expires.Some? then e.expires.value else 0)
      else DueAt(events, m, n - 1, k, x)
  }

  /** From step `m` to step `n` no NOTIFY of `k` is answered with 481, and no pass comes at or after the time that it
      is due at. */
  ghost predicate InTime(events: seq<Event>, m: nat, n: nat, k: Key, x: int)
    requires m <= n <= |events|
  {
    n > m ==>
      && InTime(events, m, n - 1, k, x)
      && match events[n - 1]
         case NotifyResponse(j, code) => !(j == k && code == 481)
         case Tick(now) => now < DueAt(events, m, n - 1, k, x)
         case _ => true
  }

  lemma {:induction false} StepKeeps(s: Server, e: Event, k: Key)
    requires Sound(s) && Legal(s, e) && k in s.dialogs
    requires !(e.NotifyResponse? && e.key == k && e.code == 481) && !(e.Tick? && e.now >= s.dialogs[k].expires)
    ensures var t := Step(s, e);
            k in t.dialogs && t.dialogs[k].resource == s.dialogs[k].resource
            && t.dialogs[k].expires == (if e.Subscribe? && MatchKey(e) == k then AskedUntil(s, e) else s.dialogs[k].expires)
  {
    hide Sound, OnSubscribe, OnPublish, Expire, Destroy, MatchKey, NewKey, AskedUntil;
    match e
    case Subscribe(_, _, _, _, _, _, _, _, _) =>
      assert Linked(s) by { SoundLinked(s); }
      hide Linked;
      SubscribedExactly(s, e);
    case NotifyResponse(j, _) => DestroyElsewhere(s, j);
    case Publish(_, _, order, now) => PublishKeepsDialogs(s, e);
    case Tick(now) => ExpireExactly(s, now, k);
    case AddResource(_) =>
  }

  lemma {:induction false} SoundLinked(s: Server)
    requires Sound(s)
    ensures Linked(s)
  {
    SteadyLinked(s);
  }

  lemma {:induction false} DestroyElsewhere(s: Server, j: Key)
    ensures Destroy(s, j).dialogs == s.dialogs - {j}
  {
  }

  lemma {:induction false} PublishKeepsDialogs(s: Server, e: Event)
    requires e.Publish?
    ensures OnPublish(s, e).dialogs == s.dialogs
  {
    if e.resource in s.resources && e.document.Some? {
      var r := s.resources[e.resource].(document := e.document.value);
      NotifyAllKeepsResources(s.(resources := s.resources[e.resource := r]), e.order, e.now);
    }
  }

  /** A subscription that is refreshed in time, or has not run out, is there, for the same resource, and due when the
      last request for it asked, whatever else happens. */
  lemma {:induction false} LivesUntilDue(states: seq<Server>, events: seq<Event>, m: nat, n: nat, k: Key)
    requires IsRun(states, events) && m <= n <= |events| && k in states[m].dialogs
    requires InTime(events, m, n, k, states[m].dialogs[k].expires)
    ensures k in states[n].dialogs
    ensures states[n].dialogs[k] == states[m].dialogs[k].(expires := DueAt(events, m, n, k, states[m].dialogs[k].expires))
  {
    hide Step, Legal, Sound, MatchKey;
    if n > m {
      LivesUntilDue(states, events, m, n - 1, k);
      RunSound(states, events, n - 1);
      StepKeeps(states[n - 1], events[n - 1], k);
    }
  }

  // ----- how a subscription ends -----

  /** A subscription that goes in one step was due when a pass came, or its NOTIFY was answered with 481. */
  lemma {:induction false} EndsOnlyBy(s: Server, e: Event, k: Key)
    requires Sound(s) && Legal(s, e) && k in s.dialogs && k !in Step(s, e).dialogs
    ensures e == NotifyResponse(k, 481) || (e.Tick? && e.now >= s.dialogs[k].expires)
  {
    hide Sound, Step, Legal;
    if !(e.NotifyResponse? && e.key == k && e.code == 481) && !(e.Tick? && e.now >= s.dialogs[k].expires) {
      StepKeeps(s, e, k);
    }
  }

  /** A 481 ends exactly the subscription whose NOTIFY it answers, and other responses nothing. */
  lemma {:induction false} GoneEndsExactly(s: Server, k: Key, code: nat)
    ensures Step(s, NotifyResponse(k, code)).dialogs == (if code == 481 then s.dialogs - {k} else s.dialogs)
  {
  }

  /** Entries for the same time stay in the order in which they were made. */
  lemma {:induction false} InsertsBehindEquals(es: seq<(int, Key)>, t: int, k: Key) returns (i: nat)
    requires Sorted(es)
    ensures i <= |es| && Insert(es, t, k) == es[..i] + [(t, k)] + es[i..]
    ensures (forall j :: 0 <= j < i ==> es[j].0 <= t) && (forall j :: i <= j < |es| ==> es[j].0 > t)
  {
    if es == [] || es[0].0 > t {
      i := 0;
    } else {
      var h := InsertsBehindEquals(es[1..], t, k);
      i := h + 1;
      assert es == [es[0]] + es[1..];
      assert forall j :: 0 < j < |es| ==> es[j] == es[1..][j - 1];
    }
  }
}
