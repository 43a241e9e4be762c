/** The presence server as it runs: tables, counters and observers change in place. */
module PresenceServer {
  import opened Common
  import opened Presence

  class Manager {
    var dialogs: map<Key, Subscription>
    var sets: map<SetKey, DialogState>
    var expirations: seq<(int, Key)>
    var resources: map<string, Resource>
    var instances: nat
    ghost var log: seq<Sent>

    ghost function Abs(): Server
      reads this
    {
      Server(dialogs, sets, expirations, resources, instances, log)
    }

    constructor ()
      ensures Abs() == Init()
    {
      dialogs, sets, expirations, resources, instances, log := map[], map[], [], map[], 0, [];
    }

    // ----- dialog state -----

    method AttachDialogState(sk: SetKey)
      modifies this`sets, this`instances
      ensures Abs() == Attach(old(Abs()), sk)
    {
      if sk !in sets {
        sets := sets[sk := DialogState(1, 0, instances)];
        instances := instances + 1;
      } else {
        sets := sets[sk := sets[sk].(refs := sets[sk].refs + 1)];
      }
    }

    method DetachDialogState(sk: SetKey)
      modifies this`sets
      ensures Abs() == Detach(old(Abs()), sk)
    {
      if sk in sets {
        sets := sets[sk := sets[sk].(refs := sets[sk].refs - 1)];
        if sets[sk].refs == 0 {
          sets := sets - {sk};
        }
      }
    }

    // ----- observers -----

    method AttachToPresenceDoc(a: string, k: Key)
      modifies this`resources
      ensures Abs() == Observe(old(Abs()), a, k)
    {
      if a in resources {
        resources := resources[a := resources[a].(observers := resources[a].observers + {k})];
      }
    }

    method DetachFromPresenceDoc(a: string, k: Key)
      modifies this`resources
      ensures Abs() == Unobserve(old(Abs()), a, k)
    {
      if a in resources {
        resources := resources[a := resources[a].(observers := resources[a].observers - {k})];
      }
    }

    // ----- subscriptions -----

    method SendNotify(k: Key, now: int)
      requires Known(Abs(), k)
      modifies this`sets, this`log
      ensures Abs() == Presence.SendNotify(old(Abs()), k, now)
    {
      var expired := dialogs[k].expires <= now;
      var d := sets[k.dialogSet];
      d := d.(localCSeq := d.localCSeq + 1);
      sets := sets[k.dialogSet := d];
      var state := if expired then Terminated else Active(dialogs[k].expires - now);
      log := log + [Notify(k, d.instance, d.localCSeq, resources[dialogs[k].resource].document, state)];
    }

    /** The walk over the observers, in the order in which the set yields them. */
    method NotifyObservers(order: seq<Key>, now: int)
      requires forall i :: 0 <= i < |order| ==> Known(Abs(), order[i])
      modifies this`sets, this`log
      ensures Abs() == NotifyAll(old(Abs()), order, now)
    {
      var i := 0;
      while i < |order|
        invariant 0 <= i <= |order|
        invariant forall j :: 0 <= j < |order| ==> Known(Abs(), order[j])
        invariant NotifyAll(Abs(), order[i..], now) == NotifyAll(old(Abs()), order, now)
      {
        assert order[i..][0] == order[i] && order[i..][1..] == order[i + 1..];
        label Before:
        SendNotify(order[i], now);
        forall j | 0 <= j < |order|
          ensures Known(Abs(), order[j])
        {
          assert old@Before(Known(Abs(), order[j]));
        }
        i := i + 1;
      }
    }

    method CreateDialog(k: Key, a: string, expires: int)
      requires k !in dialogs
      modifies this
      ensures Abs() == Created(old(Abs()), k, a, expires)
    {
      AttachDialogState(k.dialogSet);
      dialogs := dialogs[k := Subscription(a, expires)];
      AttachToPresenceDoc(a, k);
    }

    method DestroyDialog(k: Key)
      requires k in dialogs && Sound(Abs())
      modifies this`dialogs, this`sets, this`resources
      ensures Abs() == Destroy(old(Abs()), k)
    {
      var a := dialogs[k].resource;
      DetachDialogState(k.dialogSet);
      dialogs := dialogs - {k};
      DetachFromPresenceDoc(a, k);
    }

    /** Answers the request and enters the new expiry; earlier entries of the subscription stay behind. */
    method ConfirmDialog(k: Key, now: int)
      requires Known(Abs(), k)
      modifies this
      ensures Abs() == Confirm(old(Abs()), k, now)
    {
      log := log + [Response(202)];
      SendNotify(k, now);
      expirations := Insert(expirations, dialogs[k].expires, k);
    }

    method ProcessSubscribe(e: Event)
      requires e.Subscribe? && Sound(Abs()) && Legal(Abs(), e)
      modifies this
      ensures Abs() == OnSubscribe(old(Abs()), e) && Sound(Abs())
    {
      hide Sound, Steady, Linked, Legal, Known, MatchKey, NewKey, Confirm, Created, Renewed;
      SubscribeSound(Abs(), e);
      LegalKeys(Abs(), e);
      if MatchKey(e) in dialogs {
        DispatchSubscribe(MatchKey(e), RenewedUntil(e), e.now);
      } else if e.event != "presence" {
        log := log + [Response(489)];
      } else if e.resource !in resources {
        log := log + [Response(404)];
      } else {
        var expires := e.now + (if e.expires.Some? then e.expires.value else DEFAULT_EXPIRES);
        DispatchNewSubscribe(NewKey(e), e.resource, expires, e.now);
      }
    }

    method DispatchSubscribe(k: Key, expires: int, now: int)
      requires Known(Abs(), k)
      modifies this
      ensures Abs() == Confirm(Renewed(old(Abs()), k, expires), k, now)
    {
      hide Confirm;
      dialogs := dialogs[k := dialogs[k].(expires := expires)];
      ConfirmDialog(k, now);
    }

    method DispatchNewSubscribe(k: Key, a: string, expires: int, now: int)
      requires k !in dialogs && a in resources
      modifies this
      ensures Abs() == Confirm(Created(old(Abs()), k, a, expires), k, now)
    {
      hide Confirm;
      CreateDialog(k, a, expires);
      ConfirmDialog(k, now);
    }

    method ProcessPublish(e: Event)
      requires e.Publish? && Sound(Abs()) && Legal(Abs(), e)
      modifies this
      ensures Abs() == OnPublish(old(Abs()), e) && Sound(Abs())
    {
      PublishSound(Abs(), e);
      SteadyLinked(Abs());
      if e.resource !in resources {
        log := log + [Response(404)];
        return;
      }
      if e.document.None? {
        log := log + [Response(400)];
        return;
      }
      resources := resources[e.resource := resources[e.resource].(document := e.document.value)];
      forall i | 0 <= i < |e.order|
        ensures Known(Abs(), e.order[i])
      {
        assert e.order[i] in old(resources[e.resource].observers);
        assert e.order[i] in Watching(old(dialogs), e.resource);
      }
      NotifyObservers(e.order, e.now);
      log := log + [Response(200)];
    }

    /** The cleaning loop. It advances past an entry before it removes it. */
    method ProcessExpirations(now: int)
      requires Sound(Abs())
      modifies this
      ensures Abs() == Expire(old(Abs()), now) && Sound(Abs())
    {
      hide Sound, Steady, Scheduled, Destroy, Presence.SendNotify;
      while expirations != [] && expirations[0].0 <= now
        invariant Sound(Abs()) && Expire(Abs(), now) == Expire(old(Abs()), now)
        decreases |expirations|
      {
        var k := expirations[0].1;
        PassOne(Abs(), now);
        if k in dialogs && dialogs[k].expires <= now {
          SendNotify(k, now);
          DestroyDialog(k);
        }
        expirations := expirations[1..];
      }
    }
  }

  lemma {:induction false} LegalKeys(s: Server, e: Event)
    requires e.Subscribe? && Sound(s) && Legal(s, e)
    ensures MatchKey(e) in s.dialogs ==> Known(s, MatchKey(e))
    ensures MatchKey(e) !in s.dialogs ==> NewKey(e) !in s.dialogs
  {
    SteadyLinked(s);
    hide Steady, MatchKey, NewKey;
  }

  lemma {:induction false} NotifySound(s: Server, k: Key, now: int)
    requires Sound(s) && k in s.dialogs
    ensures Known(s, k) && Sound(Presence.SendNotify(s, k, now))
  {
    NotifySteady(s, k, now);
    SteadyLinked(s);
    hide Steady;
  }

  lemma {:induction false} EntriesApart(s: Server, k: Key, now: int, es: seq<(int, Key)>)
    ensures ExpireOne(s.(expirations := es), k, now) == ExpireOne(s, k, now).(expirations := es)
  {
    assert Presence.SendNotify(s.(expirations := es), k, now) == Presence.SendNotify(s, k, now).(expirations := es);
    hide Presence.SendNotify;
    DestroyApart(Presence.SendNotify(s, k, now), k, es);
    hide Destroy;
  }

  lemma {:induction false} DestroyApart(s: Server, k: Key, es: seq<(int, Key)>)
    ensures Destroy(s.(expirations := es), k) == Destroy(s, k).(expirations := es)
  {
    if k in s.dialogs {
      var d, a := Detach(s, k.dialogSet), s.dialogs[k].resource;
      assert Detach(s.(expirations := es), k.dialogSet) == d.(expirations := es);
      hide Detach;
      var u := d.(dialogs := d.dialogs - {k});
      assert Unobserve(u.(expirations := es), a, k) == Unobserve(u, a, k).(expirations := es);
    }
  }

  /** One turn of the cleaning loop, in the order in which the loop does it. */
  lemma {:induction false} PassOne(s: Server, now: int)
    requires Sound(s) && s.expirations != [] && s.expirations[0].0 <= now
    ensures var k := s.expirations[0].1;
            var t := ExpireOne(s, k, now).(expirations := s.expirations[1..]);
            (Due(s, k, now) ==> Known(s, k) && Sound(Presence.SendNotify(s, k, now)))
            && Sound(t) && Expire(t, now) == Expire(s, now) && t.expirations == s.expirations[1..]
  {
    hide Steady, Linked, ExpireOne, Scheduled, Known;
    var k, u := s.expirations[0].1, s.(expirations := s.expirations[1..]);
    EntriesApart(s, k, now, s.expirations[1..]);
    SteadyLinked(s);
    ExpireOneKeepsSchedule(s, now);
    ExpireOneKeepsEntries(u, k, now);
    SameButEntries(s, u);
    ExpireOneSteady(u, k, now);
    if Due(s, k, now) {
      NotifySound(s, k, now);
    }
  }
}
