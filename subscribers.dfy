/**
 * The live subscriber registry `wsClientsByDevice`: a map from device id to
 * the set of WebSocket handles watching that device, mutated in place by the
 * upgrade and close handlers and read by `broadcastToDevice`.
 */
module Subscribers {
  import opened Wrappers
  import opened Normalizer

  /**
   * A WebSocket connection as the registry sees it: whether it is open
   * (`readyState === OPEN`, maintained by the WebSocket library) and the
   * messages sent on it so far.
   */
  class Handle {
    var open: bool
    var outbox: seq<LiveEvent>

    constructor (open: bool)
      ensures this.open == open && outbox == []
    {
      this.open := open;
      outbox := [];
    }

    /** `ws.send(msg)`: the message is queued on this connection. */
    method Send(msg: LiveEvent)
      modifies this
      ensures open == old(open)
      ensures outbox == old(outbox) + [msg]
    {
      outbox := outbox + [msg];
    }
  }

  /** No handle is registered under two devices. */
  ghost predicate Disjoint(m: map<string, set<Handle>>)
  {
    forall d1, d2 :: d1 in m && d2 in m && d1 != d2 ==> m[d1] !! m[d2]
  }

  /** The handle is in no device's set. */
  ghost predicate Unregistered(m: map<string, set<Handle>>, h: Handle)
  {
    forall d :: d in m ==> h !in m[d]
  }

  /** The registry after the upgrade callback: the device's set is created if missing, then `h` is added. */
  function Subscribed(m: map<string, set<Handle>>, d: string, h: Handle): (r: map<string, set<Handle>>)
    ensures r.Keys == m.Keys + {d}
    ensures h in r[d] && r[d] - {h} == (if d in m then m[d] else {}) - {h}
    ensures forall e :: e in m && e != d ==> r[e] == m[e]
  {
    m[d := (if d in m then m[d] else {}) + {h}]
  }

  /** The registry after the close callback: `h` leaves the device's set, which stays in the map even when empty. */
  function Unsubscribed(m: map<string, set<Handle>>, d: string, h: Handle): (r: map<string, set<Handle>>)
    ensures r.Keys == m.Keys
    ensures d in m ==> h !in r[d] && r[d] + {h} == m[d] + {h}
    ensures forall e :: e in m && e != d ==> r[e] == m[e]
  {
    if d in m then m[d := m[d] - {h}] else m
  }

  /** Closing twice is the same as closing once. */
  lemma UnsubscribeIdempotent(m: map<string, set<Handle>>, d: string, h: Handle)
    ensures Unsubscribed(Unsubscribed(m, d, h), d, h) == Unsubscribed(m, d, h)
  {
    if d in m {
      assert (m[d] - {h}) - {h} == m[d] - {h};
    }
  }

  /**
   * Subscribing a fresh handle and closing it again restores the registry,
   * except that a device first seen here keeps an empty set.
   */
  lemma SubscribeThenClose(m: map<string, set<Handle>>, d: string, h: Handle)
    requires Unregistered(m, h)
    ensures Unsubscribed(Subscribed(m, d, h), d, h) == if d in m then m else m[d := {}]
  {
    if d in m {
      assert (m[d] + {h}) - {h} == m[d];
      assert m[d := m[d]] == m;
    } else {
      assert ({} + {h}) - {h} == {};
    }
  }

  /** Adding an unregistered handle keeps every handle under one device at most. */
  lemma SubscribedDisjoint(m: map<string, set<Handle>>, d: string, h: Handle)
    requires Disjoint(m) && Unregistered(m, h)
    ensures Disjoint(Subscribed(m, d, h))
  {
    var r := Subscribed(m, d, h);
    forall d1, d2 | d1 in r && d2 in r && d1 != d2
      ensures r[d1] !! r[d2]
    {
      if d1 != d && d2 != d {
        assert r[d1] == m[d1] && r[d2] == m[d2];
      } else if d1 == d {
        assert r[d2] == m[d2] && h !in m[d2];
      } else {
        assert r[d1] == m[d1] && h !in m[d1];
      }
    }
  }

  /** Removing a handle keeps every handle under one device at most. */
  lemma UnsubscribedDisjoint(m: map<string, set<Handle>>, d: string, h: Handle)
    requires Disjoint(m)
    ensures Disjoint(Unsubscribed(m, d, h))
  {
  }

  /** The registry object holding `wsClientsByDevice`. */
  class Registry {
    var clients: map<string, set<Handle>>

    ghost predicate Valid()
      reads this
    {
      Disjoint(clients)
    }

    /** The handles registered for `d`: `wsClientsByDevice.get(d)`, or none. */
    function SubscribersOf(d: string): set<Handle>
      reads this
    {
      if d in clients then clients[d] else {}
    }

    /** Every handle registered under any device. */
    ghost function AllHandles(): set<Handle>
      reads this
    {
      set d, h | d in clients && h in clients[d] :: h
    }

    constructor ()
      ensures Valid() && clients == map[]
    {
      clients := map[];
    }

    /**
     * The upgrade handler for a new connection `ws`: a missing or empty
     * `deviceId` registers nothing (the socket is destroyed); otherwise the
     * handle joins that device's set.
     */
    method Upgrade(deviceId: Option<string>, ws: Handle)
      requires Valid() && Unregistered(clients, ws)
      modifies this
      ensures Valid()
      ensures clients == if deviceId.Some? && deviceId.value != "" then Subscribed(old(clients), deviceId.value, ws) else old(clients)
    {
      if deviceId.None? || deviceId.value == "" {
        return;
      }
      var d := deviceId.value;
      if d !in clients {
        clients := clients[d := {}];
      }
      clients := clients[d := clients[d] + {ws}];
      SubscribedDisjoint(old(clients), d, ws);
    }

    /** The close handler registered for `ws` under `deviceId`. */
    method Close(deviceId: string, ws: Handle)
      requires Valid()
      modifies this
      ensures Valid()
      ensures clients == Unsubscribed(old(clients), deviceId, ws)
    {
      if deviceId in clients {
        clients := clients[deviceId := clients[deviceId] - {ws}];
      }
      UnsubscribedDisjoint(old(clients), deviceId, ws);
    }

    /**
     * `broadcastToDevice`: the event is sent once to every open handle
     * registered for `deviceId`; closed handles, other devices' handles and
     * the registry itself are left untouched.
     */
    method Broadcast(deviceId: string, event: LiveEvent)
      modifies SubscribersOf(deviceId)
      ensures forall h :: h in SubscribersOf(deviceId) ==> h.open == old(h.open)
      ensures forall h :: h in SubscribersOf(deviceId) ==>
                h.outbox == old(h.outbox) + (if h.open then [event] else [])
    {
      if deviceId !in clients {
        return;
      }
      var targets := clients[deviceId];
      var pending := targets;
      while pending != {}
        invariant pending <= targets
        invariant forall h :: h in targets ==> h.open == old(h.open)
        invariant forall h :: h in targets - pending ==> h.outbox == old(h.outbox) + (if h.open then [event] else [])
        invariant forall h :: h in pending ==> h.outbox == old(h.outbox)
        decreases pending
      {
        var ws :| ws in pending;
        if ws.open {
          ws.Send(event);
        }
        pending := pending - {ws};
      }
    }
  }
}
