/**
 * The broker's hub (main.go:13-79): the registry from channel name to the
 * connections subscribed to it, each with its own guard, and the three commands
 * the hub loop serves one at a time. The delivery goroutines a broadcast
 * spawns are kept as pending deliveries that run later, one call each, in any
 * order, with the outcome of the websocket write given as an input.
 */
module Hub {
  import opened Wrappers
  import opened Common

  /** The identity of a websocket connection (the `*websocket.Conn` pointer). */
  datatype Conn = Conn(id: nat)

  /** The per-connection `client` record (main.go:13-16); its mutex is not modelled. */
  class Guard {
    var isClosing: bool

    constructor ()
      ensures !isClosing
    {
      isClosing := false;
    }
  }

  type Registry = map<string, map<Conn, Guard>>

  /** A delivery goroutine that has been spawned and has not run yet. */
  datatype Delivery = Delivery(conn: Conn, guard: Guard, data: WireEvent)

  datatype DeliveryResult = Skipped | Written | WriteFailed

  /** `conn` is subscribed to `channel`. */
  predicate Member(reg: Registry, channel: string, conn: Conn) {
    channel in reg && conn in reg[channel]
  }

  /** The registry after `channel[connection.conn] = g` (main.go:33-38). */
  function Registered(reg: Registry, channel: string, conn: Conn, g: Guard): (r: Registry)
    ensures r.Keys == reg.Keys + {channel}
    ensures forall ch, c :: Member(r, ch, c) <==> Member(reg, ch, c) || (ch == channel && c == conn)
    ensures Member(r, channel, conn) && r[channel][conn] == g
    ensures forall ch, c :: Member(reg, ch, c) && (ch != channel || c != conn) ==>
      Member(r, ch, c) && r[ch][c] == reg[ch][c]
  {
    var inner: map<Conn, Guard> := if channel in reg then reg[channel] else map[];
    reg[channel := inner[conn := g]]
  }

  /** The registry after deleting `conn` from every channel (main.go:74-76). */
  function Unregistered(reg: Registry, conn: Conn): (r: Registry)
    ensures r.Keys == reg.Keys
    ensures forall ch, c :: Member(r, ch, c) <==> Member(reg, ch, c) && c != conn
    ensures forall ch, c :: Member(r, ch, c) ==> Member(reg, ch, c) && r[ch][c] == reg[ch][c]
  {
    map ch | ch in reg :: reg[ch] - {conn}
  }

  /** Deleting a connection a second time changes nothing. */
  lemma UnregisterIdempotent(reg: Registry, conn: Conn)
    ensures Unregistered(Unregistered(reg, conn), conn) == Unregistered(reg, conn)
  {
    var once := Unregistered(reg, conn);
    var twice := Unregistered(once, conn);
    forall ch | ch in once ensures twice[ch] == once[ch] {
      assert twice[ch].Keys == once[ch].Keys;
    }
  }

  /** Registering an already subscribed connection keeps the memberships as they were. */
  lemma ReRegisterKeepsMembers(reg: Registry, channel: string, conn: Conn, g: Guard)
    requires Member(reg, channel, conn)
    ensures var r := Registered(reg, channel, conn, g);
      r.Keys == reg.Keys && forall ch :: ch in r ==> r[ch].Keys == reg[ch].Keys
  {
    var r := Registered(reg, channel, conn, g);
    forall ch | ch in r ensures r[ch].Keys == reg[ch].Keys {
      assert forall c :: c in r[ch] <==> Member(r, ch, c);
    }
  }

  /**
   * A subscriber that is then unregistered belongs to no channel, while the
   * channel entry created for it stays in place.
   */
  lemma RegisterThenUnregister(reg: Registry, channel: string, conn: Conn, g: Guard)
    ensures var r := Unregistered(Registered(reg, channel, conn, g), conn);
      channel in r && r.Keys == reg.Keys + {channel} && forall ch :: !Member(r, ch, conn)
  {
  }

  /**
   * `ds` holds exactly one delivery per subscriber of `inner`, each with that
   * subscriber's guard and the same encoded event.
   */
  ghost predicate FansOut(ds: seq<Delivery>, inner: map<Conn, Guard>, data: WireEvent) {
    && (forall k :: 0 <= k < |ds| ==> ds[k].conn in inner && ds[k].guard == inner[ds[k].conn] && ds[k].data == data)
    && (forall c :: c in inner ==> exists k :: 0 <= k < |ds| && ds[k].conn == c)
    && (forall k, l :: 0 <= k < l < |ds| ==> ds[k].conn != ds[l].conn)
  }

  function Conns(ds: seq<Delivery>): (s: set<Conn>)
    ensures forall c :: c in s <==> exists k :: 0 <= k < |ds| && ds[k].conn == c
  {
    set k | 0 <= k < |ds| :: ds[k].conn
  }

  lemma {:induction false} DistinctConnsCount(ds: seq<Delivery>)
    requires forall k, l :: 0 <= k < l < |ds| ==> ds[k].conn != ds[l].conn
    ensures |Conns(ds)| == |ds|
  {
    if |ds| > 0 {
      var init := ds[..|ds| - 1];
      DistinctConnsCount(init);
      assert Conns(ds) == Conns(init) + {ds[|ds| - 1].conn};
      assert ds[|ds| - 1].conn !in Conns(init);
    }
  }

  /** A broadcast spawns as many deliveries as the channel has subscribers. */
  lemma FanOutSize(ds: seq<Delivery>, inner: map<Conn, Guard>, data: WireEvent)
    requires FansOut(ds, inner, data)
    ensures |ds| == |inner|
  {
    DistinctConnsCount(ds);
    assert Conns(ds) == inner.Keys;
  }

  /** Every guard of `reg` and of `ds` is owned by the connection it is stored for. */
  ghost predicate Owned(reg: Registry, ds: seq<Delivery>, owner: map<Guard, Conn>) {
    && (forall ch, c :: Member(reg, ch, c) ==> reg[ch][c] in owner && owner[reg[ch][c]] == c)
    && (forall k :: 0 <= k < |ds| ==> ds[k].guard in owner && owner[ds[k].guard] == ds[k].conn)
  }

  /** Registering a guard not in use yet, owned by the new subscriber, keeps every guard owned. */
  lemma RegisterKeepsOwned(reg: Registry, ds: seq<Delivery>, owner: map<Guard, Conn>,
                           channel: string, conn: Conn, g: Guard)
    requires Owned(reg, ds, owner)
    requires forall ch, c :: Member(reg, ch, c) ==> reg[ch][c] != g
    requires forall k :: 0 <= k < |ds| ==> ds[k].guard != g
    ensures Owned(Registered(reg, channel, conn, g), ds, owner[g := conn])
  {
    var r := Registered(reg, channel, conn, g);
    forall ch, c | Member(r, ch, c) ensures r[ch][c] in owner[g := conn] && owner[g := conn][r[ch][c]] == c {
      if ch == channel && c == conn {
      } else {
        assert Member(reg, ch, c) && r[ch][c] == reg[ch][c];
      }
    }
  }

  lemma UpdateTwice<K, V>(m: map<K, V>, k: K, a: V, b: V)
    ensures m[k := a][k := b] == m[k := b]
  {
  }

  class Hub {
    /** The global `channels` map (main.go:23). */
    var channels: Registry
    /** The hub loop has returned (main.go:43, main.go:49) and serves nothing more. */
    var stopped: bool
    /** Delivery goroutines spawned by broadcasts that have not run yet. */
    var pending: seq<Delivery>
    /** Connections sent on the `unregister` channel by failed deliveries, oldest first. */
    var unregisterQueue: seq<Conn>
    /** Text frames written successfully, in the order the writes happened. */
    var sent: seq<(Conn, WireEvent)>
    /** Connections closed after a failed write. */
    var closed: set<Conn>
    /** The connection each guard was allocated for: every register allocates a new `&client{}`. */
    ghost var owner: map<Guard, Conn>

    /**
     * Every guard in the registry and in a pending delivery belongs to its own
     * connection, so deliveries to different connections never share a guard.
     */
    ghost predicate Valid()
      reads this
    {
      Owned(channels, pending, owner)
    }

    constructor ()
      ensures Valid()
      ensures channels == map[] && !stopped && pending == [] && unregisterQueue == []
      ensures sent == [] && closed == {}
    {
      channels, stopped, pending, unregisterQueue, sent, closed := map[], false, [], [], [], {};
      owner := map[];
    }

    /** `case connection := <-register` (main.go:32-38). */
    method Register(channel: string, conn: Conn)
      requires Valid()
      modifies this
      ensures Valid()
      ensures stopped == old(stopped) && pending == old(pending) && unregisterQueue == old(unregisterQueue)
      ensures sent == old(sent) && closed == old(closed)
      ensures old(stopped) ==> channels == old(channels)
      ensures !old(stopped) ==>
        && Member(channels, channel, conn)
        && fresh(channels[channel][conn]) && !channels[channel][conn].isClosing
        && channels == Registered(old(channels), channel, conn, channels[channel][conn])
        && owner == old(owner)[channels[channel][conn] := conn]
      ensures old(stopped) ==> owner == old(owner)
    {
      if stopped {
        return;
      }
      var inner: map<Conn, Guard>;
      if channel in channels {
        inner := channels[channel];
      } else {
        inner := map[];
        channels := channels[channel := inner];
      }
      var g := new Guard();
      channels := channels[channel := inner[conn := g]];
      if channel !in old(channels) {
        UpdateTwice(old(channels), channel, map[], inner[conn := g]);
      }
      assert inner == if channel in old(channels) then old(channels)[channel] else map[];
      assert forall ch, c :: Member(old(channels), ch, c) ==> old(channels)[ch][c] != g;
      assert forall k :: 0 <= k < |pending| ==> pending[k].guard != g;
      RegisterKeepsOwned(old(channels), pending, owner, channel, conn, g);
      owner := owner[g := conn];
      assert channels == Registered(old(channels), channel, conn, g);
    }

    /**
     * `case message := <-broadcast` (main.go:40-70). An unknown channel or an
     * encoding failure returns from the hub loop. Otherwise one delivery is
     * spawned per current subscriber, in the map's (unspecified) order.
     * `marshalOk` is whether `json.Marshal` succeeded.
     */
    method Broadcast(message: WebhookEvent, marshalOk: bool)
      requires Valid() && message.channel.Some?
      modifies this
      ensures Valid() && owner == old(owner)
      ensures channels == old(channels) && unregisterQueue == old(unregisterQueue)
      ensures sent == old(sent) && closed == old(closed)
      ensures old(stopped) ==> stopped && pending == old(pending)
      ensures !old(stopped) && (message.channel.value !in old(channels) || !marshalOk) ==>
        stopped && pending == old(pending)
      ensures !old(stopped) && message.channel.value in old(channels) && marshalOk ==>
        && !stopped
        && |pending| >= |old(pending)| && pending[..|old(pending)|] == old(pending)
        && FansOut(pending[|old(pending)|..], channels[message.channel.value], Marshal(message))
    {
      if stopped {
        return;
      }
      if message.channel.value !in channels {
        stopped := true;
        return;
      }
      var inner := channels[message.channel.value];
      if !marshalOk {
        stopped := true;
        return;
      }
      var data := Marshal(message);
      var remaining := inner.Keys;
      var spawned: seq<Delivery> := [];
      while remaining != {}
        invariant remaining <= inner.Keys
        invariant forall k :: 0 <= k < |spawned| ==>
          spawned[k].conn in inner.Keys - remaining && spawned[k].guard == inner[spawned[k].conn] && spawned[k].data == data
        invariant forall c :: c in inner.Keys - remaining ==> exists k :: 0 <= k < |spawned| && spawned[k].conn == c
        invariant forall k, l :: 0 <= k < l < |spawned| ==> spawned[k].conn != spawned[l].conn
        decreases remaining
      {
        var c :| c in remaining;
        ghost var before := spawned;
        spawned := spawned + [Delivery(c, inner[c], data)];
        assert forall k :: 0 <= k < |before| ==> spawned[k] == before[k];
        forall c' | c' in inner.Keys - (remaining - {c})
          ensures exists k :: 0 <= k < |spawned| && spawned[k].conn == c'
        {
          if c' == c {
            assert spawned[|before|].conn == c';
          } else {
            assert c' in inner.Keys - remaining;
            var k :| 0 <= k < |before| && before[k].conn == c';
            assert spawned[k].conn == c';
          }
        }
        remaining := remaining - {c};
      }
      assert inner.Keys - remaining == inner.Keys;
      pending := pending + spawned;
      assert pending[|old(pending)|..] == spawned;
    }

    /** `case connection := <-unregister` (main.go:72-76). */
    method Unregister(conn: Conn)
      requires Valid()
      modifies this
      ensures Valid() && owner == old(owner)
      ensures stopped == old(stopped) && pending == old(pending) && unregisterQueue == old(unregisterQueue)
      ensures sent == old(sent) && closed == old(closed)
      ensures channels == if old(stopped) then old(channels) else Unregistered(old(channels), conn)
    {
      if stopped {
        return;
      }
      var todo := channels.Keys;
      while todo != {}
        invariant todo <= channels.Keys && channels.Keys == old(channels).Keys
        invariant stopped == old(stopped) && pending == old(pending) && unregisterQueue == old(unregisterQueue)
        invariant sent == old(sent) && closed == old(closed) && owner == old(owner)
        invariant forall ch :: ch in channels ==>
          channels[ch] == if ch in todo then old(channels)[ch] else old(channels)[ch] - {conn}
        decreases todo
      {
        var ch :| ch in todo;
        channels := channels[ch := channels[ch] - {conn}];
        todo := todo - {ch};
      }
    }

    /** The hub receives the oldest unregister a failed delivery sent. */
    method ServeQueuedUnregister()
      requires Valid() && unregisterQueue != []
      modifies this
      ensures Valid() && owner == old(owner)
      ensures pending == old(pending) && sent == old(sent) && closed == old(closed) && stopped == old(stopped)
      ensures old(stopped) ==> channels == old(channels) && unregisterQueue == old(unregisterQueue)
      ensures !old(stopped) ==>
        channels == Unregistered(old(channels), old(unregisterQueue[0])) && unregisterQueue == old(unregisterQueue[1..])
    {
      if stopped {
        return;
      }
      var conn := unregisterQueue[0];
      unregisterQueue := unregisterQueue[1..];
      Unregister(conn);
    }

    /**
     * Runs the spawned delivery `pending[i]` (main.go:54-69): a guard already
     * closing skips the write; a failed write sets `isClosing`, closes the
     * connection and sends it to be unregistered; a successful write leaves the
     * guard as it was. Deliveries run whether or not the hub loop still runs.
     */
    method Deliver(i: nat, writeOk: bool) returns (result: DeliveryResult)
      requires Valid() && i < |pending|
      modifies this, pending[i].guard
      ensures Valid() && owner == old(owner)
      ensures pending == old(pending[..i] + pending[i + 1..])
      ensures forall d :: d in old(pending) && d.conn != old(pending[i].conn) ==>
        d.guard.isClosing == old(d.guard.isClosing)
      ensures channels == old(channels) && stopped == old(stopped)
      ensures forall ch, c :: Member(channels, ch, c) && c != old(pending[i].conn) ==>
        channels[ch][c].isClosing == old(channels[ch][c].isClosing)
      ensures old(pending[i].guard.isClosing) ==>
        && result == Skipped && old(pending[i]).guard.isClosing
        && sent == old(sent) && unregisterQueue == old(unregisterQueue) && closed == old(closed)
      ensures !old(pending[i].guard.isClosing) && writeOk ==>
        && result == Written && !old(pending[i].guard).isClosing
        && sent == old(sent) + [(old(pending[i].conn), old(pending[i].data))]
        && unregisterQueue == old(unregisterQueue) && closed == old(closed)
      ensures !old(pending[i].guard.isClosing) && !writeOk ==>
        && result == WriteFailed && old(pending[i].guard).isClosing
        && sent == old(sent)
        && unregisterQueue == old(unregisterQueue) + [old(pending[i].conn)]
        && closed == old(closed) + {old(pending[i].conn)}
    {
      var d := pending[i];
      pending := pending[..i] + pending[i + 1..];
      if d.guard.isClosing {
        result := Skipped;
        return;
      }
      if writeOk {
        sent := sent + [(d.conn, d.data)];
        result := Written;
      } else {
        d.guard.isClosing := true;
        closed := closed + {d.conn};
        unregisterQueue := unregisterQueue + [d.conn];
        result := WriteFailed;
      }
    }
  }
}
