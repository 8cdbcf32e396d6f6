/** The exported object of index.js (lines 60-121): the list of live
    clients, the single emitter subscription that fans native events out to
    them, and `createClient`/`removeClient`, which maintain both. */
module Registry {
  import opened Wrappers
  import opened ConnectOptions
  import opened Client

  /** An emitter subscription (the value `addListener` returns), by serial
      number. */
  type Subscription = nat

  /** What the native `Mqtt.createClient(options)` promise settles to. */
  datatype NativeReply = Resolved(clientRef: Option<ClientRef>) | Rejected

  /** Why the promise of `createClient` is rejected. */
  datatype CreateError = Config(cause: ConfigError) | NativeRejected

  predicate Distinct(cs: seq<MqttClient>)
  {
    forall i, j :: 0 <= i < j < |cs| ==> cs[i] != cs[j]
  }

  /** `cs.indexOf(c)`: the first position holding `c`, or -1. */
  function IndexOf(cs: seq<MqttClient>, c: MqttClient): (i: int)
    ensures -1 <= i < |cs|
    ensures i == -1 <==> c !in cs
    ensures 0 <= i ==> cs[i] == c && c !in cs[..i]
  {
    if cs == [] then -1
    else if cs[0] == c then 0
    else
      var j := IndexOf(cs[1..], c);
      if j == -1 then -1
      else
        assert cs[..j + 1] == [cs[0]] + cs[1..][..j];
        j + 1
  }

  /** The list with its first occurrence of `c` taken out. */
  function RemoveFirst(cs: seq<MqttClient>, c: MqttClient): seq<MqttClient>
  {
    if cs == [] then []
    else if cs[0] == c then cs[1..]
    else [cs[0]] + RemoveFirst(cs[1..], c)
  }

  /** The calls one client makes for one emission, in order. */
  function CallsOf(c: MqttClient, data: Option<EventData>): seq<Invocation>
    reads c
  {
    match Dispatch(c.clientRef, c.eventHandler, data)
    case None => []
    case Some(call) => [call]
  }

  /** `clients.forEach(client => client.dispatchEvent(data))`. */
  function FanOut(cs: seq<MqttClient>, data: Option<EventData>): seq<Invocation>
    reads cs
  {
    if cs == [] then [] else FanOut(cs[..|cs| - 1], data) + CallsOf(cs[|cs| - 1], data)
  }

  // ---------------------------------------------------------------------
  // Removal

  /** Splicing position `j + 1` out of `[x] + t` is splicing `j` out of `t`. */
  lemma ConsSplice(x: MqttClient, t: seq<MqttClient>, j: nat)
    requires j < |t|
    ensures ([x] + t)[..j + 1] + ([x] + t)[j + 2..] == [x] + (t[..j] + t[j + 1..])
  {
    var cs := [x] + t;
    assert cs[..j + 1] == [x] + t[..j];
    assert cs[j + 2..] == t[j + 1..];
  }

  /** `splice(indexOf(c), 1)` guarded by `> -1` removes exactly the first
      occurrence, keeping every other client in its original order. */
  lemma {:induction false} SpliceIsRemoveFirst(cs: seq<MqttClient>, c: MqttClient)
    ensures var i := IndexOf(cs, c);
      (if i > -1 then cs[..i] + cs[i + 1..] else cs) == RemoveFirst(cs, c)
  {
    if cs == [] {
    } else if cs[0] == c {
      assert IndexOf(cs, c) == 0;
      assert cs[..0] + cs[1..] == cs[1..];
    } else {
      var t := cs[1..];
      assert cs == [cs[0]] + t;
      SpliceIsRemoveFirst(t, c);
      var j := IndexOf(t, c);
      assert RemoveFirst(cs, c) == [cs[0]] + RemoveFirst(t, c);
      if j > -1 {
        assert IndexOf(cs, c) == j + 1;
        ConsSplice(cs[0], t, j);
      } else {
        assert IndexOf(cs, c) == -1;
      }
    }
  }

  /** Removing an absent client leaves the list unchanged. */
  lemma {:induction false} RemoveAbsent(cs: seq<MqttClient>, c: MqttClient)
    requires c !in cs
    ensures RemoveFirst(cs, c) == cs
  {
    if cs != [] {
      RemoveAbsent(cs[1..], c);
    }
  }

  /** Removing a present client takes out one copy of it and nothing else. */
  lemma {:induction false} RemovePresent(cs: seq<MqttClient>, c: MqttClient)
    requires c in cs
    ensures multiset(RemoveFirst(cs, c)) == multiset(cs) - multiset{c}
    ensures |RemoveFirst(cs, c)| == |cs| - 1
  {
    assert cs == [cs[0]] + cs[1..];
    if cs[0] != c {
      RemovePresent(cs[1..], c);
    }
  }

  /** In a list without repeats, removal leaves no copy of the client and
      no repeats. */
  lemma {:induction false} RemoveFromDistinct(cs: seq<MqttClient>, c: MqttClient)
    requires Distinct(cs)
    ensures Distinct(RemoveFirst(cs, c))
    ensures c !in RemoveFirst(cs, c)
    ensures forall x :: x in RemoveFirst(cs, c) <==> x in cs && x != c
  {
    if cs != [] {
      assert Distinct(cs[1..]);
      RemoveFromDistinct(cs[1..], c);
      if cs[0] == c {
        assert c !in cs[1..];
      } else {
        assert cs[0] !in cs[1..];
      }
    }
  }

  // ---------------------------------------------------------------------
  // Fan-out

  lemma {:induction false} FanOutAppend(a: seq<MqttClient>, b: seq<MqttClient>, data: Option<EventData>)
    ensures FanOut(a + b, data) == FanOut(a, data) + FanOut(b, data)
  {
    if b != [] {
      assert (a + b)[..|a + b| - 1] == a + b[..|b| - 1];
      FanOutAppend(a, b[..|b| - 1], data);
    } else {
      assert a + b == a;
    }
  }

  /** Extending a prefix by one client adds that client's calls. */
  lemma FanOutStep(cs: seq<MqttClient>, i: nat, data: Option<EventData>)
    requires i < |cs|
    ensures FanOut(cs[..i + 1], data) == FanOut(cs[..i], data) + CallsOf(cs[i], data)
  {
    assert cs[..i + 1][..i] == cs[..i];
  }

  /** Every call made for an emission comes from a listed client whose
      reference matches the data and whose table holds that callback for
      the data's event, and it passes the data's message. */
  lemma {:induction false} FanOutDelivers(cs: seq<MqttClient>, data: Option<EventData>, k: nat)
    requires k < |FanOut(cs, data)|
    ensures data.Some? && data.value.event == Some(FanOut(cs, data)[k].event)
    ensures FanOut(cs, data)[k].message == data.value.message
    ensures exists c :: (c in cs && c.clientRef == data.value.clientRef
                           && FanOut(cs, data)[k].event in c.eventHandler
                           && c.eventHandler[FanOut(cs, data)[k].event] == Some(FanOut(cs, data)[k].callback))
  {
    var init := cs[..|cs| - 1];
    var last := cs[|cs| - 1];
    if k < |FanOut(init, data)| {
      FanOutDelivers(init, data, k);
      var c :| c in init && c.clientRef == data.value.clientRef
        && FanOut(init, data)[k].event in c.eventHandler
        && c.eventHandler[FanOut(init, data)[k].event] == Some(FanOut(init, data)[k].callback);
      assert c in cs;
    } else {
      assert FanOut(cs, data)[k] == Dispatch(last.clientRef, last.eventHandler, data).value;
      assert last in cs;
    }
  }

  /** Emissions for a reference no listed client has reach nobody. */
  lemma {:induction false} UnknownRefDropped(cs: seq<MqttClient>, data: EventData)
    requires forall c :: c in cs ==> c.clientRef != data.clientRef
    ensures FanOut(cs, Some(data)) == []
  {
    if cs != [] {
      assert forall c :: c in cs[..|cs| - 1] ==> c in cs;
      UnknownRefDropped(cs[..|cs| - 1], data);
    }
  }

  lemma OthersKeepOtherRefs(cs: seq<MqttClient>, c: MqttClient)
    requires Distinct(cs)
    requires forall x :: x in cs && x != c ==> x.clientRef != c.clientRef
    ensures forall x :: x in RemoveFirst(cs, c) ==> x.clientRef != c.clientRef
  {
    RemoveFromDistinct(cs, c);
  }

  /** A removed client is called no more: once it is out of the list, no
      emission addressed to its reference reaches anyone, provided no other
      listed client shares that reference. */
  lemma {:induction false} RemovedClientNotCalled(cs: seq<MqttClient>, c: MqttClient, data: EventData)
    requires Distinct(cs)
    requires forall x :: x in cs && x != c ==> x.clientRef != c.clientRef
    requires data.clientRef == c.clientRef
    ensures FanOut(RemoveFirst(cs, c), Some(data)) == []
  {
    OthersKeepOtherRefs(cs, c);
    UnknownRefDropped(RemoveFirst(cs, c), data);
  }

  // ---------------------------------------------------------------------
  // The exported object

  class Registry {
    /** `clients`, in creation order. */
    var clients: seq<MqttClient>
    /** `eventHandler`: the installed subscription, `None` for `null`. */
    var eventHandler: Option<Subscription>
    /** The subscriptions registered with the emitter and not yet removed. */
    var live: set<Subscription>
    /** How many subscriptions `addListener` has handed out. */
    var issued: nat

    /** Exactly one emitter subscription is active once one is installed,
        and it is the one `eventHandler` holds; a non-empty list always has
        it; the list never holds a client twice. */
    ghost predicate Valid()
      reads this
    {
      && live == (if eventHandler.Some? then {eventHandler.value} else {})
      && (eventHandler.Some? ==> eventHandler.value < issued)
      && (clients != [] ==> eventHandler.Some?)
      && Distinct(clients)
    }

    /** `clients: []`, `eventHandler: null`. */
    constructor ()
      ensures Valid()
      ensures clients == [] && eventHandler == None && live == {} && issued == 0
    {
      clients := [];
      eventHandler := None;
      live := {};
      issued := 0;
    }

    /** `setEventHandler()`: register a new subscription and store it. The
        previous one, if any, is not removed. */
    method SetEventHandler()
      modifies this
      ensures eventHandler == Some(old(issued))
      ensures live == old(live) + {old(issued)}
      ensures issued == old(issued) + 1
      ensures clients == old(clients)
    {
      eventHandler := Some(issued);
      live := live + {issued};
      issued := issued + 1;
    }

    /** `dispatchEvents(data)`: every listed client, in list order, gets the
        emission. */
    method DispatchEvents(data: Option<EventData>) returns (calls: seq<Invocation>)
      ensures calls == FanOut(clients, data)
    {
      calls := [];
      for i := 0 to |clients|
        invariant calls == FanOut(clients[..i], data)
      {
        var call := clients[i].DispatchEvent(data);
        FanOutStep(clients, i, data);
        if call.Some? {
          calls := calls + [call.value];
        }
      }
      assert clients[..|clients|] == clients;
    }

    /** `createClient(options)`, with the native module's answer given as
        `native`. A rejected URI fails before the native call; a rejected
        native call fails before anything is stored. Otherwise the new
        client is appended, and the listener is installed only if none is. */
    method CreateClient(options: Options, native: NativeReply) returns (r: Result<MqttClient, CreateError>)
      requires Valid()
      modifies this
      ensures Valid()
      ensures DeriveOptions(options).Failure? ==>
        r == Failure(Config(DeriveOptions(options).error)) && unchanged(this)
      ensures DeriveOptions(options).Success? && native.Rejected? ==>
        r == Failure(NativeRejected) && unchanged(this)
      ensures DeriveOptions(options).Success? && native.Resolved? ==>
        && r.Success? && fresh(r.value)
        && r.value.options == DeriveOptions(options).value
        && r.value.clientRef == native.clientRef
        && r.value.eventHandler == map[]
        && clients == old(clients) + [r.value]
        && (old(eventHandler).None? ==>
              eventHandler == Some(old(issued)) && live == {old(issued)} && issued == old(issued) + 1)
        && (old(eventHandler).Some? ==>
              eventHandler == old(eventHandler) && live == old(live) && issued == old(issued))
    {
      var derived := DeriveOptions(options);
      if derived.Failure? {
        return Failure(Config(derived.error));
      }
      if native.Rejected? {
        return Failure(NativeRejected);
      }
      var client := new MqttClient(derived.value, native.clientRef);
      if eventHandler.None? {
        SetEventHandler();
      }
      clients := clients + [client];
      r := Success(client);
    }

    /** The continuation of `removeClient(client)`, run once the native
        removal has resolved: take the first occurrence of `client` out of
        the list; if clients remain, replace the subscription by a new one;
        if none remain, the subscription stays in place. */
    method RemoveClient(client: MqttClient)
      requires Valid()
      modifies this
      ensures Valid()
      ensures clients == RemoveFirst(old(clients), client)
      ensures client !in clients
      ensures clients != [] ==>
        eventHandler == Some(old(issued)) && live == {old(issued)} && issued == old(issued) + 1
      ensures clients == [] ==>
        eventHandler == old(eventHandler) && live == old(live) && issued == old(issued)
    {
      var clientIdx := IndexOf(clients, client);
      SpliceIsRemoveFirst(clients, client);
      RemoveFromDistinct(clients, client);
      if clientIdx > -1 {
        clients := clients[..clientIdx] + clients[clientIdx + 1..];
      }
      if |clients| > 0 {
        if eventHandler.Some? {
          live := live - {eventHandler.value};
          SetEventHandler();
        }
      }
    }
  }

  /** A list of one client fans out exactly that client's call. */
  lemma FanOutSingle(c: MqttClient, data: Option<EventData>)
    ensures FanOut([c], data) == CallsOf(c, data)
  {
    assert [c][..0] == [];
  }

  /** A caller's view: create a client from `mqtt://broker:1883`, register
      a callback for "message", receive one emission, remove the client, and
      receive nothing more for its reference. */
  method ClientLifecycle(cb: Callback, msg: Message)
  {
    var registry := new Registry();
    var o := Options(Some("mqtt://broker:1883"), None, None, None, None, map[]);
    assert DeriveOptions(o).Success? by {
      BrokerWithColonOptions(None);
    }
    var r := registry.CreateClient(o, Resolved(Some("ref-1")));
    var client := r.value;
    assert registry.clients == [client];
    client.On("message", Some(cb));
    var data := EventData(Some("ref-1"), Some("message"), Some(msg));
    assert Dispatch(client.clientRef, client.eventHandler, Some(data)) == Some(Invocation(cb, "message", Some(msg)));
    FanOutSingle(client, Some(data));
    var calls := registry.DispatchEvents(Some(data));
    assert calls == [Invocation(cb, "message", Some(msg))];
    registry.RemoveClient(client);
    assert registry.clients == [];
    calls := registry.DispatchEvents(Some(data));
    assert calls == [];
    assert registry.eventHandler.Some?;
  }
}
