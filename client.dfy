/** `MqttClient` (index.js:8-27): one handle per native client, holding its
    options, the reference the native module gave it, and a table from
    event name to the callback registered with `on`. Calling a callback is
    recorded as an `Invocation`; the operations that only forward to the
    native module are not part of this model. */
module Client {
  import opened Wrappers
  import opened Js
  import ConnectOptions

  type ClientRef = string
  type Message = string

  /** A JavaScript function passed to `on`, known only by its identity. */
  datatype Callback = Callback(id: nat)

  /** The payload of an `mqtt_events` emission: `{clientRef, event, message}`,
      any of which may be missing. */
  datatype EventData = EventData(clientRef: Option<ClientRef>, event: Option<string>, message: Option<Message>)

  /** One call `callback(message)`, made for event `event`. */
  datatype Invocation = Invocation(callback: Callback, event: string, message: Option<Message>)

  /** The decision of `dispatchEvent`: the data is present, is addressed to
      this client's reference, names a truthy event, and a truthy handler is
      stored under that name. A stored `None` is an `on(event, null)` or
      `on(event, undefined)`, which is kept in the table but never called. */
  function Dispatch(ref: Option<ClientRef>, handlers: map<string, Option<Callback>>, data: Option<EventData>)
    : (call: Option<Invocation>)
    ensures call.Some? ==>
      && data.Some? && data.value.clientRef == ref
      && data.value.event == Some(call.value.event) && call.value.event != ""
      && call.value.event in handlers && handlers[call.value.event] == Some(call.value.callback)
      && call.value.message == data.value.message
    ensures call.None? ==>
      || data.None? || data.value.clientRef != ref || !Truthy(data.value.event)
      || data.value.event.value !in handlers || handlers[data.value.event.value].None?
  {
    if data.Some? && data.value.clientRef == ref && Truthy(data.value.event) then
      var e := data.value.event.value;
      if e in handlers && handlers[e].Some? then Some(Invocation(handlers[e].value, e, data.value.message))
      else None
    else None
  }

  class MqttClient {
    const options: ConnectOptions.Options
    const clientRef: Option<ClientRef>
    var eventHandler: map<string, Option<Callback>>

    /** `new MqttClient(options, clientRef)`: no handler yet. */
    constructor (options: ConnectOptions.Options, clientRef: Option<ClientRef>)
      ensures this.options == options && this.clientRef == clientRef
      ensures eventHandler == map[]
    {
      this.options := options;
      this.clientRef := clientRef;
      eventHandler := map[];
    }

    /** `on(event, callback)`: replace whatever was stored under `event`. */
    method On(event: string, callback: Option<Callback>)
      modifies this
      ensures eventHandler == old(eventHandler)[event := callback]
    {
      eventHandler := eventHandler[event := callback];
    }

    /** `dispatchEvent(data)`: the guarded call of the stored handler, which
        makes exactly the call `Dispatch` decides on for this client's
        reference and current table. */
    method DispatchEvent(data: Option<EventData>) returns (call: Option<Invocation>)
      ensures call == Dispatch(clientRef, eventHandler, data)
    {
      call := None;
      if data.Some? && data.value.clientRef == clientRef && Truthy(data.value.event) {
        var e := data.value.event.value;
        if e in eventHandler && eventHandler[e].Some? {
          call := Some(Invocation(eventHandler[e].value, e, data.value.message));
        }
      }
    }
  }

  /** After `on(e, cb)`, an event `e` for this client calls `cb` (or nothing,
      when `cb` is null or `e` is empty), whatever was registered before;
      every other event is dispatched exactly as before. */
  lemma OnReplacesHandler(ref: Option<ClientRef>, handlers: map<string, Option<Callback>>,
                          e: string, cb: Option<Callback>, data: Option<EventData>)
    ensures data.Some? && data.value.event == Some(e) ==>
      Dispatch(ref, handlers[e := cb], data)
        == if data.value.clientRef == ref && e != "" && cb.Some?
           then Some(Invocation(cb.value, e, data.value.message)) else None
    ensures !(data.Some? && data.value.event == Some(e)) ==>
      Dispatch(ref, handlers[e := cb], data) == Dispatch(ref, handlers, data)
  {
  }

  /** At most one handler runs per emission, and only for data addressed to
      this client: data for another reference, or with no event, is ignored. */
  lemma ForeignDataIgnored(ref: Option<ClientRef>, handlers: map<string, Option<Callback>>, data: EventData)
    requires data.clientRef != ref || !Truthy(data.event)
    ensures Dispatch(ref, handlers, Some(data)) == None
  {
  }

  /** A client that has registered nothing ignores every emission. */
  lemma FreshClientIgnoresEverything(ref: Option<ClientRef>, data: Option<EventData>)
    ensures Dispatch(ref, map[], data) == None
  {
  }
}
