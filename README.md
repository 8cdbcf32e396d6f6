# react-native-mqtt bridge: a Dafny model

`index.js` of react-native-mqtt is the JavaScript face of a native MQTT
module. Almost every call (`connect`, `subscribe`, `publish`, ...) goes
straight through to the native side. The file's own logic is small, and it
is what this project models and proves things about:

- **URI option derivation** in `createClient` (lines 73-91). `options.uri`
  is matched against
  `^((mqtt[s]?|ws[s]?)?:(\/\/)([0-9a-zA-Z_\-\.]*):?(\d+))$`. A match sets
  `host`, `port` (`parseInt` of the digits), `protocol` (`"tcp"`, or `"ws"`
  for `ws`/`wss`) and, for `mqtts`/`wss` only, `tls = true`.
  Module `Uri` gives the matcher (`MatchUri`) together with the pattern's
  language written out directly (`Spells`). It proves that the matcher
  accepts exactly that language, and that among the spellings of an input
  it reports the one with the longest host, the choice a greedy `*` makes.
  The host class has no colon.
  When a colon is present, the host is the text before it and the port is
  all the digits after it. When there is no colon, the port is the final
  digit alone: `mqtt://broker1883` gives host `broker188` and port 3.
  Module `ConnectOptions` applies the match to the options record
  (`DeriveOptions`).
- **The client's handler table** (`MqttClient`, lines 8-27). `on` replaces
  the handler stored under an event name. `dispatchEvent` calls the stored
  handler only if the data is present, is addressed to this client's
  `clientRef`, names a truthy event, and a truthy handler is stored for it.
  Handler calls are recorded as `Invocation` values (callback, event,
  message). Module `Client` holds this part.
- **The client registry** (the exported object, lines 60-121). It holds
  the `clients` list and the emitter subscription `eventHandler`.
  `createClient` appends the new client and installs the subscription only
  when none is installed. `dispatchEvents` hands each emission to every
  client in list order. The continuation of `removeClient` takes out the
  first occurrence (`indexOf` + `splice`), then replaces the subscription
  with a new one, but only when clients remain. Module `Registry` holds this
  part. Its class invariant `Valid()` says four things:
  - at most one subscription is registered with the emitter;
  - any registered subscription is the one `eventHandler` holds;
  - a non-empty list implies that a subscription is installed;
  - no client appears twice.

Modelling choices:
- JavaScript's `undefined`/`null` become `None`.
- A thrown exception or a rejected promise becomes a `Failure` result.
- The native `createClient` is an oracle: its answer is a parameter of
  `Registry.Registry.CreateClient`.
- `Registry.Registry.RemoveClient` is the `.then` continuation. It runs
  after the native removal has resolved.
- `Registry.ClientLifecycle` is a caller's walk-through. It creates a client
  from `mqtt://broker:1883`, registers a callback, receives one emission,
  removes the client, and then receives nothing more. It has no contract of
  its own. It shows that the contracts suffice for a caller.

Because `createClient` is `async`, indexing the `null` match throws
inside it, and the caller sees a rejected promise rather than a
synchronous throw. `DeriveOptions` returns `Failure(UriMismatch(uri))` for
that case and assigns nothing.

## Model

| member | source | states |
|---|---|---|
| Uri.MatchScheme | index.js:74-76 | the reported scheme is one the string begins with, followed by a colon; `None` only when it begins with no accepted scheme and colon |
| Uri.MatchAuthority | index.js:74-78 | accepted authorities give a host of host-class characters and a non-empty digit port |
| Uri.MatchUri | index.js:74-78 | every match has a host of host-class characters and a non-empty all-digit port |
| Uri.MatchIsSound | index.js:74-75 | every match spells the whole input as scheme, `://`, host, optional colon, digits |
| Uri.MatchIsComplete | index.js:74-78 | every spelling of the input by the pattern is matched, with its scheme and a host at least as long (greedy); with the colon, the captures are exactly its parts |
| Uri.HostColonPort | index.js:74-78 | `scheme://H:D` with host characters H and digits D captures host H and port D |
| Uri.HostWithoutColon | index.js:74-78 | with no colon after `//`, the host is all but the last character and the port the last digit alone |
| Uri.MatchedSchemeIsPrefix | index.js:74-76 | the captured scheme is `sc` exactly when the input begins with `sc` and a colon |
| Uri.WrongSchemeRejected | index.js:74-75 | a string beginning with no accepted scheme and colon does not match |
| Uri.MissingSlashesRejected | index.js:74-75 | a scheme and colon not followed by `//` does not match |
| Uri.AcceptedEndsWithDigit | index.js:74-75 | every matched string ends in a digit, so missing digits or trailing characters mean no match |
| Uri.LeadingZeroIgnored | index.js:80 | a leading zero does not change the parsed port |
| Uri.BrokerWithoutColon | index.js:74-78 | `mqtt://broker1883` captures host `broker188` and port `3` |
| Uri.BrokerWithColon | index.js:74-78 | `mqtt://broker:1883` captures host `broker` and port `1883` |
| Uri.DecimalValue | index.js:80 | `parseInt` in base ten of a digit string; `k` digits give a value below ten to the `k` |
| Uri.SingleDigitValue | index.js:80 | a single digit parses to its own value |
| Uri.DecimalValueOfDigits | index.js:80 | parsing the decimal numeral of any `n` gives back `n` |
| Uri.LeadingNonZeroPositive | index.js:80 | a numeral that does not start with zero parses to a positive value |
| Uri.DigitsOfDecimalValue | index.js:80 | a numeral without leading zeros is the numeral of its parsed value, so parsing loses nothing there |
| Uri.DecimalValueOf1883 | index.js:80 | the digits `1883` parse to 1883 |
| Uri.EmptySchemeAccepted | index.js:74-78 | `://h:1` matches with no scheme |
| ConnectOptions.DeriveOptions | index.js:73-91 | options without a truthy `uri` pass through unchanged; a truthy `uri` fails exactly when it does not match, with the URI as error; success keeps `uri` and every other option |
| ConnectOptions.WebSocketIffPrefix | index.js:88-90 | the matched scheme selects WebSocket exactly when the URI begins `ws:` or `wss:` |
| ConnectOptions.SecureIffPrefix | index.js:85-87 | the matched scheme counts as secure exactly when the URI begins `mqtts:` or `wss:` |
| ConnectOptions.ProtocolFollowsScheme | index.js:82-90 | an accepted URI gives protocol "ws" exactly when it begins `ws:` or `wss:`, "tcp" otherwise, including the empty scheme |
| ConnectOptions.TlsFollowsScheme | index.js:85-87 | an accepted URI sets `tls` to true exactly when it begins `mqtts:` or `wss:`, and otherwise keeps the caller's value |
| ConnectOptions.HostAndPortFromUri | index.js:77-81 | `scheme://H:D` sets host H and port the decimal value of D |
| ConnectOptions.PortIsLastDigitWithoutColon | index.js:74-81 | without a colon, the host is all but the last character and the port that last digit's value |
| ConnectOptions.AcceptedExactlyWhenSpelled | index.js:73-76 | a truthy URI is accepted exactly when the pattern spells it; otherwise the result is the mismatch error and no option is assigned |
| ConnectOptions.DeriveIsIdempotent | index.js:73-91 | deriving again from derived options gives the same result |
| ConnectOptions.BrokerWithoutColonOptions | index.js:73-91 | `mqtt://broker1883` gives host `broker188`, port 3, protocol "tcp" and the caller's `tls` |
| ConnectOptions.BrokerWithColonOptions | index.js:73-91 | `mqtt://broker:1883` gives host `broker`, port 1883, protocol "tcp" and the caller's `tls` |
| Client.Dispatch | index.js:13-21 | a call happens only for present data with this client's ref, a non-empty event and a stored callback, which is called with the data's message; otherwise one of those conditions fails |
| Client.MqttClient.constructor | index.js:8-11 | a new client keeps its options and ref and has an empty handler table |
| Client.MqttClient.DispatchEvent | index.js:13-21 | the instance's `dispatchEvent` makes exactly the call that `Dispatch` decides on for its own ref and current table |
| Client.MqttClient.On | index.js:24-27 | the handler under `event` becomes `callback`; every other entry is unchanged |
| Client.OnReplacesHandler | index.js:13-27 | after `on(e, cb)`, an event `e` for this client calls `cb` whatever was registered before; every other event dispatches as before |
| Client.ForeignDataIgnored | index.js:13-21 | data for another ref, or with no event, calls nothing |
| Client.FreshClientIgnoresEverything | index.js:8-21 | a client with no handlers calls nothing |
| Registry.IndexOf | index.js:109 | the result is -1 exactly when the client is absent, and otherwise the first position holding it |
| Registry.SpliceIsRemoveFirst | index.js:109-113 | the guarded `splice(indexOf(c), 1)` removes exactly the first occurrence, keeping the others in order |
| Registry.RemoveAbsent | index.js:109-113 | removing an absent client leaves the list unchanged |
| Registry.RemovePresent | index.js:109-113 | removing a present client takes out one copy of it and shortens the list by one |
| Registry.RemoveFromDistinct | index.js:109-113 | in a list without repeats, removal keeps it without repeats and leaves exactly the other clients |
| Registry.OthersKeepOtherRefs | index.js:109-113 | if no other client shares the removed client's ref, none of the remaining clients has it |
| Registry.FanOutAppend | index.js:63-67 | fanning out over two lists joined is fanning out over each, in order |
| Registry.FanOutStep | index.js:63-67 | extending a prefix of the list by one client appends exactly that client's calls |
| Registry.FanOutSingle | index.js:63-67 | a list of one client yields exactly that client's call |
| Registry.FanOutDelivers | index.js:63-67 | every call carries the data's event and message and comes from a listed client with the data's ref that stores that callback |
| Registry.UnknownRefDropped | index.js:63-67 | an emission for a ref no listed client has calls nothing |
| Registry.RemovedClientNotCalled | index.js:106-113 | after removal, an emission for the removed client's ref calls nothing, if no other client shares that ref |
| Registry.Registry.constructor | index.js:60-62 | the registry starts with no clients and no subscription |
| Registry.Registry.SetEventHandler | index.js:68-71 | a new subscription is registered and stored; the previous one is not removed |
| Registry.Registry.DispatchEvents | index.js:63-67 | the calls are each listed client's dispatch, in list order |
| Registry.Registry.CreateClient | index.js:72-105 | a bad URI fails before the native call, and a native rejection fails; neither changes the registry. Otherwise the fresh client carries the derived options, the native ref and no handlers, and it is appended. The subscription is installed only if none was. The single-subscription invariant is kept |
| Registry.Registry.RemoveClient | index.js:106-121 | the list loses the first occurrence of the client and no longer holds it. With clients remaining, the subscription is replaced by a new one. With none remaining, it stays in place. The invariant is kept |

## Left out

- The forwarding methods `connect`, `reconnect`, `isConnected`, `disconnect`, `subscribe`, `unsubscribe` and `publish` (lines 29-56): each only calls the native module, whose code is not part of this model.
- The native `Mqtt.createClient` and `Mqtt.removeClient` (lines 94, 107) are not modelled as code. The first is an oracle parameter. For the second, only its `.then` continuation is modelled; if the native promise rejects, the continuation never runs, which a caller models by not calling `RemoveClient`.
- `NativeEventEmitter` and `addListener`/`remove` (lines 58, 69, 116) are reduced to serial-numbered subscriptions and the set of those still registered. How the emitter delivers an emission to each registered subscription is not modelled.
- Asynchrony: `await`, promise timing and interleavings of concurrent `createClient`/`removeClient` calls are not modelled. Each operation runs as one sequential step.
- `console.log` in `on` (line 25) is output only and is left out.
- `parseInt` on very long digit strings loses precision in JavaScript (floating point); the model's port is an unbounded natural number.
- In-place mutation and aliasing of the caller's options object (lines 80-89) are modelled by value. So the model does not capture one thing: when the native call rejects, the caller's object has already been updated.
- Event names that coincide with members of `Object.prototype` (`toString`, `constructor`, `__proto__`, ...) are not modelled. The handler table is a plain map, with no inherited entries.
- Loose equality `==` between a `clientRef` and a value of another JavaScript type (say a number and its string) is not modelled. References are strings or absent, and two absent references are equal, as `undefined == undefined` is.
- A `uri` that is not a string is not modelled; `.match` on it would throw a different error.
- Callbacks are only recorded. A callback that mutates the registry while `forEach` is running is not modelled.
- Registry.Registry.DispatchEvents: a callback that throws (index.js:18) aborts the `forEach` of lines 64-66, and the clients after it get nothing. The model records calls and never throws, so `FanOut` and `DispatchEvents` deliver to every listed client.
- `createClient(undefined)` and `createClient(null)` throw at `options.uri` (line 73). The `Options` record always exists, so that error path is not expressible.
- Direct outside mutation of the exported `clients` array is not modelled. The list changes only through `CreateClient` and `RemoveClient`.
- Registry.Registry.SetEventHandler: needs no `Valid()` and does not keep it. Called directly while a subscription is installed, it leaves the old one registered, as the source does.
- Registry.RemovedClientNotCalled: assumes no other listed client shares the removed client's ref. The native module hands out the refs, and this file does not make them unique.
