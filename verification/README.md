# Verified models of the TESAIoT Community Edition

This project models the parts of the repository that compute or keep protocol state, and
proves what they promise for every input and every run. Each model stands in its own module.
`dafny verify dfyconfig.toml` checks everything.

| module | what it models |
|---|---|
| `OrderedDict`, `TelemetryFlattening`, `TelemetryRoundTrip` | flattening of nested telemetry payloads in the MQTT bridge |
| `TokenProtocol`, `TokenRuns`, `TokenBridge` | the bridge's API token: login retries, expiry, one retry after a 401 |
| `CsvExport`, `Text` | the CSV export of a data grid, with a reader for section 2 of RFC 4180 |
| `JsonText`, `JsonWriter`, `JsonRoundTrip` | the device's JSON writer over a fixed buffer, with a reader after RFC 8259 |
| `WebSockets`, `HealthSocket`, `HealthSocketRuns`, `HealthSocketClass` | the device-health WebSocket client |
| `TelemetrySocket`, `TelemetrySocketRuns`, `TelemetrySocketClass` | the telemetry WebSocket hook |
| `ServiceWorker`, `ServiceWorkerRuns`, `ServiceWorkerClass` | the service worker's caching strategies |
| `Menu` | active-entry searches over the menu tree |
| `Pagination` | page lists, page slices, pagination state |
| `SameSite` | same-site hosts by registrable domain |
| `Throttle` | the throttling closure |
| `Serial`, `Hexadecimal` | certificate serial numbers and regeneration |

How code that changes state is modelled: a class with the source's fields has one method for
each of its methods. What an event does to the fields is a function `Step`; `Run` folds it over any
list of events, and the lemmas are about every run. The class's `Valid()` holds the invariant that
the lemmas prove of all runs (which timer may be live, where every message or cache entry comes
from, whose expiry is stored), every method keeps it, and every method's new state is that of `Step`.
Fields that only remember the past (what was sent, what the network answered, when `func` ran) are
marked as history. The network, the clock, random numbers, user callbacks and the order of
asynchronous steps are parameters of the events, without any restriction beyond what a lemma states.

## What the code does and does not guarantee

Where a natural property is false of the code, the model keeps the code, states exactly when the
property holds, and gives a run or an input that breaks it.

- Flattening can be undone by splitting keys exactly when no key on the way to a leaf holds the
  separator and no empty top-level key has leaves below it (`UnflattenFlatten`). For separators of
  any length, keys free of the separator have distinct flat keys exactly when no proper part of the
  separator both begins and ends it (`SeparatorTellsApart`; `LongSeparatorCollides` is a payload).
- The CSV text of a one-column export whose last cell is empty ends in a line break, which RFC 4180
  lets a reader take as the end of the last record; that reader loses the row (`CsvRoundTrip`).
- `schema_to_json` discards what `append_quoted` returns. It returns 0 without the document exactly
  when the document does not fit but does once the strings that do not fit where they stand are left
  out (`ZeroWithoutDocument`). In a buffer of any size a last string that alone does not fit is lost,
  and what stands in the buffer is not JSON (`LastStringLost`; `NameLost` for a field's name). The
  documentation comment says -1 is returned if anything would exceed the limit; that holds for the
  version that propagates the failure.
- The bridge stores a token before it reads its expiry. When reading raises, the token stays after the
  failed login with no expiry (`UndecodableTokenIsUsed`) or with that of the token before it
  (`ForeignExpiry`). An expiry of exactly 0 counts as missing (`ZeroExpiryNeverExpires`). In every run
  requests sent without a login are in time for their own token's expiry exactly when neither is the
  case (`FreshInEveryRun`).
- The device-health client sends in order exactly when nothing is sent to an open socket while an older
  message is queued (`SentInOrder`); `onConnect` can do that (`SentInsideOnConnectOvertakes`).
- An open current socket means an empty queue exactly when, at each opening, `onConnect` does not throw
  on a filled queue and all queued messages but the last can be serialised (`OpenMeansFlushed`;
  `ThrowingOnConnectKeepsQueue`).
- `disconnect` can discard messages sent later exactly when a subscription had to be removed or an
  earlier `cleanup` was waiting (`DisconnectDiscardsOnce`; `LateCleanupDiscards` is a run with a new
  `connect`).
- An open socket can be replaced exactly when a timer is live, a `createWebSocket` waits, or an older
  socket is still to close and its close can set a timer (`OpenSocketStays`; `OpenSocketIsReplaced`).
- After `disconnect`, a `createWebSocket` that still waits for its subscription opens a socket all the
  same (`DisconnectIsFinal`).
- In the telemetry hook `close` leaves `isReconnecting` set, so the close of the next connection is
  followed up exactly when no reconnect was pending or a cooldown starts (`CloseStopsReconnecting`;
  `SecondCloseIgnored` is a run). The option `reconnectAttempts` is read and never used.
- `throttle` runs the last call exactly when the last timer did not fire early (`LastCallWins`;
  `DroppedCall`). A run of `func` that throws does not start the limit: `func` can start again at the
  same instant (`OnlyCompletedRunsCount`; `ThrowingFirstCall`).
- The clamp effect does not raise a page below 1, so it needs an initial page of at least 1.
- Same-site comparison is not symmetric between a host with a cookie domain and one without.
- The first-digit test of a serial number agrees with the sign bit exactly when the digits fill
  whole bytes or the first digit is below 8; the unpadded form of the serial 8 is refused. The
  documentation gives the range of generated serials as up to 2^159 - 1, the code stops one short.

## Model

| member | source | states |
|---|---|---|
| TelemetryFlattening.FlattenTelemetryData | services/mqtt-bridge/mqtt_telemetry_bridge.py:124-152 | the loop with its recursion builds the dict that `Flatten` describes, for every payload, parent key and separator |
| TelemetryFlattening.FlattenIsOnePass | services/mqtt-bridge/mqtt_telemetry_bridge.py:141-152 | removing duplicates at every level equals one last-value-wins pass over the depth-first list of joined leaf paths |
| TelemetryFlattening.FlattenMeaning | services/mqtt-bridge/mqtt_telemetry_bridge.py:141-152 | the flat keys stand in the order of their first leaves and carry the value of their last leaf |
| OrderedDict.DictOfMeaning | services/mqtt-bridge/mqtt_telemetry_bridge.py:152 | `dict(items)` lists each key once, at its first place, with its last value |
| OrderedDict.DictOfAbsorbs | services/mqtt-bridge/mqtt_telemetry_bridge.py:148-152 | an inner `dict()` inside the extended list changes nothing in the outer one |
| TelemetryFlattening.FlattenIdempotent | services/mqtt-bridge/mqtt_telemetry_bridge.py:124-152 | for every payload the result is flat and flattening it again gives the same dict |
| TelemetryRoundTrip.SplitPathKey | services/mqtt-bridge/mqtt_telemetry_bridge.py:144 | a path without separators and without an empty start is read back from its flat key, so distinct paths have distinct keys |
| TelemetryRoundTrip.FlattenKeepsLeaves | services/mqtt-bridge/mqtt_telemetry_bridge.py:141-152 | with such keys no leaf is lost and splitting the flat keys gives the leaf list |
| TelemetryRoundTrip.UnflattenFlatten | services/mqtt-bridge/mqtt_telemetry_bridge.py:124-152 | rebuilding from split keys gives the payload without leafless sub-dicts, if and only if the keys are of that kind |
| TelemetryRoundTrip.SeparatorTellsApart | services/mqtt-bridge/mqtt_telemetry_bridge.py:124-144 | for a separator of any length: paths of non-empty keys free of it have distinct flat keys if and only if the separator has no border (a proper part that both begins and ends it) |
| TokenBridge.Bridge.AuthenticateApi | services/mqtt-bridge/mqtt_telemetry_bridge.py:281-348 | the retry loop does what the recursive `Authenticate` says; true means a token and an expiry are held; the token stays that of the last answer, with its own expiry unless reading it raised |
| TokenRuns.AuthenticateOwned | services/mqtt-bridge/mqtt_telemetry_bridge.py:303-329 | whatever the answers, a login leaves a token that is the last answer's, with that answer's own expiry unless reading it raised, and no expiry that no answer gave |
| TokenBridge.Bridge.EnsureAuthenticated | services/mqtt-bridge/mqtt_telemetry_bridge.py:350-356 | true means a token is held, and, when nothing was sent, that no set expiry has passed |
| TokenBridge.Bridge.ApiRequestCall | services/mqtt-bridge/mqtt_telemetry_bridge.py:358-385 | the request loop leaves the state, events and outcome that `ApiRequest` describes |
| TokenRuns.LoginBounds | services/mqtt-bridge/mqtt_telemetry_bridge.py:281-348 | one login makes 1 to 3 attempts and sleeps exactly 2^(pauses+1) - 2 seconds, at most 2^n - 2 for n attempts |
| TokenRuns.LoginPaced | services/mqtt-bridge/mqtt_telemetry_bridge.py:281-348 | the logins take the answers in order; a pause follows an attempt if and only if another attempt does and the answer was not a body without a token; the pauses last 2 and 4 seconds |
| TokenRuns.LoginSucceedsWhen | services/mqtt-bridge/mqtt_telemetry_bridge.py:303-329 | a login succeeds if and only if one of three answers brings a token whose expiry can be read and printed |
| TokenRuns.ExpiryStored | services/mqtt-bridge/mqtt_telemetry_bridge.py:315-325 | the stored expiry is `exp` less the margin, or the clock plus the fallback when there is no `exp` or it is zero |
| TokenRuns.LoginResult | services/mqtt-bridge/mqtt_telemetry_bridge.py:286-348 | it stops at the first accepted answer and then holds that answer's token and expiry; it fails only after all attempts |
| TokenRuns.ApiRequestBounds | services/mqtt-bridge/mqtt_telemetry_bridge.py:358-385 | at most 2 requests and 6 logins; a second request follows only a 401 and a successful login whose token it carries; which response the caller gets |
| TokenRuns.SendsAtOnceWhen | services/mqtt-bridge/mqtt_telemetry_bridge.py:350-385 | exactly when one call sends its request without any login, and with which token |
| TokenRuns.RunOwned | services/mqtt-bridge/mqtt_telemetry_bridge.py:281-385 | in every run, whatever the network answers, the stored token is the last answer's and its expiry that answer's own unless reading it raised |
| TokenRuns.FreshInEveryRun | services/mqtt-bridge/mqtt_telemetry_bridge.py:303-385 | after every run that holds a token, all requests sent without a login go out before the expiry that the token's own answer gave, if and only if reading that expiry did not raise and gave no zero |
| TokenRuns.ZeroExpiryNeverExpires | services/mqtt-bridge/mqtt_telemetry_bridge.py:353 | an expiry of exactly 0 is never seen as passed |
| CsvExport.NestedAccessor | services/admin-ui/src/hooks/useExport.ts:26-54 | a dotted accessor key reads the property its parts lead to; an absent, null or undefined one gives the empty cell |
| CsvExport.HeaderOf | services/admin-ui/src/hooks/useExport.ts:15-21 | the header text, else the id, else "Unknown" |
| CsvExport.CellWithoutKey | services/admin-ui/src/hooks/useExport.ts:26-54 | without an accessor key the accessor function gives the cell, without either it is empty |
| CsvExport.ReadFieldBack | services/admin-ui/src/hooks/useExport.ts:59-65 | every escaped field is read back as the original string, whatever follows it in a record |
| CsvExport.ReadRecordBack | services/admin-ui/src/hooks/useExport.ts:77-85 | a joined line is read back as its cells |
| CsvExport.CsvRoundTrip | services/admin-ui/src/hooks/useExport.ts:70-89 | the export is read back as its header and cell strings if and only if there is an exportable column (and, for a reader that drops a final line break, the last row is not one empty cell) |
| CsvExport.ExportsPicked | services/admin-ui/src/hooks/useExport.ts:70-89 | the text starts with a byte order mark and is read back as the headers and cells of exactly the columns, in order, whose id is not "select", "actions" or "expand" |
| CsvExport.QuotedWhenNeeded | services/admin-ui/src/hooks/useExport.ts:59-65 | a field is changed if and only if it holds a comma, a quotation mark, CR or LF |
| CsvExport.ToCsvInjective | services/admin-ui/src/hooks/useExport.ts:70-89 | equal texts come from equal tables of strings |
| JsonWriter.Append | examples/embedded-devices/device-mtls/data_schema.c:34 | one bounded print succeeds exactly when it fits with its NUL, and touches nothing before its position or beyond the limit |
| JsonWriter.AppendQuoted | examples/embedded-devices/device-mtls/data_schema.c:65-93 | returns 0 exactly when the whole quoted string fits; only then the position moves; what was written before stays; nothing beyond the limit changes |
| JsonWriter.SchemaToJson | examples/embedded-devices/device-mtls/data_schema.c:100-139 | the exact condition for 0 and the exact buffer text, as written and with failures propagated; a document that fits is written whole; never writes at or beyond `out_size` |
| JsonWriter.DocumentFits | examples/embedded-devices/device-mtls/data_schema.c:100-139 | a full rendering shorter than the buffer is written whole, and with failures propagated nothing else succeeds |
| JsonWriter.WriteKeeps | examples/embedded-devices/device-mtls/data_schema.c:110-123 | as written, success is decided by the text without the quoted strings that do not fit |
| JsonWriter.WriteSelects | examples/embedded-devices/device-mtls/data_schema.c:65-139 | as written, the text of a success is all the calls but quoted strings, each left out because it does not fit behind what stands before it, and nothing else is |
| JsonWriter.ZeroWithoutDocument | examples/embedded-devices/device-mtls/data_schema.c:110-123 | 0 comes without the whole document if and only if the types are known, the document does not fit, and it fits once the strings that do not fit where they stand are left out |
| JsonRoundTrip.LastStringLost | examples/embedded-devices/device-mtls/data_schema.c:123-138 | for every list of fields and every buffer size in which a last string alone does not fit: 0 and the text without that value, which no JSON reader accepts |
| JsonRoundTrip.ReadCharsBack | examples/embedded-devices/device-mtls/data_schema.c:72-85 | unescaping what is emitted gives the original characters, for every string (section 7 of RFC 8259) |
| JsonRoundTrip.DecimalBack | examples/embedded-devices/device-mtls/data_schema.c:117 | `%ld` prints a JSON number that reads back as the same integer, with a minus sign exactly for negative ones |
| JsonRoundTrip.JsonRoundTrip | examples/embedded-devices/device-mtls/data_schema.c:106-138 | the rendering is read back as the same fields in the same order if and only if its numbers are finite |
| HealthSocketRuns.SendKeepsOrder | services/admin-ui/src/hooks/useDeviceHealthWebSocket.ts:102-115 | one `send` keeps the order of messages if and only if it does not go to an open socket while older ones are queued |
| HealthSocketClass.DeviceHealthWebSocket.FlushMessageQueue | services/admin-ui/src/hooks/useDeviceHealthWebSocket.ts:213-220 | the loop hands over the queue in order up to the first message that cannot be serialised |
| HealthSocketClass.DeviceHealthWebSocket.DisconnectFrom | services/admin-ui/src/hooks/useDeviceHealthWebSocket.ts:79-82 | leaves no live timer and no current socket, and every message still in exactly one place |
| HealthSocketClass.DeviceHealthWebSocket.Dispatch | services/admin-ui/src/hooks/useDeviceHealthWebSocket.ts:102-269 | every event keeps the invariant: only the timer in the field may be live, attempts and delays are those since the last open, every message is in exactly one place; and does what `Step` says |
| HealthSocketRuns.EveryMessageOnce | services/admin-ui/src/hooks/useDeviceHealthWebSocket.ts:102-269 | in every run each message is exactly one of: handed to a socket once, queued, discarded by `cleanup`, lost to a throwing `JSON.stringify` |
| HealthSocketRuns.FlushEmpties | services/admin-ui/src/hooks/useDeviceHealthWebSocket.ts:213-220 | the flush of an open socket empties the queue if and only if all messages but the last can be serialised |
| HealthSocketRuns.StepFlushed | services/admin-ui/src/hooks/useDeviceHealthWebSocket.ts:147-154 | with the queue flushed, an event leaves an open current socket with a filled queue if and only if it is an opening whose `onConnect` throws or leaves messages that stop the flush |
| HealthSocketRuns.OpenMeansFlushed | services/admin-ui/src/hooks/useDeviceHealthWebSocket.ts:147-154 | all through a run an open current socket means an empty queue, if and only if every opening can flush what `onConnect` left |
| HealthSocketRuns.CalmMeansFlushed | services/admin-ui/src/hooks/useDeviceHealthWebSocket.ts:147-220 | in every run where `onConnect` does not throw and messages serialise, an open current socket means an empty queue and no message is lost |
| HealthSocketRuns.SentInOrder | services/admin-ui/src/hooks/useDeviceHealthWebSocket.ts:102-220 | all through a run, inside callbacks too, messages go out in the order of `send`, if and only if none is sent to an open socket while an older one is queued |
| HealthSocketRuns.CalmInOrder | services/admin-ui/src/hooks/useDeviceHealthWebSocket.ts:102-220 | that is so when `onConnect` sends nothing and does not throw and messages serialise |
| HealthSocketRuns.ReconnectBounds | services/admin-ui/src/hooks/useDeviceHealthWebSocket.ts:222-249 | in every run at most one reconnect timer is live, attempts stay within the maximum, delays since the last open do not decrease and stay within 30 seconds |
| HealthSocketRuns.DelaysGrow | services/admin-ui/src/hooks/useDeviceHealthWebSocket.ts:232-235 | the delays never decrease if and only if the configured interval is not negative |
| HealthSocketRuns.DelayInNumbers | services/admin-ui/src/hooks/useDeviceHealthWebSocket.ts:232-235 | the first delays are 1, 2, 4, 8 and 16 times the interval, never above 30000 ms |
| HealthSocketRuns.CloseIsFollowedUp | services/admin-ui/src/hooks/useDeviceHealthWebSocket.ts:156-165 | in every run, after a close a timer is live if and only if one was live after `onDisconnect`, or the close was not intended and attempts remain; then it is one new timer with the next delay |
| HealthSocketRuns.TimerAttempts | services/admin-ui/src/hooks/useDeviceHealthWebSocket.ts:236-243 | in every run a timer that fires makes one attempt: a new current socket, or after a failure one new timer if attempts remain and none otherwise |
| HealthSocketRuns.ConnectAttempts | services/admin-ui/src/hooks/useDeviceHealthWebSocket.ts:70-144 | so does the end of an awaited subscription, and `connect` exactly when the current socket is not open |
| HealthSocketRuns.ReconnectDelivers | services/admin-ui/src/hooks/useDeviceHealthWebSocket.ts:102-243 | in every run, a message sent without an open socket goes out behind the queue, in order, once a timer has fired and its socket opened; nothing is left pending and the attempts start over |
| HealthSocketRuns.OpenDelivers | services/admin-ui/src/hooks/useDeviceHealthWebSocket.ts:102-115 | a message and a heartbeat on an open socket go out at once; a heartbeat without one does nothing |
| HealthSocketRuns.DisconnectCleansUp | services/admin-ui/src/hooks/useDeviceHealthWebSocket.ts:245-269 | `disconnect` starts to close a connecting or open socket and the queue is discarded, at once or when the subscription has been removed |
| HealthSocketRuns.SocketEnds | services/admin-ui/src/hooks/useDeviceHealthWebSocket.ts:147-165 | what an opening whose `onConnect` throws, a beginning close and a close that is not followed up change |
| HealthSocketRuns.DisconnectIsFinal | services/admin-ui/src/hooks/useDeviceHealthWebSocket.ts:79-165 | in every run after `disconnect` no socket is created and no timer is live until `connect`, if and only if no `createWebSocket` was still waiting for its subscription |
| HealthSocketRuns.DisconnectDiscardsOnce | services/admin-ui/src/hooks/useDeviceHealthWebSocket.ts:245-269 | after `disconnect` in any run, no continuation without another `disconnect` discards a message, if and only if there was no subscription to remove and no `cleanup` waiting |
| HealthSocketRuns.ReplacedBy | services/admin-ui/src/hooks/useDeviceHealthWebSocket.ts:70-77 | `connect` never replaces an open socket; of all events only a timer and a late subscription do, whenever the constructor works |
| HealthSocketRuns.OpenSocketStays | services/admin-ui/src/hooks/useDeviceHealthWebSocket.ts:117-243 | an open socket stays current in every continuation without `disconnect` or its own end, if and only if no timer is live, no `createWebSocket` waits and no older socket can still set a timer |
| TelemetrySocketClass.TelemetryWebSocket.OnCloseHandler | services/admin-ui/src/hooks/useTelemetryWebSocket-python-workaround.ts:277-327 | until `close` is first called, a close with reconnect enabled leaves exactly the timer it set; the counter stays that of the last window of closes |
| TelemetrySocketClass.TelemetryWebSocket.CloseNow | services/admin-ui/src/hooks/useTelemetryWebSocket-python-workaround.ts:362-374 | leaves no live timer and no current socket, in every state the hook can reach |
| TelemetrySocketClass.TelemetryWebSocket.Dispatch | services/admin-ui/src/hooks/useTelemetryWebSocket-python-workaround.ts:139-393 | every event keeps the invariant: at most one timer, the counter of the last window, and, until `close` is called, one socket at a time and `isReconnecting` only with a timer; and does what `Step` says |
| TelemetrySocketRuns.AtMostOneTimer | services/admin-ui/src/hooks/useTelemetryWebSocket-python-workaround.ts:300-322 | in every run, also with `close`, at most one timer is live |
| TelemetrySocketRuns.WindowIsShort | services/admin-ui/src/hooks/useTelemetryWebSocket-python-workaround.ts:289-295 | the closes counted in one window lie within 60 seconds after its first |
| TelemetrySocketRuns.CloseLeavesTimer | services/admin-ui/src/hooks/useTelemetryWebSocket-python-workaround.ts:297-326 | in any state, a close leaves a timer live if and only if it starts a cooldown, or no reconnect is marked pending, or a timer was live |
| TelemetrySocketRuns.EveryCloseIsFollowedUp | services/admin-ui/src/hooks/useTelemetryWebSocket-python-workaround.ts:277-327 | in every run without `close`, each close leaves exactly one timer: the 120000 ms cooldown exactly when more than 10 closes lie in the window of the history, else a backoff timer with the exact delay of the attempt, under 31000 ms, and the count of attempts rises by one |
| TelemetrySocketRuns.ReconnectingMeansTimer | services/admin-ui/src/hooks/useTelemetryWebSocket-python-workaround.ts:311-326 | in every run without `close`, `isReconnecting` implies a live timer |
| TelemetrySocketRuns.ClosesPerMinute | services/admin-ui/src/hooks/useTelemetryWebSocket-python-workaround.ts:288-309 | in every run without `close` on a monotone clock, as long as no cooldown timer is live at most 20 of the counted closes lie within one minute |
| TelemetrySocketRuns.CloseStopsReconnecting | services/admin-ui/src/hooks/useTelemetryWebSocket-python-workaround.ts:362-393 | in every run, the close of a connection made by a manual reconnect or by re-enabling leaves a timer if and only if no reconnect was pending before, or a cooldown starts |
| TelemetrySocketRuns.TimerReconnects | services/admin-ui/src/hooks/useTelemetryWebSocket-python-workaround.ts:300-326 | in every run, a timer that fires brings one new current socket if and only if there is a token, the constructor works and the current socket has ended; it ends the pending reconnect, and a cooldown resets both counters |
| TelemetrySocketRuns.Recovers | services/admin-ui/src/hooks/useTelemetryWebSocket-python-workaround.ts:139-326 | in every run without `close`, a close, its timer and the opening of the new socket leave that socket open and current, nothing pending and the backoff at its start |
| TelemetrySocketRuns.BackoffInNumbers | services/admin-ui/src/hooks/useTelemetryWebSocket-python-workaround.ts:318 | 2, 4, 8, 16 and then 32 times the interval, never above 30000 ms |
| TelemetrySocketRuns.OtherEvents | services/admin-ui/src/hooks/useTelemetryWebSocket-python-workaround.ts:362-393 | what openings, beginning closes, closes with reconnect disabled, `close`, a manual reconnect and the switch of `enabled` change |
| ServiceWorkerClass.Worker.Dispatch | services/admin-ui/public/service-worker.js:40-152 | every event keeps the invariant: each cache entry, each put under way and each reply comes from what the network gave for that request, each entry in the cache of its strategy; and does what `Step` says |
| ServiceWorkerRuns.CachedEntries | services/admin-ui/public/service-worker.js:155-251 | in every interleaving a cached entry is an ok answer the network gave for that request, in the cache of its strategy or an install asset, and never of a no-cache path |
| ServiceWorkerRuns.StrategyBySuffix | services/admin-ui/public/service-worker.js:155-173 | for every path, the strategy by its ending, version files and maps first, then fonts and images, then code and the API |
| ServiceWorkerRuns.CachedSuffixes | services/admin-ui/public/service-worker.js:155-251 | in every interleaving the static cache holds but the two assets only fonts and images, the dynamic cache none of them, and neither a version file or a map |
| ServiceWorkerRuns.ServesExpected | services/admin-ui/public/service-worker.js:176-251 | in every state a run reaches, an uninterrupted request is answered as its path says (cache, network, fallback or error), and its answer is stored exactly when it is ok and the path is one to store |
| ServiceWorkerRuns.PutIsHeld | services/admin-ui/public/service-worker.js:176-251 | a put that ends well is what the cache then holds for the request, and nothing else changes |
| ServiceWorkerRuns.InstallStores | services/admin-ui/public/service-worker.js:40-55 | installing stores both assets if and only if both answers are ok |
| ServiceWorkerRuns.Deletions | services/admin-ui/public/service-worker.js:58-152 | activating deletes every cache but the two of this version, clearing every cache |
| ServiceWorkerRuns.OthersPass | services/admin-ui/public/service-worker.js:79-91 | other methods and other origins are left to the browser |
| ServiceWorkerRuns.CachesDisjoint | services/admin-ui/public/service-worker.js:40-76 | a request in both caches is one of the two install assets |
| ServiceWorkerRuns.Replies | services/admin-ui/public/service-worker.js:176-251 | a reply is an answer given after the request came in, or an ok earlier answer (never for no-cache, for network-first only after the network failed), or an error after the network failed |
| ServiceWorkerRuns.InBothCaches | services/admin-ui/public/service-worker.js:40-76 | some run puts a request into both caches if and only if it is one of the two install assets |
| Menu.SearchesAgree | services/admin-ui/src/hooks/use-menu.ts:30-94 | the three searches agree on whether anything is active; the breadcrumb is the chain to the first active position, the current item is the first active one with nothing active below, and lies at or below the breadcrumb's end |
| Menu.ActiveSomewhere | services/admin-ui/src/hooks/use-menu.ts:30-44 | something is active if and only if some position of the tree is |
| Menu.ActiveWhen | services/admin-ui/src/hooks/use-menu.ts:22-28 | no path or an empty one is never active, "/" only on itself, any other path on every path name it begins |
| Menu.FirstIsUnique | services/admin-ui/src/hooks/use-menu.ts:46-94 | the positions the searches find are the only ones of their kind |
| Pagination.CalculatePageNumbers | services/admin-ui/src/hooks/usePagination.ts:19-64 | for every current page: starts at 1, ends at the total, contains all pages within two of the current one, neighbours differ by 1 unless an ellipsis stands between them and hides a page, at most 9 entries; five neighbouring pages whenever there are more than five, also near the ends, else all |
| Pagination.TotalPagesSuffice | services/admin-ui/src/hooks/usePagination.ts:94-96 | the number of pages is the least, from 1 on, that holds all items |
| Pagination.SlicesCoverData | services/admin-ui/src/hooks/usePagination.ts:94-104 | the slices of all pages, joined, are the data |
| Pagination.SliceLength | services/admin-ui/src/hooks/usePagination.ts:98-104 | no page exceeds the page size and every page before the last is full |
| Pagination.ClampBringsBack | services/admin-ui/src/hooks/usePagination.ts:119-165 | every run is back in range once the clamp effect has run if and only if the initial page is at least 1 |
| Pagination.UsePagination.Dispatch | services/admin-ui/src/hooks/usePagination.ts:119-165 | only a change of the data and a reset leave the range; `setPage` and, with an initial page of at least 1, the clamp always end in it; and each does what `Step` says |
| Pagination.PageMoves | services/admin-ui/src/hooks/usePagination.ts:119-165 | from a page in range: `setPage` goes to the page asked for or the nearest one, next and previous move by one and stop at the ends, an offered page size starts over at page 1 |
| SameSite.SameSiteIsLastTwo | services/admin-ui/src/lib/domain.ts:37-70 | seen from a host with a cookie domain, same-site means equal last two labels |
| SameSite.SameSiteEquivalence | services/admin-ui/src/lib/domain.ts:60-70 | reflexive, symmetric and transitive among hosts with a cookie domain |
| SameSite.WithoutDomainOnlySelf | services/admin-ui/src/lib/domain.ts:60-67 | a host without a cookie domain matches only itself |
| SameSite.NoDomainHosts | services/admin-ui/src/lib/domain.ts:37-50 | a host has no cookie domain if and only if it is "localhost", digits and dots, has a colon, or has no dot |
| SameSite.SameSiteAsymmetry | services/admin-ui/src/lib/domain.ts:60-70 | exactly when two distinct hosts disagree about each other |
| Throttle.Throttled.Invoke | services/admin-ui/src/lib/helpers.ts:15-33 | the call has been run or a timer holds it; completed runs stay spaced and at most one timer live |
| Throttle.Throttled.OnTimer | services/admin-ui/src/lib/helpers.ts:24-29 | a timer runs the last call if and only if it does not fire early |
| Throttle.RunsAreSpaced | services/admin-ui/src/lib/helpers.ts:8-34 | in every run `func` starts at least `limit` after the end of each earlier completed run, even when timers fire early |
| Throttle.EachCallOnce | services/admin-ui/src/lib/helpers.ts:8-34 | at most one timer is live, no call runs twice, calls run in their order |
| Throttle.LastCallWins | services/admin-ui/src/lib/helpers.ts:20-31 | in every run with no timer pending, the last run had the arguments of the last call if and only if the last timer did not fire early |
| Throttle.EarlyTimerDropsLastCall | services/admin-ui/src/lib/helpers.ts:25 | in every run, a call whose timer fires early is never run by any continuation |
| Throttle.OnlyCompletedRunsCount | services/admin-ui/src/lib/helpers.ts:16-29 | after any run of `func`, every continuation keeps the limit from its end if and only if it completed |
| Serial.TestIsTopBit | services/api/certificate_manager_vault_enhanced.py:284-287 | the first-digit test tells the top bit of the whole bytes if and only if the digits fill bytes or the first digit is below 8 |
| Serial.EvenSerialValid | services/api/certificate_manager_vault_enhanced.py:277-292 | a serial of an even number of digits, in any spelling with colons, spaces and either case, is valid if and only if its sign bit is clear |
| Serial.SeparatorsIgnored | services/api/certificate_manager_vault_enhanced.py:277-283 | a colon or a space anywhere changes neither what a serial number holds nor whether it is valid |
| Serial.CleanKeepsValue | services/api/certificate_manager_vault_enhanced.py:277-283 | cleaning keeps the value of the digits, in either case |
| Serial.GenerateSafeSerialNumber | services/api/certificate_manager_vault_enhanced.py:354-382 | every generated serial lies in 1..2^159 - 2 (written out), is never masked, and its 40 digits read back to it and pass the check |
| Serial.UnpaddedSerial | services/api/certificate_manager_vault_enhanced.py:509-510 | exactly when the unpadded form is judged by its sign bit |
| Serial.UnpaddedEightRefused | services/api/certificate_manager_vault_enhanced.py:509-510 | the serial 8 is refused although its sign bit is clear |
| Serial.GenerateWithRetry | services/api/certificate_manager_vault_enhanced.py:314-352 | gives the first acceptable certificate, else what the last attempt gave, after exactly the allowed number of requests |

## Left out

- TelemetryRoundTrip.UnflattenFlatten: separators of one character, as at the only call; for longer ones only distinctness is proved (`SeparatorTellsApart`).
- TelemetryFlattening.FlattenTelemetryData: keys are strings; the other key types that `ast.literal_eval` can produce are not modelled.
- JsonRoundTrip.JsonRoundTrip: what `%g` prints is given as text, a JSON number or one of the texts for infinities and NaNs; the reader leaves out white space, arrays, `null` and escapes from U+0080 on, none of which is written.
- JsonWriter.SchemaToJson: lengths do not reach the width of `size_t` or `int`, and `snprintf` reports no encoding error.
- CsvExport.CsvRoundTrip: strings are sequences of Unicode scalar values, so unpaired surrogates are not covered; the reader takes every character but comma, quote, CR and LF as TEXTDATA.
- Serial.EvenSerialValid: `int(text, 16)` on ASCII text; other Unicode digits and spaces are not modelled.
- TokenRuns.FreshInEveryRun: tokens are strings; a token of another type behaves like one that cannot be decoded. The clock of a call is any real number.
- ServiceWorkerRuns.CachedEntries: requests are matched by URL alone, not by `Vary`; the caches of the two current names are absent when the worker starts.
- Pagination.UsePagination.Dispatch: page sizes of at least 1, and callbacks see the state of the last rendering.
- HealthSocketClass.DeviceHealthWebSocket.Dispatch: `onError` does not act on the client, and subscribers' callbacks are later events.
- `fix_telemetry_payload` and the parsers it calls: library parsing around a single branch.
- `handle_telemetry_message`, the forwarders and the counters: one increment per branch.
- `decode_jwt_exp` beyond its three outcomes: base64 and JSON parsing.
- `toJSON`, the xlsx export and file download: library formatting.
- `getChildren` of the menu hook, `debounce`, and the other helpers: simpler variants of what is proved.
- `useProvisioningWebSocket`: the last accepted events, kept by slicing and a map.
- Message handling, device subscriptions and log throttling of the telemetry hook: no effect on reconnecting.
- Rendering, effect scheduling, themes, dashboards, route tables, configuration: UI and wiring.
- TLS, Vault, MQTT and HTTP calls and certificate building: outcomes of these calls are parameters.
