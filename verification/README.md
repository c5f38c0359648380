# Verification of the WeMo-to-Matter bridge

This project models the state engine of the WeMo-to-Matter bridge in Dafny and proves what it promises
to controllers, to subscribers and to the physical devices. `dafny verify dfyconfig.toml` checks all of it.

## What is modelled

| module | part of the bridge |
|---|---|
| `Levels` | Matter level against WeMo percentage: integer division, casts and the "tiny but on" bump |
| `Lights`, `Runs` | one bridged light as a value with its two command marks and settle deadlines; the bridge as a transition system of controller writes, engine events, clock ticks, deliveries by detached threads in any order, and report drains |
| `SettleWindow`, `NonInterference`, `Reporting` | results about whole runs of that system |
| `Delivery`, `LostWrites` | what the sender threads do to the devices, in any order and with any call refused |
| `Decimal`, `Registry`, `RegistryClients` | the persistent registry: two tables, a counter stored as text, statements that may all fail, one call as a method on a class, and any number of clients interleaved statement by statement |
| `Endpoints`, `Publishing` | slot array, id cursor with 16-bit wrap and the stack's table of live ids; the sorted publish loop |
| `Adapter`, `AdapterThreads` | the UDN cache over engine listings, one call at a time as methods on a class, and with the locked regions and fetches of any number of threads interleaved |
| `Devices`, `Bridge` | the device objects, `gBridgedWemoLights`, `gWemoDeviceToUdn`, `gDevices` and the handlers as classes that change their fields in place |
| `Routing` | end to end: endpoint, slot, entry, UDN, engine id, and back from events to reports |

The classes are the imperative form of the code. Each method is proved against a function on values: the handlers
of `Bridge.BridgeApp` take the abstract system of `Runs` through the step that models them (`RunEvent`,
`RunOnOffWrite`, `RunLevelWrite`, `WriteCallback`), running a report is its drain step (`RunReport`), ticks and
threads' calls leave the globals alone (`QuietStepsRepresented`), and `ApplicationInit` establishes a start state, so
the results about all runs hold of the globals.

Clock readings, engine listings and return codes, the adapter's answer to each sender thread, the stack's refusals,
and the success of each database statement are parameters, so every result is for all of them. The settle window, the
number of slots and the first dynamic endpoint id are parameters too. A level handler reads the clock twice
(matter-bridge-app/main.cpp:709 and 765); the model keeps both readings. Event levels are any integer and go through
the 16-bit and 8-bit casts of the code unclamped.

## Where the code does not do what its text says

- The comments at matter-bridge-app/main.cpp:644 and 759 say that echoes are suppressed until the command is
  confirmed. The code never clears a mark on confirmation, only on expiry, and during the window it suppresses nearly
  every honest echo of a level, since the echo has been through two roundings (`Levels.EchoIsExactIff`). The model
  follows the code, and `Lights.EventEffect` shows that confirmation makes no difference to what controllers see.
- README.md:17 of the repository promises persisted endpoint ids for stability. The Matter application does not use
  the registry: it publishes by UDN order. `Publishing.KeepsEndpointIff` gives the exact condition under which a device
  keeps its endpoint between two discoveries.
- `GetOrAssign` ignores the result of COMMIT. `Registry.AnswerIsDurableIff` gives the exact condition under which an
  answer is durable, and `Registry.FailedCommitSharesId` a case where two devices are given one id.
- The last write of a controller need not win. Each command has its own detached thread, so an older one may call
  after it (`LostWrites.ReorderedSendsLoseTheLastWrite`), and the thread discards the adapter's answer, so a refused
  command is lost although the controller was told it succeeded (`LostWrites.RefusedSendUndoesTheWrite`). The exact
  conditions are `Delivery.EveryOrderEndsOnTargetIff` for orders, `Delivery.LastLevelWriteReachesDeviceIff`,
  `Delivery.HonestDeviceConverges` and `Delivery.HonestSwitchConverges` for answers, and `Delivery.EveryEndIsTargetIff`
  for both. A device without a UDN is published but can never be commanded (`Adapter.EmptyUdnIsNeverCommanded`).

## Model

Results come first; the rows at the end marked "Supporting:" are steps towards
them that unfold one definition or serve one proof.

| member | source | states |
|---|---|---|
| `SettleWindow.OnOffSettleSafety` | matter-bridge-app/main.cpp:638-654 | In every run that continues an accepted on/off write at time t, the cached state is the commanded one up to and including t + window, until the next accepted on/off write to that light: stale events, level writes and delivery order make no difference |
| `SettleWindow.LevelSettleSafety` | matter-bridge-app/main.cpp:745-769 | The same for the cached level after an accepted level write, its window counted from the handler's second clock reading |
| `SettleWindow.MarksAgreeWithCache` | matter-bridge-app/main.cpp:1205-1250 | In every reachable state a set mark, even an expired one, equals the cached value, and a commanded level is at least 2 |
| `SettleWindow.LevelCommandsWaitOutOnOff` | matter-bridge-app/main.cpp:725-734 | In every run the command log is in time order and a level command goes out strictly after the settle deadline of every earlier on/off command to the same light |
| `SettleWindow.LevelCommandsMeanOn` | matter-bridge-app/main.cpp:739-754 | In every run every dispatched level command asks for 1 to 100 percent |
| `SettleWindow.FirstEventAfterWindow` | matter-bridge-app/main.cpp:1205-1250 | For any light, once no open window holds it back, the first online event sets reachability and state, and the level of a dimmer if it carries one, and drops the marks concerned; the same event at any later time changes no light and schedules no report |
| `NonInterference.LogIsReplay` | matter-bridge-app/main.cpp:631-655 | The commands of any run are those an event-free reference computes from the timed writes and the light's reachability at each of them, keeping one deadline per light |
| `NonInterference.EventsDoNotInterfere` | matter-bridge-app/main.cpp:1205-1250 | Two runs with the same timed writes and the same reachability at each write dispatch the same commands, whatever their events, cached states and deliveries |
| `Lights.LevelWriteAcceptedIff` | matter-bridge-app/main.cpp:725-754 | A level write is carried out if and only if no on/off window is open and the level is at least 2; then it marks the level and commands 1 to 100 percent, the whole part of m * 100 / 254 but at least 1; otherwise level and level mark stay; an expired on/off mark is dropped and an open one kept |
| `Lights.EventEffect` | matter-bridge-app/main.cpp:1192-1251 | Visible effect of an event as one equation per attribute: reachability always follows, state and level follow exactly when the event is online and the attribute's window is closed; an event opens and closes no window, and an offline one changes reachability alone |
| `Runs.StepKeepsInv` | matter-bridge-app/main.cpp:627-778 | Every kind of step, whatever its arguments, keeps the system invariant: marks against cache, the log covered by open windows, separation in time, subscriber coherence, and dispatched commands are those called for and those in flight, as multisets |
| `Runs.RunKeepsInv` | matter-bridge-app/main.cpp:1182-1257 | The system invariant holds in every state any run reaches |
| `Runs.CallStep` | src/adapters/wemo/wemo_adapter_openwemo.cpp:79-89 | One thread's call: an accepted on/off command switches its device and keeps the percentage, an accepted level command turns it on at that percentage, a refused one changes no device, and no other device changes |
| `Delivery.EveryCommandAccountedFor` | matter-bridge-app/main.cpp:654-654 | In every run the accepted, the refused and the in-flight commands together are exactly the dispatched ones, as multisets; the threads discard the adapter's answer, so a refused command is lost |
| `Delivery.DevicesObeyAccepted` | matter-bridge-app/main.cpp:769-769 | In every run a device is where obeying the accepted commands and no others, in the order they got through, takes it |
| `Delivery.InOrderDeliveryObeysLog` | matter-bridge-app/main.cpp:654-654 | If the threads of the commands that decide one aspect (power or brightness) of one device keep their order, the calls are those commands in the order of the log; other threads may overtake freely and any call may be refused |
| `Delivery.LastWriteDecides` | matter-bridge-app/main.cpp:769-769 | Under that order the last command to decide an aspect is the last call; the device shows what it asks if accepted, and otherwise what the earlier accepted calls left |
| `Delivery.LastLevelWriteReachesDeviceIff` | matter-bridge-app/main.cpp:748-769 | With only the light's level threads in order, the device ends on the percentage of the last level write the handler carried out if and only if its call is accepted or the device had been left there |
| `Delivery.LastOnOffWriteReachesDeviceIff` | matter-bridge-app/main.cpp:638-654 | The same for on and off, where level commands count as writes of on |
| `Delivery.HonestDeviceConverges` | matter-bridge-app/main.cpp:1229-1250 | After that call and the windows, the first event with the device's real state makes the cache show it; the level is the echo of m, within m - 3 and m, if and only if the call was accepted or the device had been left there |
| `Delivery.HonestSwitchConverges` | matter-bridge-app/main.cpp:1200-1225 | For any light, dimmable or not: once the last command that decides power has had its call and the on/off window is over, the first online event with the real state makes the cache show it; it is what was written if and only if the call was accepted or the device had been left there |
| `Delivery.AnyOrderPossible` | matter-bridge-app/main.cpp:654-654 | Every permutation of the sends in flight, with every combination of answers, is what some run does |
| `Delivery.EveryOrderEndsOnTargetIff` | matter-bridge-app/main.cpp:769-769 | For every assignment of answers to the sends in flight: all orders end with the device showing the target, in power or in brightness, if and only if the accepted ones that decide it all ask for it, or there are none and it shows it already |
| `Delivery.EveryEndIsTargetIff` | matter-bridge-app/main.cpp:769-769 | Over all orders and all answers the end is certain if and only if the device shows the target already and every send in flight that decides it asks for it |
| `LostWrites.ReorderedSendsLoseTheLastWrite` | matter-bridge-app/main.cpp:769-769 | Witness from a freshly published dimmer: two level writes whose threads swap, both accepted; the older wins, and after the window the cache follows it |
| `LostWrites.RefusedSendUndoesTheWrite` | src/adapters/wemo/wemo_adapter_openwemo.cpp:79-89 | Witness from the same start: a level write the bridge accepts and the engine refuses; after the window the cache falls back |
| `Reporting.SubscriberCoherence` | matter-bridge-app/main.cpp:473-477 | In every reachable state, if what a subscriber last read is not 1 or 0 as the cached light is on or reachable, or not its cached level, a report for that attribute is queued; with an empty queue the subscriber is up to date |
| `Runs.DrainReads` | matter-bridge-app/main.cpp:570-674 | Draining a report lets the subscriber read 1 or 0 as the light is on, 1 or 0 as it is reachable, or its cached level, and changes no other reading |
| `Reporting.ReportsCountChanges` | matter-bridge-app/main.cpp:506-522 | Over any run the reports scheduled for an attribute of a light are exactly as many as the actions that changed it |
| `Reporting.IdentitiesKept` | matter-bridge-app/main.cpp:1182-1257 | No run changes any light's ids, kind or endpoint |
| `Levels.PercentExact` | matter-bridge-app/main.cpp:748-754 | Every Matter level converts to the whole part of m * 100 / 254, given by its two inequalities, except that 1 and 2 convert to 1 |
| `Levels.MatterExact` | matter-bridge-app/main.cpp:1230-1230 | Every event level, in or out of range, converts to the low 8 bits of the whole part of x * 254 / 100, x being its low 16 bits |
| `Levels.CoarseFineCoarse` | matter-bridge-app/main.cpp:1230-1230 | For any N >= D > 0, coarse to fine and back gives p or p - 1, and p exactly when D divides p * N |
| `Levels.FineCoarseFine` | matter-bridge-app/main.cpp:748-748 | For any N >= D > 0, fine to coarse and back never gains and loses less than N/D + 1 |
| `Levels.ConversionsMonotone` | matter-bridge-app/main.cpp:748-754 | Both conversions, bump included, are monotone |
| `Levels.EchoLoss` | matter-bridge-app/main.cpp:1230-1230 | An honest echo of a commanded level m is m or up to 3 below; only m = 1 echoes higher |
| `Levels.EchoIsExactIff` | matter-bridge-app/main.cpp:1239-1244 | The handler's equality test passes an honest echo if and only if m is 0, 2, 127 or 254 |
| `Levels.CyclesClosedForm` | matter-bridge-app/main.cpp:748-754 | k trips in closed form: max of p - k and the resting point; none raises a percentage or turns a non-zero one into 0 |
| `Decimal.NumberOfToString` | src/matter/endpoint_registry.cpp:88-88 | Printing in decimal and reading back is the identity on every natural number |
| `Decimal.StoiOfToString` | src/matter/endpoint_registry.cpp:67-70 | std::stoi, spaces, signs and range included, reads back every printed number that fits an int |
| `Decimal.StoiReads` | src/matter/endpoint_registry.cpp:67-70 | For every text of spaces, optional sign, digits and any rest: std::stoi gives the signed number, or throws exactly if there is no digit or the number does not fit an int |
| `Registry.UsedIds` | src/matter/endpoint_registry.cpp:95-109 | The ids in use are the first n in order; the next is free if and only if fewer than 65536 are stored, and 2 is free only in an empty store |
| `Registry.InsertTakesNextId` | src/matter/endpoint_registry.cpp:55-75 | Whatever the counter query did, an insert that UNIQUE admits takes the next id in order: a failed query falls back to 2, which only an empty store admits |
| `Registry.WritesHold` | src/matter/endpoint_registry.cpp:178-186 | A transaction gets to COMMIT under an exact condition on faults and store, and what it would commit is again a well-formed store with one more UDN |
| `Registry.EndpointRegistry.Lookup` | src/matter/endpoint_registry.cpp:115-143 | Answers the rank-determined id of a stored UDN unless a step fails, and nothing otherwise |
| `Registry.EndpointRegistry.GetOrAssign` | src/matter/endpoint_registry.cpp:145-191 | Answer and committed UDNs are the abstract outcome, under any faults; a call that commits nothing leaves the tables as they were |
| `Registry.Exhaustion` | src/matter/endpoint_registry.cpp:178-190 | Without faults a new UDN is assigned if and only if fewer than 65536 are stored, with an id of at least 2 for exactly the first 65534; a call that assigns nothing leaves the stored UDNs as they are, and stored UDNs resolve to their ids |
| `Registry.AnswerIsDurableIff` | src/matter/endpoint_registry.cpp:188-190 | An answered id is stored afterwards if and only if it was before or the COMMIT, whose result is ignored, succeeded |
| `Registry.FailedCommitSharesId` | src/matter/endpoint_registry.cpp:188-188 | Witness: after a failed COMMIT the same id goes to a second UDN |
| `RegistryClients.StepKeepsInv` | src/matter/endpoint_registry.cpp:164-190 | Every statement of every client, failing, dying or not, keeps the store well-formed, the lock holder's copy in step with it and all durable answers backed by it |
| `RegistryClients.RunKeepsInv` | src/matter/endpoint_registry.cpp:164-190 | Every interleaving of clients keeps the store well-formed, the lock holder's copy in step and all durable answers backed |
| `RegistryClients.DurableTableIsRank` | src/matter/endpoint_registry.cpp:12-21 | Under any interleaving, faults, deaths and failed COMMITs the durable table is exactly the committed UDNs, the k-th with (2 + k) mod 65536, ids distinct, at most 65536 rows, counter to match |
| `RegistryClients.EndpointsNeverChangeHands` | src/matter/endpoint_registry.cpp:170-190 | Once an answer is durable, any later answer that names an id, durable or not, names the same one if and only if it is for the same UDN |
| `RegistryClients.CommitsAreForEver` | src/matter/endpoint_registry.cpp:170-176 | No run loses or rewrites a committed row |
| `RegistryClients.ExhaustedForEver` | src/matter/endpoint_registry.cpp:178-190 | With 65536 UDNs stored, no run of any clients under any faults changes the store any more, and every later answer is the UDN's stored id or nothing |
| `RegistryClients.LookAnswersRow` | src/matter/endpoint_registry.cpp:115-143 | A client's lookup that does not fail answers exactly the UDN's row, or nothing if there is none |
| `RegistryClients.OnlyHolderAdvances` | src/matter/endpoint_registry.cpp:164-168 | While one client is in a transaction another's BEGIN fails and changes nothing |
| `RegistryClients.DeathRollsBack` | src/matter/endpoint_registry.cpp:164-190 | A client that dies in a transaction leaves nothing but the freed lock |
| `RegistryClients.UndisturbedCall` | src/matter/endpoint_registry.cpp:145-191 | Run alone, the statement machine answers and commits what the one-call outcome says, for every fault pattern |
| `Endpoints.TakenAtMostLive` | matter-bridge-app/main.cpp:405-414 | k consecutive Exists answers from the cursor on, across the 16-bit wrap, need k live ids |
| `Endpoints.Skips` | matter-bridge-app/main.cpp:380-415 | The `while (true)` ends: with fewer live ids than the cycle is long there is a first id not answered Exists, after at most as many as are live |
| `Endpoints.AddKeepsConsistent` | matter-bridge-app/main.cpp:366-421 | Adding an absent device keeps slots, stack and device ids consistent; a failed add leaves slots and stack alone, a successful one takes the first free slot with a fresh id |
| `Endpoints.RemoveKeepsConsistent` | matter-bridge-app/main.cpp:423-442 | Removing keeps them consistent, frees exactly the device's slot and fails exactly when it has none |
| `Endpoints.RunsStayConsistent` | matter-bridge-app/main.cpp:366-442 | In every run of adds and removes, under any refusals, for every slot: its id is not below the first dynamic id and differs from every other live one, slot and stack are occupied together, and the device carries the stack's id |
| `Endpoints.RemovedIdIsReused` | matter-bridge-app/main.cpp:403-413 | The cursor stays where it is on success, so the id of a device removed right after it was added goes to the next device added |
| `Endpoints.EndpointTable.Reset` | matter-bridge-app/main.cpp:1273-1296 | With nothing live at the stack, afterwards the slots are empty too and the cursor is the first dynamic id; the stack's own table is not touched |
| `Endpoints.EndpointTable.SetDynamicEndpoint` | matter-bridge-app/main.cpp:387-388 | The stack's contract: Exists exactly for a live id it does not refuse, and an id is recorded only on Ok |
| `Endpoints.EndpointTable.OfferIds` | matter-bridge-app/main.cpp:380-415 | The inner loop, with its wrap, terminates on the landing id and registers it unless refused |
| `Endpoints.EndpointTable.AddDeviceEndpoint` | matter-bridge-app/main.cpp:366-421 | Slot array, cursor and device field end as the table function says, slot reset on failure included |
| `Endpoints.EndpointTable.RemoveDeviceEndpoint` | matter-bridge-app/main.cpp:423-442 | The same for removal |
| `Endpoints.EndpointTable.IndexFromEndpoint` | matter-bridge-app/main.cpp:943-943 | Finds the slot of a live endpoint, or 0xFFFF when there is none |
| `Publishing.LessIsStringOrder` | matter-bridge-app/main.cpp:1264-1270 | Less is std::string order: for some common prefix, the first string ends there and the other does not, or its next character is the smaller |
| `Publishing.PublishOrder` | matter-bridge-app/main.cpp:1264-1270 | Devices are published by UDN, and among equal UDNs by name |
| `Publishing.LessTotal` | matter-bridge-app/main.cpp:1264-1270 | std::string comparison is a strict total order |
| `Publishing.SortIsUnique` | matter-bridge-app/main.cpp:1264-1270 | With distinct UDNs every sorting of every permutation of the list is one and the same sequence |
| `Publishing.RankIsPosition` | matter-bridge-app/main.cpp:1264-1270 | A device's position after sorting is the number of smaller UDNs |
| `Publishing.PublishStep` | matter-bridge-app/main.cpp:1306-1389 | Under any refusals the k-th device published gets id first + k; one is left out if and only if capacity is reached or an id it is tried on is refused |
| `Publishing.PublishWithoutFaults` | matter-bridge-app/main.cpp:1306-1389 | Without refusals exactly the first `capacity` devices are published, in order |
| `Publishing.EndpointByRank` | matter-bridge-app/main.cpp:1264-1406 | Without refusals a device's endpoint is first + rank, and none when its rank is beyond capacity |
| `Publishing.EndpointsIgnoreDiscoveryOrder` | matter-bridge-app/main.cpp:1263-1270 | Any permutation of the discovery list gives the same UDN-to-endpoint map |
| `Publishing.KeepsEndpointIff` | matter-bridge-app/main.cpp:1261-1389 | Endpoints are not kept across restarts: between any two discoveries a published device keeps its endpoint if and only if as many smaller UDNs are listed as before; both endpoints are given by rank |
| `Publishing.NewcomerShiftsLargerUdns` | matter-bridge-app/main.cpp:1261-1389 | With one newcomer a device keeps its endpoint if and only if the newcomer's UDN is not smaller; otherwise it moves to the next one, or off the end |
| `Adapter.RunKeepsHistory` | src/adapters/wemo/wemo_adapter_openwemo.cpp:111-283 | Every run of operations, failed ones included, keeps cache and snapshot history in agreement |
| `Adapter.Described` | src/adapters/wemo/wemo_adapter_openwemo.cpp:137-151 | A listed item fixes its device: id, UDN and name copied, dimmable exactly by type 4 or a level, flags as 0 or 1, level cut to 0..100 |
| `Adapter.DiscoveryRebuilds` | src/adapters/wemo/wemo_adapter_openwemo.cpp:131-156 | A successful discovery leaves in the cache exactly the non-empty UDNs among the first min(max(count, 0), array length) items, each with the id of an item after which no item has it, whatever was cached before; a failed one changes neither cache nor history |
| `Adapter.LastIdIsLast` | src/adapters/wemo/wemo_adapter_openwemo.cpp:153-156 | The id of a UDN in a listing is that of an item after which no item has the UDN |
| `Adapter.LatestIdIsLatest` | src/adapters/wemo/wemo_adapter_openwemo.cpp:213-223 | Over several snapshots it is that of the last one to list the UDN |
| `Adapter.CallMeans` | src/adapters/wemo/wemo_adapter_openwemo.cpp:206-283 | The engine call of a command has the given id; on is state 1 and off 0, both with level -1; a level is cut to 0..100, with state 0 exactly at 0 |
| `Adapter.CacheIsHistory` | src/adapters/wemo/wemo_adapter_openwemo.cpp:123-156 | After any run the cache answers every UDN as the most recent successful snapshot listing it since the last discovery does; the empty UDN is never cached |
| `Adapter.CommandGoesWhereHistoryPoints` | src/adapters/wemo/wemo_adapter_openwemo.cpp:195-231 | A command sends at most one engine call, only to the id the history then gives its UDN and with the state and level the command means, none for a UDN unknown to cache and refresh; a listing is merged only on a miss |
| `Adapter.KnownUdnsKeepTheirIds` | src/adapters/wemo/wemo_adapter_openwemo.cpp:200-208 | Commands for cached UDNs never change the cache, and all reach their ids in order |
| `AdapterThreads.CacheIsMergeHistory` | src/adapters/wemo/wemo_adapter_openwemo.cpp:200-228 | Under any interleaving of lookups, fetches and merges the cache answers every UDN as the listing merged last of those that list it does, counting from the last rebuild; the empty UDN is never cached |
| `AdapterThreads.CallGoesWhereHistoryPoints` | src/adapters/wemo/wemo_adapter_openwemo.cpp:201-228 | Under any interleaving a step calls the engine at most once, only for its own thread's command, and with the id the merge history gives the UDN at that moment |
| `AdapterThreads.OneCallPerThread` | src/adapters/wemo/wemo_adapter_openwemo.cpp:188-233 | Under any interleaving a command makes at most one engine call |
| `AdapterThreads.ReturnsEmptyHandedIff` | src/adapters/wemo/wemo_adapter_openwemo.cpp:210-231 | A command under way returns without a call if and only if its fetch fails or its UDN is unknown right after its own merge |
| `AdapterThreads.KnownUdnsKeepTheirIds` | src/adapters/wemo/wemo_adapter_openwemo.cpp:200-208 | While only commands for cached UDNs are given, no interleaving changes the cache and every call goes to the id it holds |
| `AdapterThreads.UndisturbedThread` | src/adapters/wemo/wemo_adapter_openwemo.cpp:188-283 | A thread no other disturbs does what the one-step operation specifies |
| `Adapter.EmptyUdnIsNeverCommanded` | src/adapters/wemo/wemo_adapter_openwemo.cpp:153-158 | A device listed without a UDN is discovered, yet after any run no command for it reaches the engine |
| `Adapter.WemoAdapter.Discover` | src/adapters/wemo/wemo_adapter_openwemo.cpp:111-163 | The result has one device for each item the count covers, as the item tells it; the cache then has exactly their non-empty UDNs with the id of the last item of each; on failure the result is empty and the cache untouched; the history goes with it |
| `Adapter.WemoAdapter.MergeListing` | src/adapters/wemo/wemo_adapter_openwemo.cpp:213-223 | The miss path adds the listing to the cache and keeps the rest |
| `Adapter.WemoAdapter.SetOnOff` | src/adapters/wemo/wemo_adapter_openwemo.cpp:188-233 | Exactly when initialised and the UDN is cached after hit or merge, one engine call with the cached id, state 1 for on and 0 for off, level -1; the rest is the value-level operation; true exactly when a call was sent and accepted |
| `Adapter.WemoAdapter.SetLevelPercent` | src/adapters/wemo/wemo_adapter_openwemo.cpp:235-283 | The same with level min(percent, 100), and state 1 exactly if percent is above 0 |
| `Devices.Device.SetLevel` | matter-bridge-app/DeviceDimmable.cpp:15-26 | Stores the level; reports once if and only if it changed and the callback is installed |
| `Devices.Device.SetOnOff` | matter-bridge-app/main.cpp:500-503 | The same for on/off, through the bridge on a dimmable device |
| `Devices.Device.SetReachable` | matter-bridge-app/main.cpp:480-486 | The same for reachability, through the virtual notification |
| `Devices.Device.SetChangeCallback` | matter-bridge-app/DeviceDimmable.cpp:28-41 | Afterwards every kind of change of a dimmable device reaches the report queue |
| `Bridge.BridgedLight.TakeOnOff` | matter-bridge-app/main.cpp:635-650 | The entry becomes what the on/off write specifies and reports exactly its changes |
| `Bridge.BridgedLight.TakeLevel` | matter-bridge-app/main.cpp:725-768 | The same for a level write, and the percentage to send, if any, is the whole part of level * 100 / 254 but at least 1 |
| `Bridge.BridgedLight.TakeEventOnOff` | matter-bridge-app/main.cpp:1200-1225 | The on/off part of an event as specified, with its report |
| `Bridge.BridgedLight.TakeEventLevel` | matter-bridge-app/main.cpp:1227-1251 | The level part, both casts included, with its report |
| `Bridge.BridgedLight.TakeEvent` | matter-bridge-app/main.cpp:1190-1252 | The whole event on the matching entry, reports in order |
| `Bridge.BridgeApp.HandleWriteOnOff` | matter-bridge-app/main.cpp:627-663 | Result, entry, other entries, reports and thread started, on success and on refusal; the three tables stay in agreement |
| `Bridge.BridgeApp.HandleWriteLevelControl` | matter-bridge-app/main.cpp:702-778 | The same for level writes, ignored ones included |
| `Bridge.BridgeApp.HandleWemoEvent` | matter-bridge-app/main.cpp:1182-1257 | The first matching entry takes the event, every other entry and the tables stay; no match changes nothing |
| `Bridge.BridgeApp.RunEvent` | matter-bridge-app/main.cpp:1182-1257 | Refinement: the globals go through the event step of the transition system |
| `Bridge.BridgeApp.RunOnOffWrite` | matter-bridge-app/main.cpp:627-663 | Refinement of the on/off write step |
| `Bridge.BridgeApp.RunLevelWrite` | matter-bridge-app/main.cpp:702-778 | Refinement of the level write step |
| `Bridge.BridgeApp.RunReport` | matter-bridge-app/main.cpp:466-471 | Refinement of the drain step: the first scheduled report is run and nothing else changes |
| `Bridge.BridgeApp.WriteCallback` | matter-bridge-app/main.cpp:939-968 | A write on an endpoint reaches the light published there and only it, as the step of its cluster; it is taken if and only if there is one, it is reachable and the attribute is the cluster's own |
| `Bridge.BridgeApp.PublishAll` | matter-bridge-app/main.cpp:1303-1406 | The loop as a whole, never pushing beyond what was reserved |
| `Bridge.BridgeApp.ApplicationInit` | matter-bridge-app/main.cpp:1261-1406 | Afterwards slots, entries and UDN map are in bijection and the entries are those of the published devices, on consecutive endpoints, with no report scheduled |
| `Bridge.BridgeApp.StartRepresented` | matter-bridge-app/main.cpp:1406-1410 | These globals are a start state of the transition system |
| `Routing.PublishedStart` | matter-bridge-app/main.cpp:1391-1406 | What publishing leaves satisfies the start condition, so every run-level result applies to it |
| `Routing.RoutingRoundTrip` | matter-bridge-app/main.cpp:943-951 | Endpoint first + k is served by entry k, whose UDN is cached with the engine id whose events come back to entry k, and no other entry shares it |
| `Routing.CommandsReachTheirDevices` | matter-bridge-app/main.cpp:640-654 | In every run from the published start, in whatever order threads call the adapter, each command reaches the engine id of the light it was written to with the state and level it means; level commands arrive as on at 1 to 100 percent |
| `Routing.EventsReportOnTheirEndpoint` | matter-bridge-app/main.cpp:1186-1254 | In every run from the published start, an event from the engine id of entry k changes entry k alone and reports only on endpoint first + k |
| `Lights.HandlersKeepIdentity` | matter-bridge-app/main.cpp:1188-1254 | Supporting: no handler changes a light's ids, kind, endpoint or callback |
| `Lights.WriteKeepsInv` | matter-bridge-app/main.cpp:633-655 | Supporting: both write handlers keep the per-light agreement of marks and cache |
| `Lights.EventKeepsInv` | matter-bridge-app/main.cpp:1192-1252 | Supporting: the event handler keeps it too, for any event |
| `Runs.OnOffStep` | matter-bridge-app/main.cpp:631-655 | Supporting: everything the application sees of an accepted on/off write: one light replaced, its changes reported, one command logged at the current time |
| `Runs.LevelStep` | matter-bridge-app/main.cpp:707-770 | Supporting: the same for a level write, with at most one command, logged at the second clock reading |
| `Runs.EventStep` | matter-bridge-app/main.cpp:1186-1255 | Supporting: an event touches the first light with its id and nothing else, and logs no command |
| `Runs.MarkOutlivesEvent` | matter-bridge-app/main.cpp:1207-1238 | Supporting: an event drops a mark only past its deadline and never moves a deadline |
| `Runs.InitInv` | matter-bridge-app/main.cpp:1403-1406 | Supporting: a started system satisfies the system invariant |
| `Runs.LevelCommandApart` | matter-bridge-app/main.cpp:730-734 | Supporting: with no open on/off window a level command sent from now on is apart from the whole log |
| `LostWrites.OneDimmerPublished` | matter-bridge-app/main.cpp:1306-1406 | Supporting: the start of both witnesses is what discovery and publishing leave for one dimmer |
| `Reporting.StepTouches` | matter-bridge-app/main.cpp:1186-1255 | Supporting: one action changes at most one light |
| `Levels.ScaleMonotone` | matter-bridge-app/main.cpp:748-748 | Supporting: truncating rescaling is monotone for any two ranges |
| `Levels.PercentRange` | matter-bridge-app/main.cpp:748-754 | Supporting: every Matter level converts to 0..100 and only level 0 to 0 |
| `Levels.MatterRange` | matter-bridge-app/main.cpp:1330-1330 | Supporting: every percentage converts to 0..254 and only 0 to 0, with neither cast cutting anything |
| `Levels.MatterInjective` | matter-bridge-app/main.cpp:1230-1230 | Supporting: different percentages convert to different Matter levels |
| `Levels.CycleStep` | matter-bridge-app/main.cpp:748-754 | Supporting: a WeMo-Matter-WeMo trip keeps 0, 1, 50 and 100 and lowers every other percentage by one |
| `Registry.SelectHolds` | src/matter/endpoint_registry.cpp:34-53 | Supporting: the k-th stored UDN resolves to (2 + k) mod 65536 |
| `Registry.EndpointRegistry.constructor` | src/matter/endpoint_registry.cpp:113-113 | Supporting: a new registry stores nothing |
| `Endpoints.Landing` | matter-bridge-app/main.cpp:380-415 | Supporting: the id the loop lands on is dynamic and not answered Exists |
| `Endpoints.EndpointTable.constructor` | matter-bridge-app/main.cpp:1273-1273 | Supporting: the table starts with its capacity |
| `Publishing.LessTransitive` | matter-bridge-app/main.cpp:1264-1270 | Supporting: std::string comparison is transitive |
| `Publishing.TurnsPublish` | matter-bridge-app/main.cpp:1306-1406 | Supporting: the loop's lights, turn by turn, are the initial lights of the published devices on consecutive endpoints |
| `Publishing.OfferIsLanding` | matter-bridge-app/main.cpp:380-415 | Supporting: on tables filled in order the cyclic search lands on the current cursor or the one after |
| `Publishing.AddKeepsPacked` | matter-bridge-app/main.cpp:1363-1389 | Supporting: offering one more device keeps slots and ids filled in order, and grows them exactly when it succeeds |
| `Adapter.MergeLookup` | src/adapters/wemo/wemo_adapter_openwemo.cpp:215-223 | Supporting: after a listing is written over the cache a UDN resolves to its last item there, or else as before |
| `Adapter.MergeReflects` | src/adapters/wemo/wemo_adapter_openwemo.cpp:213-223 | Supporting: merging a listing keeps cache and snapshot history in agreement |
| `AdapterThreads.StepKeepsInv` | src/adapters/wemo/wemo_adapter_openwemo.cpp:200-228 | Supporting: every locked region and every fetch of every thread keeps cache and merge history in agreement and calls unique |
| `Adapter.ItemsListed` | src/adapters/wemo/wemo_adapter_openwemo.cpp:134-134 | Supporting: a listing contributes its first min(max(count, 0), array length) items |
| `Lights.ReadingShows` | matter-bridge-app/main.cpp:570-674 | Supporting: a subscriber reads 1 or 0 for on/off and reachability and the level itself |
| `Runs.TickStep` | matter-bridge-app/main.cpp:650-650 | Supporting: time passes and nothing else happens |
| `Runs.DrainStep` | matter-bridge-app/main.cpp:466-471 | Supporting: draining removes the first report and nothing else |
| `Reporting.ChangesInOrder` | matter-bridge-app/main.cpp:1192-1250 | Supporting: the reports of one handler come in the order reachability, on/off, level |
| `Decimal.ToStringExamples` | src/matter/endpoint_registry.cpp:88-88 | Supporting: decimal texts have the most significant digit first, in base ten |
| `Adapter.WemoAdapter.constructor` | src/adapters/wemo/wemo_adapter_openwemo.cpp:109-109 | Supporting: a new adapter has an empty cache and no history |
| `Adapter.WemoAdapter.EnsureInitialized` | src/adapters/wemo/wemo_adapter_openwemo.cpp:52-77 | Supporting: the engine is initialised at most once, and asked again only while it failed |
| `Adapter.WemoAdapter.SendState` | src/adapters/wemo/wemo_adapter_openwemo.cpp:79-89 | Supporting: one engine call, success by its return code |
| `Devices.Device.constructor` | matter-bridge-app/main.cpp:1327-1340 | Supporting: a new device is off, at level 0, unreachable and has no callback |
| `Devices.Device.HandleDeviceChange` | matter-bridge-app/DeviceDimmable.cpp:43-49 | Supporting: one report if observed, none if not |
| `Devices.Device.NotifyDimmable` | matter-bridge-app/main.cpp:506-522 | Supporting: a dimmable change is reported when the callback is stored |
| `Devices.Device.NotifyOnOff` | matter-bridge-app/DeviceDimmable.cpp:35-40 | Supporting: a change of the on/off base class reaches either the status handler or the dimmable callback |
| `Devices.Device.ScheduleReport` | matter-bridge-app/main.cpp:473-477 | Supporting: queues one report for the device's endpoint at the end |
| `Devices.WorkQueue.RunNext` | matter-bridge-app/main.cpp:466-471 | Supporting: takes exactly the first scheduled report, if any, and keeps the rest in order |
| `Devices.Device.SetOnOffChangeCallback` | matter-bridge-app/main.cpp:1403-1403 | Supporting: afterwards every change of an on/off device reaches the report queue |
| `Bridge.BridgedLight.constructor` | matter-bridge-app/main.cpp:1315-1318 | Supporting: a new entry has no marks |
| `Bridge.BridgeApp.constructor` | matter-bridge-app/main.cpp:1273-1275 | Supporting: the application starts with empty tables |
| `Bridge.BridgeApp.FindEntry` | matter-bridge-app/main.cpp:645-653 | Supporting: the loop finds the entry of the device, which is unique |
| `Bridge.BridgeApp.FindWemoId` | matter-bridge-app/main.cpp:1186-1188 | Supporting: the loop finds the first entry with the engine id |
| `Bridge.BridgeApp.OnlyEntryChanged` | matter-bridge-app/main.cpp:1303-1308 | Supporting: changing one entry and its device, but not its endpoint, keeps the three tables in agreement and every other entry as it was |
| `Bridge.BridgeApp.QuietStepsRepresented` | matter-bridge-app/main.cpp:654-654 | Supporting: passing time and sender threads' calls change no global, so the refinement survives them |
| `Bridge.BridgeApp.SlotAt` | matter-bridge-app/main.cpp:943-951 | Supporting: the lookup gives the slot of the light published on the endpoint, or none if there is none |
| `Bridge.BridgeApp.WriteSlot` | matter-bridge-app/main.cpp:949-960 | Supporting: the dispatch by cluster from an occupied slot |
| `Bridge.BridgeApp.EndpointIndex` | matter-bridge-app/main.cpp:943-951 | Supporting: the stack's slot for an endpoint is the position of the light published on it |
| `Bridge.BridgeApp.MakeDevice` | matter-bridge-app/main.cpp:1321-1348 | Supporting: the device starts with the discovered state and level and reports nothing |
| `Bridge.BridgeApp.PushEntry` | matter-bridge-app/main.cpp:1350-1355 | Supporting: pushes the entry into reserved room |
| `Bridge.BridgeApp.TryEntry` | matter-bridge-app/main.cpp:1354-1365 | Supporting: push and offer: under the landing id or refused, with the tables filled in order either way |
| `Bridge.BridgeApp.PopEntry` | matter-bridge-app/main.cpp:1384-1389 | Supporting: a refused device leaves entries and tables as before the push |
| `Bridge.BridgeApp.KeepEntry` | matter-bridge-app/main.cpp:1391-1405 | Supporting: a published device is observed and named in the UDN map |
| `Bridge.BridgeApp.PublishOne` | matter-bridge-app/main.cpp:1306-1406 | Supporting: one turn of the loop changes entries, tables, map and cursor as the turn function says |
| `Routing.CachedUnderOwnId` | src/adapters/wemo/wemo_adapter_openwemo.cpp:153-156 | Supporting: each published light's UDN is cached with the light's own engine id |
| `Routing.LevelsFit` | src/adapters/wemo/wemo_adapter_openwemo.cpp:148-151 | Supporting: every discovered level is within 0..100, whatever the engine lists |

## Left out

- CHIP itself: the stack answers Exists exactly for live ids and may refuse any id of a call for reasons of its own (each id is tried at most once in a call); device setters notify exactly on change, as their callbacks in this repository expect; work items run one at a time in order.
- Bridge.BridgeApp.ApplicationInit: takes the sorted list as a parameter, any result std::sort may give; it is called once, when the stack has no dynamic endpoint yet, which the code relies on since it clears its own tables only; and it assumes the first dynamic id plus the number of slots is at most 65536 and the number of slots at most 255, the range of the slot index.
- Bridge.BridgeApp.HandleWriteOnOff: only for devices in the light list; every slot that a write can reach holds such a device, so the branches for unlisted devices and for UDNs missing from the map are never taken, and an empty slot has no endpoint that could lead to it.
- Bridge.BridgeApp.HandleWriteLevelControl: only for dimmable devices, the ones whose endpoints have the cluster; the cast from Device to DeviceDimmable is not modelled.
- Bridge.BridgeApp.WriteCallback: on/off and level clusters only; node label writes change no state that is modelled.
- Reporting.SubscriberCoherence: a subscriber is taken to read an attribute when its report is drained; the transport to subscribers is not modelled.
- Delivery.HonestDeviceConverges: a device is honest when it obeys accepted commands and no refused ones, keeps its percentage when switched on or off, and its event carries its real state with a level in the documented range 0..100; changes made at the device itself are not part of this result.
- Adapter.WemoAdapter.SetOnOff: the methods of the class run one at a time; AdapterThreads interleaves the same steps. There the order in which listings were fetched is not recorded, and a listing may be merged after a newer one: recency is by merge.
- Registry.EndpointRegistry.GetOrAssign: the handle that leaks when std::stoi throws is not modelled; on stores this code has written it never throws, as Registry.CounterReads shows.
- SQLite below the statement: atomic transactions, PRIMARY KEY and UNIQUE enforcement and the exclusive immediate lock are taken as given; file paths and directory creation are not modelled.
- The branch for CHIP_CONFIG_USE_ENDPOINT_UNIQUE_ID, unique-id generation and parent endpoints: they do not enter slots, ids or routing.
- Device names and locations, attribute reads other than on/off, reachability and level, cluster revisions, actions, rooms, power sources, temperature sensors and the mock lights: lookups and sample code without state of their own here.
- Refresh, registration of the event callback, the engine's IPC and discovery: inputs and outputs of the model only.
- The command line program, the stub adapter, build files and service units: plumbing.
