# winroute, modelled in Dafny

winroute is a Rust crate for reading and changing the Windows IP routing
table. A `Route` value describes one table entry: destination, prefix,
gateway, interface index, metric, LUID and IP version. A `RouteManager`
keeps a cached copy of the table. The kernel notifies it of every change
through a callback, and `poll` applies each change to the cache and
forwards it to subscribers. The Windows operator converts routes to and
from the kernel's `MIB_IPFORWARD_ROW2` rows. It maps Win32 status codes to
I/O errors and makes the kernel calls.

The model has five modules:

- `Common` (`common.dfy`) holds the fixed-width integer ranges, `Option`,
  `Result` and the crate's error values. A panic is modelled as an error
  value that names it.
- `Routes` (`routes.dfy`) covers `src/route.rs`: the address type, the
  route record, its builder and its text rendering.
- `Cache` (`cache.dfy`) covers the event type of `src/manager.rs` and how
  one event changes the cached table. These are functions over sequences,
  with lemmas about them and the `position` scan as a loop.
- `Windows` (`windows.dfy`) covers `src/windows.rs`:
  - the row encoding, both as a function and as the field-by-field method;
  - decoding;
  - error-code mapping;
  - the callback's event choice;
  - the operator class.

  The kernel's routing API is a `Kernel` object that logs each call with
  the status it returned. The status is arbitrary, so every contract holds
  whatever the kernel answers.
- `Manager` (`manager.dfy`) covers `RouteManager`. It is a class whose
  `cache`, `inbox` (the callback's channel) and `outbox` (the subscribers'
  channel) are sequences, plus a `lockPoisoned` flag for the mutex. Its
  invariant `Valid` says that the cache always equals the table read at
  creation with every forwarded event applied in order.

## Model

| member | source | states |
|---|---|---|
| Routes.UnspecifiedIsAllZero | src/route.rs:62-65 | `0.0.0.0` and `::` are exactly the all-zero addresses |
| Routes.UnspecifiedOf | src/route.rs:62-65 | the default gateway has the destination's family and is all zeros |
| Routes.VersionOf | src/route.rs:55-58 | the version is 4 exactly for V4 addresses and 6 exactly for V6 |
| Routes.New | src/route.rs:54-71 | `new` copies destination and prefix, uses the unspecified address of the destination's family as gateway, leaves ifindex, metric and luid unset, and gives a version that matches the destination |
| Routes.WithDestination | src/route.rs:74-81 | the destination setter changes only destination and version, and the version then matches the new destination |
| Routes.WithPrefix | src/route.rs:84-87 | changes only the prefix and keeps the version consistent |
| Routes.WithGateway | src/route.rs:90-93 | changes only the gateway and never the version |
| Routes.WithIfindex | src/route.rs:96-99 | stores `Some(idx)` and changes nothing else |
| Routes.WithMetric | src/route.rs:102-105 | stores `Some(metric)` and changes nothing else |
| Routes.WithLuid | src/route.rs:108-111 | stores `Some(luid)` and changes nothing else |
| Routes.MixedFamilyGatewayKeepsVersion | src/route.rs:90-93 | a V6 gateway on a V4 route keeps version 4 |
| Routes.DecimalText | src/route.rs:118-120 | an integer is written as decimal digits with no leading zero |
| Routes.ParseDecimalText | src/route.rs:118-120 | decimal text reads back to the same number |
| Routes.DecimalTextInjective | src/route.rs:118-120 | different numbers have different decimal texts |
| Routes.MetricTextInjective | src/route.rs:118-122 | the `Some(n)` / `None` metric text tells metrics apart |
| Routes.Render | src/route.rs:114-125 | a rendering ends in `)` exactly when the metric is set |
| Routes.RenderShowsMetric | src/route.rs:114-125 | routes that differ only in metric render alike exactly when their metrics are equal |
| Routes.DecimalExamples | src/route.rs:118-120 | decimal texts of the numbers used in the examples |
| Routes.DottedQuadExamples | src/route.rs:119-121 | dotted-quad texts of the example addresses |
| Routes.MetricTextExamples | src/route.rs:122 | `None` and `Some(1)` texts |
| Routes.RenderUnsetMetricV4 | src/route.rs:217-220 | a route to 192.168.1.0/32 with gateway 0.0.0.0 and no metric renders as `192.168.1.0/32 gateway 0.0.0.0 metric None` |
| Routes.RenderNewV4 | src/route.rs:216-220 | `new(192.168.1.0, 32)` renders as that text and has version 4 |
| Routes.RenderSetMetricV4 | src/route.rs:210-213 | a route to 192.168.0.0/24 via 172.1.1.254 with metric 1 renders as `192.168.0.0/24 gateway 172.1.1.254 metric Some(1)` |
| Routes.RenderBuiltV4 | src/route.rs:203-213 | the builder chain of the V4 example renders as that text and has version 4 |
| Routes.RenderNewV6 | src/route.rs:224-227 | given the RFC 5952 texts of the two addresses, `new(fe80:9464::, 32)` renders as `fe80:9464::/32 gateway :: metric None` and has version 6 |
| Cache.DefaultRouteMeaning | src/manager.rs:219-223 | a default route has an all-zero destination, prefix 0 and a gateway that is not all zeros, and the converse holds |
| Cache.IsDefaultRoute | src/manager.rs:219-223 | the scan's test: destination `0.0.0.0` or `::`, gateway neither `0.0.0.0` nor `::`, prefix 0 (its meaning is stated by `DefaultRouteMeaning`) |
| Cache.FirstMatch | src/manager.rs:140-147 | gives the index of the first accepted entry, and gives none exactly when no entry is accepted |
| Cache.RemoveAt | src/manager.rs:141 | `remove(i)` drops exactly the entry at `i` and shifts the later ones down |
| Cache.Position | src/manager.rs:140 | the `position` scan returns the first-match index |
| Cache.ApplyEvent | src/manager.rs:137-152 | one event's effect on the cache: `Add` grows it by one, `Change` keeps its length, `Delete` keeps it or shrinks it by one |
| Cache.ApplyEventBounds | src/manager.rs:137-152 | no event adds a route other than its own, and `Delete` only removes entries |
| Cache.AddAppends | src/manager.rs:138 | `Add(r)` appends `r`, keeps earlier entries and grows the length by one |
| Cache.DeleteRemovesFirstEqual | src/manager.rs:139-143 | `Delete(r)` removes exactly the first entry equal to `r`, keeps the order of the rest and shrinks the length by one; without a match the cache is unchanged |
| Cache.DeleteOnlyCopy | src/manager.rs:139-143 | deleting the only copy of `r` leaves no copy behind |
| Cache.ChangeReplacesFirstSameKey | src/manager.rs:144-150 | `Change(r)` removes the first entry with r's destination and prefix, keeps the order of the others, appends `r` and keeps the length |
| Cache.ChangeWithoutSlotIgnored | src/manager.rs:145-151 | `Change(r)` with no entry of the same destination and prefix leaves the cache unchanged and does not insert `r` |
| Cache.ChangeDropsFirstOfSharedSlot | src/manager.rs:144-150 | when several entries share r's destination and prefix, `Change(r)` removes the first of them even if it is another route and a copy of `r` sits later; `r` then appears once more than before |
| Cache.ApplyKeepsKeysUnique | src/manager.rs:137-151 | `Delete` and `Change` keep (destination, prefix) pairs unique, and so does `Add` of a route whose pair is free |
| Cache.Replay | src/manager.rs:132-163 | the cache after a sequence of polled events, applied in order |
| Cache.ReplaySnoc | src/manager.rs:132-163 | applying one more event after a replay equals replaying the longer event sequence |
| Windows.KindOfCode | src/windows.rs:251-258 | 2 and 1168 give NotFound, 5 PermissionDenied, 87 InvalidInput, 5010 AlreadyExists, and every other code gives Other, each as an if-and-only-if |
| Windows.KindText | src/windows.rs:259 | the display text of each `ErrorKind`, as `kind.to_string()` gives it |
| Windows.CodeToError | src/windows.rs:250-260 | an I/O error of the mapped kind whose message is `"<msg>: <kind text>"` |
| Windows.MessageDeterminesKind | src/windows.rs:259 | under one operation text, two errors have the same message exactly when they have the same kind |
| Windows.StatusResult | src/windows.rs:76-79 | a zero status succeeds; any other status is `code_to_error` of that status |
| Windows.SockAddrOf | src/windows.rs:208-219 | the destination is tagged AF_INET with 4 octets or AF_INET6 with 16 octets |
| Windows.RowOf | src/windows.rs:183-231 | the row conversion: tagged destination and PrefixLength; next hop tagged AF_INET for both families; Metric is the metric or 0; Protocol is NETMGMT; ifindex and luid written only when set |
| Windows.EncodeRow | src/windows.rs:185-229 | the field-by-field construction yields `RowOf(route)` |
| Windows.V6GatewayMisTagged | src/windows.rs:196-205 | an encoded row is well formed exactly when the gateway is V4; a V6 gateway gets tag AF_INET with 16 octets |
| Windows.AddrOf | src/windows.rs:146-153 | AF_INET reads a V4 address and AF_INET6 a V6 address from the octets; any other tag is the `Unexpected family` panic |
| Windows.RouteOf | src/windows.rs:142-181 | decoding fails exactly on an unknown tag and reports the destination's family; otherwise it yields a consistent route with the row's addresses and prefix, and with ifindex, luid and metric all set from the row |
| Windows.DecodeEncode | src/windows.rs:142-231 | decoding an encoded route with a V4 gateway gives back destination, prefix and gateway, with the options set (0 where they were unset) |
| Windows.DecodeEncodeIdentity | src/windows.rs:142-231 | a consistent route with a V4 gateway and every option set survives the round trip unchanged |
| Windows.EncodeDecode | src/windows.rs:142-231 | a row with a known destination tag, an AF_INET next hop and NETMGMT protocol is the encoding of its own decoding |
| Windows.DecodeAll | src/windows.rs:108-111 | every row is decoded, in order; the result fails exactly when some row fails, and then with the error of the first failing row |
| Windows.Notification | src/windows.rs:233-248 | the row is decoded first; then MibParameterNotification gives Change, MibAddInstance gives Add, MibDeleteInstance gives Delete, and any other kind gives no event, each as an if-and-only-if |
| Windows.Kernel.NotifyRouteChange2 | src/windows.rs:46-54 | the registration is logged with its status and handle |
| Windows.Kernel.CreateIpForwardEntry2 | src/windows.rs:75 | the submitted row is logged with its status |
| Windows.Kernel.DeleteIpForwardEntry2 | src/windows.rs:85 | the submitted row is logged with its status |
| Windows.Kernel.GetIpForwardTable2 | src/windows.rs:95-111 | the table read is logged; its rows are well formed |
| Windows.Kernel.GetBestInterfaceEx | src/windows.rs:262-289 | the query is logged with its status and index |
| Windows.InitCalls | src/windows.rs:41-60 | what `register_route_listener` does: with a stored handle, AlreadyExists ("Already registered") and no kernel call; otherwise one registration, whose nonzero status is `code_to_error` with "error notify route change" |
| Windows.BestInterfaceCall | src/windows.rs:262-290 | what `find_best_interface` does: one query for the address; a nonzero status is `code_to_error` with "Failed to get best interface", otherwise the index |
| Windows.AddRouteCalls | src/windows.rs:64-80 | what `add_route` does: with neither ifindex nor luid, a best-interface query whose error is returned, then the creation of the route's row with that ifindex; otherwise the creation of the route's own row; a nonzero status is `code_to_error` with "error creating entry" |
| Windows.DeleteRouteCalls | src/windows.rs:82-90 | what `delete_route` does: the deletion of the route's row; a nonzero status is `code_to_error` with "error deleting entry" |
| Windows.ReadAllCalls | src/windows.rs:92-114 | what `read_all_routes` does: one table read; a nonzero status is `code_to_error` with "Error getting table", otherwise every row decoded in order |
| Windows.AddRouteNamesInterface | src/windows.rs:64-73 | a submitted row is the route's encoding apart from the interface index, which is the caller's index or else the best interface the kernel reported |
| Windows.WindowsOperator.constructor | src/windows.rs:121-129 | a new operator has no handle |
| Windows.WindowsOperator.Init | src/windows.rs:41-60 | as written: a stored handle gives AlreadyExists with no kernel call; otherwise one registration whose status decides the result; the handle field never changes |
| Windows.WindowsOperator.InitStoringHandle | src/windows.rs:41-60 | the same guard and registration, with the handle stored on success |
| Windows.WindowsOperator.FindBestInterface | src/windows.rs:262-290 | one kernel query; a nonzero status is `code_to_error`, otherwise the reported index |
| Windows.WindowsOperator.AddRoute | src/windows.rs:64-80 | with no ifindex and no luid, the best interface towards the gateway is looked up (its error is returned) and the route is submitted with that ifindex; otherwise the route's own encoding is submitted; a nonzero status is an error |
| Windows.WindowsOperator.DeleteRoute | src/windows.rs:82-90 | the route's encoding is submitted for deletion; a nonzero status is an error |
| Windows.WindowsOperator.ReadAllRoutes | src/windows.rs:92-114 | one table read; a nonzero status is an error, otherwise every row decoded in order |
| Windows.InitTwiceAsWritten | src/windows.rs:41-60 | two `init` calls on one operator register twice with the kernel, and the second succeeds whenever the kernel accepts it |
| Windows.InitTwiceStoringHandle | src/windows.rs:41-60 | with the handle stored, a second `init` after a successful one fails with AlreadyExists and does not call the kernel |
| Manager.Unwrapped | src/manager.rs:87 | `unwrap` turns a read error into the unwrap panic; a decoding panic passes through |
| Manager.StartupCalls | src/manager.rs:80-98 | what `new` does: one registration whose failure is returned, and after a success one table read whose failure is the unwrap panic |
| Manager.DefaultOf | src/manager.rs:214-235 | gives the first default route of the cache, and gives none exactly when no entry is a default route |
| Manager.RouteManager.constructor | src/manager.rs:89-95 | the cache is the table read, and both queues start empty |
| Manager.RouteManager.New | src/manager.rs:80-98 | registration, then one table read; a failed registration is returned and a failed read is the unwrap panic; on success the cache is the decoded table, the invariant holds, and the operator holds no handle, as in the source |
| Manager.RouteManager.Poll | src/manager.rs:132-163 | takes exactly the head of the inbox. With the lock held, it applies the event to the cache and appends that event to the outbox, so events are forwarded in FIFO order and the invariant is kept. On a poisoned lock it returns the poison error, with cache and outbox unchanged |
| Manager.RouteManager.PoisonLock | src/manager.rs:135 | after a poisoning, the cache and the queues are unchanged |
| Manager.RouteManager.Routes | src/manager.rs:176-182 | a copy equal to the cache, or the Other error on a poisoned lock |
| Manager.RouteManager.DefaultRoute | src/manager.rs:214-235 | the scan returns the first default route, or none exactly when there is none; a poisoned lock gives NotFound |
| Manager.RouteManager.AddRoute | src/manager.rs:192-195 | passes the operator's outcome through and changes only the kernel, never the cache |
| Manager.RouteManager.DeleteRoute | src/manager.rs:205-208 | passes the operator's outcome through and changes only the kernel, never the cache |
| Manager.RouteManager.Notify | src/windows.rs:233-248 | the callback sends the chosen event to the inbox; it sends nothing when no event is chosen or when decoding panics |
| Manager.AddThenPoll | src/manager.rs:132-163 | when the kernel reports route `r` (V4 gateway) with an Add notification carrying its row, polling makes its decoding the last cache entry, with r's destination, prefix and gateway, and subscribers see its Add event |

## Left out

- The Win32 calls are modelled only by their requests and an arbitrary status: `NotifyRouteChange2`, `CreateIpForwardEntry2`, `DeleteIpForwardEntry2`, `GetIpForwardTable2` and `GetBestInterfaceEx`. `FreeMibTable` and `CancelMibChangeNotify2` (the `Drop` impls) are not modelled, because they only release kernel resources.
- `SOCKADDR_INET` memory layout and `transmute` are replaced by a family tag plus octets. What the kernel would read from a mis-tagged union is not modelled.
- `Windows.InitialRow` sets only the fields the crate reads or writes. The other defaults of `InitializeIpForwardEntry` are not modelled.
- Windows.WindowsOperator.FindBestInterface does not model the V6 branch's pointer handling. That branch passes the integer 0 as the result pointer and first stores 100 through it. The model treats the lookup as one kernel query for both families.
- Concurrency is not modelled: the mutex, `RefCell`, crossbeam channels and the `Send`/`Sync` impls. Channels are sequences, and `Poll` requires a non-empty inbox instead of blocking in `recv`.
- A disconnected channel is not modelled. The manager owns the receivers of both channels, so neither `recv` nor the forwarding `send` can fail while it exists. This covers `poll`'s error path for the producer `send` and the callback's `send(...).unwrap()` panic.
- On a poisoned lock, `Poll` drops the event it received, as the source does. The subscribers never see it, and `Valid` still holds because the event was never forwarded.
- `subscribe_route_change` is not modelled. It clones the subscriber receiver, and clones share one queue; `outbox` is that queue.
- The serde `Deserialize` visitor in `src/route.rs` is not modelled. It is feature-gated and depends on serde's map access.
- IPv6 text formatting is not modelled. Its zero compression follows section 4.2 of RFC 5952, and `Render` takes it as a parameter `v6Text`.
- `src/lib.rs` is not part of this model: it only declares modules and re-exports.
- The examples are not part of this model: they are demo programs.
- The non-Windows `RouteManager::new` is not modelled. It always returns the same error.
- Windows.DecodeEncodeIdentity: holds only for routes with a V4 gateway, because a V6 gateway is encoded under the AF_INET tag (see `V6GatewayMisTagged`).
- Registering twice does not fail with AlreadyExists, although the guard at `src/windows.rs:42-43` is written for that case: the code never stores the handle. The model follows the code (see Findings).

## Findings

| source | as written | input that shows it | evidently intended | confidence | as-written member | corrected member |
|---|---|---|---|---|---|---|
| src/windows.rs:41-60 | `register_route_listener` keeps the registration handle in a local and never stores it in `notify_handle`, so the AlreadyExists guard can never fire and `Drop` never cancels the registration | `init` called twice on one operator, with the kernel accepting both: two registrations, both Ok | the handle is stored on success, so that a second `init` fails with AlreadyExists and teardown cancels the registration | high, not executed | Windows.InitTwiceAsWritten | Windows.InitTwiceStoringHandle |

The guard at `src/windows.rs:42-43` (code 5010, "Already registered") and
the `Drop` impl that cancels a stored handle (`src/windows.rs:132-139`)
show the intent. `Manager.RouteManager.New` registers through `init` as
written. A manager calls `init` only once, so its results do not depend on
the fix; what it misses is the cancellation on drop, which is not modelled.
