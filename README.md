# OBU middleware dispatch core, modelled in Dafny

This project models the protocol state machine of a V2X On-Board-Unit
middleware: the `Middleware` class of `src/obu/middleware.py`. The middleware
sits between the vehicle telemetry link and the radio link to roadside units
and other vehicles. The model covers:

- extraction of the message type from the 7-byte wire header (`Header`);
- routing of a decoded inbound message by its type code (`ObuSpec.Deliver`,
  `Obu.Middleware.SetObuData`). This updates the ego identity (L2ID), the two
  proximity caches and the outbound queue;
- the 3-second staleness sweep of the proximity caches (`Proximity`);
- the identity-acquisition gate, which asks for an L2ID until one is assigned
  (`ObuSpec.GateCheck`, `Obu.Middleware.CheckModuleState`);
- the merge of vehicle telemetry into the ego BSM (Basic Safety Message)
  records (`ObuSpec.SetVehicleData`, `ObuSpec.UpdateData`);
- one pass of the scheduler loop: gate, DMM (decision notification), sweeps,
  pacing sleep (`ObuSpec.TickStep`, `Obu.Middleware.Tick`).

The state is held by the class `Obu.Middleware`, whose fields the methods
update in place. Each method's postcondition equates its new abstract state
(`State()`) with a transition function of `ObuSpec` applied to the old one.
The lemmas in `ObuSpec` and `Proximity` state what those transitions
guarantee.

Wall-clock time is a parameter, in exact `real` seconds. Each sweep receives
its own clock reading (`bsmNow`, `rsuNow`). The tick receives the elapsed time
`dt`.

The payload classes are abstract records. These are `BsmData`,
`VehicleData`, `DnmRequestData` and the others, defined in
`src/obu/classes.py`, which is not part of this model. A decoded inbound
message (`Received`) keeps `l2id`, `sender` and `timestamp`. An outbound
message (`Outbound`) is one of the three the middleware builds. An attribute
dictionary is a `map<string, Value>`, and the `Value` type carries Python's
truthiness.

The dispatcher takes two inputs: the type code that `unpack_header` read, and
the record that `unpack_data` decoded. Each is `None` when that call raised.
Both functions live in the classes module. `unpack_msg_type` is modelled on
its own. The source never calls it: line 48 is commented out.

The model follows what the code does, including these behaviours:

- Line 60 tests `msg_type == MessageType.BSM_NOIT or MessageType.BSM_LIGHT_NOIT`.
  The right operand is a non-zero constant, so the test is always true. Every
  type other than DNM_REQUEST and L2ID_RESPONSE is therefore upserted into
  `proximity_bsm` under its own l2id. The DMM_NOIT and EDM_NOIT branches
  (lines 62-69) never run, so nothing is forwarded to the vehicle link or
  cached by type. A type code missing from the catalog raises a KeyError
  instead of being ignored; the model returns `UnknownMessageType` and leaves
  the state unchanged.
- No code path sets `comm_state` to True.
- An L2ID response that carries identity 0 puts the gate back in the
  unassigned state (`ObuSpec.ZeroResponseUnassigns`).
- While unassigned, the loop sleeps 3 s and skips the rest of the pass,
  including the reset of `sync_time`.
- The gate guards only the scheduler loop. A DNM request that arrives before
  any identity is answered with `DnmResponseData(0, sender)`
  (`ObuSpec.DnmRequestWhileUnassigned`).
- `set_vehicle_data` discards the result of `update_data` and returns None.
- `update_data` merges the whole snapshot into the ego BSM (line 88). Telemetry
  that carries an `l2id` field therefore overwrites the BSM's l2id without
  changing `ego_l2id`. Unlike `cim.sender`, the BSM's l2id is not guaranteed
  to mirror the identity.
- Line 49 creates the payload object with `l2id = self.ego_l2id` before
  `unpack_data` fills it in. A field that decoding does not overwrite keeps
  the ego identity. In the model the decoded record is an unconstrained input,
  so this default is neither assumed nor excluded.

## Model

| member | source | states |
|---|---|---|
| Header.Prefix | src/obu/middleware.py:35 | `packet[:7]` is a prefix of the packet, has seven bytes when the packet does, and is the whole packet otherwise |
| Header.UnpackMsgType | src/obu/middleware.py:32-36 | a type is returned exactly when the seven-byte slice has the format's size |
| Header.UnpackIgnoresPayload | src/obu/middleware.py:35 | appending bytes after the header never changes the result |
| Header.UnpackDependsOnlyOnHeader | src/obu/middleware.py:35 | packets that agree on their first seven bytes yield the same type |
| Header.ShortPacketFails | src/obu/middleware.py:35 | with a 7-byte format, decoding fails exactly for packets shorter than 7 bytes; otherwise it returns the type field of the first seven bytes |
| Proximity.DeleteTimeErrorData | src/obu/middleware.py:38-44 | a dict comes back holding exactly its entries at most 3 s old; any other argument comes back unchanged |
| Proximity.UnexpiredKeepsFresh | src/obu/middleware.py:43-44 | a key survives the sweep if and only if its entry is at most 3 s old, and it keeps its value |
| Proximity.BoundaryEntrySurvives | src/obu/middleware.py:43 | an entry exactly 3 s old is kept |
| Proximity.SweepScenario | src/obu/middleware.py:43-44 | an entry received at t is kept by a sweep at t+2.9 s and removed by one at t+3.1 s |
| Proximity.SweepIdempotent | src/obu/middleware.py:38-44 | sweeping twice at the same time equals sweeping once |
| Proximity.SweepMonotone | src/obu/middleware.py:43 | a later sweep keeps a subset of the keys an earlier one keeps |
| Proximity.SweptHasNoStale | src/obu/middleware.py:41-44 | no stale entry remains after a sweep |
| Proximity.AsWrittenOutcome | src/obu/middleware.py:41-44 | over a given iteration order, the pop-while-iterating loop completes with the dict unchanged exactly when no visited entry is stale; otherwise it raises having removed only the first stale entry |
| Proximity.AsWrittenAgreesOnlyWithoutStale | src/obu/middleware.py:41-44 | over the whole dict, the loop as written matches the intended filter if and only if no entry is stale |
| Proximity.AsWrittenRaisesOnStaleEntry | src/obu/middleware.py:41-44 | with a stale entry followed by a fresh one, the loop as written removes the stale entry and raises; the intended sweep keeps exactly the fresh one |
| ObuSpec.Initial | src/obu/middleware.py:10-24 | the initial state is unassigned, the CIM sender mirrors the identity, and the queue and both caches are empty |
| ObuSpec.RejectedMessageChangesNothing | src/obu/middleware.py:46-50 | a message is rejected exactly when its header, type code or payload fails; a rejection leaves the state unchanged and names the first failing check |
| ObuSpec.L2idResponseAssignsIdentity | src/obu/middleware.py:55-59| an L2ID response sets the ego identity, the BSM l2id and the CIM sender and caches the response under its type; the BSM and the cache gain only those keys, and every other field of the state is unchanged |
| ObuSpec.L2idResponseIdempotent | src/obu/middleware.py:55-59 | processing one L2ID response twice gives the same state as processing it once |
| ObuSpec.IdentityScenario | src/obu/middleware.py:55-59 | a response with identity 42 moves an unassigned node to 42, and a repeat keeps it at 42 |
| ObuSpec.ZeroResponseUnassigns | src/obu/middleware.py:56 | a response carrying identity 0 leaves the node unassigned |
| ObuSpec.DnmRequestWhileUnassigned | src/obu/middleware.py:51-53 | a DNM request received while unassigned is answered with a DNM response carrying identity 0 |
| ObuSpec.DnmRequestReplies | src/obu/middleware.py:51-54| a DNM request sets the receiver and appends exactly one DNM response (ego identity, sender) at the tail of the queue; it caches the request under its type alone, and every other field of the state is unchanged |
| ObuSpec.OtherTypesUpsertPeer | src/obu/middleware.py:60-61 | every other type is upserted into the peer map under its own l2id, other peers keep their entries, and every other field of the state is unchanged |
| ObuSpec.NotificationsLandInPeerMap | src/obu/middleware.py:60-69| a DMM or EDM notification leaves the type-keyed cache unchanged and lands in the peer map instead |
| ObuSpec.GateWhileUnassigned | src/obu/middleware.py:97-101 | while unassigned, a check appends exactly one L2ID request, clears comm_state and changes nothing else |
| ObuSpec.GateWhenAssigned | src/obu/middleware.py:98-102 | once assigned, a check changes nothing |
| ObuSpec.UnassignedChecksRequestRepeatedly | src/obu/middleware.py:97-101 | n checks without an identity enqueue exactly n L2ID requests and change nothing else |
| ObuSpec.NonDictTelemetryRejected | src/obu/middleware.py:74-76 | a non-dict telemetry argument is rejected with InvalidInput and no state change |
| ObuSpec.DisconnectedUpdateDoesNothing | src/obu/middleware.py:84-85 | when the vehicle link is down, update_data reports False and changes nothing |
| ObuSpec.ConnectedUpdateMerges | src/obu/middleware.py:81-92| with the link up, each snapshot field overwrites the ego BSM's and absent fields keep their values; when the turn signal is on the light record is merged the same way, otherwise it is unchanged; nothing else changes |
| ObuSpec.TelemetryReachesEgoBsm | src/obu/middleware.py:74-92 | with the link up, the call returns normally, each field of a telemetry dict reaches the ego BSM, and fields named neither by it nor by the snapshot are untouched |
| ObuSpec.DisconnectedTelemetryOnlyUpdatesSnapshot | src/obu/middleware.py:74-85 | with the link down, the call returns normally and only the vehicle snapshot changes: the dict's fields overwrite it, its other fields stay |
| ObuSpec.Pause | src/obu/middleware.py:130-132 | the pacing sleep is never negative; work plus sleep reaches the interval, exactly so whenever it sleeps, and it sleeps whenever the work was shorter |
| ObuSpec.PauseScenario | src/obu/middleware.py:130-132 | with an interval of 0.1 s, 0.03 s of work sleeps 0.07 s and 0.15 s of work does not sleep |
| ObuSpec.SweepIfAnyIsSweep | src/obu/middleware.py:125-128 | skipping the sweep of an empty map is the same as sweeping it |
| ObuSpec.TickWhileUnassigned | src/obu/middleware.py:116-119| a failed gate enqueues only the L2ID request, clears comm_state, sends no DMM, sweeps nothing, changes nothing else and backs off 3 s |
| ObuSpec.TickWhenAssigned | src/obu/middleware.py:121-132| a passed gate appends exactly one DMM(ego identity, signal) exactly when the turn signal is on; it removes exactly the stale entries of both maps, leaves none behind, changes nothing else and sleeps the pacing interval |
| ObuSpec.TickNeedsIdentity | src/obu/middleware.py:116-123 | a tick only appends to the queue: L2ID requests while unassigned, otherwise DMMs with a non-zero identity |
| ObuSpec.StepInvariants | src/obu/middleware.py:46-133 | every call keeps the CIM sender equal to the identity and only appends to the queue |
| ObuSpec.StepKeepsIdentity | src/obu/middleware.py:46-133 | a call other than an accepted L2ID response leaves the identity unchanged |
| ObuSpec.RunInvariants | src/obu/middleware.py:46-133 | along any sequence of calls, the queue only grows and the CIM sender keeps mirroring the identity |
| ObuSpec.IdentityNeedsResponse | src/obu/middleware.py:55-56 | a sequence of calls without an accepted L2ID response never changes the identity |
| Obu.Middleware.constructor | src/obu/middleware.py:10-24 | the new object is in the initial state |
| Obu.Middleware.SetObuData | src/obu/middleware.py:46-69 | the new state and the raised error are those of the dispatcher's transition |
| Obu.Middleware.SetVehicleData | src/obu/middleware.py:74-79 | the new state and the raised error (none for a dict) are those of the telemetry transition |
| Obu.Middleware.UpdateData | src/obu/middleware.py:81-92 | the new state and the result are those of the merge transition |
| Obu.Middleware.CheckModuleState | src/obu/middleware.py:97-102 | reports whether an identity is assigned, and the new state is that of the gate transition |
| Obu.Middleware.Tick | src/obu/middleware.py:116-133 | the new state and the sleep are those of one scheduler pass |

## Findings

| source | as written | input that shows it | evidently intended | confidence | as-written member | corrected member |
|---|---|---|---|---|---|---|
| src/obu/middleware.py:41-44 | `data.pop` inside `for ... in data.items()`: CPython raises RuntimeError at the next iteration step after any pop | a cache holding an entry more than 3 s old (here: a stale entry then a fresh one) | remove every stale entry and keep the rest | high (CPython dict iteration semantics; not executed) | Proximity.AsWrittenRaisesOnStaleEntry | Proximity.DeleteTimeErrorData |

The scheduler tick uses the corrected sweep.

## Left out

- Socket transport (`VehicleSocket` and `ObuSocket` construction in `process`, `put_obu_queue`): I/O. `put_queue_data` is an append to the modelled queue. `is_connected` is a parameter.
- `set_dict_data` forwarding to the vehicle link: it appears only in the unreachable DMM/EDM branches.
- `_create_post_l2id`: nothing calls it.
- Header and payload decoding in the classes module (`unpack_header`, `unpack_data`, `header_fmt`): not part of this model. Their results are inputs to the dispatcher.
- `VehicleData.update_data` and `VehicleData.to_dict`: not part of this model. `update_data` is taken to be a dict merge into the snapshot. `to_dict()` is taken to return the snapshot's attribute dictionary unchanged.
- Message-type codes: the dispatcher branches on the catalog's class for the code, not on the code itself. The two agree when exactly one code maps to each of DNM_REQUEST and L2ID_RESPONSE, as `MSG_TYPE` is assumed to do.
- `is_connected` (line 84) is read without being called. The model treats it as a boolean attribute. If VehicleSocket defined it as a method, a bound method is always truthy. Then `not vehicle_module.is_connected` would always be False, and update_data would never return early.
- Header.UnpackMsgType: the struct format is abstract (its size and a decoding function), so field order and byte order are not modelled. The model does not apply the default format `ego_bsm.header_fmt` itself; the caller supplies the format.
- Encode/decode round-trips of the payload classes: not part of this model.
- `sleep`, `time()` and the endless `while 1` loop: one pass is modelled, with the clock readings as parameters. `sync_time` stays outside the model, because `dt` is a parameter.
- Floating-point time arithmetic: exact reals are used instead.
- `print` logging at lines 63 and 67.
- Concurrency between socket callbacks and the loop: each call is atomic.
- Proximity.SweepAsWritten: the iteration order is a parameter, because dict insertion order is not tracked by the caches.
- Messages.TurnSignalActive: a snapshot without a `turn_signal` attribute counts as having no active signal. The default attributes of VehicleData are not part of this model.
