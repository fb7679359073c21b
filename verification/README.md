# Verification of the UDP relay server

This project models the relay server's shared state and proves properties of it
in Dafny: the two tunnels (V3 with ids that register themselves, V2 with slots
handed out over HTTP), the batched traffic counters and their exporter, the
accept loop's drop counters, and the reply buffer of the peer-to-peer address
service. `dafny verify dfyconfig.toml` checks everything.

## Two layers

**Atomic steps.** Each datagram, request, command or heartbeat is one step. The
classes (`TunnelV3Server.TunnelV3`, `TunnelV2Server.TunnelV2`,
`MetricsClasses.LocalMetricsBatch`, `Exporter.ExportedCounter`,
`PeerToPeer.Worker`) work in place as the server does; their methods are proved
against functions on values (`TunnelV3Spec`, `TunnelV2Spec`, `MetricsSpec`), and
the theorems in the `...Runs` and `...Slots` modules are about those functions
over every finite run with a clock that never goes back.

**Interleaved steps.** In the `...Workers`, `Exporter` and `FrontDoor` modules
every access to a shared map, shared record or atomic is a step of its own, each
worker has a program counter, and `Run(cfg, acts)` is the state after any
sequence of actions. An action that is not enabled changes nothing, so "for all
`acts`" is "in every interleaving". `TunnelV3Workers.UninterruptedIsAtomic` and
`SweepIsCleanup`, the three lemmas of `TunnelV2Uninterrupted` and
`MetricsWorkers.FlushIsAtomicFlush` tie the layers together: steps that nobody
interrupts add up to the atomic step.

| file | content |
|---|---|
| `Net.dfy` | addresses, datagrams, the client record and its timeout |
| `TunnelV3.dfy`, `TunnelV3Runs.dfy`, `TunnelV3CutOff.dfy`, `TunnelV3Workers.dfy` | the V3 relay: steps and class, whole runs, the run in which maintenance cuts a live client off, interleavings |
| `TunnelV2.dfy`, `TunnelV2Runs.dfy`, `TunnelV2Service.dfy`, `TunnelV2Workers.dfy`, `TunnelV2Uninterrupted.dfy` | the V2 relay: steps and class, whole runs, what clients can count on and what maintenance keeps, interleavings, and the refinement between the layers |
| `Decimal.dfy` | printing and parsing ids, and the reply body |
| `Metrics.dfy`, `MetricsWorkers.dfy`, `Exporter.dfy` | batching, flushing and exporting counters |
| `FrontDoor.dfy` | HTTP permits and dropped connections |
| `PeerToPeer.dfy` | the reused reply buffer |

## Assumptions

The crates behind these types are not part of this model; this is what is
assumed of them.

- A `TunnelClient` is an optional endpoint, a last-receive time and a timeout of
  30 s; a new one is stamped with the current time. `is_timed_out` is
  `clock - last_receive >= 30`.
- One clock in whole seconds since boot that never goes back serves as
  timestamp, as timeout clock and as the elapsed time of the command gate.
- `update_stats(0, n, now)` does not refresh the last-receive time. Only
  `SilentClientEvicted` and `SilentSlotFreed` depend on it.
- DashMap `get`, `insert`, `remove`, `contains_key` and `len` are atomic;
  `retain` is one atomic step per key, the removal of the key's analyzer
  included.
- Atomics are sequentially consistent. Shared totals are modelled with their
  64-bit wrap-around; lemmas that need totals below 2^64 say so.
- Rate limiters, random draws, `validate_address` and the success of a send are
  arbitrary inputs. A draw sequence has at least the 1000 entries the handler
  may consume.
- Heartbeat ticks come every 60 s from second 0 where a lemma says `Punctual`.

## What was found

- The repository's README.md:137 says maintenance mode keeps existing
  connections. The code returns before it refreshes anybody
  (`src/tunnel_v3.rs:210`, `src/tunnel_v2.rs:384`). An existing entry survives,
  unaltered, if and only if no cleanup meets it timed out
  (`MaintenanceKeepsExactly`), and nothing its client sends changes that: the
  `MaintenanceCutsOff` lemmas give runs in which a client that never stops
  sending gets nothing through after the toggle and loses its entry to the next
  cleanup, for both tunnels.
- The client limit can be exceeded, by at most W - 1 clients in V3 and by
  W + m (H - 1) slots in V2, where m is the smaller of 8 and max_clients. The
  `CapacityBoundReached` lemmas construct runs that reach both bounds.
- Let a be the longest time from a packet's timestamp to the refresh it writes,
  and b from building a client record to the second of its two inserts. The two
  V3 tables agree in every interleaving if and only if a + b < 30 and
  2 b < 30 seconds (`AgreementExactly`). Beyond the first, a worker can write an
  old timestamp over a fresh entry (`StaleTimestampRun`); beyond the second, it
  can replace a fresh entry by an older record (`StaleRecordRun`). Cleanup then
  removes the entry between the two inserts, and an analyzer without a client is
  left behind.
- The exported counters are exact in every interleaving if and only if no two
  exports can run at once (`ExactForOneOnly`); with two, packets can be counted
  twice (`ConcurrentExportsOverCount`).
- Dropped connections are conserved if and only if fewer than 2^32 are dropped
  between any two heartbeats (`DropsConservedExactly`); each wrap of the 32-bit
  counter loses 2^32 of them.

## Model

| member | source | states |
|---|---|---|
| `TunnelV3Spec.HeaderRoundTrip` | src/tunnel_v3.rs:165-184 | two little-endian ids in front of any payload are read back as written |
| `TunnelV3Spec.HeaderBytes` | src/tunnel_v3.rs:178-183 | the byte order of the header, on one packet |
| `TunnelV3Spec.DataPacketExact` | src/tunnel_v3.rs:210-340 | a data packet is accepted exactly when its source holds the id, or nobody live does and there is room and the limiter agrees; then the id belongs to the source as of now, gets a new analyzer unless the source held it already, the gauge is set if the id is new, no other entry changes, the packet goes out unchanged exactly when the receiver was known at another endpoint; otherwise nothing happens |
| `TunnelV3Spec.PingEchoes` | src/tunnel_v3.rs:203-239 | a 50-byte ping is answered with its own first 12 bytes, in maintenance too, and changes nothing |
| `TunnelV3Spec.OtherPingsIgnored` | src/tunnel_v3.rs:203-208 | a ping of any other length changes nothing and is not answered |
| `TunnelV3Spec.StrangersIgnored` | src/tunnel_v3.rs:194-201 | a datagram from an invalid address that is not shaped like a command changes nothing and is not answered |
| `TunnelV3Spec.OwnIdIgnored` | src/tunnel_v3.rs:219-223 | a datagram from an id to itself changes nothing and is not answered |
| `TunnelV3Spec.IllegalSizesIgnored` | src/tunnel_v3.rs:142-149 | exactly the datagrams of 8 to 1472 bytes are recorded; others change nothing and are not answered |
| `TunnelV3Spec.WrongPasswordIgnored` | src/tunnel_v3.rs:352-358 | a command with a wrong password changes nothing but, when let through, the time of the last command |
| `TunnelV3Spec.ClosedGateIgnores` | src/tunnel_v3.rs:343-350 | without a configured password, or within 60 seconds of the last command let through, a command changes nothing |
| `TunnelV3Spec.PasswordObeyed` | src/tunnel_v3.rs:342-374 | with the right password and 60 seconds apart, code 0 toggles maintenance, code 1 removes exactly the entries silent for 30 seconds from both tables, and other codes change nothing else |
| `TunnelV3Spec.CleanupCleans` | src/tunnel_v3.rs:398-415 | a cleanup removes exactly the entries silent for 30 seconds and their analyzers, keeps the others as they are, and sets the gauge |
| `TunnelV3Spec.NoAmplification` | src/tunnel_v3.rs:186-239 | at most one send per datagram and never longer than it; data only to another endpoint, replies only to the sender; the recorded traffic is what happened |
| `TunnelV3Server.TunnelV3.OnReceive` | src/tunnel_v3.rs:186-217 | the in-place handler changes the state and sends as the step function says |
| `TunnelV3Server.TunnelV3.HandleRecorded` | src/tunnel_v3.rs:144-146 | a datagram of legal size is handled and recorded, and its send if one went out |
| `TunnelV3Server.TunnelV3.ReceiveLoopTurn` | src/tunnel_v3.rs:133-162 | one turn of the receive loop: size guard, handling, one packet and its bytes into the receive counters and, if a send went out, one packet and its bytes into the send counters, a flush of the whole batch into the shared counters every 64th time, and one at once after a receive error |
| `TunnelV3Server.TunnelV3.HandleDataForward` | src/tunnel_v3.rs:241-340 | sender check, table update and forwarding, in place |
| `TunnelV3Server.TunnelV3.ExecuteCommand` | src/tunnel_v3.rs:342-374 | rate gate, password, toggle and forced cleanup, in place |
| `TunnelV3Server.TunnelV3.CleanupExpiredMappings` | src/tunnel_v3.rs:398-423 | the loop over the keys, in any order, leaves exactly the live entries, drops exactly the analyzers of the others and sets the gauge |
| `TunnelV3Server.TunnelV3.HeartbeatTick` | src/tunnel_v3.rs:376-396 | wrapping counter, cleanup on multiples of three |
| `TunnelV3Runs.RunsStayConsistent` | src/tunnel_v3.rs:241-423 | after every event of every run: at most max_clients entries, analyzer keys equal client keys, gauge equals table size, every entry has an endpoint |
| `TunnelV3Runs.EndpointSticks` | src/tunnel_v3.rs:251-293 | accepted packets of one id from different endpoints are at least 30 s apart, across rebinding, cleanup and re-registration |
| `TunnelV3Runs.KeepAlive` | src/tunnel_v3.rs:277-284 | a client that keeps sending at gaps below the timeout is never evicted or rebound while maintenance is off, whatever else happens |
| `TunnelV3Runs.DeliveredToPeer` | src/tunnel_v3.rs:320-338 | between two such clients every data packet goes out byte for byte to the peer's endpoint |
| `TunnelV3Runs.ClientsMeet` | src/tunnel_v3.rs:289-339 | from an empty server with room for two, any two clients reach each other as soon as both have spoken |
| `TunnelV3Runs.MaintenanceDrains` | src/tunnel_v3.rs:210-212 | while the flag is on no key appears, no last-receive time moves, no data is forwarded; only pings are answered |
| `TunnelV3Runs.MaintenanceEmpties` | src/tunnel_v3.rs:398-411 | once the flag was on for the timeout the next cleanup empties the table, which stays empty |
| `TunnelV3Runs.MaintenanceKeepsExactly` | src/tunnel_v3.rs:210-212 | while the flag is on an existing entry survives, unaltered, if and only if no cleanup meets it timed out |
| `TunnelV3CutOff.MaintenanceCutsOff` | src/tunnel_v3.rs:210-214 | a run in which a client keeps sending below the timeout to a peer in the table, yet gets nothing through after the toggle and is removed by the next heartbeat's cleanup |
| `TunnelV3Runs.CounterWraps` | src/tunnel_v3.rs:378-386 | the u8 counter is the number of ticks modulo 256 |
| `TunnelV3Runs.OneTickInThreeCleans` | src/tunnel_v3.rs:383-386 | of any three consecutive ticks at least one cleans, across the wrap at 256 |
| `TunnelV3Runs.SilentClientEvicted` | src/tunnel_v3.rs:376-411 | an id without an accepted packet since second s is out of the table at s + 30 + 180 |
| `TunnelV3Runs.CommandRate` | src/tunnel_v3.rs:342-352 | at most floor(T / 60) commands pass the gate by second T, wrong passwords included |
| `TunnelV3Runs.MaintenanceIsParity` | src/tunnel_v3.rs:357-363 | the flag is the parity of the authentic toggle commands so far |
| `TunnelV3Workers.CapacityBound` | src/tunnel_v3.rs:251-314 | in every interleaving of W workers and cleaners the table, even with all keys about to be inserted, has at most max_clients + W - 1 keys |
| `TunnelV3Workers.CapacityBoundReached` | src/tunnel_v3.rs:289-293 | for every W and limit some run reaches that bound |
| `TunnelV3Workers.TablesAgree` | src/tunnel_v3.rs:266-295 | within the time bounds: analyzer keys are client keys, only keys some worker is midway through inserting are missing, and the key sets are equal when all workers are idle |
| `TunnelV3Workers.StaleTimestampRun` | src/tunnel_v3.rs:277-295 | a run with a slow refresh that leaves an analyzer without a client |
| `TunnelV3Workers.StaleRecordRun` | src/tunnel_v3.rs:291-295 | a run with two slow insert pairs that leaves an analyzer without a client |
| `TunnelV3Workers.AgreementExactly` | src/tunnel_v3.rs:251-295 | with two or more workers the tables agree in all interleavings if and only if timestamp-to-refresh plus build-to-pair time, and twice the latter, are below the timeout |
| `TunnelV3Workers.UninterruptedIsAtomic` | src/tunnel_v3.rs:251-314 | the steps of an uninterrupted worker change the two tables as the atomic sender check does |
| `TunnelV3Workers.SweepIsCleanup` | src/tunnel_v3.rs:398-411 | an uninterrupted sweep over all keys is the atomic cleanup |
| `TunnelV2Spec.HeaderRoundTrip` | src/tunnel_v2.rs:368-369 | two signed big-endian ids are read back as written |
| `TunnelV2Spec.HeaderBytes` | src/tunnel_v2.rs:368-369 | the byte order and sign of the header, on one packet |
| `TunnelV2Spec.DataPacketExact` | src/tunnel_v2.rs:384-467 | a data packet is accepted exactly when its slot exists and is unbound, its own, or timed out; then the slot is the source's as of now, nothing else changes, and the packet is forwarded exactly when the receiver was known elsewhere |
| `TunnelV2Spec.PingEchoes` | src/tunnel_v2.rs:377-412 | as for V3 |
| `TunnelV2Spec.OtherPingsIgnored` | src/tunnel_v2.rs:377-382 | a ping of any other length changes nothing and is not answered |
| `TunnelV2Spec.StrangersIgnored` | src/tunnel_v2.rs:373-375 | a datagram from an invalid address changes nothing and is not answered |
| `TunnelV2Spec.OwnIdIgnored` | src/tunnel_v2.rs:394-397 | a datagram from a slot to itself changes nothing and is not answered |
| `TunnelV2Spec.IllegalSizesIgnored` | src/tunnel_v2.rs:132-136 | exactly the datagrams of 4 to 1472 bytes are recorded; others change nothing and are not answered |
| `TunnelV2Spec.NoAmplification` | src/tunnel_v2.rs:371-412 | as for V3 |
| `TunnelV2Spec.FreshGrows` | src/tunnel_v2.rs:294-303 | more draws only add ids behind those already taken |
| `TunnelV2Spec.FreshHolds` | src/tunnel_v2.rs:294-303 | the ids taken are exactly the nonzero untaken ones drawn, each once |
| `TunnelV2Server.TunnelV2.OnUdpReceive` | src/tunnel_v2.rs:363-391 | the in-place handler changes the state and sends as the step function says |
| `TunnelV2Server.TunnelV2.HandleRecorded` | src/tunnel_v2.rs:133-135 | a datagram of legal size is handled and recorded, and its send if one went out |
| `TunnelV2Server.TunnelV2.ReceiveLoopTurn` | src/tunnel_v2.rs:124-147 | one turn of the receive loop, counter by counter as for V3 |
| `TunnelV2Server.TunnelV2.HandleDataForward` | src/tunnel_v2.rs:414-469 | binding, rebinding, refreshing and forwarding, in place |
| `TunnelV2Server.TunnelV2.HandleRequest` | src/tunnel_v2.rs:257-330 | checks, allocation, rollback and reply body, in place |
| `TunnelV2Server.TunnelV2.DrawIds` | src/tunnel_v2.rs:288-303 | the drawing loop takes the first distinct fresh ids of the first 1000 draws and adds exactly their slots |
| `TunnelV2Server.TunnelV2.RollBack` | src/tunnel_v2.rs:305-310 | removing every printed and re-parsed id restores the table exactly |
| `TunnelV2Server.TunnelV2.CleanupExpiredMappings` | src/tunnel_v2.rs:491-511 | leaves exactly the live slots and sets the gauge |
| `TunnelV2Server.TunnelV2.HandleMaintenance` | src/tunnel_v2.rs:332-361 | toggles only with a configured and matching password |
| `TunnelV2Server.TunnelV2.HandleStatus` | src/tunnel_v2.rs:240-248 | the number in use is the table size, the number free is max_clients less that, and the third is the drop counter |
| `TunnelV2Server.TunnelV2.RefuseConnection` | src/tunnel_v2.rs:163-165 | a connection without a permit is counted, with the wrap of the 32-bit counter |
| `TunnelV2Server.TunnelV2.HeartbeatTick` | src/tunnel_v2.rs:471-489 | cleans up, swaps the drop counter out and returns what it held |
| `Decimal.PrintParse` | src/tunnel_v2.rs:301-307 | printing and parsing is the identity on all signed 16-bit integers, -32768 included |
| `Decimal.PrintsPlainly` | src/tunnel_v2.rs:301 | the text of an id is digits that denote its absolute value without a leading zero, after '-' exactly for a negative one |
| `Decimal.ParseExact` | src/tunnel_v2.rs:307 | exactly digits after at most one sign that denote a 16-bit number are parsed, to that number; the overflow checks refuse nothing else |
| `Decimal.BodyRoundTrip` | src/tunnel_v2.rs:324 | the reply body determines the ids it was built from |
| `Decimal.BodyText` | src/tunnel_v2.rs:324 | the body for three ids, character by character |
| `TunnelV2Slots.AllocationExact` | src/tunnel_v2.rs:288-305 | ids are found exactly when enough distinct nonzero untaken ones are among the first 1000 draws, and then they are the first of these in drawing order |
| `TunnelV2Slots.RequestExact` | src/tunnel_v2.rs:257-330 | all-or-nothing: granted exactly when the checks pass and enough ids come up; then the body carries them, the table grows by exactly them and every other entry is kept; otherwise nothing changes; each refusal is given for exactly its reason |
| `TunnelV2Slots.SomeDrawsSucceed` | src/config.rs:36-42 | with at most 10000 slots a request that passes the checks is granted for some draws |
| `TunnelV2Runs.UdpKeepsKeys` | src/tunnel_v2.rs:424-449 | UDP traffic never changes which slots exist, the gauge or the flag |
| `TunnelV2Runs.RunsStayConsistent` | src/tunnel_v2.rs:240-322 | after every event: at most max_clients slots, none with id 0, gauge equals table size, /status reports that many in use and the rest of max_clients free |
| `TunnelV2Runs.DropsCounted` | src/tunnel_v2.rs:163-165 | the drop counter is the number of connections refused since the last heartbeat, modulo 2^32 |
| `TunnelV2Runs.MaintenanceIsParity` | src/tunnel_v2.rs:332-345 | the flag is the parity of the toggles that passed the limiter with the configured password |
| `TunnelV2Runs.SlotsWereGranted` | src/tunnel_v2.rs:294-322 | every slot in the table was in the body of an earlier granted request and has been there ever since |
| `TunnelV2Runs.EndpointSticks` | src/tunnel_v2.rs:424-449 | accepted packets of one id from different endpoints are at least 30 s apart, across rebinding, cleanup and reallocation of the id |
| `TunnelV2Runs.MaintenanceDrains` | src/tunnel_v2.rs:258-263 | while the flag is on no slot is added, bound or refreshed, no request granted, no data forwarded |
| `TunnelV2Runs.MaintenanceEmpties` | src/tunnel_v2.rs:384-386 | once the flag was on for the timeout the next heartbeat empties the table, which stays empty |
| `TunnelV2Service.KeepAlive` | src/tunnel_v2.rs:445-448 | a slot whose client keeps sending at gaps below the timeout is never freed or rebound while maintenance is off |
| `TunnelV2Service.DeliveredToPeer` | src/tunnel_v2.rs:451-467 | between two such slots every data packet goes out byte for byte to the peer's endpoint |
| `TunnelV2Service.SilentSlotFreed` | src/tunnel_v2.rs:471-503 | a slot neither used nor handed out since second s is free at s + 30 + 60 |
| `TunnelV2Service.MaintenanceKeepsExactly` | src/tunnel_v2.rs:384-386 | while the flag is on an existing slot survives, unaltered, if and only if no heartbeat meets it timed out |
| `TunnelV2Service.MaintenanceCutsOff` | src/tunnel_v2.rs:384-388 | a run in which a client keeps sending below the timeout, yet gets nothing through after the toggle and loses its slot to the next heartbeat |
| `TunnelV2Workers.CapacityBound` | src/tunnel_v2.rs:281-318 | in every interleaving of H handlers, W workers and cleaners the table plus all reserved and pending slots is at most max_clients + W + m (H - 1), m the smaller of 8 and max_clients |
| `TunnelV2Workers.CapacityBoundReached` | src/tunnel_v2.rs:424-442 | a run that reaches that bound exactly, for every setup whose slots all have a positive id |
| `TunnelV2Workers.ServerReachesBound` | src/config.rs:36-42 | such a run exists for every limit the configuration accepts, up to 4 workers and 100 handlers |
| `TunnelV2Uninterrupted.RunsStaySeparate` | src/tunnel_v2.rs:299-300 | in every interleaving each client record belongs to one slot at most |
| `TunnelV2Uninterrupted.PacketIsAtomic` | src/tunnel_v2.rs:424-449 | an uninterrupted worker binds or refreshes as the atomic step does |
| `TunnelV2Uninterrupted.LateRefresh` | src/tunnel_v2.rs:388-446 | a worker held up after taking a packet's timestamp writes that older timestamp when it refreshes |
| `TunnelV2Uninterrupted.RequestIsAtomic` | src/tunnel_v2.rs:281-318 | an uninterrupted handler leaves the table as the atomic request does: granted, refused, or drawn in vain and rolled back |
| `TunnelV2Uninterrupted.SweepIsCleanup` | src/tunnel_v2.rs:491-503 | an uninterrupted sweep over all slots is the atomic cleanup |
| `MetricsClasses.LocalMetricsBatch.RecordV3Rx` | src/metrics.rs:93-96 | one packet and its bytes are added to the V3 receive counters only |
| `MetricsClasses.LocalMetricsBatch.RecordV3Tx` | src/metrics.rs:99-102 | likewise for V3 sends |
| `MetricsClasses.LocalMetricsBatch.RecordV2Rx` | src/metrics.rs:105-108 | likewise for V2 receives |
| `MetricsClasses.LocalMetricsBatch.RecordV2Tx` | src/metrics.rs:111-114 | likewise for V2 sends |
| `MetricsSpec.RecordsExactly` | src/metrics.rs:93-114 | recording a datagram changes the four counters of its tunnel as written out, each with the wrap of its field |
| `MetricsSpec.DatagramCounts` | src/metrics.rs:93-114 | with room, a datagram adds 1 and its bytes to the receive counters, 1 and the bytes sent to the send counters if a send went out, and nothing elsewhere |
| `MetricsClasses.LocalMetricsBatch.MaybeFlush` | src/metrics.rs:117-122 | the u16 counter wraps, and its multiples of 64 flush |
| `MetricsClasses.LocalMetricsBatch.Flush` | src/metrics.rs:124-157 | the whole batch moves into the shared counters and is zero afterwards |
| `MetricsWorkers.Conserved` | src/metrics.rs:124-157 | in every interleaving of any number of workers, shared value plus all unflushed values is the total recorded, modulo 2^64 and exactly below it |
| `MetricsWorkers.LagBounded` | src/metrics.rs:93-122 | a batch never holds more than 64 packets or 64 * 1472 bytes per direction, so its fields never wrap, and the shared counts lag by at most that per worker |
| `MetricsWorkers.FlushEvery64` | src/metrics.rs:116-122 | a flush starts exactly at every 64th finished packet, across the u16 wrap and flushes after receive errors |
| `MetricsWorkers.SentNeverExceedsReceived` | src/metrics.rs:124-157 | in every state of every interleaving, mid-flush too, shared packets and bytes sent are at most those received, for both tunnels |
| `MetricsWorkers.NextKeepsGood` | src/tunnel_v3.rs:140-161 | every step of a worker keeps the per-worker invariant behind these results |
| `MetricsWorkers.PacketShares` | src/tunnel_v3.rs:192-239 | handling a datagram adds exactly its share to every counter of the worker's batch and of the history |
| `MetricsWorkers.ErrorHandsOver` | src/tunnel_v3.rs:151-152 | after a receive error a worker left alone has handed over all it held |
| `MetricsWorkers.FlushIsAtomicFlush` | src/metrics.rs:124-157 | the eight steps of an uninterrupted flush do what `flush` does |
| `Exporter.ExportedCounter.Update` | src/metrics.rs:302-330 | an export alone makes the exported counter the shared value |
| `Exporter.Identity` | src/metrics.rs:302-352 | for any number of concurrent exports, exported plus in flight minus `last` is the sum of all backward moves of `last` |
| `Exporter.NeverDecreases` | src/metrics.rs:329-352 | the exported counter is monotone, with and without what is in flight |
| `Exporter.CoversEverySample` | src/metrics.rs:302-330 | once quiescent it is at least every value ever swapped in |
| `Exporter.ExactWhenNoSwapGoesBack` | src/metrics.rs:318-330 | once quiescent it equals `last` if and only if no swap went backwards |
| `Exporter.SerialIsExact` | src/metrics.rs:302-330 | exports one at a time are exact and never exceed the shared counter |
| `Exporter.ConcurrentExportsOverCount` | src/metrics.rs:318-330 | two exports at once can export ten packets out of five |
| `Exporter.ExactForOneOnly` | src/metrics.rs:302-352 | every quiescent state of every interleaving has exported equal to `last` if and only if there is at most one export at a time |
| `FrontDoor.ServerCapacity` | src/tunnel_v2.rs:158-178 | with as many handlers as the permits ever let in, the V2 table stays within max_clients + W + 8 * 99 in every interleaving |
| `FrontDoor.Admission` | src/tunnel_v2.rs:158-178 | every connection that arrived is being handled, has ended or was dropped |
| `FrontDoor.DroppedExactly` | src/tunnel_v2.rs:161-171 | a connection is dropped exactly when it arrives while 100 are being handled |
| `FrontDoor.DropsConserved` | src/tunnel_v2.rs:163-170 | swapped out plus current counter plus 2^32 per wrap is the metric, plus one only between the two increments |
| `FrontDoor.NoWrapExactly` | src/tunnel_v2.rs:484 | the 32-bit counter never wraps if and only if fewer than 2^32 connections are dropped between any two heartbeats |
| `FrontDoor.DropsConservedExactly` | src/tunnel_v2.rs:163-170 | swapped out plus current counter is the metric, plus one between the increments, if and only if that is so |
| `PeerToPeer.Xor20Twice` | src/peer_to_peer.rs:162-164 | the XOR undoes itself |
| `PeerToPeer.Xor20IsBitwise` | src/peer_to_peer.rs:163 | the arithmetic XOR is the bitwise one |
| `PeerToPeer.Worker.constructor` | src/peer_to_peer.rs:88-94 | random fill with the STUN id in bytes 6 and 7 |
| `PeerToPeer.Worker.OnReceive` | src/peer_to_peer.rs:114-171 | the in-place writes and the XOR loop leave exactly the reply for this sender and keep bytes 6 to 39 |
| `PeerToPeer.Worker.ReceiveLoop` | src/peer_to_peer.rs:98-111 | the loop over any sequence of requests sends exactly the specified reply to each and leaves the specified buffer |
| `PeerToPeer.AnsweredExactly` | src/peer_to_peer.rs:101-140 | exactly the 48-byte requests from a valid address, within the rate, that start with the STUN id are answered |
| `PeerToPeer.WrittenDecodes` | src/peer_to_peer.rs:142-164 | a written buffer decodes to the sender's IPv4 address and port whatever it held before |
| `PeerToPeer.TailKept` | src/peer_to_peer.rs:142-166 | bytes 6 to 39 never change from set-up on |
| `PeerToPeer.ReplyIsForItsSender` | src/peer_to_peer.rs:114-166 | for every sequence of requests each reply carries its own sender's address, the STUN id and the initial fill |

## Left out

- In the atomic layer client records are values in the table; two workers holding one record are modelled in the interleaved layer only.
- Uniqueness of V2 ids across requests that run at the same time: `contains_key` then `insert` is not atomic, so two handlers can hand out one id; proved for atomic requests only.
- The active-client gauges in the interleaved layer: two workers can store old table sizes there.
- Forwarding in the interleaved layer: it only reads the tables.
- The maintenance flag in the interleaved layer: it only disables steps.
- `Exporter.Identity`: stated for one counter; the ten exported counters are independent copies of it. Values do not wrap.
- `PeerToPeer.WrittenDecodes`: an IPv6 sender decodes to 0.0.0.0, as the code writes it.
- Counters of rate limit hits, dropped and invalid packets, pings, HTTP and peer-to-peer requests: one increment each.
- Rate limiter internals and their resets, quality analyzer contents, traffic statistics of a client, SHA-1: library code, or arbitrary inputs here.
- Parsing of the HTTP query and maintenance path, status codes and headers: the parsed client count and whether the password matches are inputs.
- Sockets, tasks, master announces, logging, Prometheus registration and text encoding, uptime, health, shutdown, errors, and the configuration except its bounds.
