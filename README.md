# Websocket hub: pool state machine and client read loop

This project models the coordination core of a real-time websocket hub
(`websocket.go`): the connection pool that owns the set of registered
clients and fans messages out to them, and the per-client read loop that
classifies inbound messages and routes them either back to the sender or
into the pool.

- `envelope.dfy` (module `Envelope`): the `Message`/`BaseMessage`
  envelope and the envelopes the system makes up itself (login and logout
  notices, ping replies, the zero-valued `Message{}`).
- `hub.dfy` (module `Hub`): the pool. The goroutine and its three
  channels are replaced by the sequence of events the control loop
  services. Servicing one event depends on two runtime choices, and both are
  explicit parameters (`Serviced.order`, `Serviced.faulty`):
  the order in which `range` visits the membership map, and which
  connection writes fail. `Step` and `Run` give the pure semantics. The
  class `Pool` holds the membership set, the running flag and an abstract
  per-client outbox of delivered envelopes. Its methods update these
  fields in place, and each method is proved equal to `Step` or `Run`. The
  lemmas state what one register, unregister or broadcast does, that
  stopping is terminal, and that membership is the replay of the serviced
  events.
- `client.dfy` (module `ClientRead`): the read loop. Each inbound item is
  a read failure, an undecodable payload, or a decoded key/value map.
  `Respond` classifies one decoded map. `Read` runs the loop over a
  sequence of items and produces a trace of actions: a reply on the
  sender's own connection, a submission to a pool intake channel, or
  closing the connection. `ReadTrace` is the function that specifies the
  loop.

Where the system's design description and the code disagree, the model
follows the code:

- A failed write of the ping reply is ignored: the `WriteJSON` result at
  websocket.go:121 is discarded and the loop reads on. The description
  says the loop ends.
- A failed write of a login or logout notice is ignored, and the pool
  keeps running (websocket.go:161, 172). The description says any fan-out
  write fault stops the pool. Only a failed broadcast write stops it
  (websocket.go:178-180).
- A ping whose `body` is not a string makes the type assertion at
  websocket.go:119 panic. The description calls this a decode failure.
  Here it is a precondition instead (`ClientRead.Assertable`).

## Model

| member | source | states |
|---|---|---|
| `Hub.Pool.constructor` | websocket.go:140-147 | `NewPool` starts with no members, the control loop running and nothing delivered |
| `Hub.Pool.Start` | websocket.go:149-185 | servicing a schedule of events in place gives exactly the state `Run` gives; the loop stops servicing once a broadcast write fails |
| `Hub.Pool.OnRegister` | websocket.go:152-163 | the register case updates the membership map and the outbox exactly as `Step` says |
| `Hub.Pool.OnUnregister` | websocket.go:164-174 | the unregister case updates the membership map and the outbox exactly as `Step` says |
| `Hub.Pool.OnBroadcast` | websocket.go:175-182 | the broadcast loop writes to members in order, and the first failed write ends the control loop; the result is exactly `Step`'s |
| `Hub.Pool.Notify` | websocket.go:155-162 | a notice fan-out writes to every connection in the iteration order and drops write errors (`FanOut`) |
| `Hub.FirstFault` | websocket.go:177-181 | the broadcast loop's exit point: every member before it writes successfully, and the member at it is the first whose write fails |
| `Hub.FanOutEffect` | websocket.go:155-162 | over a duplicate-free iteration order, each non-failing target receives the envelope exactly once and no one else receives anything |
| `Hub.RegisterStep` | websocket.go:152-163 | register inserts `c`, leaves every other client's membership alone, and is a no-op on the set if `c` is present; every member after insertion, `c` included, gets exactly one "Login of User" notice unless its write fails; the pool stays running |
| `Hub.UnregisterStep` | websocket.go:164-174 | unregister removes `c`, and is a no-op on the set if `c` is absent; every remaining member gets exactly one "Logout of User" notice even when `c` was never registered; `c` receives nothing; the pool stays running |
| `Hub.BroadcastStep` | websocket.go:175-182 | broadcast never changes membership; members before the first failing write get `m` once, and the failing member and everyone after it get nothing; the pool keeps running iff no member's write fails |
| `Hub.BroadcastReachesAll` | websocket.go:175-182 | with no failing connection, every member receives the broadcast exactly once and the pool keeps running |
| `Hub.OnlyBroadcastStops` | websocket.go:150-184 | the only step that can take a running pool to stopped is a broadcast whose iteration order meets a failing member |
| `Hub.StoppedIsTerminal` | websocket.go:178-181 | once the loop has returned, no later event changes membership, outbox or state |
| `Hub.ReplayMembership` | websocket.go:150-174 | while the pool is running, its membership equals the replay of the serviced events: register adds, unregister removes if present |
| `Hub.NoticeSeenBy` | websocket.go:152-173 | with no write failures, a client gets one login or logout notice from a register or unregister step exactly when it is a member afterwards |
| `Hub.ThreeJoin` | websocket.go:152-163 | A, B and C join in that order with no failing connection, for any iteration orders: A has seen three logins, B two and C one |
| `Hub.ThreeClients` | websocket.go:152-173 | A, B and C join, then B leaves, for any iteration orders: A sees three logins and a logout, B two logins, C one login and a logout |
| `ClientRead.FirstStop` | websocket.go:97-109 | the loop's exit point: every earlier item decoded, and the item at it is a read or decode failure |
| `ClientRead.Respond` | websocket.go:111-125 | a reply happens iff `action` is the string "ping"; the reply has type 0, action "ping" and echoes `body`; anything else submits exactly the empty envelope for broadcast; classification never closes |
| `ClientRead.Read` | websocket.go:91-131 | the loop produces exactly `ReadTrace`, and makes one read per item up to and including the first failure and no read after it |
| `ClientRead.ReadTraceShape` | websocket.go:92-130 | one response per message before the first failure; after a failure comes exactly the unregister submission, then the close, then nothing; without a failure there is no cleanup |
| `ClientRead.CleanupOnce` | websocket.go:92-95 | an exiting loop submits exactly one unregister for itself and closes exactly once; a loop that has not exited does neither |
| `ClientRead.PingEchoes` | websocket.go:111-121 | a ping is answered with `{type 0, action "ping", body echoed}` on the sender's own connection, and nothing is submitted to the pool |
| `ClientRead.ForwardIgnoresContent` | websocket.go:122-125 | any two non-ping messages produce the same submission, the empty envelope: no field of the input is forwarded |

## Left out

- `upgrader` and `Upgrade` (websocket.go:14-27): the handshake belongs to the websocket library.
- `Reader` and `Writer` (websocket.go:29-68): raw echo and copy loops with no logic beyond I/O.
- `PingReturnMessage` (websocket.go:86-89): declared and never used.
- Goroutines, the three unbuffered channels and `select`'s choice among ready channels: replaced by the sequence of serviced events.
- JSON encoding and decoding: the decoded input is a map from key to `JsonValue`, and a decode failure is the separate case `Undecodable`. A JSON `null` decodes to a nil map, and the loop reads that like an empty map, so it is `Decoded(map[])`.
- The panic of `result["body"].(string)` (websocket.go:119): modelled as the precondition `Assertable` on the items the loop reaches, not as a crash.
- `time.Sleep` (websocket.go:113) and all `fmt`/`log` output: timing and logging have no stateable effect.
- The `ID`, `Conn` and `Pool` fields of `Client`: a client is identified by `ClientRef` (pointer identity), and its connection is the outbox entry or action trace.
- ClientRead.Read: treats every send on a pool channel as completing. If the pool has stopped, the real loop blocks forever at that send.
- Hub.Pool.Start: services a finite schedule and then returns. The real loop waits forever for the next event.
- The outbox records only successful writes. What a failed `WriteJSON` leaves on the wire is not modelled.
