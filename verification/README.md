# A verified model of ser2tcp

ser2tcp is one event loop that shares serial ports among many clients: raw
TCP, Telnet, a private control protocol and WebSockets on one side, a device
on the other. This project models its stateful core and proves what that core
is for.

The objects of the program are classes here, with its fields, its lists and
its loops, and each method is proved against a specification of the whole new
state. Ghost fields hold the history an invariant needs: every byte accepted
for a client, every frame a WebSocket client was sent, every byte the device
took. What lies outside the core is an argument of the method that meets it:
how many bytes a socket or the device takes, whether the system accepts a
registration, whether a device is there to be opened, what its lines read,
which servers can be built, which clients' sockets fail, and the time.

| file | what it models |
|---|---|
| `Ports.dfy` | a port and its servers: who holds the device, both limits, greetings and notices, signal reports, and the reconciliation of the running servers with a new configuration |
| `Matching.dfy` | the matching of old and new configuration entries by key |
| `Mail.dfy`, `SignalDeltas.dfy` | what a WebSocket client makes of the frames it got |
| `Pausing.dfy` | backpressure on WebSocket clients |
| `WriteQueue.dfy` | the bounded queue to the device, hysteresis, stalls, monitors |
| `Connection.dfy`, `Server.dfy` | the buffered client connection, the selector, and the server that serves its clients |
| `Telnet.dfy`, `Control.dfy` | the two byte-stream protocols |
| `Monitor.dfy` | slots that tell a watcher which client wrote what |
| `Status.dfy` | the status stream as deltas, and the page that folds them |
| `Sessions.dfy` | accounts, tokens and sessions |
| `ConfigIds.dfy`, `Moves.dfy` | ids derived from names, and the order of entries |
| `Bytes.dfy`, `Lists.dfy`, `Wrappers.dfy` | byte strings, sequences without repetition, and `Option` |

## Where the code does less than it seems to

The code is modelled as it is. For each of these the member named states when
it happens, and where a second one is named it is a case in which it does.

- A Telnet connection sends its opening negotiation through its own escaping
  `send`, so a client reads it as six data bytes and no command
  (`Telnet.NegotiationArrivesAsData`).
- Within one chunk, control commands run before data that precedes them. The
  two projections do not depend on the chunking; their interleaving survives
  exactly when every chunk has its commands first
  (`Control.InterleavingKept`, `Control.CommandOvertakesData`).
- Attaching a connection arms reading only, so its mask is the wanted one
  just when nothing is buffered or the server is paused
  (`Servers.Server.AddConnection`).
- A client that closed itself leaves its entry behind in the dispatch table
  when it is removed (`Servers.Server.RemoveConnection`).
- A WebSocket client that joins after the baseline was set is right about a
  line exactly when its greeting agreed with the baseline there, or the line
  has moved, or the device has gone or come back, since
  (`SignalDeltas.JoinerView`, `SignalDeltas.StaleJoiner`).
- A WebSocket client that lets go of a paused port stays unread when the port
  resumes, and even when it attaches again
  (`Pausing.HeldExactly`, `Pausing.StillHeld`). An endpoint built while the
  port is paused is not paused (`Pausing.PausingPort.Build`).
- A reconciliation that raises may leave the device open with nobody on it. It
  does exactly when the device was open, every server that held it is removed,
  none of the removed from the last of these on is an endpoint, and no endpoint
  had been built when the build failed; the removed are closed key by key, in
  the order their keys were first seen (`Ports.SerialProxy.ReconcileServers`
  by `Ports.Orphans`; `Ports.OrphanedDevice`). Every other invariant holds
  there, and every event keeps them from there on.
- A walk that reports departures to a monitor's watchers raises exactly when
  all of these fail and two or more clients have left: the loss of the last
  watcher clears the slots the walk still goes by
  (`Monitor.ServerMonitor.RefreshPeers`, `Monitor.BrokenWalk`).
- A single-port status stream forgets what it sent when its reader's admin
  flag turns. If the port goes in the same round, the page keeps showing it
  (`Status.FilterEntry.BroadcastToEntry`, `Status.ForgottenRemoval`).
- `add_token` takes a first token without admin rights, against the comment
  at ser2tcp/http_auth.py:22-26. Of all requests made where there are no
  accounts it is the only one that leaves some and nobody in charge
  (`Sessions.FirstAccount`); a configuration can also begin that way.

## Model

| member | source | states |
|---|---|---|
| Ports.SerialProxy.ReconcileServers | ser2tcp/serial_proxy.py:274-330 | the running servers come to match the new configuration entry by entry: entries keep servers of their own key, the others get a fresh one that is open for clients, only the unmatched are closed, and it answers "same" exactly when the two sequences of keys are equal; if a build raises, everything stands at its old index again; a kept server hears nothing unless the device closes; whether the device stays open, who holds it then, and whether it is left open for nobody, all follow from the state and the two configurations before the call; either way each server stays paired with its entry |
| Ports.OrphanedDevice | ser2tcp/serial_proxy.py:307-323 | one socket client, and a new entry whose server cannot be built: the device stays open and nobody holds it |
| Ports.SerialProxy.Rebuild | ser2tcp/serial_proxy.py:307-330 | for any failure point, either the new arrangement or the old one is in force, exactly the removed servers were closed, and the device is open exactly under `StaysOpen` |
| Ports.SerialProxy.BuildMissing | ser2tcp/serial_proxy.py:314-323 | it succeeds iff every missing server can be built, and builds one for each missing entry, in order |
| Ports.SerialProxy.CloseRemoved | ser2tcp/serial_proxy.py:307-313 | the removed lose their clients and are closed; nobody on another server is touched, or told anything but that the device has gone; the device stays open iff it was and each endpoint closed left somebody holding it |
| Ports.SerialProxy.RestoreServers | ser2tcp/serial_proxy.py:332-347 | every kept server is the same object at its old index; a removed one is rebuilt from its own old entry, or left closed in place when that fails too |
| Ports.SerialProxy.Scrap | ser2tcp/serial_proxy.py:319-323 | everything built before the failure is closed, no running server loses a client, and the device closes iff nobody holds it and one of those built was an endpoint |
| Ports.SerialProxy.Install | ser2tcp/serial_proxy.py:324-327 | kept and fresh servers take their new places, no server twice, and the limit still holds |
| Ports.SerialProxy.Reorder | ser2tcp/serial_proxy.py:301-305 | with nothing to build or close only the order changes, the device and its holders stay as they are, and "same" is answered iff the order does not change |
| Ports.SerialProxy.Plan | ser2tcp/serial_proxy.py:286-301 | the matching uses each running server at most once, for an entry of its own key, and leaves over exactly the others, in the order they are to be closed |
| Ports.SerialProxy.NowPaired | ser2tcp/serial_proxy.py:274-285 | after a success server i was built from a configuration with the key of new entry i |
| Ports.SerialProxy.StillPaired | ser2tcp/serial_proxy.py:332-347 | after a rollback server i is still paired with old entry i |
| Matching.Match | ser2tcp/serial_proxy.py:290-299 | the dictionary loop computes the keeper of every entry, and what remains is exactly the servers nobody took, each once: of two, the one whose key comes first in the old configuration goes first, and of one key the one that ran first |
| Matching.LeftoverExactly | ser2tcp/serial_proxy.py:299 | a server is in the list of those to close iff no new entry keeps it |
| Matching.LeftoversOnce | ser2tcp/serial_proxy.py:299 | nothing is in that list twice |
| Matching.LeftoversInOrder | ser2tcp/serial_proxy.py:286-299 | so is the list in that order: by the first place of the key, then by place |
| Ports.RemovedInOrder | ser2tcp/serial_proxy.py:286-299 | the same for the entries of two configurations |
| Ports.EndpointsLeaveIs | ser2tcp/serial_proxy.py:312-313 | closing in that order leaves the device open as long as after each endpoint some holder has yet to go |
| Matching.KeeperInjective | ser2tcp/serial_proxy.py:290-298 | no server is taken over twice, and none by an entry with another key |
| Matching.KeeperKeepsOrder | ser2tcp/serial_proxy.py:290-298 | entries that share a key take their servers in the order they ran |
| Matching.MinimalChange | ser2tcp/serial_proxy.py:290-299 | for every key exactly min(old count, new count) servers survive |
| Matching.IdentityMatch | ser2tcp/serial_proxy.py:301-303 | the match is the identity iff the two key sequences are the same |
| Matching.TakenByRank | ser2tcp/serial_proxy.py:290-299 | a server is kept iff enough new entries ask for its key |
| Ports.SerialProxy.constructor | ser2tcp/serial_proxy.py:231-249 | a new port is closed, has no servers and meets every invariant |
| Ports.SerialProxy.Start | ser2tcp/serial_proxy.py:251-261 | a port starts with one server for each entry iff all can be built, paired with the configuration; otherwise those built are closed again |
| Ports.SerialProxy.Connect | ser2tcp/serial_proxy.py:564-584 | the device is open afterwards iff it was or could be opened; if it was opened everybody is told once and every endpoint is in step, and if not nothing changes |
| Ports.SerialProxy.AnnounceSerial | ser2tcp/serial_proxy.py:586-603 | every server hears of a transition once and by the frame for it, a socket server loses its clients to a loss, and a repeated announcement changes nothing |
| Ports.SerialProxy.CloseDevice | ser2tcp/serial_proxy.py:646-672 | the device is closed and every endpoint has told its clients, who are in step with no lines at all; only socket clients are dropped, so the limit holds |
| Ports.SerialProxy.Disconnect | ser2tcp/serial_proxy.py:641-644 | the device stays open iff it was and somebody still holds it; nobody is dropped, and nobody hears anything if it stays |
| Ports.SerialProxy.SerialFailed | ser2tcp/serial_proxy.py:736-744 | after a device failure the port is closed and everybody told, socket clients are gone and WebSocket clients still wait |
| Ports.SerialProxy.Reopen | ser2tcp/serial_proxy.py:746-758 | a closed port is opened iff somebody waits for it, two seconds have passed since the last try, and the device is there; a return is told to everybody, with all lines |
| Ports.SerialProxy.BroadcastSignals | ser2tcp/serial_proxy.py:846-853 | every control endpoint tells the difference to its clients and takes the reading as its baseline, and who was in step is in step |
| Ports.SerialProxy.Close | ser2tcp/serial_proxy.py:674-679 | every server is closed without clients, and the device with them |
| Ports.PortServer.Attach | ser2tcp/server_websocket.py:160-185 | only a stranger or the port limit is refused; the device is opened if it is there, its absence is no refusal; who was in step is in step, nobody else's clients change, and all they hear is that the device is there |
| Ports.PortServer.Detach | ser2tcp/server_websocket.py:187-198 | the client's claim goes and nothing else of it; the device stays open iff it was and, if there was a claim, somebody else holds one; who was in step is in step |
| Ports.PortServer.AddConnection | ser2tcp/server_websocket.py:200-223 | a client is accepted iff both limits allow it; the first and only frame in its mail is then a greeting with the state of the device, and it is in step iff there was no baseline or the greeting equals it; a refused one leaves no trace |
| Ports.PortServer.RemoveConnection | ser2tcp/server_websocket.py:278-293 | a client goes with its claim, a detached one releases nothing it had given up, and the device stays open iff it was and, if there was a claim, somebody else holds one; the others hear of the device only, and the baseline goes with the last client |
| Ports.PortServer.RequestAttach | ser2tcp/server_websocket.py:338-354 | the client is attached iff it wanted to be and was or could be, and is told the state that resulted; attaching opens the device if it is there, letting go closes it iff nobody else holds it |
| Ports.PortServer.Send | ser2tcp/server_websocket.py:408-416 | device data reaches every attached client once, after all it was sent before; the ones whose sockets fail are removed, no one else is touched, and the device stays open iff nobody was removed or somebody still holds it |
| Ports.PortServer.ProcessStale | ser2tcp/server_websocket.py:402-406 | exactly the dead clients go, with their claims, and the device stays open iff no claim went or somebody still holds it |
| Ports.PortServer.OnSerialLost | ser2tcp/server_websocket.py:426-441 | every greeted client is sent that the device is gone, which empties its view and puts all of them in step; a socket server loses its clients |
| Ports.PortServer.OnSerialFound | ser2tcp/server_websocket.py:443-455 | every greeted client is sent that the device is back, with the whole reading of the lines its configuration names; that is the baseline from then on and all of them are in step |
| Ports.PortServer.SendSignalReport | ser2tcp/server_websocket.py:464-482 | the difference is sent and the reading of the configured lines becomes the baseline; in step are those who were, and everybody if there was no baseline; without the control role nothing happens |
| Ports.PortServer.BroadcastChanges | ser2tcp/server_websocket.py:464-482 | every greeted client is sent exactly the lines that moved, or nothing if none did, and whoever was in step, or all if there was no baseline, hold the whole reading |
| Ports.PortServer.Heard | ser2tcp/server_websocket.py:426-482 | after a loss, a return or a report everybody knows how things stand, and everybody is in step who was or who was sent the whole reading |
| Ports.ConfiguredLines | ser2tcp/server_websocket.py:54-61 | a line is shown iff the endpoint has the control role, its configuration names it, and it is one of the six; and as its own bit says |
| Ports.PortServer.constructor | ser2tcp/server_websocket.py:50-81 | a new endpoint has no clients, is not closed, and shows the lines of its configuration |
| Ports.PortServer.SendHello | ser2tcp/server_websocket.py:509-538 | the greeting says what is the case, with the lines the configuration names and their bits; the client is in step iff there was no baseline or the greeting equals it, and no baseline that was there moves |
| Ports.PortServer.Broadcast | ser2tcp/server_websocket.py:569-580 | one frame to exactly the greeted |
| Ports.PortServer.Close | ser2tcp/server_websocket.py:484-507 | a closed server has no clients and no claims; an endpoint lets go of the device, which stays open iff others hold it, and other servers keep their clients |
| Ports.PortServer.Accept | ser2tcp/server.py:258-317 | a socket client is kept iff both limits allow it and the device is or can be opened, and the device is opened for no other |
| Ports.PortServer.AcceptPending | ser2tcp/server.py:274-313 | a TLS client counts against both limits before its handshake is over |
| Ports.PortServer.Handshake | ser2tcp/server.py:339-356 | a failed handshake, or a device that cannot be opened, removes the client, whose claim goes with it; the device is then open iff it was and somebody holds it |
| Ports.PortServer.RemoveSocket | ser2tcp/server.py:490-497 | the last socket client to go lets go of the port, which stays open iff somebody else holds it; otherwise the device stays as it is |
| Ports.SumOfDistinct | ser2tcp/serial_proxy.py:626-639 | servers picked at most once never hold more clients together than all of them, which is why a rearrangement cannot break the port limit |
| Ports.GrownByOne | ser2tcp/serial_proxy.py:626-639 | one client more on one server adds at most one to the port's total |
| Ports.SerialProxy.TotalCounts | ser2tcp/serial_proxy.py:626-633 | the total that the limit is held against counts every client that holds the device, on any server, once |
| Mail.ProperMail | ser2tcp/server_websocket.py:509-538 | a client's mail starts with its only greeting, and lost and found strictly alternate in it |
| Mail.Snoc | ser2tcp/server_websocket.py:569-580 | what a client was told and sees changes by one frame as the page applies it, and the mail stays proper while notices are news |
| SignalDeltas.FollowsExactly | ser2tcp/server_websocket.py:426-482 | over any run of losses, returns and reports a client that starts in step holds the whole of the last reading, or no lines where the device is gone |
| SignalDeltas.TurnInStep | ser2tcp/server_websocket.py:464-482 | the difference against the baseline completes the view of a client in step |
| SignalDeltas.TurnRights | ser2tcp/server_websocket.py:464-482 | what one loss, return or report does to a client that may be wrong about a line |
| SignalDeltas.JoinerView | ser2tcp/server_websocket.py:426-538 | any client after any such run, whatever it was greeted with: it is right about a line iff it was to begin with, or the line moved or the device went or came back since |
| SignalDeltas.StaleJoiner | ser2tcp/server_websocket.py:464-538 | a line that returned to the baseline leaves a joiner with the wrong state |
| Pausing.HeldExactly | ser2tcp/server_websocket.py:225-260 | over any run a client is unread iff it is attached to a paused port, or let go of one and nothing has put it right since |
| Pausing.StrandedStep | ser2tcp/server_websocket.py:160-198 | which events strand a client and which put it right |
| Pausing.StillHeld | ser2tcp/server_websocket.py:182-198 | a client stays unread after the port resumed and after attaching again |
| Pausing.Endpoint.SetReadPaused | ser2tcp/server_websocket.py:225-244 | exactly the attached are paused or resumed, and only when the state turns |
| Pausing.Endpoint.Attach | ser2tcp/server_websocket.py:178-185 | a client that joins a paused endpoint is held back like the others |
| Pausing.PausingPort.SetReadPaused | ser2tcp/serial_proxy.py:1048-1055 | every server is put into the port's state |
| Pausing.PausingPort.Build | ser2tcp/server_websocket.py:80-81 | a server built on a paused port is in no way paused |
| WriteQueue.SerialOutput.Send | ser2tcp/serial_proxy.py:918-940 | what fits is accepted, shown to every monitor and queued behind the rest; taken followed by queued stays equal to accepted, within 1 MiB |
| WriteQueue.SerialOutput.FlushSerial | ser2tcp/serial_proxy.py:952-970 | a prefix of the queue leaves in order, or the device is given up; a pause that draining ends has seen at least 49153 bytes taken |
| WriteQueue.SerialOutput.UpdateBackpressure | ser2tcp/serial_proxy.py:1032-1046 | paused implies more than 16 KiB queued, unpaused at most 64 KiB, with the distance between a pause and its resume |
| WriteQueue.SerialOutput.CloseDevice | ser2tcp/serial_proxy.py:660-668 | what is queued for a device that is gone is dropped and clients are resumed |
| WriteQueue.SerialOutput.NotifyMonitors | ser2tcp/serial_proxy.py:1067-1073 | each registered monitor sees the data once |
| WriteQueue.SerialOutput.AddMonitor | ser2tcp/serial_proxy.py:1057-1060 | a monitor registers once, and sees exactly what is accepted from then on |
| WriteQueue.SerialOutput.RemoveMonitor | ser2tcp/serial_proxy.py:1062-1065 | only that monitor goes |
| Connections.Connection.Send | ser2tcp/connection.py:214-240 | all of the data is queued or none; going over the limit closes the connection and its selector entry |
| Connections.Connection.Flush | ser2tcp/connection.py:256-283 | what the socket takes is a prefix of the queue, so wire followed by queue stays equal to what was accepted |
| Connections.Connection.UpdateInterest | ser2tcp/connection.py:146-170 | afterwards the selector watches the socket iff it wants something, for exactly that, and never a closed one |
| Connections.Connection.SetReadPaused | ser2tcp/connection.py:118-132 | the mask follows the pause; other sockets keep theirs |
| Connections.Connection.Attach | ser2tcp/connection.py:91-103 | the socket is watched for reading, whatever is already buffered |
| Connections.Connection.Close | ser2tcp/connection.py:194-200 | no selector entry outlives the socket |
| Servers.Server.Send | ser2tcp/server.py:584-590 | every client gets the data once or is closed by its limit, and is watched for what it then wants; an endpoint that may not read the port sends nothing |
| Servers.Server.SendSignalReport | ser2tcp/server.py:592-598 | every client of a control server gets the report once or is closed by its limit, and is watched for what it then wants; any other server sends nothing |
| Servers.Server.SetReadPaused | ser2tcp/server.py:319-328 | every client follows and every mask agrees, with no byte queued or sent |
| Servers.Server.AddConnection | ser2tcp/server.py:330-337 | a newcomer is tracked and watched; its mask is the wanted one iff nothing is buffered or the server is paused |
| Servers.Server.RemoveConnection | ser2tcp/server.py:490-497 | the client is closed and gone, the port is released iff it was the last, and its dispatch entry stays iff it had closed itself |
| Servers.Server.Read | ser2tcp/server.py:527-562 | every reply and report the batches call for is queued in order; where the selector takes every mask, a client stays open iff it was and its buffer had room for all of them; a hangup or an error removes the client, a batch that takes the port down removes everyone, and a client closed by its own batch stays to be reaped; the port is released iff the last client went by hanging up |
| Servers.Server.EndsAt | ser2tcp/server.py:527-562 | the first step that is not one of many decides: a hangup or an error takes the client, a failing device everybody, anything else nobody |
| Servers.Server.Flush | ser2tcp/server.py:564-571 | a broken socket drops the client, and only that; otherwise its mask agrees again |
| Servers.Server.ProcessStale | ser2tcp/server.py:573-582 | exactly the closed go and those whose bytes have waited longer than the send timeout, the others are untouched, and the port is released iff that leaves nobody |
| Servers.Server.CloseConnections | ser2tcp/server.py:437-442 | everyone is closed and nobody is left in the selector |
| Telnet.ConnectionTelnet.OnReceived | ser2tcp/connection_telnet.py:99-124 | the bulk scanner ends in the state of a one-byte automaton with the same log: device bytes, commands and frames, in order |
| Telnet.ConnectionTelnet.SendData | ser2tcp/connection_telnet.py:64-68 | a scanned segment does what its bytes one by one would |
| Telnet.ConnectionTelnet.ProcessIac | ser2tcp/connection_telnet.py:70-97 | the byte after an IAC does what the automaton does with it |
| Telnet.ConnectionTelnet.Send | ser2tcp/connection_telnet.py:48-50 | the escaped data is queued whole or the client is closed |
| Telnet.ConnectionTelnet.constructor | ser2tcp/connection_telnet.py:34-46 | at rest, with the escaped negotiation as the first bytes accepted |
| Telnet.Feed | ser2tcp/connection_telnet.py:70-124 | in state SB a frame is always live, and a pending IAC implies no state or SB |
| Telnet.ChunkingInvisible | ser2tcp/connection_telnet.py:99-124 | where a stream is cut changes neither the state nor the log |
| Telnet.SegmentIsRun | ser2tcp/connection_telnet.py:64-68 | handing over a segment without IAC is the run of its bytes |
| Telnet.EscapedIsData | ser2tcp/connection_telnet.py:48-50 | escaped data is exactly data, at rest or inside an open frame, and leaves the receiver as it was |
| Telnet.AfterIac | ser2tcp/connection_telnet.py:70-97 | what every byte after an IAC does, by its value in RFC 854: four commands take a value, FA and F0 open and close a frame, FF is itself, and all others are passed over without any effect on state, frame or device |
| Telnet.StreamRoundTrip | ser2tcp/connection_telnet.py:48-124 | any stream of text, negotiations and frames, cut anywhere, is decoded to what was meant |
| Telnet.NegotiationArrivesAsData | ser2tcp/connection_telnet.py:41-50 | the eight bytes a client is opened with decode as six bytes of data and as no command |
| Control.ControlConnection.OnReceived | ser2tcp/connection_control.py:117-137 | one chunk does what the per-byte automaton does, commands first; every reading asked for and every line set and read back is answered with its masked report, in order of the commands; a client that may not write gives the device nothing |
| Control.ControlConnection.ProcessControlCmd | ser2tcp/connection_control.py:139-162 | a command byte has the automaton's effect on data and commands, and queues the report the command brings, if the device obeyed it |
| Control.AfterEscape | ser2tcp/connection_control.py:139-158 | what 00, 01, 10, 11 and C0 do after an escape: the two lines go low and high if granted, and C0 always asks |
| Control.NoCommandByte | ser2tcp/connection_control.py:139-162 | an escaped FF is itself, any other escaped byte nothing, and a byte without escape is data |
| Control.WishesRoundTrip | ser2tcp/connection_control.py:139-158 | any list of actions sent as commands is carried out in order, less those not granted |
| Control.ReportWhen | ser2tcp/serial_proxy.py:786-822 | a report answers every request, and a line that was set if the device took it |
| Control.ReportBytes | ser2tcp/connection_control.py:106-115 | a report is FF and a byte from 80 to BF |
| Control.ControlConnection.SendOut | ser2tcp/connection_control.py:100-115 | the client's accepted stream stays a concatenation of whole frames, across partial writes and an overflow |
| Control.ControlConnection.Send | ser2tcp/connection_control.py:100-104 | data is one escaped frame; an endpoint that may not read the port sends none and reports no failure |
| Control.ControlConnection.SendSignalReport | ser2tcp/connection_control.py:106-115 | a report carries exactly the configured lines of the bitmask |
| Control.ControlConnection.ClientView | ser2tcp/connection_control.py:100-115 | what a client has been handed so far decodes to a prefix of the frames accepted for it, and to all of them once the buffer is empty |
| Control.OutputRoundTrip | ser2tcp/connection_control.py:100-115 | any interleaving of data and reports is recovered exactly, in order |
| Control.PartialOutput | ser2tcp/connection.py:256-283 | whatever part has left decodes to a prefix |
| Control.ProjectionsChunkInvariant | ser2tcp/connection_control.py:117-137 | the data and the commands, each taken alone, do not depend on the chunking |
| Control.InterleavingKept | ser2tcp/connection_control.py:121-137 | their order is the stream's iff every chunk has its commands first |
| Control.CommandOvertakesData | ser2tcp/connection_control.py:121-137 | one chunk raises RTS before the byte sent ahead of it, two chunks do not |
| Control.InputRoundTrip | ser2tcp/connection_control.py:117-145 | escaped data arrives as it was and commands nothing |
| Control.ReadOnlyStillCommands | ser2tcp/connection.py:73-82 | without the right to write no byte reaches the device, and every command still runs |
| Control.NothingGetsThrough | ser2tcp/server.py:295-299 | no chunk, however escaped, adds a byte to what the device was given by a client that may not write |
| Signals.SignalsDict | ser2tcp/connection_control.py:53-65 | the named lines of a bitmask, and no unknown name |
| Signals.Masked | ser2tcp/connection_control.py:106-115 | a bit survives the filter iff its line is configured and it was set |
| Monitor.ServerMonitor.OnData | ser2tcp/server_monitor.py:81-90 | every watcher whose socket works stays and is sent, after the news if the writer was not known, the traffic tagged by who wrote it, and nothing else; the others go; every mail stays attributed: a tag below 255 names, in the last list that watcher was sent, exactly the writer |
| Monitor.ServerMonitor.RefreshPeers | ser2tcp/server_monitor.py:177-212 | it raises iff there were watchers, all of them fail and two or more clients left; a watcher goes iff somebody came or left and its socket fails, and any other is sent one farewell for each that left, then one welcome for each newcomer in the order met, and nothing else; who stayed kept their slots |
| Monitor.BrokenWalk | ser2tcp/server_monitor.py:192-203 | a walk that raises: one watcher whose socket fails, and two clients that left together |
| Monitor.ServerMonitor.ReportDepartures | ser2tcp/server_monitor.py:192-203 | every watcher that can be reached is sent one farewell for each client gone, with the slot it had and the list of those here, and the others go; the walk breaks off iff its first report costs the last watcher and there is a second to make |
| Monitor.ServerMonitor.ReportArrivals | ser2tcp/server_monitor.py:204-212 | everyone new gets the least free slot, and every watcher that can be reached is sent one welcome for each, in the order met, before any traffic can carry the slot |
| Monitor.AnnouncedAt | ser2tcp/server_monitor.py:192-212 | in any mail, who is announced as come is on the list sent with it and had no slot on the list before, and who is announced as gone was on a list before and is not on the one sent |
| Monitor.WelcomedInTurn | ser2tcp/server_monitor.py:204-212 | each newcomer has exactly one welcome, at its turn, with the least slot free then |
| Monitor.SaidWhenStirred | ser2tcp/server_monitor.py:192-212 | a walk says something iff somebody came or left |
| Monitor.ServerMonitor.FreeSlot | ser2tcp/server_monitor.py:249-255 | the least slot in 1..254 nobody has, or 255 |
| Monitor.ServerMonitor.AddConnection | ser2tcp/server_monitor.py:51-66 | a watcher is added iff the walk before it did not raise and its own socket works, and its first frame is a list that agrees with the slots; the others are sent just the news, and one goes iff there is some and its socket fails |
| Monitor.ServerMonitor.RemoveConnection | ser2tcp/server_monitor.py:68-76 | the last watcher to go unregisters the monitor and clears the slots, any other changes nothing |
| Monitor.ServerMonitor.ProcessStale | ser2tcp/server_monitor.py:138-149 | exactly the dead watchers go, and those that fail if there is something to tell; the others are sent just the news, and the slots follow who is present; it raises iff the walk for those left does |
| Monitor.ServerMonitor.Broadcast | ser2tcp/server_monitor.py:348-354 | every watcher gets the frame, and exactly the failing are dropped |
| Monitor.Free | ser2tcp/server_monitor.py:249-255 | nothing below the slot given is free, and it is taken by no one if it names anyone |
| Monitor.OverflowOnlyWhenFull | ser2tcp/server_monitor.py:249-255 | 255 is given iff all 254 slots are taken |
| Monitor.AssignKeeps | ser2tcp/server_monitor.py:204-212 | slots stay unshared, and who had one keeps it |
| Monitor.NewcomerSlot | ser2tcp/server_monitor.py:204-212 | a newcomer's slot is the least free after those met before it |
| Monitor.TagNames | ser2tcp/server_monitor.py:81-90 | a tag taken from the slots is named by any list that agrees with them |
| Monitor.AttributedAt | ser2tcp/server_monitor.py:304-319 | in attributed mail every frame is named by the list before it |
| Status.StreamEntry.BroadcastToEntry | ser2tcp/http_server.py:1079-1164 | after any round that reached the client, its page shows the current ports, devices and admin flag, over any run of additions, removals, new orders and changes of account: exactly where no null has been about, and up to nulls otherwise |
| Status.StreamEntry.BroadcastAll | ser2tcp/http_server.py:1122-1164 | the lines sent are the deltas and the devices that changed where ports can be told by id, one snapshot where not, and a heartbeat iff there is nothing to say and 30 seconds have passed; the page is the same either way: the very list of ports where neither it nor the page has a null |
| Status.StreamEntry.SendDeltas | ser2tcp/http_server.py:1137-1151 | exactly one delta for each port that changed, in order, which leaves the page showing all of them |
| Status.Addressable | ser2tcp/http_server.py:1106-1120 | ports can be told by id iff each stands where it stood under an id that is there and no other has |
| Status.TruthyIs | ser2tcp/http_server.py:1116-1119 | an id counts as there unless it is null, false, empty or zero |
| Status.DifferencesAre | ser2tcp/http_server.py:1143-1149 | a delta names just the fields that moved, with what is there now |
| Status.NothingToSay | ser2tcp/http_server.py:1122-1158 | nothing but a heartbeat is sent iff ports and devices are as they were |
| Status.StreamEntry.StillAuthorised | ser2tcp/http_server.py:1079-1104 | a stream ends with its account, and a turned admin flag forces a snapshot |
| Status.FilterEntry.BroadcastFilter | ser2tcp/http_server.py:1165-1201 | which line is sent, or a heartbeat; the page shows the port iff no removal was forgotten, and where no null has been about it holds that very port |
| Status.FilterEntry.BroadcastToEntry | ser2tcp/http_server.py:1079-1201 | a removal is forgotten iff the port was last seen, is gone, and the admin flag turned in the same round, and stays so until the port is back; otherwise the page shows the port, exactly where no null has been about |
| Status.ForgottenRemoval | ser2tcp/http_server.py:1165-1201 | such a page keeps showing a port that is gone |
| Status.FilterLineKeepsNoNulls | ser2tcp/http_server.py:965-969 | of the lines of a single-port stream only a snapshot can bring a null into the page |
| Status.ShowsPortExactly | ser2tcp/http_server.py:965-969 | a page that agrees with the port up to nulls, neither having any, holds that port |
| Status.DeltaKeepsMeaning | ser2tcp/html/app.js:980-1025 | a page right about a port up to nulls is right again after its delta |
| Status.ExactWithoutNulls | ser2tcp/html/app.js:980-1025 | where no field is null the page holds the very port |
| Status.ShowsExactly | ser2tcp/html/app.js:980-1025 | a page that agrees with ports up to nulls, neither having any, has those ports |
| Status.LineKeepsNoNulls | ser2tcp/html/app.js:980-1025 | only a snapshot can bring a null into the page |
| Status.DeltaStep | ser2tcp/html/app.js:980-1025 | a delta corrects the one port it is addressed to, given that ids are distinct |
| Status.SameLookups | ser2tcp/html/app.js:980-1025 | agreeing up to nulls is agreeing on every lookup |
| Sessions.PollingInvisible | ser2tcp/http_auth.py:261-281 | over any run with a clock that does not run back, taking every `session_state` and `cleanup` out changes no answer |
| Sessions.GrantsExactly | ser2tcp/http_auth.py:233-281 | a live session grants its owner's login and the rights the account has now, an API token its own, and a lapsed session, an unknown token or a session without an account nothing |
| Sessions.RightsAtOnce | ser2tcp/http_auth.py:176-182 | from the moment rights are given or taken, every live session of that user is answered with them, over any run until they are turned again |
| Sessions.NothingOpened | ser2tcp/http_auth.py:154-187 | a wrong password or an unknown login opens nothing |
| Sessions.LastsFor | ser2tcp/http_auth.py:176-221 | a session lasts as its user's own timeout says, else the configured one, else 3600 seconds |
| Sessions.Renewed | ser2tcp/http_auth.py:250-259 | a use starts that anew, for that session alone |
| Sessions.CleanedUp | ser2tcp/http_auth.py:442-449 | a cleanup takes exactly the sessions whose time is past |
| Sessions.SmallRequests | ser2tcp/http_auth.py:229-231 | what logging out, setting the default timeout, asking and adding a token leave behind |
| Sessions.RunKeepsAdmin | ser2tcp/http_auth.py:289-429 | once there is an admin, any run keeps one until a delete with `disable_auth` empties the accounts |
| Sessions.StepKeepsAdmin | ser2tcp/http_auth.py:319-429 | one request leaves an admin, or was the delete that turned authentication off |
| Sessions.FirstAccount | ser2tcp/http_auth.py:289-302 | from nothing, everything but a token without admin rights leaves somebody in charge |
| Sessions.AdminMeans | ser2tcp/http_auth.py:340-346 | there is an admin iff some user or some token is one |
| Sessions.UserRefusals | ser2tcp/http_auth.py:319-377 | a change or a deletion of a user is refused just for an unknown login, for the only admin there is while anything else would remain, and without the confirmation for the only account |
| Sessions.TokenRefusals | ser2tcp/http_auth.py:390-429 | the same for tokens, and a name another token has |
| Sessions.RefusedUnchanged | ser2tcp/http_auth.py:319-429 | a refused request changes neither users nor tokens nor sessions |
| Sessions.RunKeepsOwned | ser2tcp/http_auth.py:176-192 | in every run each session belongs to a user there is |
| Sessions.NoneSurvives | ser2tcp/http_auth.py:319-377 | a changed password or a deletion ends every session of that user, and no other |
| Sessions.UserChanged | ser2tcp/http_auth.py:319-338 | of a user just what was asked for changes, and of nobody else anything |
| Sessions.UserAdded | ser2tcp/http_auth.py:289-317 | a new user is as asked for, and an admin also if the first |
| Sessions.TokenChanged | ser2tcp/http_auth.py:390-410 | a token keeps what was not asked to change, under its new name |
| Sessions.Deleted | ser2tcp/http_auth.py:348-429 | a deleted account is gone, and no other |
| Sessions.AlikeSteps | ser2tcp/http_auth.py:154-449 | states that agree on the live sessions answer every request alike and stay so |
| Sessions.PollAlike | ser2tcp/http_auth.py:261-281 | a poll leaves a state nobody can tell from the one before |
| Sessions.SessionManager.Authenticate | ser2tcp/http_auth.py:233-259 | a live session is renewed, a dead one removed, and the answer is the grant of `GrantsExactly` |
| Sessions.SessionManager.SessionState | ser2tcp/http_auth.py:261-281 | the same answer, and nothing changes |
| Sessions.SessionManager.Cleanup | ser2tcp/http_auth.py:442-449 | exactly the lapsed sessions go |
| Sessions.SessionManager.Login | ser2tcp/http_auth.py:154-174 | a session is opened iff the password fits |
| Sessions.SessionManager.CreateSession | ser2tcp/http_auth.py:176-192 | a session is opened for a user there is |
| Sessions.SessionManager.DropSessions | ser2tcp/http_auth.py:223-227 | one user's sessions end |
| Sessions.SessionManager.AddUser | ser2tcp/http_auth.py:289-302 | the first user is an admin whatever was asked for, and a login is taken once |
| Sessions.SessionManager.UpdateUser | ser2tcp/http_auth.py:319-338 | the last admin cannot be demoted, and a new password ends the sessions |
| Sessions.SessionManager.DeleteUser | ser2tcp/http_auth.py:348-377 | the last admin goes only with everything, and only when confirmed |
| Sessions.SessionManager.AddToken | ser2tcp/http_auth.py:383-388 | any token nobody has is taken, admin or not |
| Sessions.SessionManager.UpdateToken | ser2tcp/http_auth.py:390-410 | a renamed token keeps its rights, and the last admin token cannot be demoted |
| Sessions.SessionManager.DeleteToken | ser2tcp/http_auth.py:412-429 | the last admin token goes only with everything, and only when confirmed, unless a user is admin |
| Sessions.SessionManager.AdminCount | ser2tcp/http_auth.py:340-342 | the number of admin users |
| Sessions.SessionManager.AdminTokenCount | ser2tcp/http_auth.py:344-346 | the number of admin tokens |
| ConfigIds.SlugIsClean | ser2tcp/config_ids.py:46-58 | a slug has only kept characters and single inner hyphens, and at most 48 of them |
| ConfigIds.SlugFixpoint | ser2tcp/config_ids.py:46-58 | a name is its own slug iff it is clean and short enough |
| ConfigIds.SlugIdempotent | ser2tcp/config_ids.py:46-58 | a slug of a slug is that slug |
| ConfigIds.SlugIsWords | ser2tcp/config_ids.py:46-58 | any name: its words in lower case, joined by single hyphens, cut to 48 characters without a hyphen at the end |
| ConfigIds.KeptIs | ser2tcp/config_ids.py:20-24 | kept are the letters a to z and the digits |
| ConfigIds.LowerCase | ser2tcp/config_ids.py:58 | upper case letters become lower case, and nothing else changes |
| ConfigIds.SlugEmpty | ser2tcp/config_ids.py:46-58 | a slug is empty iff the name has nothing to keep |
| ConfigIds.SlugFrom | ser2tcp/config_ids.py:61-75 | the name decides if it has anything to keep, else the file name of the device, else the kind |
| ConfigIds.BaseNameIs | ser2tcp/config_ids.py:74 | the file name is what follows the last slash |
| ConfigIds.UniqueId | ser2tcp/config_ids.py:78-91 | the search ends for every set of taken ids, with the base or its least free number |
| ConfigIds.Pigeonhole | ser2tcp/config_ids.py:86-91 | n numbers in use need n taken ids, which is why the search ends |
| ConfigIds.NumberedInjective | ser2tcp/config_ids.py:86-91 | different numbers make different ids, and none is the base |
| ConfigIds.NumberedIs | ser2tcp/config_ids.py:86-91 | a numbered id is the base, a hyphen and the number in decimal |
| ConfigIds.FirstFreeUnique | ser2tcp/config_ids.py:78-91 | there is one such id |
| ConfigIds.AssignIds | ser2tcp/config_ids.py:135-158 | all ids are distinct and non-empty, each first holder keeps its id, everyone else has the first free one made from its own name, and something changed iff the ids were not distinct before |
| ConfigIds.FirstKeeps | ser2tcp/config_ids.py:135-158 | the first entry with an id keeps it, any other is given one |
| ConfigIds.AssignmentUnique | ser2tcp/config_ids.py:135-158 | the ids handed out are settled by the configuration alone |
| ConfigIds.SecondRun | ser2tcp/config_ids.py:135-158 | a second run changes nothing |
| ConfigIds.SettledIds | ser2tcp/config_ids.py:135-158 | ids are distinct iff every entry is the first holder of its own |
| Moves.PairedLists.MoveEntry | ser2tcp/http_server.py:1374-1382 | both lists take the same new order, pair by pair, and "moved" is answered iff it is a new one |
| Moves.MovedKeepsAll | ser2tcp/http_server.py:1374-1382 | no entry is lost or doubled, and the others keep their order |
| Moves.MovedBeside | ser2tcp/http_server.py:1374-1382 | the entry stands directly before or after the one it was moved to |
| Moves.MovedNowhere | ser2tcp/http_server.py:1374-1382 | the order is unchanged iff it stood there already, or was moved to itself |

## Left out

- Sockets, pyserial, TLS, uhttp, the reader thread and the serial source's own selector entry: foreign calls. Each appears as an argument: bytes taken, would block, failure, or a map for the selector.
- TLS handshakes and their interest masks: a TLS client is modelled only as one that counts before its handshake is over.
- Sends that fail inside an announcement or a signal report: taken to succeed, so the re-entrant path from a failing notice through removing a client to closing the device again is not modelled. Failing sends of serial data are.
- Connections.Connection.Attach: takes the registration to be accepted; a refused modify is modelled.
- Ports.SerialProxy.AnnounceSerial: does not pass the transition on to the monitors, whose state frames carry no tag.
- `_request_signals` and its direct answers, `_refuse_write`, and the error frames: answers that touch no state the model follows.
- One class in several modules: `SerialProxy` is split into its servers (`Ports`), its output queue (`WriteQueue`) and its pauses (`Pausing`), and a server into its place on the port (`Ports`) and its sockets (`Server`). What one part does to another in the same call, such as a pause set while data is queued, is not tied together; the list of attached clients is a field of both `Ports.PortServer` and `Pausing.Endpoint`.
- Ports.SerialProxy.ReconcileServers: a close that fails is not modelled.
- Servers.Server: models base connections; a subclass's encoding is modelled on its own connection, and appears here as the data or the reply queued.
- Monitor: signal frames, the device's state frames and `close`, which carry no tag, and the texts that describe a peer.
- Monitor.ServerMonitor.RefreshPeers: takes the peers present, and the watchers whose sockets fail, as one argument each, so clients that come or go and sockets that break during the walk are not modelled.
- Status: a port payload that uses one of the keys the lines themselves use, and everything on the page except the folding of lines.
- Status.SameLookups: a null field and an absent one are the same to a client, so the page is exact only where no field is null (`Status.ShowsExactly`).
- Sessions: password hashing and the making of tokens, which are arguments; time is an integer and may stand for any clock that does not run back.
- ConfigIds: non-ASCII lower-casing and the list-shaped configuration; `entry_rev` and `fresh_id`.
- Moves: the HTTP request around a move, and the lookup of its anchor by id.
- Order of iteration over sets and dictionaries: any order where the program's own does not matter to what is proved.
- `cert_manager.py`, `install.py`, `main.py`, `ip_filter.py`, USB matching, configuration files, log texts, HTTP routing and request validation, and the rest of `html/app.js`: plumbing, or long lists of independent branches.
