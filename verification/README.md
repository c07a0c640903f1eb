# Nosrat Panel: a verified model

Nosrat Panel manages network tunnels between a server in Iran and a server abroad. A panel keeps the
tunnels' specifications and sends each of the two nodes its half; a node turns its half into a
configuration and runs a tunnelling program with it (rathole, backhaul, chisel, frp, gost) or sets up a GRE
interface. Beside it stand a registry of node agents that answer commands over a websocket, a timer
that resets the cores, quotas for subscribers, and a job that installs an agent on a server.

The model follows the program's components, one module each.

- `Text`, `Wrappers`: the string operations of Python the other modules use, and optional values.
- `Address`: `parse_address_port` and `format_address_port`, over the textual form of IPv6 addresses
  (section 2.2 of RFC 4291, plus the zone that Python's `ipaddress` accepts). The node carries a copy
  of the parser with the same code; it is modelled once. `IPv6Grammar`: that form as a grammar.
- `Shell`: the agent's quoting and command builder, read back by a tokeniser for the POSIX shell that
  knows words, quoting, operators, comments, and where parameter expansions, command and arithmetic
  substitutions and backquotes end.
- `Toml`: the renderer that the node's backhaul adapter and the panel's backhaul manager share
  (two copies of the same code), and a reader for the part of TOML v1.0.0 it writes.
- `Bus`, `Protocol`: the registry of connections and its futures, and the whole request/reply protocol
  as a transition system with one message channel in each direction per server. A step is what runs
  between two awaits.
- `Outcomes`: how the requests of a run end, and where its messages go. `Correlation`, `SerialRequests`,
  `StatusReplies`: which replies the requests of a run return.
- `Manager`, `NodeLives`, `LaterSaves`, `Survivors`: the node's tunnel manager across memory, the file
  replaced by rename, and processes; the node over several lives, with crashes and shutdowns between
  them; what the later saves of a life make of a tunnel; and the machine, on which child processes may
  outlive the node that started them.
- `Specs`: how the panel splits a spec into halves (when restoring, when resetting a core, and when
  re-applying). `Dialling`, `RatholeAdapter`, `ChiselAdapter`, `FrpAdapter`, `BackhaulAdapter`: what the
  node's adapters make of the halves. `DerivedFields`, `AdapterFields`: both once more, told from the
  fields of the spec alone, with every default and every refusal.
- `ResetTimer`, `Usage`, `JobLog`, `InstallJob`: the reset scheduler, the usage cycle, the log of an
  install job with its line-cursor readers, and the life of the job.

What the outside decides (whether a process starts, how far a save gets, when a timeout fires, what a
traffic counter says, the clock, the hash of a tunnel's id) is an argument or a free choice of a step.
"Dialling an address" means the port that the repository's own address parser finds in it.

What the proofs say about the program, beyond what it documents:

- Futures are filed by the *type* of the reply, so correlation needs two hypotheses: one request per
  server at a time, and nothing foreign under way when it is installed. The second is exact
  (`CorrelationIsExact`), and destroying a tunnel, which is answered twice, breaks it for whatever is
  asked next (`DestroyMisleadsTheNext`). A panel that begins a request to a server only when all before it
  have returned a reply, and sends it no destroy and nothing else, meets both
  (`SerialRequestsAreAnswered`); after a single timeout it no longer can.
- A tunnel status never reaches the request that asked for it: the schema rejects every state an agent
  reports, so no request of any kind returns one (`ReturnsAreAccepted`), and a status request returns
  nothing wherever replies are matched with requests (`StatusNeverReturns`).
- Two ways of losing tunnels. Re-applying an active tunnel first removes it, from memory and from the file.
  If that was saved and the new process does not start, the tunnel is forgotten for the rest of that life
  and in every later one, until it is applied again (`FailedReapplyForgets`). In the other cases the
  saves that follow decide (`ReapplyDecides`): when the process started and only the second save
  failed, the tunnel is missing from the file until the next completed save of the same life, for
  whatever tunnel, writes it back, and it is lost only if the node dies before; when the
  first save failed and the process did not start, the tunnel is still in the file until the next
  completed save drops it. And a shutdown forgets every active tunnel whose removal, or a later
  one's, was saved (`ShutdownForgets`).
- A manager never runs two processes of its own for a tunnel (`LivesAreSafe`), but it does not know those
  that outlived an earlier life. A tunnel has two exactly when two survivors are left, or one is and the
  manager serves it too (`TwoProcesses`); a node that keeps dying can gain one with every life, and no
  more (`OnePerLife`, `Accumulates`); and a backhaul, chisel or gost survivor outlasts even the removal of
  its tunnel (`OutlastsRemoval`).
- The three derivations do not lead a tunnel's traffic to the same place. Without a port list and a local
  address, a restored rathole tunnel leads to the proxied port, but a re-applied one always to 8080
  (`RatholeSingleService`). Without a local address, a restored or reset chisel client leads every port of
  its list to the one listening port at the Iran address, a re-applied one each port to the same port of
  its own host (`ChiselTargetsCompared`, `ChiselPlainTargets`). Without a local IP, a reset frp client
  leads every port of its list to the Iran address (`FrpListsCompared`), and a single port to the bind
  port there unless the local port is stated too (`FrpProxiesCompared`). A backhaul port list is served
  when re-applied and replaced by the public port otherwise (`RestoredPorts`).
- The scheduler reads all reset rows and then acts on them one after another; a handler that writes a row
  in between can make an automatic reset follow another reset too early (`StaleScan`). An update
  that carries no interval clears the next reset, whether or not it switches the timer off.
- An unbracketed IPv6 address and a port run together when "::" has room for the port; the derivations
  that do not bracket inherit that (`RatholeAlwaysMeets`, `ChiselAlwaysMeets`, `BackhaulAlwaysMeets`).
- Topping up a subscriber without a new quota or expiry lasts until the next pass.
- List items in a rendered TOML document are not escaped; an argument after a command that ends in a
  comment is lost.

## Model

| member | source | states |
|---|---|---|
| Text.StripIs | panel/app/utils.py:28 | stripping leaves a text with solid ends alone, and takes any run of blanks around it |
| Address.RoundTrip | panel/app/utils.py:9-84 | printing host and port, then parsing, gives them back exactly when a condition on the host holds: no blanks at the ends, not already bracketed, no port of its own, does not run together with the port |
| Address.DocumentedHostsRoundTrip | panel/app/utils.py:9-84 | the documented inputs (zone-free IPv6 literals; names and IPv4 addresses without colon or bracket) always round-trip, with or without a port |
| Address.UnbracketedIPv6 | panel/app/utils.py:37-57 | how every IPv6 literal followed by `:port` is read: the port is found, unless there is a zone, or "::" has room for a group and the port has at most four digits; then the whole is one address |
| IPv6Grammar.FormsOnly | panel/app/utils.py:37-42 | the strings taken for IPv6 addresses are eight groups, or fewer around one "::", the last two possibly a dotted quad, and then maybe a zone (section 2.2 of RFC 4291) |
| IPv6Grammar.QuadIs | panel/app/utils.py:37-42 | a dotted quad is four numbers up to 255 as they print, with dots between them |
| Address.Absorption | panel/app/utils.py:37-42 | appending `:numeral` to an IPv6 literal gives an IPv6 literal exactly in those cases |
| Address.ParsePortAt | node/app/core_adapters.py:13-51 | any string that ends in a colon and a numeral is parsed to that port, whatever stands before, unless the stripped whole is an IPv6 literal; otherwise also which host |
| Shell.QuoteIsOneWord | node-agent/agent.py:794-795 | a quoted value is tokenised to exactly one word equal to it, free of expansions, if and only if it has no NUL |
| Shell.RunQuoted | node-agent/agent.py:794-795 | quoted text inside a word extends that word by exactly the value |
| Shell.BuildShellCommand | node-agent/agent.py:770-791 | the loop over the arguments builds the command followed by one piece per accepted argument |
| Shell.CommandWords | node-agent/agent.py:770-791 | for every command text that comes to an end (operators, newlines, comments, parameters, command and arithmetic substitutions, braces and backquotes included): the built line has the command's tokens and then one word per accepted argument, in order, if and only if the command leaves no comment open and no value holds a NUL (or nothing was accepted) |
| Shell.ArgumentAdds | node-agent/agent.py:777-791 | argument by argument, what it adds to the words of the line: a flag `--key` if and only if it is true, a number or a text always `--key=value`, and a key with another character than letters, digits, `-` and `_`, or with none of the first two kinds, nothing |
| Toml.RenderToml | node/app/core_adapters.py:530-552 | the renderer's two loops compute the rendered document |
| Toml.RenderedText | node/app/core_adapters.py:544-552 | the rendered text to the character: headers, one `key = value` to a line, None entries skipped, an empty line between sections, one newline at the end |
| Toml.ValueTexts | node/app/core_adapters.py:531-543 | how each scalar is written |
| Toml.ListTexts | node/app/core_adapters.py:536-540 | how lists of any length are written |
| Toml.TomlRoundTrip | panel/app/backhaul_manager.py:256-281 | reading a rendered document (booleans, integers, floats, strings, lists of anything, other values as printed) gives back its sections, keys in order and values, None entries dropped, if and only if all strings are free of control characters, list items are strings that need no escaping, and every other value is a boolean or a number |
| Toml.ReadSpoiltItems | node/app/core_adapters.py:540-543 | a list with an item that holds a quote, a backslash or a control character is never read back as it was |
| Bus.AgentBus.Register | backend/core/agent_bus.py:56-68 | files the new connection for its server and leaves the old one's futures as they are |
| Bus.AgentBus.Unregister | backend/core/agent_bus.py:70-81 | drops the connection and fails its undone futures, or does nothing when another socket has taken over |
| Bus.AgentBus.Install | backend/core/agent_bus.py:125-140 | the start of a request files a new future under the reply type, over whatever was there; nothing when offline |
| Bus.AgentBus.ResolveCommand | backend/core/agent_bus.py:148-157 | completes the undone future filed under the reply type with the current connection, and says whether there was one |
| Bus.AgentBus.Finish | backend/core/agent_bus.py:140-146 | the end of a request: an undone future is cancelled and the entry popped by its key |
| Bus.CompletedOnce | backend/core/agent_bus.py:56-157 | over all sequences of operations, a completed future never changes |
| Bus.RegistryIsLatest | backend/core/agent_bus.py:56-81 | in every run, a server's connection is the most recently registered one that has not since been unregistered with its own socket, and there is none otherwise |
| Bus.StaleUnregister | backend/core/agent_bus.py:70-76 | unregistering with a replaced socket changes nothing |
| Bus.MadeUnreachable | backend/core/agent_bus.py:56-68 | replacing the connection, a second request, and another request's end each cut a waiting future off from any reply |
| Bus.UnreachableForever | backend/core/agent_bus.py:148-157 | a future that was cut off is, in every continuation, never completed by anything but its own timeout |
| Bus.DroppedStaysRetired | backend/core/agent_bus.py:77-80 | a connection dropped by unregister has no undone future, then or at any later time |
| Bus.ReplacedMayHang | backend/core/agent_bus.py:56-68 | a run in which a replaced connection keeps an undone future that neither a reply nor the stale handler's unregister completes |
| Protocol.InvStep | backend/core/remote_exec.py:75-88 | every step keeps the link between requests, connections and futures; a returned reply is its own future's result |
| Protocol.ResultStep | backend/api/ws.py:377-388 | a future takes a result only from a reply that passed the schema, delivered by its request's own server while the request is active |
| Protocol.DeliveryDecides | backend/api/ws.py:377-388 | the next reply from a server with an awaited request: its future takes it if and only if the status is `success`, `failed` or `running` (backend/db/schemas.py:197) and the receive loop gets that far, and then the waiting request returns it; otherwise the registry stays as it is |
| Protocol.DeliveryToNobody | backend/core/agent_bus.py:148-157 | a reply from a server with no awaited request changes no future and no request |
| Protocol.AgentOwes | node-agent/agent.py:479-583 | which replies the task of each kind of command can owe: one report, success or failure; two for a destroy command; one unrecognised state for a status command; nothing else |
| Protocol.RunOfBus | backend/api/ws.py:377-407 | the registry at the end of a run is what the registry operations of its steps, one after the other, make of it |
| Protocol.RunRegistry | backend/core/agent_bus.py:56-81 | in every run, a server's entry is its latest connection that no later step (a newer connection, its handler's end, a failed send on it) has severed, and there is none when there is no such connection |
| Protocol.RunDropped | backend/core/agent_bus.py:77-80 | in every continuation of a run that dropped a connection, no undone future is filed with it and no reply can reach a request made on it |
| Protocol.DroppedIs | backend/core/agent_bus.py:70-77 | the connection a step drops is the one whose server has an entry before it and none after |
| Outcomes.RequestEnds | backend/core/agent_bus.py:125-146 | in every run an open request ends at most once, exactly when a step of its own (failed send, settled future, timeout) occurs, and is otherwise the same request |
| Outcomes.EndingDecides | backend/core/agent_bus.py:140-146 | that step decides the outcome at the end of the run: none after a failed send, a timeout, the reply its future holds, or the error of a dropped connection |
| Outcomes.RunOutcomes | backend/core/agent_bus.py:77-80 | in every run a future is cancelled if and only if its request timed out, and a request broken by a disconnection has a future failed by `unregister` |
| Outcomes.MessagesAreConserved | backend/core/agent_bus.py:110-146 | over every run and every server, commands written are taken, lost or still under way, in order; the same for replies; and every reply a task owes is sent, given up or still owed |
| Correlation.ReplyCorrelation | backend/core/agent_bus.py:125-157 | from every state the protocol's invariant allows in which a server has no request under way, whatever its earlier requests returned: in every continuation in which it has one request at a time, installed when no foreign answer is under way, every reply returned to its later requests carries the request's own id; other servers are unrestricted |
| Correlation.CorrelationIsExact | backend/core/remote_exec.py:75-88 | for every idle online server, also one that has returned foreign replies: all continuations answer a new request rightly if and only if nothing foreign was under way at its installation |
| Correlation.DestroyMisleadsTheNext | node-agent/agent.py:560-583 | on any idle online server a destroy request can return on the stop handler's report, with its own still owed, and the next request, whatever it asks, can return that one; whether the two say success or failure |
| SerialRequests.SerialRequestsAreAnswered | backend/core/agent_bus.py:125-146 | a discipline the panel can check by itself (each request begun when all before it have returned a reply, no destroy, nothing pushed) makes every returned reply the request's own, and leaves the channels empty whenever all have returned |
| StatusReplies.ReturnsAreAccepted | backend/api/ws.py:377-388 | in every run, with any traffic, whatever any request to any server returns says `success`, `failed` or `running` (backend/db/schemas.py:197), so no request returns a status report |
| StatusReplies.StatusNeverReturns | node-agent/agent.py:479-558 | in every run in which the commands to a server that carry an id ask for tunnel status, whatever else it is sent: no reply with that id is ever returned, and where replies are matched with requests, no request with that id returns |
| Manager.AdapterManager.SaveTunnels | node/app/core_adapters.py:1397-1418 | the disk after a save that stops at any step, between opening the temporary file and the rename |
| Manager.AdapterManager.LoadTunnels | node/app/core_adapters.py:1360-1395 | the map in the file; the empty map for a missing, torn or malformed one |
| Manager.AdapterManager.AdapterApply | node/app/core_adapters.py:80-224 | an old process of the tunnel is removed first; the new one stays in the table even when it dies at once and apply raises, except in the backhaul adapter (480-491) |
| Manager.LaunchLeaves | node/app/core_adapters.py:80-224 | what each of the six adapters leaves in the table of processes, for every way its start can go |
| Manager.AdapterManager.RemoveTunnel | node/app/core_adapters.py:1509-1518 | memory, disk and processes after a removal, also when the adapter raises after killing the process |
| Manager.RemovalIs | node/app/core_adapters.py:1509-1518 | a removal raises only for rathole and GRE tunnels, and then changes nothing but the process; otherwise the tunnel is gone from both tables, and the file holds the rest if the save got through; other tunnels keep everything |
| Manager.AdapterManager.ApplyTunnel | node/app/core_adapters.py:1481-1507 | memory, disk and processes after an apply, with every way to fail |
| Manager.AppliedByName | node/app/core_adapters.py:1335-1358 | an apply succeeds if and only if the name is one of the six, the start goes well and no removal raised; then the tunnel is active with the adapter of that name, and with its running process alone; any other name starts nothing |
| Manager.AdapterManager.RestoreTunnels | node/app/core_adapters.py:1420-1479 | from any disk, exactly the entries with a known core, a non-empty spec and a successful start become active; restored + failed is the number of entries |
| Manager.RestoredByName | node/app/core_adapters.py:1450-1474 | entry by entry: a rathole, backhaul, chisel or frp entry without a mode becomes a client, in memory only, and every other entry stays as it is; which entries become active, and with the adapter of which name |
| Manager.AdapterManager.Cleanup | node/app/core_adapters.py:1527-1531 | removes the active tunnels in the order of the table until one removal raises, each with its own save: exactly the state that removal by removal leaves |
| Manager.RunKeepsMemory | node/app/core_adapters.py:1481-1518 | in every run, with applies, removals and saves failing anywhere and processes dying: a tunnel has a live process with at most one adapter, the one it is active with, and an active tunnel is configured for that core |
| Manager.RunKeepsDisk | node/app/core_adapters.py:1463-1518 | in every run whose saves succeed, the file equals the configurations in memory up to the mode that restoring fills in |
| NodeLives.SaveIsAtomic | node/app/core_adapters.py:1403-1409 | wherever a save stops, the file is the old one, or, once renamed, the whole new map; what the temporary file holds at each point |
| NodeLives.CrashDuringApply | node/app/core_adapters.py:1481-1507 | the exact file after an apply, for every point at which its two saves stop and every way its removal and start go |
| NodeLives.ReapplyKeeps | node/app/core_adapters.py:1487-1507 | when a re-apply of an active tunnel ends, the tunnel is in the file if and only if the new process started and the second save completed, or its removal raised or was not saved and it was in the file before |
| NodeLives.StaysForgotten | node/app/core_adapters.py:1360-1479 | a tunnel that is not in the file is absent from every later boot and every moment of every later life, until it is applied again |
| NodeLives.CleanupOutcome | node/app/core_adapters.py:1527-1531 | memory and file after a shutdown, whatever raises and wherever saves stop: the removals before the first that raises took place, and the file is what the last completed save among them wrote |
| NodeLives.ShutdownForgets | node/app/core_adapters.py:1527-1531 | whatever the file held: without a completed save up to the first removal that raised, the file is left as it was; with one, an active tunnel stays in it if and only if no save completed from its own removal on, and what was not active is in it if and only if memory had it |
| NodeLives.LivesAreSafe | node/app/core_adapters.py:1420-1518 | at every moment of every life, from any disk: of the processes that life started, a tunnel's live ones are its active adapter's alone, and active tunnels are configured for their core |
| NodeLives.LivesKeepTheFile | node/app/core_adapters.py:1397-1418 | however many lives end in the middle of whatever save, the next one finds a file it can read |
| LaterSaves.LastSaveIsLast | node/app/core_adapters.py:1397-1418 | the save that decides is the last one of the life that completes |
| LaterSaves.FileAtTheEnd | node/app/core_adapters.py:1481-1518 | from any moment of a life on, for every tunnel not applied since: the file knows it at the end if and only if memory knew it and no removal had dropped it up to the last completed save; without one, if and only if the file knew it before |
| LaterSaves.ReapplyDecides | node/app/core_adapters.py:1487-1507 | a re-apply of an active tunnel, any rest of that life that does not apply it, and later lives: the next boot knows it if and only if the rest completed a save and the tunnel was in memory at the last one (kept by the re-apply, not removed up to there), or it completed none and the re-apply left it in the file; otherwise it is absent from every later boot until applied again |
| LaterSaves.FailedReapplyForgets | node/app/core_adapters.py:1487-1507 | a re-apply whose removal was saved and whose process does not start: the tunnel is unknown at every later moment of that life, whatever else happens in it, and at every later boot until it is applied again |
| Survivors.ManagerIsUnaware | node/app/core_adapters.py:1332-1354 | with any children of earlier lives surviving into any life, the manager goes through the same states as without them, so what is stated of its lives holds beside survivors too |
| Survivors.TwoProcesses | node/app/core_adapters.py:1420-1518 | at every moment of every life: a tunnel has two live processes or more if and only if two of its survivors are left, or one is and the manager serves the tunnel too; survivors are never added and go only by ending or by being reaped |
| Survivors.TwoAtBoot | node/app/core_adapters.py:1420-1479 | right after a boot that is: two survived, or one did and the file's entry is one that restoring starts a process for |
| Survivors.OnePerLife | node/app/core_adapters.py:1467-1474 | in the life number k after an empty machine a tunnel has at most k live processes |
| Survivors.Accumulates | node/app/core_adapters.py:646-652 | and that many for every tunnel with a process, when the node is killed after each boot and its children survive |
| Survivors.OutlastsRemoval | node/app/core_adapters.py:493-517 | a survivor of an adapter whose removal does not find it by its command line (backhaul; chisel, 743-767; gost) runs on through everything the manager does in that life, the removal of its tunnel included |
| Survivors.OutlastsOthers | node/app/core_adapters.py:226-248 | a survivor of any adapter runs on while no tunnel of its id is applied or removed |
| Survivors.MayBeReaped | node/app/core_adapters.py:226-248 | a rathole or frp survivor may be reaped or spared exactly when its tunnel is removed under that core, or applied while under it or to it |
| Specs.DeriveRathole | panel/main.py:354-405 | the in-place filling of the two dicts computes the rathole halves; resetting (panel/app/routers/core_health.py:329-372) is the same code with the constant 23333 |
| Specs.DeriveChisel | panel/main.py:407-438 | likewise for chisel |
| Specs.DeriveFrp | panel/main.py:440-458 | likewise for frp, restored |
| Specs.ResetFrp | panel/app/routers/core_health.py:405-430 | frp as reset, with the local side's defaults |
| Specs.ReapplyFrp | panel/app/tunnel_reapply_manager.py:144-177 | frp as re-applied, with the port list made of numbers, or raising on one that is none |
| Specs.DeriveBackhaul | panel/main.py:460-500 | likewise for backhaul |
| Specs.ReapplyRathole | panel/app/tunnel_reapply_manager.py:227-259 | the periodic re-apply's own rathole halves |
| Specs.ReapplyChisel | panel/app/tunnel_reapply_manager.py:292-313 | its chisel halves, with an IPv6 literal bracketed |
| Specs.ReapplyBackhaul | panel/app/tunnel_reapply_manager.py:261-290 | its backhaul halves |
| Specs.RatholePortsCompared | panel/app/routers/core_health.py:337-341 | restore and re-apply bind the same control port for every spec; reset binds it if and only if the spec states a non-zero port or the hash is 0 modulo 1000 |
| Specs.ChiselPortsCompared | panel/app/routers/core_health.py:384-386 | the same for chisel and a stated control port |
| Specs.BackhaulPortsCompared | panel/app/tunnel_reapply_manager.py:262-264 | exactly the specs on which the three backhaul control ports agree |
| DerivedFields.RatholeFields | panel/main.py:360-405 | for every derivation: both halves name the port that the stored remote address states, 23333 if there is no such field, or the derivation's own default if it states none or 0; the dialled address begins with `wss://` if and only if the transport is a websocket and `websocket_tls` or `tls` is true, and with `ws://` if neither is; when the tunnel is skipped |
| DerivedFields.RatholeRest | panel/main.py:376-405 | restored or reset: the transport and TLS fields of both halves, the default local address, and that all other fields are the spec's |
| DerivedFields.RatholeReappliedRest | panel/app/tunnel_reapply_manager.py:227-259 | re-applied: the transport, and that all other fields are the spec's |
| DerivedFields.ChiselFields | panel/main.py:407-438 | for every derivation: control port, URL, listening port and default local address from the spec's own fields, and all other fields the spec's |
| DerivedFields.ChiselRaises | panel/app/tunnel_reapply_manager.py:292-313 | without a control port, a listening port that is no number raises |
| DerivedFields.FrpFields | panel/main.py:440-458 | both ends name the bind port, 7000 by default; address, type and all other fields |
| DerivedFields.FrpResetFields | panel/app/routers/core_health.py:405-430 | what resetting adds: the local IP and the local port with their defaults, and nothing else |
| DerivedFields.FrpReappliedFields | panel/app/tunnel_reapply_manager.py:144-177 | what re-applying adds: the single entry made of one or two numbers, or the raise; nothing with a port list or without ports |
| DerivedFields.BackhaulFields | panel/main.py:460-500 | bound and dialled address, scheme, port entry, transport, and all other fields the spec's; when the tunnel is skipped |
| DerivedFields.BackhaulReappliedFields | panel/app/tunnel_reapply_manager.py:261-290 | the same for the re-apply's own choice of ports |
| RatholeAdapter.DeclareServices | node/app/core_adapters.py:126-133 | the adapter's loop over the ports declares one service per port |
| RatholeAdapter.ConfigureRathole | node/app/core_adapters.py:80-201 | the adapter's apply, branch by branch, arrives at the server's or the client's configuration, or raises |
| AdapterFields.RatholeServes | node/app/core_adapters.py:92-150 | for any spec in server mode: the bound address (23333 by default), token, websocket and TLS flags and services, and when it raises |
| AdapterFields.RatholeDials | node/app/core_adapters.py:151-219 | for any other spec: the address without its scheme, and TLS if and only if the transport is a websocket and the scheme or a flag asks for it |
| AdapterFields.RatholeLocalPort | node/app/core_adapters.py:155-168 | without a list the client leads to the port of its local address, 8080 by default |
| RatholeAdapter.ServicesDistinct | node/app/core_adapters.py:126-133 | no two services of a tunnel share a name |
| RatholeAdapter.RatholeMeets | node/app/core_adapters.py:86-201 | when each rathole end configures a process, and if they do: same websocket and TLS flag, token and service names, same ports given a port list; the server binds the control port, and the client dials it if and only if its address does not read as an IPv6 literal |
| RatholeAdapter.RatholeAlwaysMeets | panel/main.py:360-405 | the same for whatever restore, reset or re-apply derive, in terms of the Iran address: always for one without a colon; for an IPv6 literal if and only if it has no zone and "::" has no room or the port has five digits |
| RatholeAdapter.RatholeSingleService | node/app/core_adapters.py:155-168 | for every derivation of a tunnel without a port list: when both sides lead to the proxied port. With a stated local address if and only if that names it; restored or reset without one if and only if address and port do not run together, or the port is 8080; re-applied without one if and only if the port is 8080 |
| ChiselAdapter.ChiselMeets | node/app/core_adapters.py:612-704 | the chisel server always starts on the control port; when the client starts, that it exposes the listed ports in order or else the listening port, leads each to the stated local address (to the same port of its own host if that has no port, or port 0, or is not stated), and dials the control port if and only if host and port do not run together |
| AdapterFields.ChiselServes | node/app/core_adapters.py:612-630 | for any spec: a chisel server starts if and only if it has a port to serve and one to expose, each the first of three fields, and serves that port |
| AdapterFields.ChiselDials | node/app/core_adapters.py:658-668 | what a chisel client exposes: its list, or the first of four fields |
| ChiselAdapter.ChiselAlwaysMeets | panel/app/tunnel_reapply_manager.py:305-313 | for every derivation: a re-applied IPv6 literal always meets; otherwise exactly when address and port do not run together |
| ChiselAdapter.ChiselTargetsCompared | node/app/core_adapters.py:685-700 | for every spec and every Iran address: both clients start in the same cases; with a stated local address restored, reset and re-applied clients expose the same; without one a re-applied client leads each port to the same port of its own host, and a restored or reset one agrees on an entry if and only if the Iran address and the listening port are read as an address that keeps it there |
| ChiselAdapter.ChiselPlainTargets | panel/main.py:429-438 | for a plain Iran address that does not run together with the listening port, and no local address: a restored or reset client leads every exposed port to that one port at that address, and exposes the same as a re-applied one if and only if the address is the loopback and all ports are the listening one |
| FrpAdapter.DeclareProxies | node/app/core_adapters.py:933-948 | the adapter's loop over the port list declares one proxy per entry |
| FrpAdapter.FrpMeets | node/app/core_adapters.py:827-926 | for every derivation, spec and address, frp ends agree on port, token and type; exactly when the client is configured, and with which proxies, no two of one name |
| AdapterFields.FrpServes | node/app/core_adapters.py:827-840 | an frp server's port, 7000 by default, and token |
| AdapterFields.FrpDials | node/app/core_adapters.py:889-948 | which addresses and types an frp client refuses, and its port, type, local host and address without brackets |
| FrpAdapter.FrpSinglePorts | node/app/core_adapters.py:897-905 | what each of the three derivations leaves a tunnel without a port list to expose, and when re-applying raises |
| FrpAdapter.FrpListsCompared | panel/app/routers/core_health.py:426-429 | with a port list, for every spec: re-applying changes nothing, and a reset client exposes the same as a restored one if and only if a local IP is stated, or the Iran address is the host a spec without one has (the loopback) |
| FrpAdapter.FrpSingleProxies | node/app/core_adapters.py:897-948 | without a port list, for every spec: the one proxy each of the three clients declares, and when there is none |
| FrpAdapter.FrpProxiesCompared | panel/app/routers/core_health.py:426-429 | without a port list, for every spec: reset agrees with restore if and only if the local host does (a local IP is stated, or the Iran address is the loopback) and the local port is stated, or there is no bind port, or that is the remote port; re-apply agrees with restore if and only if both ports are printed as the numerals they stand for |
| BackhaulAdapter.ProcessPorts | node/app/core_adapters.py:352-372 | the adapter's loop over a port list, with its skips |
| BackhaulAdapter.BackhaulMeets | node/app/core_adapters.py:323-435 | when each backhaul end configures a process, and if they do: the same transport always, the same token if and only if the spec has one or the two sets of options agree on it, and for each end exactly when its address names the control port |
| AdapterFields.BackhaulServes | node/app/core_adapters.py:323-394 | for any spec: the server's address (3080 by default), transport, token and ports, and the transports it refuses |
| AdapterFields.BackhaulDials | node/app/core_adapters.py:417-445 | the client's address, the first of three fields, without its scheme; transport and token, and what it refuses |
| AdapterFields.BackhaulSingle | node/app/core_adapters.py:337-350 | the single entry of a server without a port list |
| AdapterFields.BackhaulEntry | node/app/core_adapters.py:352-372 | what each item of a port list adds, or that it adds nothing |
| BackhaulAdapter.BackhaulAlwaysMeets | panel/main.py:460-500 | for every derivation: both ends configure the control port if and only if neither the bound nor the dialled address runs together with it |
| BackhaulAdapter.RestoredPorts | panel/main.py:481-485 | a restored or reset server publishes its public port alone, whatever port list the spec has |
| BackhaulAdapter.ReappliedPorts | node/app/core_adapters.py:337-376 | a re-applied server publishes the port list, or else the listening port, to the stated target |
| BackhaulAdapter.BackhaulPortsServed | panel/app/tunnel_reapply_manager.py:261-275 | without a port list and target address, restored and re-applied servers publish the same if and only if both derivations choose the same public port |
| ResetTimer.ResetConfig.Update | panel/app/routers/core_health.py:209-231 | the row after an update, refused below one minute; without an interval the next reset is cleared |
| ResetTimer.ResetConfig.ManualReset | panel/app/routers/core_health.py:253-262 | the row after a manual reset |
| ResetTimer.ResetConfig.Visit | panel/main.py:712-725 | a row's turn in the scheduler's loop, decided and computed from the row as it was queried |
| ResetTimer.RunSpaced | panel/app/routers/core_health.py:209-231 | every run of ticks, manual resets and updates keeps: enabled, last and next reset set implies next >= last + interval |
| ResetTimer.AutoResetsKeepTheInterval | panel/main.py:712-725 | in every such run an automatic reset follows no reset by less than the current interval |
| ResetTimer.FiresAfterReset | panel/main.py:712-725 | after a manual or an automatic reset of an enabled row, and until a handler writes it, a tick resets if and only if the interval has passed since; earlier ticks change nothing |
| ResetTimer.FiresAfterUpdate | panel/app/routers/core_health.py:209-231 | the same after an update with an interval: from an interval after the last reset, if that is still to come, and else from an interval after the update |
| ResetTimer.SilentAfterUpdate | panel/app/routers/core_health.py:209-231 | after an update without an interval, or one that leaves the row disabled, no tick resets; a refused update changes nothing |
| ResetTimer.ManualOfIdle | panel/app/routers/core_health.py:253-262 | a manual reset of a disabled row moves the last reset alone |
| ResetTimer.NewRow | panel/app/routers/core_health.py:204-207 | a new row is disabled; enabled and reset by hand it is reset again ten minutes later |
| ResetTimer.WindowBound | panel/main.py:712-725 | at a fixed interval, a window of span T holds at most T / interval + 1 automatic resets |
| ResetTimer.StaleScan | panel/main.py:705-730 | when handlers write the row between the scheduler's query and the row's turn: the reset comes too early if and only if one was a manual reset or the interval now exceeds the time since the last reset |
| ResetTimer.StaleScanRow | panel/main.py:716-725 | and the row it leaves breaks the spacing if and only if the core is enabled and its interval was raised meanwhile |
| Usage.RunUsageCycle | backend/services/usage.py:57-95 | the cached pass gives every subscriber what an uncached one gives over the same snapshot, and asks exactly the tunnels in use, each once |
| Usage.PassDecides | backend/services/usage.py:57-75 | what a pass writes to a subscriber: `expired` from the instant of expiry on; before it the reading, and `over_quota` if and only if a quota is used up |
| Usage.PassesWithinLimits | backend/services/usage.py:57-95 | over any number of passes within its limits a subscriber keeps its status, with the latest reading as its counter |
| Usage.ActiveIsWithinLimits | backend/services/usage.py:57-75 | right after a pass, an active subscriber was active before, is unexpired and has no quota or used less |
| Usage.OnlyOperatorsReactivate | backend/api/clients.py:156-195 | over whole runs only a top-up or an edit that says so brings a subscriber back to active |
| Usage.OperatorsWrite | backend/api/clients.py:156-195 | what a top-up and an edit write, field by field, and that they write nothing else |
| Usage.TopupWithoutRoomIsUndone | backend/api/clients.py:184-195 | topped up without new quota or expiry, a subscriber survives the next pass if and only if it is within its limits anyway |
| JobLog.InstallLog.AppendLog | backend/services/node_installer.py:141-158 | the row's log after an append |
| JobLog.StoredIsTail | backend/services/node_installer.py:141-158 | after any sequence of appends the stored log is the last 65536 characters of everything appended |
| JobLog.LinesAre | backend/api/servers.py:499-508 | how the log is split: at each of ten characters, a carriage return with its newline as one, and no empty line after the last break |
| JobLog.PollCatchesUp | backend/api/servers.py:499-508 | an answer brings a client that knows the first lines to all of them, in order; only an empty last line waits |
| JobLog.ClientReconstructs | backend/api/servers.py:499-508 | in every interleaving of appends and polls within the limit, the client holds a beginning of the log's lines, each once and in order, and all of them after a poll |
| JobLog.PollAfterDrop | backend/api/servers.py:499-508 | once the log was cut, the answer skips exactly as many lines as were dropped since |
| InstallJob.InstallRun.SetStatus | backend/services/node_installer.py:511-527 | the row after a status report, with or without a progress, clamped to 0 and 100, and closed by success, failed and cancelled |
| InstallJob.InstallRun.RunInstall | backend/services/node_installer.py:227-291 | wherever the pipeline fails: the exact progress values written, never falling, and the final status, error and progress 100 |
| InstallJob.JobsOnlyMoveForward | backend/services/node_installer.py:179-197 | in every interleaving of jobs, progress never decreases, and a finished job has progress 100, is success or failed, and stays as it is |
| InstallJob.EventsWrite | backend/services/node_installer.py:56-91 | what a request and a failure write to the table of jobs, and that nothing touches another job |
| InstallJob.AdvancingFinishes | backend/services/node_installer.py:227-291 | a job whose stages keep succeeding becomes success after exactly as many steps as it has left |
| InstallJob.ExistingFinds | backend/services/node_installer.py:56-75 | the lookup finds the newest open job of the server, and finds none only when there is none |
| InstallJob.NeverTwoOpen | backend/services/node_installer.py:56-91 | without force no server ever has two pending or running jobs |
| InstallJob.ForceOpensASecond | backend/services/node_installer.py:56-91 | with force, an open job is joined by a second one |

## Left out

- Launching and killing processes, sockets, SSH, HTTP, Docker: a start is a free choice of its outcome, and a process can only die on its own.
- Survivors: which children survive a death of the node, and which of them a removal's `pkill` reaps among those whose command line names the tunnel (rathole's and the frp client's), is a free choice. A survivor that holds a port shows only in the next start failing; `pkill` on a tunnel id that is part of another one is not modelled (the panel's ids are UUIDs, panel/app/models.py:9-16).
- The GRE adapter: all its tunnels share the interface `gre0`, so per-tunnel invariants do not apply; the manager only uses that it keeps no process.
- Manager.AdapterManager.AdapterApply: one process table keyed by adapter and tunnel stands for the adapters' dicts; log handles, configuration files and the gost forwarder's own table are not modelled.
- The panel's own backhaul process manager (`start_server`, `stop_server`) repeats the node adapter's process handling; only its renderer is modelled.
- Integers: Python's lenient `int()` forms (signs, underscores, blanks, booleans), its limit of 4300 digits, and non-ASCII digits are not modelled; ports are decimal numerals and unbounded. `lower()` covers ASCII letters.
- Address.IsIPv6: stands for `ipaddress.IPv6Address` and is proved to be the grammar of section 2.2 of RFC 4291 with the zone rule; the library itself is not part of this model.
- Toml.TomlRoundTrip: a float is the text Python prints for it; keys and table names are bare; the reader knows no comments, multi-line strings, dotted keys, underscores in numbers or dates.
- Shell.CommandWords: command texts that end inside quotes or an expansion, or hold a here-document or `$'...'`, are outside it, and inside a command substitution also a `case`, a continued line and a `#` after an escaped character or a parenthesis; single quotes in braces in double quotes are too. An operator of several characters counts as that many tokens, and an IO number as a word; what expansions and patterns do to the words is not modelled. Python's `isalnum` table is a parameter that may accept nothing with a meaning to the shell.
- Protocol: a message of a type no agent answers, and the offline case in which a request returns at once, install nothing; heartbeats, logs and metrics share the channel but reach no future. A reply without an id gets a fresh one and is outside the model.
- Bus.AgentBus.Register: the close of the replaced websocket, awaited under the lock, is not a step of its own; the registration takes effect at the write.
- Specs: lists or objects where a scalar is expected are printed by their opening bracket only; `auth` and `fingerprint` pass through unchanged and are omitted; gost has no halves.
- Dialling.Items: a `ports` value that is an object is refused, where Python would iterate over its keys; options given as a list of pairs are refused too.
- The adapters' configurations are records, not the text of the TOML, YAML or command line. Backhaul's tuning options are passed through and omitted.
- ChiselAdapter.ChiselTargetsCompared: entries of a port list that are no port numbers are not compared; the client passes them on as they are.
- Node selection, counters and the sending of halves in the restore, re-apply and reset loops: one tunnel's turn is modelled, which is all that a turn depends on.
- ResetTimer: what a reset does to the tunnels; each row write is atomic, and the clock does not run backwards.
- Usage: the traffic counters are a snapshot fixed for one pass, and a pass and an operator's edit do not interleave; the session's lost updates are not modelled.
- JobLog.ClientReconstructs: the repository ships no polling client; the client is the one the endpoint's cursor is made for, which splits each answer into lines and counts them.
- InstallJob: deleted job rows, and jobs left running when the panel stops; what each stage does on the server.
- Authentication, the frontend, the Telegram bot, plugin wizards, probes and metrics would add only easy members.
