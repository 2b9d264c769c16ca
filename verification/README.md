# Verified model of the rx client

`rx` is the command-line client of a cloud development service. This project
models the parts of it that keep state, in Dafny, and proves what they
guarantee on every input and in every interleaving.

- **One forwarded connection** (`ClientSocket`, `ForwardedConnection`,
  `Connection`): four threads share two queues and two events. Each queue, event,
  socket and join operation is one atomic step; a run is any finite schedule of
  steps. `Connection` has the same steps as methods on a mutable object.
- **The port table** (`PortTable`, `PortForwardingService`): interleaved
  `OpenPort` and `ClosePort` calls, split into their atomic steps, against the
  ports the operating system has bound.
- **Remote execution** (`Executor`, `Stdin`, `ProgressBar`): the partial-write
  loop, the fold over the response stream, the stdin buffer under its condition
  variable, and the progress bars of interleaved layers.
- **Configuration** (`Environment`, `RemoteFiles`, `LocalConfig`): the
  translation between YAML values and environment messages, and saving and
  loading over a file system with symbolic links.
- **Identity** (`Login`, `Decimal`, `Daemon`): credential files under crashes,
  token refresh (RFC 6749, sections 4.1.3 and 6), pid files, interceptors and
  the stop command.
- **Languages** (`Languages`): extension ranking and language detection.

Threads that share memory are modelled by a total step function and runs over
arbitrary schedules: an action a thread cannot take changes nothing, so a
statement about all schedules covers all interleavings. Code that updates an
object is also given as a class whose methods are proved equal to those
functions; the methods that do a single statement or call in this way have no row
of their own below. Servers, clocks, the kernel's choices and what `send`, `recv` and
`write` return are inputs.

## What the model shows about the code

The code is modelled as it is. Where it does less than its comments or its
callers suggest, the exact condition is proved:

- The writer reads the queue size and then the event. A response put between the
  two reads is left behind, and `handle` then waits forever. Every stream with a
  response can end so (`StreamCanHangIff`), nothing else blocks for good
  (`CanCloseIff`), and `handle` never returns with bytes missing
  (`ExactDelivery`).
- A client that finishes sending before the RPC starts has all its requests
  dropped (`RequestsForwardedIff`); one that finishes later can lose all but one
  of those still queued (`TailForwardedIff`), and so any part of what it sent, from
  the end (`AnyTailCanBeLost`).
- After a short `send` the loop starts over from the beginning of the buffer
  (`ExactForAllBuffersIff`); the loop in the executor goes on where it stopped
  (`ResumedIsExact`).
- `ClosePort` keeps the table entry, so a closed port cannot be opened again
  (`ClosedPortStaysTaken`), and `info` still lists it (`PortInfo`).
- Requests for local port 0, and only those, can overwrite a live forwarder
  (`OverwritesLiveIff`), which then runs on outside the table (`OrphanedIff`).
- `GetPortsResponse` has one field for the port and one for the local port; the
  table is keyed by the local port and reports that for both, which is right
  exactly if the request asked for equal numbers (`EntryIsRightIff`).
- With a relative root the default link's text is read from the wrong directory;
  when the saved environment comes back all the same is `SaveThenLoadIff`, and
  `FreshSaveThenLoadIff` for fresh names.
- `StdinIterator.__exit__` does not wake a waiting consumer (`EndsAfterExitIff`,
  `SleeperIsReachable`).
- A refresh token that arrives with a refresh is not stored, where section 6 of
  RFC 6749 asks a client to replace the old one. With a server that never comes
  back to a replaced token, the file holds the newest exactly if no refresh since
  the login was answered with another one (`HoldsNewestIffNoRotation`); with any
  server, `HoldsNewestIff`.
- The errors raised after a refused refresh ask the user to log in again; the same
  manager cannot do that, since the expired token stays in memory
  (`CanSucceedIff`, `RefreshKeepsHopeIff`, `HopeCanBeLost`).

## Model

| member | source | states |
|---|---|---|
| ForwardedConnection.ExactDelivery | rx/daemon/port_forwarding/client_socket.py:43-70 | in every interleaving in which `handle` returns no event of the worker's stream was an error, the frames sent are those of the stream before its first empty one, and if every send of the run was full the socket took exactly their bytes |
| ForwardedConnection.RecordsAreTrue | rx/client/worker_client.py:166-178 | over every run: what is yielded is the frames of the stream's events up to the first that raises or has a non-zero code, an exception leaves `handle` exactly at such an event, what is received is what the client's reads gave, and the reader stops exactly when the client ended or the handler told it to |
| ForwardedConnection.SendLoop | rx/daemon/port_forwarding/client_socket.py:115-118 | sends that come to the end of the buffer finish the frame and put a fresh prefix of it on the wire each |
| ForwardedConnection.SendLoopGoesOn | rx/daemon/port_forwarding/client_socket.py:116 | sends that do not come to the end leave the writer in the loop at the bytes reported so far |
| ForwardedConnection.WriterTakesNext | rx/daemon/port_forwarding/client_socket.py:107-111 | a writer that has not read the set event takes the next queued response within two steps |
| ForwardedConnection.ResponseConservation | rx/daemon/port_forwarding/client_socket.py:105-118 | in every state, exits by exception included: frames sent, the frame in the writer's hand and the queue are the frames accepted, a prefix of what was yielded; with full sends the wire is a prefix of the right bytes |
| ForwardedConnection.Draining | rx/daemon/port_forwarding/client_socket.py:105-118 | once the response event is set, the writer's own steps are bounded by a measure on its program counter and the queued bytes, it is never blocked, and measure zero means it has exited |
| ForwardedConnection.StaleExit | rx/daemon/port_forwarding/client_socket.py:107-109 | the writer exits only on an event read after the set; what it leaves queued is exactly what was put after its last read of an empty queue |
| ForwardedConnection.CanReturnIff | rx/daemon/port_forwarding/client_socket.py:62-70 | `handle` waiting for its responses can still return exactly if the writer has not gone, or is not about to go, past a non-empty queue |
| ForwardedConnection.StrandedForever | rx/daemon/port_forwarding/client_socket.py:63-64 | once stranded, no continuation lets `handle` leave its wait loop |
| ForwardedConnection.StrandedIsReachable | rx/daemon/port_forwarding/client_socket.py:105-111 | whatever the request and the response frames, putting them between the writer's two reads strands `handle` |
| ForwardedConnection.StreamCanHangIff | rx/daemon/port_forwarding/client_socket.py:54-64 | for the frames a stream yields before its empty one, some interleaving leaves `handle` waiting forever exactly if there is a frame |
| ForwardedConnection.CanCloseIff | rx/daemon/port_forwarding/client_socket.py:30-70 | from every reachable state the connection can still be closed exactly if `handle` is not stranded: that wait is the only deadlock |
| ForwardedConnection.ClosingIsBounded | rx/daemon/port_forwarding/client_socket.py:30-70 | once the response event is set, writer and handler together take at most so many steps whatever else runs, and when the reader has gone and neither can move the connection is closed or stranded |
| ForwardedConnection.RequestConservation | rx/daemon/port_forwarding/client_socket.py:81-103 | in every state the frames pulled, the queue and the reader's hand are the frames received, in order; what is forwarded is a prefix |
| ForwardedConnection.PullerServes | rx/daemon/port_forwarding/client_socket.py:81-87 | as long as the event is not set, a started RPC gets the next request when it asks |
| ForwardedConnection.ReaderStops | rx/daemon/port_forwarding/client_socket.py:93-97 | once the event is set the reader takes at most the frame it is waiting for |
| ForwardedConnection.HasRequestsDecides | rx/daemon/port_forwarding/client_socket.py:72-79 | `_has_requests` answers False exactly when the client ended without sending a byte |
| ForwardedConnection.RequestsForwardedIff | rx/daemon/port_forwarding/client_socket.py:81-87 | when the RPC starts there is a queued request, and some request can still be pulled exactly if the event is not set yet |
| ForwardedConnection.TailForwardedIff | rx/daemon/port_forwarding/client_socket.py:81-87 | once the request event is set the RPC gets at most the one frame it is already on its way to; it can still get all exactly if no more than that is left |
| ForwardedConnection.AnyTailCanBeLost | rx/daemon/port_forwarding/client_socket.py:81-103 | for all frames a client sends before it ends and every number of them, some run forwards exactly the first so many and no continuation another |
| ForwardedConnection.HalfCloseLosesRequests | rx/daemon/port_forwarding/client_socket.py:83 | a client that sends one frame and shuts down its side reaches the state in which nothing it sent is forwarded |
| ForwardedConnection.NoUseAfterClose | rx/daemon/port_forwarding/client_socket.py:36-41 | when `__exit__` closes the socket neither thread can touch it again |
| ForwardedConnection.ExitRunsInOrder | rx/daemon/port_forwarding/client_socket.py:30-41 | every way out of `handle` goes through all of `__exit__` in its order, keeps its outcome, and is an exception exactly from the loop over the stream |
| ClientSocket.StepKeepsInv | rx/daemon/port_forwarding/client_socket.py:43-118 | every atomic step of every thread keeps the ledgers, the event, join and wire invariants |
| ClientSocket.ReachableInv | rx/daemon/port_forwarding/client_socket.py:18-24 | the invariants hold after every schedule from the initial state |
| ConnectionObject.Connection.Interleave | rx/daemon/port_forwarding/client_socket.py:43-118 | giving the threads turns in any order ends in the state every result above speaks of, and keeps the invariants |
| ConnectionObject.SendFrame | rx/daemon/port_forwarding/client_socket.py:115-118 | the send loop puts on the wire a fresh prefix of the buffer for every send |
| ConnectionObject.ExactForAllBuffersIff | rx/daemon/port_forwarding/client_socket.py:116-118 | a sequence of sends delivers every buffer of a length exactly if the first send takes it all |
| ConnectionObject.AlwaysExactIff | rx/daemon/port_forwarding/client_socket.py:116-118 | the loop is exact whatever the socket does exactly for buffers of at most one byte |
| PortTable.OneForwarderPerPort | rx/daemon/port_forwarding/service.py:42-65 | no interleaving leaves two live forwarders on one port; equal requested local ports can only be 0 |
| PortTable.LiveForwarderIsListed | rx/daemon/port_forwarding/service.py:54-63 | a live forwarder of a non-zero port holds exactly that port and is in the table under it or between its bind and its insert |
| PortTable.OverwritesLiveIff | rx/daemon/port_forwarding/service.py:63 | an insert can overwrite a live forwarder exactly for local port 0; for every other port what it overwrites is stopped |
| PortTable.OrphanedIff | rx/daemon/port_forwarding/service.py:54-63 | a live forwarder that no call is going to list can be missing from the table exactly if it was asked for local port 0 |
| PortTable.PortZeroOverwritesLive | rx/daemon/port_forwarding/service.py:46-63 | two concurrent requests for port 0 reach that state |
| PortTable.ClosedPortStaysTaken | rx/daemon/port_forwarding/service.py:67-81 | `ClosePort` stops the forwarder but keeps the entry: until shutdown every later `OpenPort` of that port is refused |
| PortTable.CloseRaisesOnlyAtShutdown | rx/daemon/port_forwarding/service.py:72-79 | without a shutdown in between, fetching the forwarder after the check cannot fail |
| PortTable.ForwarderServesRequest | rx/daemon/port_forwarding/service.py:46-54 | whatever runs beside it, a forwarder serves the worker port its request named and listens on the local port it named, or on the same number |
| PortTable.UninterruptedOpen | rx/daemon/port_forwarding/service.py:42-65 | an uninterrupted call, also one for local port 0: exactly when it answers OK, EADDRINUSE or raises, and what it then binds and lists; otherwise it changes neither |
| PortTable.UninterruptedClose | rx/daemon/port_forwarding/service.py:67-81 | an uninterrupted call answers OK exactly if the port is in the table; the forwarder listed there is then not live and its port free, and nothing else changes; otherwise it answers NOT_FOUND and changes nothing |
| PortTable.ShutdownStopsListed | rx/daemon/port_forwarding/service.py:23-27 | after the shutdown the table is empty, no forwarder that was in it is live or holds a port, and all else is as before |
| PortTable.EntryIsRightIff | rx/daemon/port_forwarding/service.py:33-37 | every listed entry reports its key as both ports, which names the worker's port exactly if the request asked for equal numbers |
| PortTable.EveryPairIsListed | rx/daemon/port_forwarding/service.py:42-65 | every pair of ports is listed in some run, and misreported exactly if they differ |
| PortTable.StepKeepsInv | rx/daemon/port_forwarding/service.py:23-81 | every step of every call, the shutdown and other processes keep the table, bind and liveness invariants |
| PortTable.OverwritesOnlyStopped | rx/daemon/port_forwarding/service.py:63 | the entry an insert of a non-zero port replaces belongs to another, stopped forwarder |
| PortTable.StopAllKeepsInv | rx/daemon/port_forwarding/service.py:23-27 | after `close_ports` only forwarders not yet inserted, or of port 0, can be live |
| PortForwarding.PortForwardingService.ClosePorts | rx/daemon/port_forwarding/service.py:23-27 | the loop stops exactly the listed forwarders and resets the table |
| PortForwarding.PortForwardingService.GetPorts | rx/daemon/port_forwarding/service.py:29-40 | one entry for each key of the table, each once |
| PortForwarding.PortForwardingService.PortInfo | rx/daemon/client.py:35-47 | `info` of this daemon maps every key, closed ports included, to itself |
| PortTable.InfoIsIdentity | rx/daemon/client.py:41-47 | a response without local ports becomes the identity on its ports |
| PortTable.InfoOfLast | rx/daemon/client.py:41-47 | each port is mapped to what its last entry says, or to itself if that has no local port |
| Execution.Write | rx/worker/executor.py:45-59 | at each loop head the sink has received exactly the first `written` bytes, at the end exactly the buffer; it raises exactly if one of its writes does, writes nothing after that or after the last byte, and counts every byte the sink took; it terminates when the sink stalls finitely often |
| Execution.ResumedIsExact | rx/worker/executor.py:50-53 | going on where a short write stopped is exact for every buffer and every sequence of short writes |
| Execution.Executor.Run | rx/worker/executor.py:29-43 | unless a write raises, the in-order chunks, the last id and the union of outputs are there, and a stream that ends normally returns the last response; the output error is raised exactly if a write raised, and leaves prefixes with nothing of a stderr before its stdout |
| Execution.ChunksInOrder | rx/worker/executor.py:40-41 | each stream has its own chunks, all of them, in the order of the responses |
| Execution.IdAfterIsLast | rx/worker/executor.py:38-39 | the id is the last non-empty one of the stream |
| Execution.IdAfterKeeps | rx/worker/executor.py:38-39 | with no non-empty id the old one stays |
| StdinStream.InputInOrder | rx/worker/executor.py:93-118 | in every interleaving delivered then buffered requests are the initial request and one for each non-empty read of the schedule, in order; a sleeping consumer has nothing to take |
| StdinStream.AskingDelivers | rx/worker/executor.py:93-102 | a running consumer that asks or is notified gets the first buffered request; after `__exit__` one that asks ends |
| StdinStream.EndsAfterExitIff | rx/worker/executor.py:84-102 | after `__exit__`, without more input, the iteration can end exactly if the consumer is not asleep |
| StdinStream.SleeperIsReachable | rx/worker/executor.py:84-102 | for every initial request a run comes to `__exit__` with the consumer asleep, and then never ends |
| Progress.ShowProgressBars | rx/shared/progress_bar.py:9-25 | after any interleaved stream and however it ends, each bar is in the state its own layer's messages give and was closed exactly once; the result or exception is the right one |
| Progress.BarExistsIff | rx/shared/progress_bar.py:14-18 | a layer has a bar exactly if one of its messages has a total |
| Progress.CountOfCompleted | rx/shared/progress_bar.py:43-53 | the count is `current` of the layer's first complete message |
| Progress.CountOfRunning | rx/shared/progress_bar.py:43-53 | without one it is `current` of the layer's last message with a total |
| Progress.TextOf | rx/shared/progress_bar.py:33-46 | a bar's text is that of its layer's last message without a total, or of its first with one |
| Environments.RoundTrip | rx/client/configuration/local.py:133-172 | for every environment, printing with kept field names and omitted defaults and translating back gives the same message, with the same submessages and orders |
| Environments.Normalises | rx/client/configuration/local.py:133-172 | for every accepted dict, printing the result and translating again changes nothing |
| Environments.ToYamlInjective | rx/trex/toolchain/toolchain.py:24-29 | different environments never print alike |
| Environments.AcceptedIff | rx/client/configuration/local.py:133-172 | for every value, in terms of its entries alone: exactly when it is accepted, which submessages there are, and what each field is |
| Environments.ToolListPointwise | rx/client/configuration/local.py:143-145 | a toolchain is taken exactly if every item is, each with its own name and version, in order |
| Environments.DefaultsAreLeftOut | rx/trex/toolchain/toolchain.py:24-29 | a string is printed exactly if it is not empty |
| Environments.ImageErrors | rx/client/configuration/local.py:147-171 | exactly when the image raises ConfigError or AttributeError, after its strings |
| Environments.PortListErrors | rx/client/configuration/local.py:167-168 | a port list is a ValueError exactly if its first bad element is a number that does not fit |
| Environments.ArgumentErrors | rx/client/configuration/local.py:142-145 | an unknown field is a ValueError, anything else that is refused a TypeError |
| Environments.RemoteErrors | rx/client/configuration/local.py:138-145 | bad hardware decides before the toolchain, and its first bad item decides for the toolchain |
| Environments.ErrorsInOrder | rx/client/configuration/local.py:138-171 | the remote part decides before the image |
| Environments.NoDictionaryError | rx/client/configuration/local.py:138-171 | what is no dictionary and seems to hold a key, or cannot be asked for one, is a TypeError |
| Environments.VariableText | rx/client/configuration/local.py:156-161 | the text of a boolean, integer or string variable, and that no variable is lost or added |
| Environments.TagText | rx/client/configuration/local.py:154-155 | the text of a tag that is no string |
| Environments.PortsOfImage | rx/client/configuration/local.py:162-170 | a single number counts as a list of one, numbers must fit 32 bits and keep their order |
| Environments.PortListPointwise | rx/client/configuration/local.py:167-168 | a port list is taken exactly if every element is, each as its own value |
| Environments.EnvDictToPb | rx/client/configuration/local.py:133-172 | the translation as written accepts exactly the values of the right kinds, gives every field what its own entry says, and fails as the specified one |
| RemoteFiles.SaveThenLoad | rx/trex/toolchain/toolchain.py:34-55 | with an absolute root, if the saved environment differs and `default` leads nowhere, loading the default remote gives exactly the saved environment |
| RemoteFiles.SaveOutcomeIff | rx/trex/toolchain/toolchain.py:16-32 | exactly when saving fails, does nothing, and writes |
| RemoteFiles.WhatSaveWrites | rx/trex/toolchain/toolchain.py:34-55 | the whole new file system: the configuration where its path leads, and the default link if `default` leads to no file then |
| RemoteFiles.WhereFilesAre | rx/trex/toolchain/toolchain.py:35-46 | where the default link, the configurations and the chosen remote are for every root, and where the link's text leads |
| RemoteFiles.FileNameIs | rx/trex/toolchain/toolchain.py:38-40 | the name of a configuration: the repository with dashes for slashes, and the date |
| RemoteFiles.LoadOutcomeIff | rx/client/configuration/local.py:48-57 | what loading gives for a file, for one that is no YAML or no environment, and for none |
| RemoteFiles.LinkLeadsToTarget | rx/trex/toolchain/toolchain.py:47-53 | a link leads where its target does, read from the link's own directory |
| RemoteFiles.SaveThenLoadIff | rx/trex/toolchain/toolchain.py:34-55 | for every file system and root: the saved environment comes back exactly if it was written where `default` led, or where the path used from now on leads, or that path gives it anyway |
| RemoteFiles.FreshSaveThenLoadIff | rx/trex/toolchain/toolchain.py:46-53 | on fresh names, with `default` leading nowhere, exactly if the root is absolute, the environment empty, or `default` dangled at the configuration file itself |
| RemoteFiles.LoadThroughLink | rx/trex/toolchain/toolchain.py:47-53 | loading through a new default link gives what the path it points to gives, chains back through the link included |
| RemoteFiles.ExistingDefaultStays | rx/trex/toolchain/toolchain.py:46-53 | if `default` leads to a file only the configuration file changes and the link is never redirected; what loading then gives |
| RemoteFiles.SavesOnlyChanges | rx/trex/toolchain/toolchain.py:16-22 | saving the current environment leaves the file system unchanged |
| RemoteFiles.FollowBesideLink | rx/trex/toolchain/toolchain.py:47-53 | a new link at a path that leads nowhere disturbs no path that leads to a file |
| RemoteFiles.ConfigIsNotDefault | rx/trex/toolchain/toolchain.py:38-46 | a configuration is never saved under the name of the default link |
| RemoteFiles.ConfigBesideDefault | rx/trex/toolchain/toolchain.py:38-42 | whatever the repository is called, a configuration is saved in the directory of the default link, under a name without a slash |
| LocalConfiguration.FindRxRoot | rx/client/configuration/local.py:90-105 | the loop finds the nearest parent with a configuration directory |
| LocalConfiguration.NearestIsNearest | rx/client/configuration/local.py:93-96 | what is found has a configuration directory and no nearer parent has one; None means none has |
| LocalConfiguration.FirstParentIsParent | rx/client/configuration/local.py:90-96 | the search starts at the parent of the working directory's own configuration directory |
| LocalConfiguration.SecondSearchAgreesIff | rx/client/configuration/local.py:108-120 | the second search of `get_local_config` stays at the root exactly if nothing hides under the root's own `.rx` |
| LocalConfiguration.StoreThenLoad | rx/client/configuration/local.py:59-68 | storing and loading gives the configuration back, whatever other keys the file has |
| LocalConfiguration.LoadedIff | rx/client/configuration/local.py:208-220 | exactly when loading fails, and for each field its own entry or the default of the class |
| Login.CrashSafe | rx/client/login.py:233-254 | from no files on, through any calls, restarts and crashes between file operations: a refresh file implies an access file, a login is needed exactly without a refresh file, and the refresh file answers the last code exchange |
| Login.CrashAnywhere | rx/client/login.py:233-254 | a crash can come before, between and after the file operations of a call, each of which touches one file |
| Login.RefreshFileNeverOverwritten | rx/client/login.py:149-183 | in every run no step changes the content of a refresh file |
| Login.HoldsNewestIff | rx/client/login.py:180-183 | after any events, a refresh file holds the newest refresh token issued, unless the last refresh answered with one was answered with another |
| Login.HoldsNewestIffNoRotation | rx/client/login.py:180-183 | with a server that never comes back to a replaced token: exactly if no refresh since the exchange was answered with another token |
| Login.RotationIsLost | rx/client/login.py:180-183 | for any two tokens a run ends with the first in the file and the second the newest |
| Login.CallDeletesIff | rx/client/login.py:149-199 | a call removes a file exactly if there is one and `validate_login` rejects the token: undecodable by a ValueError, or expired with the refresh file missing or the refresh refused; then both are gone and it fails; without an answer both stay |
| Login.ValidateOutcomeIff | rx/client/login.py:149-199 | `validate_login` succeeds exactly for an unexpired token, whatever the server would answer and changing nothing, or for a granted refresh, which stores the new token; exactly when it asks for another login |
| Login.LogInOutcomeIff | rx/client/login.py:110-131 | the whole effect of `login`, with a token in memory and without one |
| Login.CanSucceedIff | rx/client/login.py:149-199 | from any files and token, some later call on the same manager can succeed exactly if it has no token, or one that decodes and is unexpired or can be refreshed |
| Login.HopeCanBeLost | rx/client/login.py:110-199 | for every token with a refresh token, a login followed by one refusal after the time of expiry leaves a manager that can never succeed again |
| Login.RefreshKeepsHopeIff | rx/client/login.py:165-181 | which answers to a refresh leave that possible: no connection, or a token with a readable time of expiry, and not a refusal |
| Login.DeadForever | rx/client/login.py:190-199 | with an expired token and no refresh file every later call on that manager fails with the same error |
| Login.LoginOutcome | rx/client/login.py:110-131 | what a login that returns has in memory and on disk; a manager with a token asks for no code |
| Login.MetadataIsFresh | rx/client/worker_client.py:45-49 | `metadata` returns a token exactly if the one in memory is unexpired, or a refresh in this call was granted, and it is that one |
| Decimal.ParsePrint | rx/daemon/pidfile.py:24-31 | printing an integer and reading it, also as a line, are inverse |
| Decimal.PrintInjective | rx/daemon/interceptors.py:39-41 | two printed numbers are equal exactly if the numbers are |
| Decimal.ReadableText | rx/daemon/pidfile.py:24 | white space, a sign, a numeral and white space are read as that number |
| Decimal.OnlyIntegersAreRead | rx/daemon/pidfile.py:24 | and nothing else is read |
| Decimal.ParseNatIff | rx/daemon/pidfile.py:24 | a numeral is digits with single underscores between them, and has the value of its digits |
| Daemon.PidRoundTrip | rx/daemon/pidfile.py:19-32 | the pid file gives back the number written |
| Daemon.ReadPidOutcomes | rx/daemon/pidfile.py:19-27 | exactly when reading the pid file fails for want of a file, and for its text |
| Daemon.ReachesHandlerIff | rx/daemon/interceptors.py:13-49 | a request built from the pid file is handled exactly if the answering daemon has that number and version; otherwise that daemon, and it alone, is signalled |
| Daemon.ServeIff | rx/daemon/interceptors.py:13-49 | exactly when a request is handled, aborted with this daemon's number, or an error, with the number looked at first |
| Daemon.FirstValue | rx/daemon/interceptors.py:52-59 | a field has the first value given for it |
| Daemon.NobodyAsked | rx/daemon/client.py:18-23 | without a readable pid file or with nobody on the port nobody is signalled |
| Daemon.IsRunningOutcomes | rx/daemon/pidfile.py:42-56 | signal 0 and no other goes to the process of a readable pid file; exactly when the answer is True or False, and when it raises |
| Daemon.ProbeIsRejected | rx/daemon/interceptors.py:39-47 | no daemon accepts the number "unknown" |
| Daemon.ConnectAndKillOutcomes | rx/daemon/manager.py:99-122 | `connect_and_kill` signals the answering daemon and raises, or finds nobody and returns True |
| Daemon.StopCommand | rx/client/commands/daemon.py:38-65 | 0 on every path that returns, who is signalled, when the pid file goes, and exactly when it raises |
| Daemon.StartDaemon | rx/daemon/manager.py:64-97 | the first try that decides does: True exactly if it finds the pid file's own daemon in this version, an exception and a signal to that daemon alone if it finds another, an exception without a signal for an unreadable pid file; False exactly if none decides |
| Daemon.MaybeStartDaemon | rx/daemon/manager.py:39-62 | True exactly if signal 0 finds a process under the pid file's number, or none runs and the start finds its own daemon; otherwise who is signalled, when it is False and exactly when it raises; the retry exception never escapes |
| Languages.RankingIsRanking | rx/trex/toolchain/manifest.py:23-28 | each distinct extension once, in non-increasing true count, ties in first-seen order |
| Languages.RankingIsUnique | rx/trex/toolchain/manifest.py:23-28 | only that sequence is such a ranking |
| Languages.CountIsMultiplicity | rx/trex/toolchain/manifest.py:18-21 | a count is the number of occurrences |
| Languages.ExtensionOf | rx/trex/toolchain/manifest.py:19 | the extension of a file name with a dot, hidden files included |
| Languages.NoExtension | rx/trex/toolchain/manifest.py:19 | a name without a dot has none |
| Languages.Manifest.Process | rx/trex/toolchain/manifest.py:15-21 | the loop fills the dictionary with the true counts in first-seen order |
| Languages.Manifest.MostPopularExtensions | rx/trex/toolchain/manifest.py:23-28 | sorting the dictionary by its counts gives the ranking, whatever was asked before |
| Languages.Manifest.Contains | rx/trex/toolchain/manifest.py:30-34 | membership in the manifest |
| Languages.GetLanguages | rx/trex/toolchain/lang_detector.py:33-57 | no name twice; a name is there exactly if a marker file or a known extension gives it; the package manager is the reason if it can be |
| Languages.ExtensionsByName | rx/trex/toolchain/lang_detector.py:7-19 | which extensions give each name |
| Languages.MarkersByName | rx/trex/toolchain/lang_detector.py:37-48 | which files give each package manager |
| Languages.DetectionIsMonotone | rx/trex/toolchain/lang_detector.py:33-57 | adding files never removes a detected name |

## Left out

- RemoteFiles.SaveThenLoad: speaks of absolute roots; `SaveThenLoadIff` has the exact condition for every root.
- PortTable.LiveForwarderIsListed: speaks of ports other than 0, because a forwarder asked for port 0 can lose its entry (`OrphanedIff`).
- ConnectionObject.SendFrame: `send` takes at least one byte and does not raise; a writer that dies of a socket error is not modelled.
- Execution.Write: a write that fails with EAGAIN has accepted nothing; a buffered writer that raises after accepting bytes is not modelled.
- Progress.ShowProgressBars: the bars' drawing, rates and the disabled mode of tqdm are not part of this model.
- PortForwarding.PortForwardingService.GetPorts: is atomic; a dictionary that changes size while it is iterated is not modelled.
- LocalConfiguration.StoreThenLoad: values have the types the file gives them, as in the code, which does not check them.
- Environments.RoundTrip: YAML text is not modelled, only its values; mapping keys are strings and strings are valid text for protobuf.
- Languages.GetLanguages: the order of the returned list is that of insertion, where Python's set gives none.
- Daemon.StopCommand: signals are recorded and answered; that a signalled process ends, and servers other than an rx daemon that answer the probe successfully, are not modelled.
- Login.CrashSafe: a single file write is all or nothing, one manager runs at a time, and a 200 answer is a non-empty dictionary; the calls that `CanSucceedIff` and `DeadForever` speak of are not made at an earlier time.
- Several threads of one process writing the same credential or configuration files.
- gRPC channels, cancellation of a stream, HTTP, JWT decoding, rsync and subprocesses: inputs or absent.
- `run_forever`, `accept_connection` and reconnection: a stopped forwarder frees its port at once.
- `listen` failing after a successful `bind`, and a forwarder's constructor raising other than before the bind.
- The pool's limit of ten handler threads: any number of calls may be in flight, which covers it.
- The kernel's limit on the length of a chain of links (only cycles fail), directories, `..` components and permissions.
- Unicode white space and digits in pid files.
- Forking, terminal modes, `fcntl` flags, selectors, prompts, payment, browser opening and argument parsing.
- The `stop`, `commit`, `acl` and `subscribe` commands: thin wrappers of one request each.
- `format_info`, `RestartCommand` and `is_subdir`.
