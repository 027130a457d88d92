# Concurrency and transport of the Wasmer SDK, verified

This project models the parts of the Wasmer SDK in which several parties share
state: the guest's output pipe, the browser's in-memory TCP network and its HTTP
ingress, shared package acquisition, the WISP network bridge, the shared-memory
mailboxes between a worker and its host, and the service worker that routes
requests to a guest. Beside them stand four pieces of text and byte handling that
those parts rely on: the chunked transfer coding, the package identity, line
splitting and shell quoting.

Two shapes recur.

* **Machines.** A protocol with interleaving is a `State`, a total `Step` over
  events and a `Run` over a list of them. A step is one atomic access, one
  critical section, or one turn of an event loop between two awaits, as the source
  has it; events that cannot happen in a state change nothing, so the theorems
  speak of every list of events. Each machine has an invariant (`Inv`, or a few of
  them) that every step keeps, and main results about every run.
* **Objects.** What the source updates in place is a class with the same fields.
  Its methods are proved against the step functions (`View() == Step(old(View()), ..)`)
  or state their whole effect, and loops carry their invariants.

| file | what it models |
| --- | --- |
| `Pipe.dfy`, `PipeHub.dfy`, `PipeWakeups.dfy`, `PipeBytes.dfy`, `PipeCalls.dfy`, `Capture.dfy` | the byte-bounded pipe: wakeups, conservation, close, single calls, retention |
| `Chunked.dfy`, `ChunkedErrors.dfy`, `Spelling.dfy` | the chunked decoder, what it refuses, and the text functions under it |
| `HttpResponse.dfy`, `ResponseFraming.dfy` | the socket a guest writes its response to, and where a response ends |
| `BrowserNetwork.dfy`, `PeerConnections.dfy` | addresses, listeners, peers and connections of the in-memory network |
| `PackageDefinition.dfy`, `PackageHash.dfy`, `PackageFiles.dfy` | validation, identity and filesystem of in-memory packages |
| `SingleFlight.dfy`, `PackageProgress.dfy` | shared acquisition, aggregate progress, the observer loop |
| `Float64.dfy`, `Percentage.dfy` | rounding to doubles, and the download percentage computed in them |
| `WispConnection.dfy`, `Readiness.dfy`, `ReadinessCalls.dfy`, `ReceiveQueue.dfy` | the WISP connection, readiness and wakers, single polls, receive queues and their mailbox |
| `ProcessExit.dfy` | how a process ends when requests, its own exit and its owner's waits race |
| `ProviderFile.dfy`, `DirectoryTree.dfy` | the cursor over a positional file, recursive removal |
| `ServiceWorker.dfy`, `Mailbox.dfy` | routing of requests in the service worker, the filesystem mailbox |
| `Lines.dfy`, `ShellQuoting.dfy`, `ShellRules.dfy` | incremental lines in two languages, shell templates, and the shell's quoting rules |

`dafny verify dfyconfig.toml` checks all of it.

## What the proofs found

* `PipeWakeups.WakeupsApproach`: the drain of `wake_writers` is bounded by a
  snapshot of the queue's length, and still no sleeping writer can be passed over;
  the waiter that registers late is covered by its own recheck or by the drain
  that whoever changed the state still owes.
* `Readiness.ServedEverAfter`: `socketClose` makes a level ready without announcing
  it. A reader that sleeps on the socket is served ever after, as long as the entry is
  not removed, if and only if it was roused, or an event for that socket was to come,
  before the close;
  `AReaderCanBeLeftAsleep` is a run in which neither holds. `close` of the whole
  bridge drops every event, so that there only the tasks already roused can still be
  woken (`ClosingTheBridgeIsSilent`).
* `ServiceWorker.SettledOnce`: a forwarded request that has left its route has been
  settled, once, if and only if no reply came for it of which `new Response` throws:
  one with a status outside 200 to 599, or with refused headers. `receiveResponse` takes
  the request off its route and clears its timer before it makes the response, so such
  a request is never settled, by nothing that follows (`SettledForGood`). A guest that
  begins with an interim response is enough: the parser of the ingress takes it for the
  final one (js/bindgen/src/browser_http.rs:1039-1062), and `ARequestCanBeLost` is the
  run.
* `ServiceWorker.LateRequestsOnlyTimeOut`: a request whose body is still being read
  when its route closes is forwarded on the closed route, and waits for its timer;
  `ARequestCanBeLate` is a run that gets there.
* `ShellQuoting.DataExactlyInTheOpen`: a value of a shell template is data exactly
  where nothing is quoted, no dollar sign precedes it and no comment is open. A
  template that puts a value inside quotes of its own does not get that, nor one with
  a value in a comment: `ACommentedValueRuns` gives a value of two lines whose second
  line becomes a command. The condition is stated for text that the lexer follows;
  where the text goes beyond that, as in `$(..)#` (`ClosedSubstitutionsAreNotOpen`),
  nothing is promised.
* `Percentage.PercentIsExact`: computed in doubles, a percentage is at most 100, and
  100 exactly when all has come, for totals up to 360287970189640 bytes. All of the
  very next total is less than 100 (`AllCanBeLessThanHundred`), all of
  360287970189643 bytes is more (`AllCanBeMoreThanHundred`), and 2^54 bytes of one more
  are 100 already (`HundredCanBeEarly`). `HundredExactly` and `AboveHundredExactly` say
  for all counts when it is 100 and when more; the latter depends on the total alone.
* `ProviderFile.LengthIsTracked`: the length a file handle reports is right after an
  operation that found it right, unless that is an empty write past the end, which
  moves the reported length and not the file's, or the provider or somebody else
  changes the size of the file unforeseen. `OpensTracked` says when it is right to
  start with: a `stat` that fails counts as an answer of zero.
* `ProcessExit.ExitInTheWindow`: an exit between a request's check and its record
  is reported as that request's. Whatever is reported, all waits agree on it.
* `BrowserNetwork`: a bound address and a live listener never share an address, but
  only because `listen` takes its addresses out of the bound set in the same
  critical section that installs the listener.

## Model

| member | source | states |
| --- | --- | --- |
| PipeWakeups.NoLostWakeup | rust/src/stream.rs:43-246 | in every run, a parked writer that could proceed, or must fail because the pipe is closed, has been reached by a drain that is owed or under way, within a bound on the number of steps |
| PipeWakeups.WakeupsApproach | rust/src/stream.rs:44-55 | while such a writer sleeps, no step of anybody puts its waking further off, and each step of the responsible thread brings it nearer |
| PipeWakeups.SleepersOfAQuietPipeAreBlocked | rust/src/stream.rs:223-246 | once every call has returned, only writers of a full and open pipe are asleep |
| PipeWakeups.RunsKeep | rust/src/stream.rs:43-324 | every interleaving of writers, taps, reader and closers keeps the wakeup invariant: who owes a drain, who is queued, who may sleep |
| PipeHub.DrainKeepsCovers | rust/src/stream.rs:49-54 | one step of a drain bounded by a length snapshot keeps every other waiter within reach of some drain |
| PipeHub.DrainApproaches | rust/src/stream.rs:49-54 | a step of the covering drain shortens the way to a waiter; another drain's step can only take it over |
| PipeHub.DrainKeepsQueuedOnce | rust/src/stream.rs:49-54 | a waiter is in the queue at most once, and its flag tells whether it is |
| PipeBytes.Conservation | rust/src/stream.rs:154-170 | the byte counter is what is in the channel, unread in the reader, or reserved and unsent, and never exceeds the capacity |
| PipeBytes.ReadsInOrder | rust/src/stream.rs:143-189 | what the reader has handed out is a prefix of what was sent, in channel order |
| PipeBytes.EndOfFile | rust/src/stream.rs:98-103 | at most one close is ever sent; at end of file nothing is pending, and exactly the bytes sent ahead of the close have come out |
| PipeBytes.ChunksArePrefixes | rust/src/stream.rs:257-307 | in every run each chunk of a writer on the channel is a non-empty prefix of the argument of the write it was polled with last, and that write was answered with the chunk's size |
| PipeBytes.SingleProducer | rust/src/stream.rs:257-307 | with one producer, the channel carries what its writes were told was taken of their arguments, and nothing else |
| PipeBytes.TextGoesThrough | rust/src/stream.rs:257-307 | a single producer that goes on with the rest of its text after every short write puts that text on the channel from its first byte on, and the reader hands out a prefix of it |
| PipeCalls.WritesWhatFits | rust/src/stream.rs:257-307 | a write that nothing disturbs takes the front of its argument, as much as there is room for and at most 64 KiB, is told so, and changes nothing else |
| PipeCalls.WritesNothingWhenClosed | rust/src/stream.rs:223-246 | on a closed pipe a write ends at once without an effect |
| PipeCalls.ReadsFitTheRoom | rust/src/stream.rs:143-189 | in every run a read hands out no more than it has room for |
| PipeCalls.ReadsGoOn | rust/src/stream.rs:154-188 | a read that is not full returns only where the channel is empty or the close comes next, and hands out as much of a chunk as fits |
| Capture.RetainsFirstBytes | rust/src/capture.rs:37-45 | however a stream is cut into writes, the capture holds its first `limit` bytes, and says whether there were more |
| Capture.CapturesThePipe | rust/src/stream.rs:464-476 | in every run with one producer the capture of what its writes were told was taken is the first `limit` bytes that the channel carried |
| Capture.CapturesTheText | rust/src/stream.rs:464-476 | and it is the first bytes of the text that the producer writes, when it goes on with the rest after every short write |
| Capture.CaptureHandle.Retain | rust/src/capture.rs:37-45 | one retained chunk, on the shared fields |
| Capture.CaptureHandle.AfterWrite | rust/src/stream.rs:464-476 | what the pipe did not accept is not retained |
| Chunked.DecodeChunked | js/bindgen/src/browser_http.rs:1099-1129 | the loop over the shrinking input ends, and computes the recursive decoding |
| Chunked.HasEnd | js/bindgen/src/browser_http.rs:1110-1118 | the search over windows finds the end of the trailers if and only if there is one |
| Chunked.DecodeUndoesEncode | js/bindgen/src/browser_http.rs:1099-1129 | for every list of non-empty chunks and trailers, decoding the chunked coding followed by anything gives the concatenation, and every strict prefix is incomplete (RFC 9112 section 7.1) |
| Chunked.DecodesMessages | js/bindgen/src/browser_http.rs:1099-1129 | every message of chunked form, with any spelling of its size lines, decodes to its data |
| Chunked.DecodedIsMessage | js/bindgen/src/browser_http.rs:1099-1129 | whatever decodes has chunked form: its chunks, last line and tail are recovered |
| Chunked.PrefixesAreIncomplete | js/bindgen/src/browser_http.rs:1102-1125 | a message cut anywhere before the end of its trailers is incomplete, neither accepted nor rejected |
| Chunked.AnswersAreFinal | js/bindgen/src/browser_http.rs:1099-1129 | a success or an error does not change when bytes are appended |
| Chunked.SizeLineIsRead | js/bindgen/src/browser_http.rs:1104-1109 | a size written in hexadecimal, with any extension after a semicolon, is read back |
| ChunkedErrors.BreaksAreInvalid | js/bindgen/src/browser_http.rs:1104-1128 | after any chunks, a line that is no size, or a chunk that does not end where its size says, is an error |
| ChunkedErrors.InvalidIsBroken | js/bindgen/src/browser_http.rs:1104-1128 | and every error is such a break, recovered with the chunks in front of it |
| Spelling.Utf8Exactly | js/bindgen/src/browser_http.rs:1105 | `from_utf8` accepts exactly the encodings of lists of characters, and gives the characters (RFC 3629 section 3) |
| Spelling.TrimExactly | js/bindgen/src/browser_http.rs:1108 | `trim` takes off the white space at both ends, all of it and nothing else |
| Spelling.NumeralsAreParsed | js/bindgen/src/browser_http.rs:1108 | `from_str_radix` reads digits in either case, with or without a plus sign, as their positional value, unless that overflows |
| Spelling.ParsedIsNumeral | js/bindgen/src/browser_http.rs:1108 | and reads nothing else |
| Spelling.SizeLinesAreRead | js/bindgen/src/browser_http.rs:1104-1109 | a size line in any spelling, padded and with any extension, is read as its number |
| HttpResponse.AnswersAreKept | js/bindgen/src/browser_http.rs:1022-1097 | an answer of `parse_response` before the end of the stream is its answer to every extension, ended or not (RFC 9112 section 6.3) |
| HttpResponse.EofAnswers | js/bindgen/src/browser_http.rs:1022-1097 | at the end of the stream there is always an answer |
| HttpResponse.AnsweredByTheBytes | js/bindgen/src/browser_http.rs:773-789 | whatever the guest writes, shuts down or drops, the request is answered at most once, by the parse of the bytes written, and exactly once when writing ends |
| HttpResponse.SplitsAgree | js/bindgen/src/browser_http.rs:872-983 | two ways of writing the same bytes give the same one answer |
| ResponseFraming.EndsWithItsHead | js/bindgen/src/browser_http.rs:1040-1043 | a response to HEAD, or of status 1xx, 204 or 304, is complete with its head and has no body, whatever follows; no prefix is answered (RFC 9112 section 6.3, rule 1) |
| ResponseFraming.EndsWithItsChunks | js/bindgen/src/browser_http.rs:1055-1067 | else one with a chunked coding, spelled in any case, is complete with its last chunk and trailers and has the chunks' data, whatever length is announced (rule 4) |
| ResponseFraming.EndsAfterItsLength | js/bindgen/src/browser_http.rs:1068-1078 | else one with a length is complete after that many bytes, and has them (rule 6) |
| ResponseFraming.EndsWithTheStream | js/bindgen/src/browser_http.rs:1079-1083 | else it is complete at the end of the stream, and has all of it (rule 8) |
| ResponseFraming.FramedIsServed | js/bindgen/src/browser_http.rs:773-789 | however the guest cuts such a message into writes, the request is answered with that response once the message is complete, and not before; it fails if writing ends early |
| ResponseFraming.CodedExactly | js/bindgen/src/browser_http.rs:1055-1059 | a response is chunked if and only if some header is a transfer coding, in any case, whose UTF-8 value has `chunked` in it, in any case |
| ResponseFraming.LengthsAreRead | js/bindgen/src/browser_http.rs:1044-1054 | a length is read from its decimal numeral, padded or not, unless it overflows |
| ResponseFraming.LengthsAreNumerals | js/bindgen/src/browser_http.rs:1044-1054 | and only numerals are lengths |
| ResponseFraming.ForwardsTheOthers | js/bindgen/src/browser_http.rs:1085-1092 | all headers are passed on, in order, but `connection`, `transfer-encoding` and `host` in any case |
| ResponseFraming.BadHeadsAreRefused | js/bindgen/src/browser_http.rs:1029-1054 | a malformed head, one without a status and one whose first length is no numeral fail at once |
| ResponseFraming.WritingEnds | js/bindgen/src/browser_http.rs:957-983 | shutting down writing, both halves, or dropping the socket settles the request and ends the writing for good; shutting down reading alone leaves the response as it is |
| HttpResponse.BrowserHttpSocket.TrySend | js/bindgen/src/browser_http.rs:872-878 | a write is taken whole while the socket is open, and may complete the response |
| HttpResponse.BrowserHttpSocket.Shutdown | js/bindgen/src/browser_http.rs:957-967 | shutting down the writing side ends the response; the reading side does not |
| BrowserNetwork.NetworkState.ListenTcp | js/bindgen/src/browser_http.rs:394-422 | listening succeeds if and only if the network is open and no address it needs is reserved or has a live listener, and then the listener is in the map at exactly the addresses it is there for: its own, or for a wildcard the loopback address of its family, and of IPv4 too for a dual-stack one |
| BrowserNetwork.NetworkState.BindTcp | js/bindgen/src/browser_http.rs:424-452 | binding succeeds under the same condition, and then reserves exactly those addresses; ownership stays disjoint |
| BrowserNetwork.ListenersReach | js/bindgen/src/browser_http.rs:493-512 | which addresses a listener is there for, by family and IPv6-only option |
| BrowserNetwork.ListenThenConnect | js/bindgen/src/browser_http.rs:105-173 | after listening, a connection reaches the new listener if and only if it goes to an address that the listener is there for |
| BrowserNetwork.LoopbacksAre | js/bindgen/src/browser_http.rs:590-611 | the loopback addresses are 127.0.0.0/8 and ::1 |
| BrowserNetwork.NetworkState.Release | js/bindgen/src/browser_http.rs:536-556 | a reservation gives up its own addresses once; a stale release changes nothing |
| BrowserNetwork.NetworkState.ListenBound | js/bindgen/src/browser_http.rs:563-588 | listening on a reservation succeeds if and only if it is still held on an open network; its addresses pass to the listener and to nobody else |
| BrowserNetwork.NetworkState.ConnectBound | js/bindgen/src/browser_http.rs:590-611 | connecting a bound socket succeeds if and only if it holds its reservation, the target is a loopback without egress, and the listener found as by `connect_local` is open; the reservation ends when the connection is made, and only then |
| BrowserNetwork.NetworkState.Close | js/bindgen/src/browser_http.rs:216-240 | closing leaves nothing bound or listening; every live listener this network ever handed out is closed and empty, and every task waiting to accept is woken |
| BrowserNetwork.NetworkState.ConnectLocal | js/bindgen/src/browser_http.rs:105-173 | a connection goes to the network's own listener, else to that of the only eligible peer entry, and fails when there is none or more than one; it is made if and only if that listener is open, and joins the end of its backlog and of no other |
| BrowserNetwork.NetworkState.HandOut | js/bindgen/src/browser_http.rs:411-421 | a listener handed out where nobody listens leaves every live one in the map at each of its addresses |
| BrowserNetwork.NetworkState.FindPeer | js/bindgen/src/browser_http.rs:146-163 | the search answers if and only if exactly one entry is eligible, and tells none from several |
| PeerConnections.ConnectToPeer | js/bindgen/src/browser_http.rs:105-173 | a connection to an address that its own network does not serve is refused if every entry is passed over (itself, a closed network, in an implicit group one with peers of its own, one without a live listener there), is ambiguous if two are not, and else goes to the end of the backlog of the one that is left, unless that is closed |
| BrowserNetwork.NetworkState.DropListener | js/bindgen/src/browser_http.rs:408-414 | dropping the last handle of a listener frees its addresses, and any other drop frees none |
| BrowserNetwork.PeerOrderDoesNotMatter | js/bindgen/src/browser_http.rs:139-163 | the number of eligible entries is the same for every order of the peers |
| BrowserNetwork.WildcardsAreDualStack | js/bindgen/src/browser_http.rs:505-512 | an IPv6 wildcard takes the IPv4 address of its port too, unless it is IPv6 only; nothing else takes two (RFC 3493 section 5.3) |
| BrowserNetwork.ListenerState.Push | js/bindgen/src/browser_http.rs:631-648 | a connection joins the end of an open backlog and wakes every waiting task; a closed listener refuses it |
| BrowserNetwork.ListenerState.PollReadReady | js/bindgen/src/browser_http.rs:660-676 | a task is kept waiting if and only if the listener is open and empty, and is then registered once |
| BrowserNetwork.ListenerState.TryAccept | js/bindgen/src/browser_http.rs:684-690 | connections are accepted in order, none is lost, and a closed listener accepts nothing |
| PackageDefinition.Validate | rust/src/package/definition.rs:132-192 | the checks accept exactly the definitions with sound names, commands on modules that export a start, a listed entrypoint and a conflict-free file map |
| PackageDefinition.CommandsRun | rust/src/package/definition.rs:146-165 | a definition is valid only if the module that each command names is there and exports a start; nothing else is asked of modules and commands but sound names |
| PackageDefinition.NamesAreSpelled | rust/src/package/definition.rs:228-240 | a name is made of letters, digits, `-`, `_`, `.` and `+`, and is neither empty nor a dot or two |
| PackageDefinition.LessExactly | rust/src/package/definition.rs:146-150 | the maps are ordered by bytes: a proper prefix is less, else the first difference decides |
| PackageDefinition.ValidateFiles | rust/src/package/definition.rs:168-190 | the file checks accept exactly the canonical paths of which none is an ancestor of another |
| PackageDefinition.FindAncestor | rust/src/package/definition.rs:181-189 | the walk up a path finds a listed file if and only if one is an ancestor of it |
| PackageFiles.AncestorsArePrefixes | rust/src/package/definition.rs:181-189 | on canonical paths, being an ancestor as a string is being a proper prefix of the list of parts |
| PackageFiles.CanonicalExactly | rust/src/package/definition.rs:170-180 | the canonical paths are a slash and parts with slashes between them, each part not empty, not `.` or `..`, and without backslash or zero; the parts are recovered |
| PackageFiles.BuildFilesystem | rust/src/package/definition.rs:267-290 | building from canonical paths succeeds if and only if the validator accepts them; then each path reads back its bytes, nothing else is a file, and the directories are those on the way to one |
| PackageFiles.FileSystem.CreateDirAll | rust/src/package/definition.rs:278-280 | creating a parent succeeds if and only if no file is in the way, and adds only what is on the way |
| PackageHash.PreimageDecodes | rust/src/package/definition.rs:194-226 | the hashed byte string is decodable: names, digests, commands, entrypoint and files are read back from it |
| PackageHash.EqualPreimages | rust/src/package/definition.rs:61-79 | two validated definitions with the same hashed bytes agree in everything but module contents, and in these up to their digests, after entrypoint inference |
| PackageHash.InferredIsExplicit | rust/src/package/definition.rs:68-73 | an entrypoint left out is inferred if and only if there is exactly one command, as that command, and the hashed bytes are those of the definition that names it |
| PackageHash.ValidIsEncodable | rust/src/package/definition.rs:228-240 | validation rules out the empty name that stands for no entrypoint |
| PackageHash.LengthIsRead | rust/src/package/definition.rs:223-226 | eight little-endian bytes give a length below 2^64 back |
| PackageHash.Hasher.HashDefinition | rust/src/package/definition.rs:196-220 | the updates of the hasher feed it exactly that byte string |
| SingleFlight.OneLiveAcquisition | rust/src/package_progress.rs:368-405 | in every run at most one acquisition per hash is live, and callers that wait for a hash share it |
| SingleFlight.LoadsAreRises | rust/src/package_progress.rs:378-404 | the inner loader was started for a hash exactly as often as its number of holders rose from zero |
| SingleFlight.DroppingOne | rust/src/package_progress.rs:330-341 | a caller that is dropped changes nothing for the rest, and the acquisition lives on if and only if somebody else holds it |
| SingleFlight.AbortedForGood | rust/src/package_progress.rs:336-341 | an acquisition without holders never completes and is never joined again |
| SingleFlight.SharersAgree | rust/src/package_progress.rs:414-422 | callers that shared an acquisition return the same package or the same error |
| SingleFlight.CompletedFirst | rust/src/package_progress.rs:378-404 | an acquisition's outcome is the first that the loader gave for it while somebody held it |
| SingleFlight.CallersReturnTheCompletion | rust/src/package_progress.rs:407-422 | a waiting caller returns once its acquisition has completed, with that outcome, and not before |
| SingleFlight.JoinersWait | rust/src/package_progress.rs:369-405 | who joins waits for the live acquisition of the hash, whether it was there or is begun |
| SingleFlight.HeldIsLive | rust/src/package_progress.rs:372-376 | somebody waits for a hash if and only if its weak reference can be upgraded |
| SingleFlight.SharedPackageLoader.Load | rust/src/package_progress.rs:369-405 | the critical section of `load`, on the map of flights |
| SingleFlight.SharedPackageLoader.RetainLive | rust/src/package_progress.rs:378 | a new flight first drops exactly the dead ones |
| PackageProgress.AggregateIsSound | rust/src/package_progress.rs:235-269 | the total is known if and only if nothing is being resolved, every total is known and the sum fits 64 bits; then received is exact and within it, and the percentage is theirs: from 0 to 100, and 100 exactly when all has come, for totals up to 360287970189640, and never above the double next to 100 |
| Percentage.PercentIsBounded | rust/src/package_progress.rs:46-61 | in doubles, a percentage is never negative and never above the double next above 100 |
| Percentage.PercentIsExact | rust/src/package_progress.rs:46-61 | for totals up to 360287970189640 it is at most 100, and is 100 if and only if all has come |
| Percentage.HundredExactly | rust/src/package_progress.rs:46-61 | for all counts it is 100 if and only if the rounded product is within a 2^47th part of the rounded total from a hundred rounded totals, and more if and only if the product is above that |
| Percentage.HundredIsNear | rust/src/package_progress.rs:46-61 | it is 100 or more only if no double lies between what has come and the total |
| Percentage.AboveHundredExactly | rust/src/package_progress.rs:46-61 | it is above 100 if and only if what has come is the same double as the total, and a hundred times that double is rounded up by more than its 2^47th part |
| Percentage.AllCanBeMoreThanHundred | rust/src/package_progress.rs:43-57 | 360287970189643 bytes of as many are more than the documented 100 percent |
| Percentage.AllCanBeLessThanHundred | rust/src/package_progress.rs:43-57 | all of 360287970189641 bytes, the first total that is not exact, are less than 100 percent |
| Percentage.HundredCanBeEarly | rust/src/package_progress.rs:54-57 | 2^54 bytes of one more are 100 percent already |
| Float64.RoundIsMonotone | rust/src/package_progress.rs:57 | rounding to doubles, ties to even, keeps the order (IEEE 754 section 4.3.1) |
| Float64.RoundFixes | rust/src/package_progress.rs:57 | a multiple of a power of two, with at most 53 bits, is a double |
| Float64.DoublesApart | rust/src/package_progress.rs:57 | two different doubles are at least the 2^53rd part of the greater one apart |
| PackageProgress.CountedOnce | rust/src/package_progress.rs:272-283 | a package that is already listed is not counted again |
| PackageProgress.UpdateIsShown | rust/src/package_progress.rs:223-234 | after an update of a hash the table has that phase and those counts at it, under the identity it had or else the summary's, and every other package is untouched |
| PackageProgress.Progress.TakeSnapshot | rust/src/package_progress.rs:235-269 | the sums of the loop are exact where they fit; the snapshot lists each package as it is, and its phase sums up what it lists: Ready of all or none, Resolving while roots are unresolved, else Downloading or Loading as some package is early or none is |
| PackageProgress.PhaseNeverGoesBack | rust/src/package_progress.rs:254-263 | over a run in which packages only move on and none is added, the aggregate phase never goes back |
| PackageProgress.AnAdditionCanGoBack | rust/src/package_progress.rs:254-263 | a package that is added can take it from Loading back to Downloading |
| PackageProgress.ResolutionAdds | rust/src/package_progress.rs:183-222 | a resolution counts one root less and adds its root, or its local package, and each package to acquire, with nothing known of them; nothing that was there changes |
| PackageProgress.Progress.Resolve | rust/src/package_progress.rs:181-222 | one root fewer is unresolved, and its packages are registered once each |
| PackageProgress.Progress.Update | rust/src/package_progress.rs:223-234 | every listed download keeps a total that is not below what was received |
| PackageProgress.RunObserve | rust/src/package_progress.rs:286-328 | the loop sends what the specification says, and observing does not change the outcome |
| PackageProgress.ReadyIsLastAndTrue | rust/src/package_progress.rs:308-327 | a snapshot in phase Ready is sent at most once, last, and if and only if the work succeeded before a cancellation |
| PackageProgress.ObserverKeepsUp | rust/src/package_progress.rs:316-325 | while the work goes on, a turn sends the present snapshot if and only if something changed and some phase differs from the last one sent, or it is time |
| WispConnection.OneConnectAtATime | js/src/wisp-network.ts:234-290 | in every run at most one `#connect` and one handshake are live, and a pending connection promise always waits for something that can still happen |
| WispConnection.ClosedExactly | js/src/wisp-network.ts:222-232 | over every run, the bridge is closed if and only if its `close` was called |
| WispConnection.ConnectsUndisturbed | js/src/wisp-network.ts:234-360 | at any time before, a call that finds no connection and no pending promise opens one to the configured endpoint; when its handshake succeeds, it is installed and returned |
| WispConnection.InstalledIsCurrent | js/src/wisp-network.ts:292-341 | the installed connection is for `#url`, was opened at the current revision, and if the provider named it, was asked for at that revision; a closed bridge has none |
| WispConnection.InstalledOnlyByOpening | js/src/wisp-network.ts:306-324 | a connection is installed only by its own `onopen`, while it is the one being opened, on an open bridge that has none |
| WispConnection.SupersededIsNeverInstalled | js/src/wisp-network.ts:76-87 | after the endpoint is replaced or the bridge closed, nothing opened before is ever installed, however late it reports |
| WispConnection.CallsJoinOrTry | js/src/wisp-network.ts:234-262 | a call shares what is there; else it tries `#url`, or asks the provider, or fails |
| WispConnection.CallsGoOn | js/src/wisp-network.ts:248-290 | after the provider's answer a call tries that answer, after a failed handshake it asks again, and after a change of endpoint it tries the new one; when it fails is said exactly |
| WispConnection.HandshakesAreReported | js/src/wisp-network.ts:296-339 | a call that waits hears of its own connection: opened and installed, or rejected |
| WispConnection.ReturnedWasInstalled | js/src/wisp-network.ts:318-324 | in every run a call returns only a connection that was the installed one |
| WispConnection.TriedAsAnswered | js/src/wisp-network.ts:256-276 | in every run an endpoint tried as the provider's answer is the validated form of one that the provider named |
| WispConnection.ClosesItself | js/src/wisp-network.ts:328-339 | a close uninstalls its own connection, and no other |
| WispConnection.ReplacingDrops | js/src/wisp-network.ts:76-87 | replacing the endpoint takes its validated form and drops both connections; an invalid one changes nothing |
| WispConnection.WispNetworkBridge.SetUrl | js/src/wisp-network.ts:76-87 | replacing the endpoint drops the open and the opening connection |
| WispConnection.WispNetworkBridge.Connect | js/src/wisp-network.ts:248-290 | the retry loop of `#connect` between two awaits |
| WispConnection.WispNetworkBridge.OnOpen | js/src/wisp-network.ts:306-324 | a handshake is accepted if and only if it is the one under way on an open bridge |
| WispConnection.WispNetworkBridge.OnClose | js/src/wisp-network.ts:328-339 | a close before the handshake rejects it, a later one uninstalls its own connection only |
| Readiness.ReadinessIsNotLost | js/bindgen/src/node_network.rs:199-266 | in every run of an open bridge, a task parked on an open socket is woken, being woken, or in the waker list; and once its level has come an event that takes the list is to be emitted or retried |
| Readiness.AWakeIsNear | js/src/wisp-network.ts:356-361 | from every such state a path of at most three steps wakes the task, each a step that carries: the end of a critical section, the emission of an owed event, or the call of a waker |
| Readiness.TheLockIsReleased | js/bindgen/src/node_network.rs:134-149 | an attempt that finds the handler lock held changes nothing, and the holder's next step releases it |
| Readiness.WritersNeverWait | js/src/wisp-network.ts:199-202 | on a WISP bridge no task ever waits for room |
| Readiness.ClosingIsSilent | js/src/wisp-network.ts:185-191 | closing a socket makes its level ready, and leaves waker lists, tasks and events to come as they were; the stream's own close announces it |
| Readiness.ServedAfterClosing | js/src/wisp-network.ts:185-191 | in every run of an open bridge, a reader whose socket is closed under it is still served right after if and only if before the close it was roused or an event for the socket was to come |
| Readiness.ServedEverAfter | js/src/wisp-network.ts:185-191 | if it sleeps, it stays served over every continuation without a removal of the entry or a close of the bridge under the same condition, never more than three carrying steps from being woken; without such an event, none comes in any continuation unless the stream reports its own close |
| Readiness.ClosingTheBridgeIsSilent | js/src/wisp-network.ts:222-232 | after `close` every level is ready, and a sleeping task can still be woken if and only if it was roused before |
| Readiness.AReaderCanBeLeftAsleep | js/src/wisp-network.ts:185-191 | a run in which a reader sleeps on a socket closed under it, with no wake to come |
| Readiness.HandlerMap.Register | js/bindgen/src/node_network.rs:199-211 | a task is in the list once registered, and once only |
| Readiness.HandlerMap.Unregister | js/bindgen/src/node_network.rs:213-230 | only this waker leaves this list; an entry goes when nothing is left in it |
| Readiness.HandlerMap.Notify | js/bindgen/src/node_network.rs:134-170 | a notification takes exactly the lists its event names, or asks to be repeated and changes nothing |
| ReadinessCalls.ReadyPollsAnswer | js/bindgen/src/node_network.rs:232-266 | a poll that nothing disturbs and that finds the level ready answers, and leaves no waker of its task in that list, nor a change in any other |
| ReadinessCalls.OtherPollsPark | js/bindgen/src/node_network.rs:232-266 | one that does not puts its waker into that list, looks again, and is pending |
| ReadinessCalls.RegisteringAdds | js/bindgen/src/node_network.rs:199-211 | a registered waker stands at the end of its list, once; no other list and no handler changes |
| ReadinessCalls.UnregisteringRemoves | js/bindgen/src/node_network.rs:213-230 | exactly this waker leaves exactly this list, and the entry stays if and only if it has a handler or another waker |
| ReadinessCalls.HandlersComeAndGo | js/bindgen/src/node_network.rs:172-197 | setting and clearing a handler change no list; clearing it drops the entry if and only if no waker is left in it |
| ReadinessCalls.EventsTake | js/bindgen/src/node_network.rs:134-170 | data takes the readers, room the writers, an end or a failure both, of the event's socket and of no other, and all of them are called |
| ReadinessCalls.HandlerCallsOperate | js/bindgen/src/node_network.rs:172-197 | a handler call is one critical section: the map afterwards is the operation's, the lock is free and the task as it was |
| ReadinessCalls.LevelsAre | js/src/wisp-network.ts:127-202 | a socket becomes readable by a message that is not empty, by its stream's end and by its close, and stops being so when the last unread byte of an open stream is read |
| ReceiveQueue.QueuesAreFifo | js/src/node-network.ts:146-169 | in every run, what was read is the front of what arrived, by a tally of the events alone: WISP messages are taken until one does not fit 16 MiB unread, which ends the stream; the queue holds the rest, and a read answers with the next bytes, the end, or nothing yet |
| ReceiveQueue.MessagesAreRead | js/src/wisp-network.ts:127-139 | WISP messages that fit are all read, in order |
| ReceiveQueue.WatermarksHold | js/src/node-network.ts:229-240 | a paused socket holds more than 256 KiB unread, so draining it always resumes it, and one that is not paused less than 1 MiB; a WISP queue never holds more than 16 MiB |
| ReceiveQueue.ReadTakesOldest | js/src/wisp-network.ts:152-172 | a read gives the oldest unread bytes, as many as were asked for or are there, and tells the end from nothing yet |
| ReceiveQueue.ReadLoop | js/src/node-network.ts:153-164 | the loop over chunks, empty ones included, ends with the bytes wanted and the rest in place |
| ReceiveQueue.SocketState.SocketRead | js/src/node-network.ts:146-169 | the read on the socket's fields |
| ReceiveQueue.SocketState.OnData | js/src/node-network.ts:229-240 | arriving data is queued, and pauses the socket at 1 MiB |
| ReceiveQueue.SocketState.OnMessage | js/src/wisp-network.ts:127-139 | a message that would overflow ends the stream and is not queued |
| ReceiveQueue.ComesThrough | js/src/node-worker-adapter.ts:202-247 | a result crosses the mailbox unchanged if and only if it fits; else an error text does, and only error texts are cut |
| ReceiveQueue.ReadsComeThrough | js/src/node-network-rpc.ts:7-16 | the mailbox sized for a read has room for its answer, so no byte taken from the queue is lost |
| ServiceWorker.OneRouteServes | js/src/service-worker.ts:104-113 | in every run the only route with an open port is the active one |
| ServiceWorker.NeverDisplaced | js/src/service-worker.ts:80-147 | the active route stays until its own host closes it |
| ServiceWorker.OneRegistrationWins | js/src/service-worker.ts:88-100 | at most one registration owns an open route; one that can resume while a route is active is refused, and otherwise becomes the active route |
| ServiceWorker.SettledOnce | js/src/service-worker.ts:161-239 | in every run, a forwarded request that is not pending any more has been settled once if no unconstructible reply came for it while it was pending, and never if one did; while pending it is in its route's map with a live timer that would settle it |
| ServiceWorker.LostExactly | js/src/service-worker.ts:215-238 | a request is taken off its route without being settled if and only if, at some point of the run, a reply named it while it was pending of which no response can be made (Fetch Standard, section 5.5: a status outside 200 to 599 is a RangeError) |
| ServiceWorker.ARequestCanBeLost | js/src/service-worker.ts:215-238 | a run that gets there: the reply has status 101, and the request has neither timer nor settlement left |
| ServiceWorker.SettledForGood | js/src/service-worker.ts:202-251 | how a request was settled never changes, and a lost one is settled by no reply, timer or close |
| ServiceWorker.SettledAsItHappened | js/src/service-worker.ts:161-251 | in every run a request is answered, failed, timed out or closed if and only if, while it was pending, a good reply, an error, its own timer or the close of its route came |
| ServiceWorker.FetchesFollowRecovery | js/src/service-worker.ts:149-159 | a fetch goes to the active route at once, else waits for the one recovery and goes where that leads, or to the network |
| ServiceWorker.RegistrationsWait | js/src/service-worker.ts:88-90 | a registration waits for the one recovery under way, or for a new one, unless a route is active |
| ServiceWorker.DiscoveriesAskAll | js/src/service-worker.ts:125-147 | a discovery ends only when every host it asked has answered or been given up, with the route active then; a host's route becomes active if and only if none is |
| ServiceWorker.StrayRepliesChangeNothing | js/src/service-worker.ts:202-218 | replies and timers for a request that is not pending change nothing |
| ServiceWorker.ClosingSettlesAll | js/src/service-worker.ts:241-251 | closing settles every request pending on the route, and no other |
| ServiceWorker.LateRequestsOnlyTimeOut | js/src/service-worker.ts:161-174 | over every continuation of a run, a request that is pending on a closed route stays pending until its own timer, which settles it |
| ServiceWorker.ARequestCanBeLate | js/src/service-worker.ts:161-251 | a run that gets there: the route closes between the fetch and the end of its body |
| ServiceWorker.Worker.SettlePending | js/src/service-worker.ts:245-249 | the loop of `closeRoute` settles each pending request once |
| ServiceWorker.Worker.Close | js/src/service-worker.ts:241-251 | a close names the active route or does nothing |
| ServiceWorker.Worker.ResumeRegistration | js/src/service-worker.ts:88-100 | the end of a registration after recovery, in one turn |
| ServiceWorker.Worker.ReceiveResponse | js/src/service-worker.ts:202-239 | a response settles the pending request it names on its own route; one that cannot be constructed takes it off its route and settles nothing |
| ServiceWorker.Worker.ReceiveHost | js/src/service-worker.ts:136-143 | a host's answer becomes the active route only while there is none |
| Mailbox.RepliesMatch | js/src/host-filesystem.ts:33-57 | whatever calls, replies, timeouts and stale notifications came before, a call returns the host's reply to that call |
| Mailbox.ReusedOnlyWhenConsumed | js/src/host-filesystem.ts:35-49 | a call takes over a buffer only when every earlier call on it has returned its reply |
| Mailbox.BuffersAreTimeouts | js/src/host-filesystem.ts:23-26 | there is at most one buffer more than there were timeouts |
| Mailbox.RepliesWake | js/src/host-filesystem.ts:43-51 | a worker whose reply was stored is awake, or the notification that wakes it is still to come |
| Mailbox.StoredRepliesReturn | js/src/host-filesystem.ts:52-56 | a stored reply ends the call at its next check |
| Mailbox.StaleWakesAreHarmless | js/src/host-filesystem.ts:41-43 | a notification for an older reply ends no call |
| Mailbox.WakesItsOwn | js/src/host-filesystem.ts:41-43 | in every run, a notification wakes a worker that sleeps on its buffer, and no other |
| Mailbox.RepliedCallsReturn | js/src/host-filesystem.ts:33-78 | a reply in its four steps and a check end the call with it, whether the worker slept or not |
| Mailbox.CallsStartClean | js/src/host-filesystem.ts:33-39 | a call is posted on a clean buffer, the kept one if there is one |
| Mailbox.TimeoutsGiveUp | js/src/host-filesystem.ts:44-50 | a timeout ends the call and gives its buffer up |
| Mailbox.SleepsWhileClear | js/src/host-filesystem.ts:43-45 | the worker sleeps only while no reply is stored |
| Mailbox.Stored | js/src/host-filesystem.ts:61-73 | a reply that is too long becomes an error that fits |
| Mailbox.ResponseBuffer.Respond | js/src/host-filesystem.ts:61-78 | the reply as written into the shared buffer, over whatever was there |
| Mailbox.ResponseBuffer.Exchange | js/src/host-filesystem.ts:33-78 | over a used buffer, what is consumed is the reply that was stored |
| ProcessExit.FirstRequestStays | rust/src/process.rs:540-548 | over every run the first request on record is never replaced, so an escalated terminate still reports a terminate |
| ProcessExit.WaitsAgree | rust/src/process.rs:304-350 | however requests, exit and waits race, every wait that returns gives the same output |
| ProcessExit.ReasonsAreTrue | rust/src/process.rs:540-558 | a process is reported as terminated or timed out only for a request that found it running, with that request's code, and otherwise with its own |
| ProcessExit.WaitsReport | rust/src/process.rs:304-350 | the first wait that finds the exit reports what is on record, 143 or 137, or else the process's own code; later waits repeat it |
| ProcessExit.RequestsGoThrough | rust/src/process.rs:486-534 | an undisturbed request on a running process is recorded if none was, sends its own signal and closes the input; on an exited one it does nothing |
| ProcessExit.EffectsHaveCauses | rust/src/process.rs:486-534 | in every run a signal was sent, the input closed or the process ended only by a request that got that far, or by the guest |
| ProcessExit.RequestsAreCarriedOut | rust/src/process.rs:486-514 | a request that is through found the process exited, or has sent its own signal and closed the input, even when another was on record first |
| ProcessExit.ExitInTheWindow | rust/src/process.rs:540-548 | the exit between check and record is reported as the request's, unless somebody waited first |
| ProcessExit.ProcessControl.RecordExitIfRunning | rust/src/process.rs:540-548 | the record is written once, and only while the process runs |
| ProcessExit.ProcessControl.Carry | rust/src/process.rs:486-534 | one request without interruption, and what it leaves alone |
| ProcessExit.ProcessControl.TryWait | rust/src/process.rs:335-350 | the output is fixed by the first wait that finds the process exited |
| ProviderFile.LengthIsTracked | rust/src/provider_fs.rs:754-859 | the handle's length stays its file's length over an operation if and only if that is neither an empty write past the end, nor one by which a failing provider or another handle changes the size of the file |
| ProviderFile.SettingRestores | rust/src/provider_fs.rs:850-859 | a `set_len` that succeeds makes the length right, however wrong it was |
| ProviderFile.OpensTracked | rust/src/provider_fs.rs:568-594 | a handle starts with the right length if and only if the file is opened empty or `stat` answered its size, a failed `stat` counting as zero; only then does an append start at the end |
| ProviderFile.AnEmptyWriteStretchesTheLength | rust/src/provider_fs.rs:782-784 | the operations that make the two differ, from an empty file |
| ProviderFile.WritesAreSequential | rust/src/provider_fs.rs:755-785 | however little of each chunk the provider takes, the file holds what was taken, from the first cursor on, and nothing else changed |
| ProviderFile.ReadsAreSequential | rust/src/provider_fs.rs:729-751 | however short the reads are, they hand out the file from the cursor on without gap or repetition |
| ProviderFile.WrittenIsRead | rust/src/provider_fs.rs:804-818 | what was written is read back after seeking back by its length |
| ProviderFile.SeeksGo | rust/src/provider_fs.rs:804-814 | where each kind of seek goes, the end being the file's |
| ProviderFile.FailuresAre | rust/src/provider_fs.rs:729-859 | when reads, writes and lengths fail, and with which error |
| ProviderFile.SettingCutsOrFills | rust/src/provider_fs.rs:850-859 | a length that is set cuts the file or fills it with zeros |
| ProviderFile.ProviderFile.PollWrite | rust/src/provider_fs.rs:755-785 | the checks of a write in order, and its effect on content, cursor and length |
| ProviderFile.ProviderFile.SetLength | rust/src/provider_fs.rs:850-859 | the length follows the provider only when it succeeds |
| ProviderFile.ProviderFile.constructor | rust/src/provider_fs.rs:568-594 | the length and cursor a handle is opened with |
| ProviderFile.ProviderFile.StartSeek | rust/src/provider_fs.rs:804-814 | a target outside 64 bits is refused and moves nothing |
| DirectoryTree.RemoveTree | rust/src/provider_fs.rs:490-509 | wherever the filesystem fails: removal succeeds if and only if there is a directory that can be listed and nothing fails below it, and then nothing is left below; otherwise it stops halfway, with a tree, nothing gone but what was below, and no node gone at which it fails; the files left keep their bytes |
| DirectoryTree.RemoveAll | rust/src/provider_fs.rs:499-507 | the loop over the children, in any order, with its recursion, up to the first failure; the outcome does not depend on the order |
| Lines.LinesJs | js/src/index.ts:1555-1566 | the TypeScript loop yields the lines of the whole text, however it was cut, also between CR and LF |
| Lines.LinesPy | python/src/wasmer_sdk/_api.py:504-520 | the Python loop yields the lines of the whole text, however it was cut |
| Lines.BothAgree | js/src/index.ts:1555-1566 | the two loops yield the same on the same text, cut differently for each |
| Lines.LinesAreTerminated | js/src/index.ts:1555-1566 | the lines are what the line ends terminate, and what comes after the last unless that is empty |
| Lines.SplitUndoesJoin | js/src/index.ts:1560 | splitting at `\r?\n` gives back any pieces joined by line ends |
| Lines.JoinUndoesSplit | js/src/index.ts:1560 | every text is its pieces joined by line ends: nothing else is lost |
| ShellQuoting.RoundTrip | js/src/index.ts:1692-1701 | the shell reads an escaped array as exactly its words, every character of them literal (POSIX.1-2017, XCU sections 2.2.1 and 2.2.2) |
| ShellRules.SingleQuotesQuote | js/src/index.ts:1699-1701 | the rule that escaping relies on: between single quotes every character is literal, wherever nothing is quoted before (XCU section 2.2.2) |
| ShellRules.CommentsGo | js/src/index.ts:767-773 | at the start of a word `#` hides the text up to the next newline, inside a word it is a character (XCU section 2.3) |
| ShellQuoting.ValuesAreData | js/src/index.ts:767-773 | a template whose values stand in the open, outside quotations and comments and in text that is followed, is read as its literal parts with the values spliced in as data |
| ShellQuoting.DataExactlyInTheOpen | js/src/index.ts:1699-1701 | as far as the text is followed, an escaped value is data for every value if and only if nothing is quoted where it stands, no dollar sign precedes it and no comment is open |
| ShellQuoting.BeyondStays | js/src/index.ts:767-773 | after text that is not followed no place counts as open, so nothing is claimed there |
| ShellQuoting.ClosedSubstitutionsAreNotOpen | js/src/index.ts:767-773 | a value behind `$(x)#` and a quote does not count as open: the shell has no comment there |
| ShellQuoting.CommentedValueIsRead | js/src/index.ts:767-773 | in a comment, whatever a value has after its first newline is read as shell text (XCU section 2.3) |
| ShellQuoting.ACommentedValueRuns | js/src/index.ts:767-773 | such a template and value, and the command that comes of them |
| ShellQuoting.Sh | js/src/index.ts:767-773 | the loop of `sh` builds the template's script |

## Left out

- Weak memory ordering: atomics are sequentially consistent steps, `AtomicWaker` is an atomic register and take, `SegQueue` an atomic push and pop.
- The pipe as an object updated in place: its calls interleave access by access, so it is a machine over values; that each call's Rust code performs those accesses in that order is read off the source.
- Wakeups of the pipe's reader: they are those of Tokio's channel.
- Library internals: the header parser (assumed to keep an answer when bytes are appended), SHA-256 and its collisions, WebAssembly parsing, `virtual_fs`, WASIX, wisp-js, the DOM and Node's sockets.
- Machine overflow of `size + 2` in `decode_chunked`: sizes are mathematical integers there.
- Incremental UTF-8 decoding: the line splitters take decoded text, and a last output without a newline.
- BrowserNetwork.NetworkState.ConnectLocal: each critical section of `connect_local` is atomic, but the peers it visits are not changed between them.
- BrowserNetwork.NetworkState.Close: likewise, the listeners it shuts one after another are not changed by others meanwhile.
- The host document (js/src/service-worker-host.ts): what it sends to the service worker is arbitrary; its own `routes` set is not modelled, nor a worker that is stopped and started anew.
- Readiness on the Node bridge: it ignores the answer that asks for a retry, so no such result holds there. The interest handlers of WASIX are modelled only as far as they keep an entry in the map.
- An old WISP connection that closes late and ends newer sockets: the code allows it, and no result here excludes it.
- ServiceWorker.SettledOnce: replies are an error or a status with headers that are accepted or not; a request body that cannot be read and a discovery that throws end their own promise before anything is forwarded, and are not modelled.
- PackageDefinition.Validate: the module that a caller has checked already skips parsing in the source (`checked_module`); here parsing is a parameter, and such a module is one for which it answers that there is a start.
- Updates of a shared acquisition (`watch` values) and the `select` in `load`: only joining, completing, returning and dropping are modelled.
- ShellQuoting.DataExactlyInTheOpen: makes no claim after text that the lexer does not follow: a backquote, a here-document, arithmetic, a substitution inside double quotes, an expansion in braces with more than a name, a parenthesis inside a word, a `#` directly after a closing parenthesis (a comment after a subshell or a pattern, and none after a substitution), and a dollar sign before what is no parameter (XCU section 2.6 leaves that open). Expansions, aliases and reserved words are not interpreted, and the word around a substitution counts as cut at its parentheses.
- Percentage.PercentIsBounded: doubles that are negative, infinite or not a number do not arise from 64-bit counts, and are not modelled; nor is another rounding mode.
- Terminal input of rust/src/process.rs and the path adapter of rust/src/provider_fs.rs: forwarding that would only add easy members.
- DirectoryTree.RemoveTree: a call on a node that fails is taken to change nothing; another task that changes the tree meanwhile is not modelled.
- The grace period of `terminate` and the deadline of `kill_on_timeout`: timers may fire at any time, so when an escalation is requested is arbitrary.
- Glue between languages, the Swift and Python wrappers, the editor, the loading screen, examples and build scripts.
