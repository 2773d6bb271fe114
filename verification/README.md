# A verified model of tlstester

`tlstester` probes TLS endpoints: it collects targets from several inputs, runs
a pipeline of probes against each of them in a pool of workers, and turns the
results into reports and an exit code. This project models the parts of it that
carry algorithms and proves what they guarantee.

| file | models |
|---|---|
| `WorkerPool.dfy`, `PoolInvariant.dfy`, `PoolTheorems.dfy`, `PoolWorstCase.dfy`, `PoolRun.dfy` | `RunDiagnostics`: producer, workers, closer and collector as a step system over every interleaving and every moment of cancellation, its invariant, its theorems, and the same steps on mutable state |
| `BigEndian.dfy`, `Der.dfy`, `SctList.dfy`, `SctTheorems.dfy` | the certificate-transparency parser, the DER OCTET STRING around its input, and the serializer it must invert |
| `GoStrings.dfy`, `Connections.dfy`, `Socks5.dfy` | the SOCKS5 client over a byte stream in fragments, with the address functions it uses |
| `Network.dfy`, `Probes.dfy`, `Pipeline.dfy` | dialling, the TLS probe, the scan, the session test and `ExecuteTarget` in a scripted environment, with a ledger of the sockets opened, those open and those whose handshake failed |
| `Targets.dfy`, `Ingestion.dfy`, `IngestionTheorems.dfy`, `ParseTargets.dfy` | target ingestion and deduplication, source by source and over the whole configuration |
| `ExitCode.dfy` | exit-code resolution |
| `Prelude.dfy`, `Counting.dfy` | shared vocabulary and counting lemmas |

How the pool is modelled. `ExecuteTarget` runs at most once for an index
(`ExecutedOnce`), so a run fixes a function from indices to the results it
yields in that run; two runs are compared under the same function. An exited
worker remembers the index it was carrying. A send on a closed channel, a second close and an index out of range
are steps to a panicked state, which the invariant shows unreachable. A slot of
the result slice that was never written is `None`, standing for Go's zero value.

How the network is modelled. An environment, arbitrary but fixed for the run, says
how every look at the context, every lookup and every connection attempt turns out:
the fragments the peer sends, how many writes succeed, the CONNECT exchange, the TLS
handshake and the close, and the outcomes of the HTTP and QUIC probes. Which of two
ready events a `select` sees and whether a cancelled context closes a socket in time
are left to chance. Closing releases the socket even when it reports an error. Functions such as
`Reach`, `SessionTest` and `Survivor` say what a call finds in an environment when it
is not cancelled; the methods are proved to do that, and to keep the ledger in order
whatever happens. `ReachConnects`, `SessionIs`, `SctsReported`, `VersionReport`,
`FallbackReport` and `TargetReport` say the same in terms of the attempts themselves:
which of them works, and what its script holds.

## Where the code and its documentation differ

- runner.go:209-212 speaks of trimming to the received results. It keeps the first
  `received` slots, which after a cancellation need not be the received ones.
  `HolesPossible` says how many may be missing, `TrimReliable` for which
  configurations none can be: those with one effective worker.
- probes/tls.go:216-221 falls back to the raw bytes when unwrapping fails. A bare
  list can also unwrap by accident; `RawUnwraps` says for which lists.
- DESIGN.md, section 2.2, says raw sockets are closed on failure. A failed handshake in
  `TestSessionResumption` returns without closing (probes/scan.go:119-135).
  `ExecuteTarget` says through `Survivor` exactly which socket survives an
  uncancelled call, `LeakPossible` for which settings one can.
- DESIGN.md, section 3.1, has exit code 1 whenever a target fails; the code answers 5 when
  some targets pass (cmd/tlstester/main.go:193-200).
- A negative `-retries` is accepted (cmd/tlstester/main.go:64). TCP then makes no
  attempt and may return neither connection nor error, and the caller goes on with the
  missing connection; `ExecuteTarget` says exactly when that panics.
- A port of a URL may exceed 65535 (target.go:108-114); `WrittenPort` gives the bound.
- The deferred close error at runner.go:317-321 is assigned after the result was
  copied, so it reaches no caller; neither does the one in the model.

## Model

| member | source | states |
|---|---|---|
| PoolTheorems.ReachableInv | runner.go:149-207 | every state of every run satisfies the pool invariant: contiguous FIFO queue, each index in one place, results travelling with their index, counts that add up |
| PoolTheorems.CancellationAccounting | runner.go:153-207 | in every reachable state each index is in exactly one of: not produced, queued, carried by a worker, in the result channel, received, lost; and an index is lost only after a cancellation |
| PoolTheorems.ReturnTally | runner.go:175-207 | at return the received results are the dequeued items minus those the exited workers dropped, at most one each |
| PoolTheorems.ChannelDiscipline | runner.go:153-200 | no run sends on or closes a closed channel or overruns a buffer; at return all workers have exited and the producer is done or the context cancelled |
| PoolTheorems.Progress | runner.go:144-207 | a pool that has not finished always has a step other than cancellation, also with both channels full |
| PoolTheorems.Termination | runner.go:144-207 | every run has at most 6N + W + 4 steps; a complete run without cancellation has exactly 6N + W + 3 |
| PoolTheorems.ExecutedOnce | runner.go:179-184 | two executions begun in one run, whatever lies between them, are of different indices |
| PoolTheorems.NoLateStart | runner.go:180-183 | once the context is cancelled no execution is begun any more |
| PoolTheorems.CancelledExits | runner.go:153-193 | once cancelled, the producer can stop, a worker holding a target can only give it up and one with a result can drop it, whatever the channels hold |
| PoolTheorems.CompleteRun | runner.go:132-214 | a returned run that was never cancelled yields every target's result in input order |
| PoolTheorems.ScheduleIndependence | runner.go:149-214 | two such runs agree whatever their worker counts and completion orders |
| PoolTheorems.SlotsCollected | runner.go:201-207 | a slot is filled if and only if the run received the result of its index, and `received` counts the receptions |
| PoolTheorems.Returned | runner.go:201-214 | a returned run hands back as many slots as it received results, slot i holding the result of index i if that was received and nothing otherwise |
| PoolTheorems.TrimCounting | runner.go:201-212 | the slice has `received` slots, each filled slot at its own index; empty slots kept equal results cut off, are fewer than the workers and at most half of the targets |
| PoolTheorems.TrimExact | runner.go:209-212 | of one run: its slice is the ordered results of a prefix of the input if and only if no index below the cut was dropped |
| PoolTheorems.SingleWorkerPrefix | runner.go:165-212 | with one effective worker a run cancelled anywhere returns exactly the ordered results of a prefix |
| PoolWorstCase.TrimReliable | runner.go:165-212 | of a configuration: every run returns the ordered results of a prefix, as documented, if and only if one worker is started, that is, at most one was asked for or there is one target |
| PoolWorstCase.HolesAttained | runner.go:165-212 | for every configuration and every h below the worker count and at most half of the targets, some run receives h results and returns nothing but h empty slots |
| PoolWorstCase.HolesPossible | runner.go:165-212 | h empty slots are possible if and only if h is below the worker count and at most half of the targets; for h above 0 the count asked for decides |
| PoolRun.Pool.constructor | runner.go:149-150 | the initial pool |
| PoolRun.Pool.ProducerStep | runner.go:153-163 | the producer's effect on the channel is the specified one |
| PoolRun.Pool.WorkerStep | runner.go:175-193 | each worker action has the specified effect on the worker and both channels |
| PoolRun.Pool.CloserStep | runner.go:196-199 | the closer closes the result channel |
| PoolRun.Pool.CollectorStep | runner.go:202-207 | a received result is written in place to its own slot and counted |
| PoolRun.SchedulerExists | runner.go:144-207 | some scheduler always finds a step and never needs to cancel |
| PoolRun.RunDiagnostics | runner.go:134-215 | under every scheduler the call returns the outcome of the run it made: as many slots as results received, each with its own result exactly when that was received; complete and ordered unless cancelled, an ordered prefix with one worker, fewer holes than workers otherwise; an empty input gives an empty result |
| BigEndian.ShiftOr | probes/tls.go:181 | shifting left by 8 and or-ing a byte multiplies by 256 and adds it while the top byte is free |
| BigEndian.ToInt64 | probes/tls.go:183 | the conversion stays congruent modulo 2^64, in the signed range, and is the identity exactly below 2^63 |
| SctList.ReadTimestamp | probes/tls.go:179-182 | the loop computes the big-endian value of its eight bytes |
| SctList.ParseSct | probes/tls.go:170-191 | an SCT of at least 43 bytes is decoded, a shorter one refused |
| SctList.HexInjective | probes/tls.go:176 | different log-id prefixes print differently |
| SctList.HexDigits | probes/tls.go:176 | two digits of 0-9A-F for each byte, the high one first |
| SctList.ParseElements | probes/tls.go:232-248 | the position loop terminates on arbitrary bytes and yields what the recursive splitter's elements decode to |
| SctList.ParseSctList | probes/tls.go:211-249 | the whole parser refines its recursive form, error returns included |
| SctList.ParseEmbedded | probes/tls.go:194-207 | the first extension with the SCT list identifier decides; without one there are no SCTs |
| Der.UnwrapWrap | probes/tls.go:216-221 | unwrapping inverts wrapping, whatever bytes follow |
| Der.WrapUnwrap | probes/tls.go:216-221 | only the DER wrapping of its contents unwraps |
| SctTheorems.SctRoundTrip | probes/tls.go:168-191 | decoding an encoded SCT gives its version, log and time, the time turning negative from 2^63 on |
| SctTheorems.SplitSerialized | probes/tls.go:227-247 | splitting a serialized list gives back its elements, whatever bytes follow |
| SctTheorems.ListRoundTrip | probes/tls.go:211-249 | for every list whose serialization fits 65535 bytes, wrapped and followed by anything, exactly the elements of at least 43 bytes come back, in order |
| SctTheorems.CertificateRoundTrip | probes/tls.go:211-249 | every SCT structure encoded into a certificate is reported with its version, log and time |
| SctTheorems.DecodedAre | probes/tls.go:243-246 | of any elements exactly those of at least 43 bytes are reported, one each, in order, with the given source |
| SctTheorems.WindowsTile | probes/tls.go:232-247 | on arbitrary bytes the elements ascend without overlap, fit the buffer, begin inside the declared list, and only the last may reach past it |
| SctTheorems.WindowsMeasured | probes/tls.go:236 | the two bytes in front of an element are its length |
| SctTheorems.WindowsMaximal | probes/tls.go:232-242 | reading stops only at the declared end or at an element that does not fit the buffer, and keeps what precedes it |
| SctTheorems.ElementIs | probes/tls.go:243 | the elements are the bytes at those places |
| SctTheorems.CutOff | probes/tls.go:223-230 | data shorter than its declared list yields nothing |
| SctTheorems.WindowsInsideList | probes/tls.go:227-247 | elements stay inside a declared list that fills the buffer |
| SctTheorems.CountBound | probes/tls.go:170-173 | 45 times the number of SCTs is at most the unwrapped length minus 2 |
| SctTheorems.ReachPastEnd | probes/tls.go:240 | a concrete buffer whose only SCT lies past its declared list and is accepted |
| SctTheorems.RawUnwraps | probes/tls.go:216-221 | a bare serialized list passes for an OCTET STRING if and only if its body has 1024 to 1151 bytes, or 1154 with a first element of at least 256 |
| SctTheorems.RawAgreement | probes/tls.go:216-221 | every other list parses alike bare and wrapped |
| SctTheorems.MisreadAs | probes/tls.go:216-221 | what is taken for the contents then: the front of the body, 1024 bytes shorter, or the first element |
| SctTheorems.RawLost | probes/tls.go:216-229 | a bare list with a body of 1024 to 1151 bytes parses to nothing when its first element does not fit those contents |
| SctTheorems.RawLostExactly | probes/tls.go:216-229 | such a list parses alike bare and wrapped if and only if none of its elements is an SCT |
| SctTheorems.RawCrowded | probes/tls.go:216-247 | every misread list with more SCTs than the supposed contents have room for, at 45 bytes each, loses some |
| SctTheorems.RawDisagrees | probes/tls.go:216-221 | a concrete list of one SCT for which bare and wrapped differ |
| GoStrings.AtoiItoa | probes/tcp.go:140 | reading a printed number gives it back within 64 bits and fails outside |
| GoStrings.SplitJoin | probes/tcp.go:136 | splitting a joined address gives back every bracket-free host, colons included, and the port |
| GoStrings.AtoiSyntax | target.go:109 | a number is an optional sign and digits, and its decimal value |
| GoStrings.SplitPieces | target.go:228-229 | no piece holds the separator, and joining the pieces with it gives back the string |
| GoStrings.TrimSpaceIs | target.go:206 | only blanks are cut off, at both ends, and none is left there |
| GoStrings.ContainsIs | target.go:89 | true if and only if the substring occurs |
| Connections.Conn.ReadFull | probes/tcp.go:154 | reads exactly n bytes across fragments, or everything there is and fails |
| Connections.CloseConnWithError | probes/tcp.go:33-41 | closes, and appends the close error to the original when there is one |
| Socks5.Negotiate | probes/tcp.go:149-166 | greeting, its reply and the request, as specified on the stream |
| Socks5.ReceiveReply | probes/tcp.go:168-191 | the reply is judged and taken off the stream as specified |
| Socks5.Handshake | probes/tcp.go:135-194 | the exchange depends on the server's bytes and not on their fragmentation; an error closes the connection, success leaves it open |
| Socks5.StreamExactness | probes/tcp.go:149-193 | against an accepting server exactly the two replies are consumed and the tunnel's bytes remain |
| Socks5.AcceptedOnlyThen | probes/tcp.go:153-193 | conversely, success with address type 1, 3 or 4 means the server sent 05 00 and one complete success reply; with any other type only four reply bytes are read |
| Socks5.AcceptedExactly | probes/tcp.go:135-193 | the exchange succeeds if and only if the target can be named, two writes get through, and the server sends 05 00 and a reply with code 0 that is complete unless its address type is unknown |
| Socks5.NeverEarly | probes/tcp.go:149-166 | on every stream at most the greeting and the request are sent, and the request only after 05 00 |
| Socks5.RequestDecodes | probes/tcp.go:159-162 | the request has 7 + len(host) bytes and decodes to the host and port it was made for |
| Socks5.AddressFidelity | probes/tcp.go:46 | host and port survive joining, splitting, encoding and the server's decoding |
| Socks5.AddressRefused | probes/tcp.go:140-147 | a host over 255 bytes or a port outside 16 bits is refused with nothing sent |
| Network.Net.DialViaProxy | probes/tcp.go:97-132 | one open connection, exactly when the proxy is reached and grants the tunnel or accepts the SOCKS exchange; otherwise an error with everything it opened closed |
| Network.WorksWhen | probes/tcp.go:67-72 | an attempt works if and only if the far side answers and, through a proxy, the proxy lets it through |
| Network.ReachConnects | probes/tcp.go:49-93 | an undisturbed call connects by attempt k if and only if k is the first of its retries + 1 to work and no direct lookup failed; where it leaves off |
| Network.Net.Tcp | probes/tcp.go:45-94 | the connection is that of the first attempt to work and the only socket opened that stays open; a failed direct lookup makes no attempt, through a proxy it does not matter; at most retries + 1 attempts with one delay between any two, none once the context is cancelled; without cancellation it fails only at the lookup or after every attempt has failed; with negative retries no attempt and no connection |
| Network.TunnelFidelity | probes/tcp.go:46 | the proxy decodes from the tunnel the very host and port that were dialled |
| Probes.HandshakeContext | probes/scan.go:119-121 | a failed handshake is recorded and leaves its socket open unless the context is cancelled |
| Probes.CollectScts | probes/tls.go:139-157 | SCTs of the handshake, one for each of at least 43 bytes, in order; when there is none, those of the leaf's first SCT list extension; without one none |
| Probes.LeafReported | probes/tls.go:139-157 | a leaf whose SCT list extension encodes SCTs is reported with exactly those when the handshake delivered none |
| Probes.Fallback | probes/tls.go:108-128 | the chain of the first attempt to work if its handshake completes, a note if its close fails, nothing otherwise; its socket is closed |
| Probes.Tls | probes/tls.go:76-166 | success hands back the open connection with the chain and SCTs of its own handshake; failure reports no success, no SCTs and a non-empty error, without cancellation exactly when the handshake failed, with its text and what the fallback tells; at most retries + 1 dials |
| Probes.ScanVersion | probes/scan.go:53-95 | one entry from the attempts of its turn: FAILED when none works, REJECTED when the first that works fails its handshake, SUPPORTED with the negotiated cipher, labelled, when it completes; no socket left open |
| Probes.ScanCipherSuites | probes/scan.go:32-99 | the versions in order, all four unless cancelled, each entry from its own attempts, the context untouched before the last; the ciphers are those of the supported versions, in order and labelled; nothing once cancelled; no socket left open, at most 4(retries + 1) dials |
| Probes.SessionIs | probes/scan.go:118-139 | the session counts as resumed if and only if the first connection completes its handshake and closes cleanly and the second completes its own with a resumed session; the socket left behind is that of the connection whose handshake failed |
| Probes.LeakCondition | probes/scan.go:118-139 | in every environment a socket left behind belongs to a connection that failed its handshake, and none is left after a resumed session; when every dial succeeds, one is left if and only if the first handshake fails, or the first connection closes cleanly and the second handshake fails |
| Probes.TestSessionResumption | probes/scan.go:102-139 | what stays open has failed its handshake, is at most one socket, and without cancellation is every socket whose handshake failed here; without cancellation resumption and the socket left behind are as the connections made say; at most 2(retries + 1) dials |
| Pipeline.Scan | runner.go:332-344 | entries and ciphers come from the attempts of the sweep, resumption from the connections after it, QUIC from the environment; error and connection fields untouched, at most 6(retries + 1) dials |
| Pipeline.SurvivorFailed | runner.go:223-347 | in every environment a socket that outlives the call is a later connection's that failed its handshake, under -scan and after a successful first handshake |
| Pipeline.SurvivorCondition | runner.go:223-347 | for environments in which every dial succeeds, the condition spelt out: -scan is on, the first handshake succeeds and the sixth connection's fails, or the sixth closes cleanly and the seventh's fails |
| Pipeline.LeakPossible | runner.go:223-347 | over settings: some uncancelled call leaves a socket behind if and only if -scan is on, a TLS configuration can be made, retries are not negative and, through SOCKS, the address parses |
| Pipeline.ExecuteTarget | runner.go:223-347 | a reported success shows the chain and SCTs of the handshake on the first attempt to work; without cancellation connection, success, error text, trust error, fallback chain, scan and resumption are those of the attempts made; result fields agree with one another; at most one probe socket outlives the call, only one that failed its handshake in a -scan, without cancellation exactly the one `Survivor` names; 1, 2 or 7 rounds of dials; a panic if and only if retries are negative and the lookup succeeds |
| Pipeline.SocketLeftBehind | runner.go:223-347 | for all those settings, a call that is never cancelled, reports success and leaves its sixth connection's socket open |
| Targets.ParsedWellFormed | target.go:98-121 | a parsed target has a slash-free host and a path beginning with a slash |
| Targets.KeyInjective | target.go:156 | equal map keys mean equal host, port and path |
| Targets.Collection.AddTarget | target.go:155-161 | the map-based closure performs stable first-occurrence deduplication |
| Ingestion.AddStrict | target.go:163-185 | hostport, endpoints and URLs in that order; the first bad one fails the call |
| Ingestion.AddLines | target.go:204-221 | skipped lines, warnings, strict failures and targets as specified line by line |
| Ingestion.AddFile | target.go:187-225 | open and read errors fail the call |
| Ingestion.AddGrid | target.go:227-248 | hosts outermost, blank hosts skipped, unparsable cells passed over |
| Ingestion.Collect | target.go:153-255 | the five sources in order into one collection, or the specified error |
| ParseTargets.ParseTargetsWithWarnings | target.go:147-255 | success: every target that a place of the configuration gives is there once, from the first place that gives it, in the order of the places (hostport, endpoints, URLs, lines, host by host the ports), and one warning for each bad line, in order; failure as FailsIs and ErrorExplains say |
| ParseTargets.IngestKeeps | target.go:153-248 | those targets and warnings, by the places they come from |
| ParseTargets.FailsIs | target.go:163-252 | failure if and only if a hostport, endpoint or URL is bad, the file cannot be opened or read, strict parsing meets a bad line, or no place gives a target |
| ParseTargets.ErrorExplains | target.go:163-252 | the message is that of the first bad entry, else of the file, with its line, else that nothing valid was given |
| IngestionTheorems.DedupComplete | target.go:153-161 | nothing offered is missing, nothing is kept twice, nothing is invented |
| IngestionTheorems.DedupExtends | target.go:155-161 | later offers only extend what is kept, by as many as are not repeats |
| IngestionTheorems.StrictPolicy | target.go:163-185 | success means every entry parsed, in order; failure carries the error of the first that did not |
| IngestionTheorems.FilePolicy | target.go:211-218 | a file pass fails if and only if parsing is strict and some line is bad |
| IngestionTheorems.LineAccounting | target.go:205-221 | lines = skipped + warnings + new + repeated |
| IngestionTheorems.LineOrigins | target.go:206-220 | each warning carries the number and error of a bad line, each target comes from a good one |
| IngestionTheorems.GridIndex | target.go:228-247 | when every cell parses, cell (i, j) is at position i * ports + j |
| IngestionTheorems.GridSize | target.go:228-247 | and there are hosts times ports of them |
| IngestionTheorems.EndpointDefaults | target.go:98-121 | a port written in decimal becomes that very number, and the target is well-formed |
| IngestionTheorems.WrittenPort | target.go:108-114 | a decimal port is accepted if and only if it fits 64 bits |
| ExitCode.Resolve | cmd/tlstester/main.go:177-200 | 0 if and only if none failed, 1 if and only if all did, 5 otherwise, 3 on an output error |
| ExitCode.Conclude | cmd/tlstester/main.go:141-200 | 130 exactly when cancelled, 3 exactly on I/O trouble, else the verdict on the results |
| ExitCode.FailedMeansError | cmd/tlstester/main.go:181 | for what ExecuteTarget returns the three-way test equals "error non-empty" |
| ExitCode.RunVerdict | cmd/tlstester/main.go:177-200 | an uncancelled run exits 0 if and only if every input target is free of errors, 1 if and only if none is, 5 otherwise |
| ExitCode.HolesMeanCancelled | runner.go:201-212 | a slice with an empty slot comes of a cancelled run only |
| ExitCode.RunAndExit | cmd/tlstester/main.go:138-200 | under every schedule a slice with an empty slot ends in 130 before anything is counted; any other code than 130 stands for the complete, ordered results, 0, 1 or 5 by their errors |

## Left out

- RunDiagnostics: `ExecuteTarget` is taken to return, so retries are not negative; its value is fixed per index for the run, also when the context is cancelled while it works.
- RawAgreement: its converse is stated by RawLostExactly and RawCrowded; misread lists with a short first element or a body of 1154 bytes, and no more SCTs than the supposed contents have room for, are left to one direction, since what happens to stand inside the first element can parse alike by accident.
- Unwrap: models a DER decoder by sections 8.1.3, 8.7 and 10.1 of X.690; size limits of Go's decoder beyond the data's own length are not part of this model.
- ExecuteTarget: certificate expiry, leaf fields, OCSP, certificate export and latencies are not in the modelled result; the HTTP transport's sockets and the QUIC probe's UDP socket are outside the ledger.
- HandshakeContext: TLS itself is an outcome of the environment, so a handshake that fails because of the cancellation is one whose script fails; a cancelled context may close its socket.
- DialViaProxy: the HTTP CONNECT exchange is one of six outcomes of the environment; read-ahead of the response reader is not modelled.
- Handshake: the individual error texts are merged into three; reads have no deadline, as in the source.
- Send: a failed write records no bytes, although some may have gone out.
- ParseUrlTarget: `url.Parse` is a parameter, of which only a slash-free host and a path beginning with a slash are assumed.
- TrimSpace: removes ASCII white space only, not the other Unicode spaces.
- AddLines: splitting the input into lines and the scanner's line limit are outside; a read error may follow any number of lines.
- EndpointDefaults: speaks of successful parses; the error texts are those of the branches of ParseUrlTarget.
- IsSupported: a status is told by its prefix.
- CreateTLSConfig and getKeyInfo are lookups; the first appears as an error in the settings, or none.
- Reporters, flag parsing, environment diagnostics, OCSP and certificate files are formatting, wiring or library calls.
