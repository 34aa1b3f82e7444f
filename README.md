# status_v2 client/server status check, modelled in Dafny

`status_v2` checks the progress of a processing pipeline. It runs in two modes.

- The **client** (`run_client`) does the following:
  - It reads the optional `--big-disk host:path` overrides into a map.
  - It walks the stages of the last pipeline, keeping one list of preferred computers for the whole run. Each stage's own list is appended to it.
  - While that list is empty, a stage is checked locally by running this program as `server <request json>`.
  - Otherwise the stage's request goes to every computer on the list, over that computer's ssh shell, with the computer's big-disk override.
- The **server** (`run_server`) does the following:
  - It parses the request.
  - It picks the big disk. The request's override comes first, then the `BIGGUS_DISKUS` environment variable.
  - It runs the stage's file check.
  - It prints the serialised response between `||` delimiters.
- `Host::submit_request` writes the command to the remote shell. It then reads chunk after chunk until the text read so far matches the regular expression `\|\|(.*)\|\|`, and parses the captured group as the response. If a read fails before any match, the answer is `Error(RequestParse)`.

The model has six modules:

- `Contract` (contract.dfy): the request/response types. These are `Stage`, `Pipe`, `Request`, `Response`, `ServerError` and `ConnectionError`. It also holds the serde functions as a `Json` record of functions, and `Option`, `Result` and `Outcome`. `Outcome` is either a value or a panic with its message.
- `Framing` (framing.dfy): the regular expression `\|\|(.*)\|\|` with the regex crate's leftmost-first semantics.
  - The match starts at the leftmost `||` that has a closing `||` on the same line.
  - The greedy group runs to the last `||` on that line, because `.` does not match a newline.
  - `Capture` computes this, and the ghost predicates `IsMatch` and `IsFrameAt` state it as a declarative reference.
- `Hosts` (host.dfy):
  - the ssh shell as a class `Shell`, with a fixed sequence of reads, a read position and the list of writes;
  - the class `Host`, whose shell carries a ghost label naming the host it was opened on;
  - `SubmitRequest`, a loop proved against the function `ScanFrom`, together with the properties of `ScanFrom`.
- `Server` (server.dfy): `process_request` and what `run_server` prints.
- `Protocol` (protocol.dfy): the end-to-end round trip from the client to the remote server and back, and the stream that carries no frame.
- `Client` (client.dfy):
  - the big-disk argument parsing, as a loop proved against `OverrideMap`;
  - the stage loop, as methods proved against the function `Execute` run over `Plan`. `Plan` is the sequence of dispatches (local or remote, with their requests) that the run performs. `Execute` carries out those dispatches, one at a time, on values that stand for the hosts' shells, and stops at the first panic.

## Model

| member | source | states |
|---|---|---|
| Framing.Capture | src/host.rs:59-67 | a captured group is shorter than the text by at least the four delimiter characters and holds no newline; which part of the text it is, is stated by `CaptureMeaning` |
| Framing.ClosingFor | src/host.rs:59 | for an opening delimiter, the closing delimiter the greedy group stops at is the last one on the same line; none means no match starts there |
| Framing.MatchFrom | src/host.rs:59-63 | the leftmost match at or after a position and its greedy end; none means no match starts at or after it |
| Framing.CaptureMeaning | src/host.rs:59-67 | `captures` finds nothing iff the text has no pair of delimiters on one line; otherwise the group is the text between the leftmost opening and the greedy closing delimiter |
| Framing.MatchInPrefix | src/host.rs:56-63 | a match in the text read so far is still a match once more text is appended |
| Framing.CaptureOfFrameAt | src/host.rs:59-67 | whenever a leftmost, greedy frame sits at (i, j), the group is exactly the text between its delimiters |
| Framing.CaptureOfFrame | src/bin/client.rs:194-195 | the framed json the server prints decodes back to the json if it has no newline |
| Framing.CaptureOfStreamPrefix | src/host.rs:48-67 | on a stream whose only pipes are the frame's, a prefix captures nothing until the closing delimiter has arrived, and then exactly the payload |
| Hosts.Command | src/host.rs:44-45 | the command line is `server --request=`, then exactly the serialised request, then a newline |
| Hosts.Reply | src/host.rs:75-78 | no capture gives `Error(RequestParse)`; the reply panics with "cannot deserialize response" iff a capture does not parse; otherwise it is the parsed capture |
| Hosts.ScanFrom | src/host.rs:50-73 | the read loop never consumes more reads than there are, and stops on a frame only after at least one read |
| Hosts.TextAppend | src/host.rs:56 | the buffer after two runs of reads is the concatenation of their texts (`push_str`) |
| Hosts.ScanFramedIff | src/host.rs:50-73 | the loop returns payload p after k reads iff the first k reads are chunks, no shorter buffer matched, and the k-th buffer captures p |
| Hosts.ScanReadError | src/host.rs:50-78 | a failed read before any match stops the loop there without a frame, and the reply is `Error(RequestParse)` whatever the codec |
| Hosts.ScanChunkedFrame | src/host.rs:48-73 | however the server's output is split into reads, the loop returns its payload after exactly n reads, where the first n chunks reach past the closing delimiter and the first n - 1 do not |
| Hosts.ScanEnd | src/host.rs:50-78 | reads that run out before any match end the loop without a frame after all of them, and the reply is `Error(RequestParse)` whatever the codec |
| Hosts.ReadStep | src/host.rs:50-73 | one turn of the read loop either stops with the scan's result (end of reads, read error, match) or keeps the loop's invariant with one more read buffered |
| Hosts.Shell.Write | src/host.rs:46 | writing appends the text to what the shell received and reads nothing |
| Hosts.Shell.Read | src/host.rs:51-54 | a read returns the next chunk and advances, or fails with nothing left |
| Hosts.Host.constructor | src/host.rs:21-37 | a new host keeps its name, user and port and owns a fresh shell that has read and written nothing |
| Hosts.Host.SubmitRequest | src/host.rs:39-80 | writes exactly `server --request=<json>\n`, consumes exactly the reads `ScanFrom` consumes, and returns the parsed capture (a panic when it does not parse) or `Error(RequestParse)` |
| Server.ProcessRequest | src/bin/client.rs:198-206 | `RequestParse` iff the text does not parse; `BIGGUS_DISKUS_NotSet` iff it parses with no override and the variable is unset; otherwise the file check on the override, else on the variable |
| Server.ServerResponse | src/bin/client.rs:190-206 | `Error(RequestParse)` iff the text does not parse; `Error(BiggusDiskusNotSet)` iff it parses with no override and the variable is unset; a success is the file check of the stage on the chosen big disk with the request's run list |
| Server.ServerOutput | src/bin/client.rs:194-195 | the printed text is `||`, then exactly the serialised response, then `||` |
| Server.OverrideBeatsEnvironment | src/bin/client.rs:200-204 | with an override, the response is the check on that path whatever the environment |
| Server.EnvironmentWithoutOverride | src/bin/client.rs:200-204 | without an override, the environment decides between the check on `BIGGUS_DISKUS` and `Error(BiggusDiskusNotSet)` |
| Server.ServerOutputDecodes | src/bin/client.rs:188-195 | what `run_server` prints is captured by the client's regex as exactly the serialised response |
| Protocol.RemoteRoundTrip | src/host.rs:44-78 | given that serde_json parses back every response it serialises, and that the serialised response has no `|` and no newline: if the shell delivers the server's output (with surrounding text without pipes, in any chunking), `submit_request` returns the very response the server computed for the serialised request |
| Protocol.NoFrameGivesRequestParse | src/host.rs:50-77 | a stream without a match that ends is consumed to its end, and one that fails is consumed up to the failure; both are answered with `Error(RequestParse)` |
| Protocol.TextOfChunksPrefix | src/host.rs:48-56 | the buffer after m reads is a prefix of everything the shell delivers |
| Protocol.TextOfChunks | src/host.rs:48-56 | the buffer after m reads is the concatenation of the first m chunks |
| Client.Split | src/bin/client.rs:76 | `split(":")` gives one more part than there are colons, no part holds a colon, and joining them gives the argument back |
| Client.EntryShape | src/bin/client.rs:76-79 | an argument is accepted iff it has exactly one colon, and it is then host, colon, path |
| Client.InsertAllKeys | src/bin/client.rs:73-82 | the override map's hosts are exactly the hosts of the arguments |
| Client.InsertAllLastWins | src/bin/client.rs:73-82 | for a host given more than once, the last path given wins |
| Client.OverrideMap | src/bin/client.rs:71-85 | the map built from accepted entries has exactly the entries' hosts as keys |
| Client.ParseBigDisks | src/bin/client.rs:71-85 | no option gives no map; all entries well formed gives the map of host to path; any bad entry panics with "BIGGUS_DISKUS must contain a : for" |
| Client.AppendPreferences | src/bin/client.rs:149-156 | the list grows by the stage's own computers, in order |
| Client.PreferredBefore | src/bin/client.rs:137-156 | the list before a stage starts with the pipe's own default computers, in order |
| Client.PreferredGrows | src/bin/client.rs:137-156 | a later stage's preference list extends an earlier one's |
| Client.LocalIffNoPreference | src/bin/client.rs:137-158 | a stage is checked locally iff neither the pipe nor any stage up to it names a computer |
| Client.RemoteDispatches | src/bin/client.rs:169-181 | one remote dispatch per listed host, in list order, to that host and with that host's override |
| Client.StageDispatches | src/bin/client.rs:158-183 | one local dispatch when the list is empty, else one remote dispatch per listed host, in list order and to that host; the first is local iff the list is empty |
| Client.PlanFrom | src/bin/client.rs:139-185 | what is left of the loop from stage s on has at least one dispatch per remaining stage |
| Client.Plan | src/bin/client.rs:139-185 | the run has at least one dispatch per stage |
| Client.StageRequests | src/bin/client.rs:141-181 | every dispatch of a stage requests that stage and carries the run list; a local one has no override and the `server <json>` arguments; a remote one has its host's override |
| Client.PlanRequests | src/bin/client.rs:139-181 | every dispatch of the whole run is well formed in that sense |
| Client.AccumulationExample | src/bin/client.rs:137-185 | with no preferences, then `[h1]`, then `[h2]`, the run checks stage 1 locally, stage 2 on h1, and stage 3 on both h1 and h2 |
| Client.Submit | src/host.rs:39-80 | on one shell's value: the same reads, the position only advances, exactly the command is appended to what was written, and a panicking reply is "cannot deserialize response" after at least one read |
| Client.Execute | src/bin/client.rs:158-181 | executing the plan from dispatch i starts dispatches i up to `done` and no further than the plan; a run that does not panic has started every dispatch; the set of connected hosts is unchanged |
| Client.ExecuteWrites | src/bin/client.rs:169-181 | each host's shell receives exactly the commands of the started dispatches addressed to it, in plan order |
| Client.ExecuteUntouched | src/bin/client.rs:169-181 | a host that no dispatch from the current one on addresses keeps its shell as it was: nothing read, nothing written |
| Client.ExecuteStops | src/bin/client.rs:158-181 | every started remote dispatch went to a connected host; "host not found!" stops on a remote dispatch whose host has no connection; any other stop is an undecodable reply to a remote dispatch |
| Client.RunFacts | src/bin/client.rs:136-185 | a run performs a prefix of the plan, all on connected hosts; each shell receives the commands addressed to it in order; "host not found!" sits at the first unconnected host; a plan naming an unconnected host never completes, and one naming none completes unless a reply does not deserialize |
| Client.SubmitTo | src/bin/client.rs:181 | `submit_request` on the host's own shell: that shell takes the command and the reads the loop consumes, the reply is the scan's, every other shell is unchanged, and this is dispatch j of the plan, a panicking reply stopping the run there |
| Client.SubmitNext | src/bin/client.rs:170-181 | the request takes the host's override; a host without a connection panics with "host not found!" and sends nothing; otherwise the planned dispatch is sent, and only to that host |
| Client.SubmitEntry | src/bin/client.rs:169-181 | one turn of the host loop: what was sent stays a prefix of the stage's dispatches and, unless the turn panics, grows by the next host's dispatch; the run so far still ends as executing the plan does; each shell holds exactly the commands sent to it |
| Client.SubmitToEach | src/bin/client.rs:169-182 | the stage is sent to a prefix of its listed hosts, in list order and each with its override, ending as executing the plan does; each host's shell receives exactly the commands addressed to it; it stops short only at a panic (a host without a connection or an undecodable reply) |
| Client.DispatchStage | src/bin/client.rs:158-183 | an empty list gives one local check that touches no shell; otherwise the stage's remote dispatches are performed as above |
| Client.RunStage | src/bin/client.rs:139-183 | one stage extends the preference list by its own computers and performs its dispatches from where the plan stands; then the run either resumes at the next stage or has stopped where executing the plan stops |
| Client.StageLoop | src/bin/client.rs:136-185 | the stage loop performs a prefix of the plan and ends exactly as executing the plan on the initial shells ends |
| Client.RunStages | src/bin/client.rs:136-185 | the run is the plan's execution: each connected host's shell receives exactly the commands addressed to it; if every planned host is connected the run completes unless a reply does not deserialize; otherwise it panics after a connected prefix of the plan: with "host not found!" just before the first missing host, unless an earlier reply did not deserialize |
| Client.RunClient | src/bin/client.rs:55-186 | a bad big-disk entry panics before any stage and touches no shell; otherwise the run is the plan's execution under the parsed overrides: completed, stopped at the first missing host, or stopped by an undecodable reply; each connected host's shell receives exactly the commands addressed to it |

## Left out

- Opening a connection (`Host::new`) is left out: the ssh session, the private-key lookup and the two `ConnectionError` failures. `ConnectionError` is kept only as a datatype.
- Hosts.Host.constructor: keeps the 32-bit port only as a bound on an unbounded number and takes the shell's reads as a parameter.
- The client's setup is left out: locating the executable and home directory, loading the pipe configurations, reading the ssh configuration, and building the connection map (`src/bin/client.rs:57-69` and `src/bin/client.rs:87-129`). The configured pipe and the connection map are parameters.
- Command-line parsing (clap) is left out.
- The server receives the request as `--request=<json>` through a shell command line. Whether that reaches the positional `request_json` argument intact (shell quoting, clap's handling of the flag) is not modelled. The model assumes the server sees the serialised request.
- serde_json is an abstract record of serialisers and parsers. Round-trip facts about it are hypotheses of the lemmas that need them.
- `Request::to_json`, whose body is not part of this model, is taken to be `serde_json::to_string`: the local check's argument is the same serialised request the remote command carries.
- The panic when a request or response fails to serialise is left out, since the serialisers are total functions here.
- The stage check `Stage::file_check` and the `Status` type are opaque.
- The local check launches a child process with `.expect("failed to launch")`. The model records only the arguments it is launched with. Its output is never decoded by the source, so nothing is lost there.
- Bytes from the shell are modelled as already-decoded text, so the `String::from_utf8(...).unwrap()` panic is not modelled.
- The panic when the shell write fails is not modelled. A write always succeeds.
- A read that blocks forever is not modelled. The shell's reads are a finite sequence, and reading past its end acts as a failed read.
- As written, `src/bin/client.rs:137` binds `preferred_computers` without `mut` yet pushes to it. Line 169 moves the list into the `for` loop and uses it again in the next stage. Neither compiles. The model follows the evident intent: one mutable list, iterated by reference in every stage.
- Concurrency and timing are left out: connections are used one at a time, in the order the source uses them.
