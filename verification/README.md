# doccopy, modelled in Dafny

doccopy is a small Go command-line tool (`main.go`) that clones a running
Docker container's namespaces into a new container. It inspects a source
container, creates a new container whose PID, network and IPC namespaces
join the source's (`container:<id>` modes), and starts it. Two further
operations exist beside `main` but are not called from it: `copyStateJSON`
overwrites a container's runc `state.json` with given bytes and starts the
container again, and `getStateJSON` fetches a container's `state.json`.

The model covers the logic of `main.go`:

- `tokens.dfy` (module `Tokens`): whitespace tokenisation as Go's
  `strings.Fields` does it, with Go's `unicode.IsSpace` set of white-space
  code points, and its characterisation: the tokens are exactly the maximal
  white-space-free runs of the input.
- `command.dfy` (module `Command`): `parseCommand`.
- `paths.dfy` (module `Paths`): the state-file path
  `/var/run/docker/runtime-runc/moby/<id>/state.json`, built as
  `filepath.Join` builds it, including the lexical cleaning of `.`, `..`
  and empty elements.
- `configs.dfy` (module `Configs`): the host configuration (namespace modes,
  auto-remove) and the container configuration (image, command, terminal
  flags) that `createAndStartContainer` builds.
- `engine.dfy` (module `Engine`): the host as the tool sees it, a class
  `Host` holding the engine's existing and started containers, the files by
  path, and a log of every call with its answer. Its primitive methods
  (inspect, create, start, stat, read, write) stand for the Docker client and
  `os` calls and choose their answers nondeterministically within what they
  promise (a created ID is new and non-empty; only an existing container can
  start; a failed write leaves the old file or a prefix, possibly empty or
  complete, of the new bytes).
- `provision.dfy` (module `Provision`): `createAndStartContainer`,
  `copyStateJSON` and `getStateJSON` as methods over a `Host`, each stated
  exactly in terms of the calls it makes and the new state; plus the
  log-wide property that every start follows the create that returned its ID.
- `cli.dfy` (module `Cli`): target selection, `getContainerFromID` and the
  body of `main` after flag parsing.
- `outcomes.dfy` (module `Outcomes`): `Option`, `Result`, `Outcome`.

Points of `main.go` worth noting:

- The `-cmd` flag defaults to `"sleep infinity"`, which tokenises to
  `["sleep", "infinity"]`. The `["/bin/sh", "-c", "sleep infinity"]` default
  appears only when `-cmd ""` is passed explicitly (`Command.ParseCommandFlagDefault`,
  `Cli.FlagDefaultsRun`).
- When start fails after a successful create, `createAndStartContainer`
  returns `""` and an error; the new ID reaches the operator only through the
  printed "Created container" line and the error text. The model returns
  `Err(StartFailed(id))`, the error carrying the ID as the Go message does.
- `main` never calls `copyStateJSON` or `getStateJSON`; both are modelled as
  standalone operations.

## Model

| member | source | states |
|---|---|---|
| `Tokens.IsSpace` | main.go:165 | the white space `strings.Fields` cuts at: Go's `unicode.IsSpace` set of code points |
| `Tokens.IsSpaceAscii` | main.go:165 | below U+0080 that set is exactly tab, newline, vertical tab, form feed, carriage return and blank |
| `Tokens.Fields` | main.go:165 | `strings.Fields`: the tokens of the input, left to right; what they are is stated by the lemmas below |
| `Tokens.FieldsAreFields` | main.go:165 | every token `strings.Fields` returns is non-empty and holds no white space |
| `Tokens.FieldsConcat` | main.go:165 | concatenating the tokens gives the input with its white space deleted, order kept |
| `Tokens.FieldsEmptyIff` | main.go:165 | there are no tokens exactly when the input is all white space (the empty string included) |
| `Tokens.GapsShape` | main.go:165 | every input is its tokens laid out between white-space gaps, with a non-empty gap between neighbouring tokens |
| `Tokens.FieldsOfAssemble` | main.go:165 | conversely, any such layout tokenises to exactly its tokens, so the tokens are the maximal runs |
| `Tokens.FieldsOfJoinBlank` | main.go:165 | round trip: white-space-free tokens joined with blanks tokenise back to themselves |
| `Tokens.WordLength` | main.go:165 | the length of the leading token: white-space free and followed by white space or the end |
| `Command.ParseCommand` | main.go:161-166 | the empty string gives `["/bin/sh","-c","sleep infinity"]`; any other string gives white-space-free tokens whose concatenation is the string without white space |
| `Command.ParseCommandDefaultIff` | main.go:161-166 | the default command is returned for the empty string and for no other input |
| `Command.ParseCommandBlank` | main.go:162-165 | a non-empty all-white-space string gives the empty list, not the default, and only such strings do |
| `Command.ParseCommandLayout` | main.go:165 | a non-empty command string is its arguments separated by white space |
| `Command.ParseCommandOfLayout` | main.go:165 | arguments laid out between white-space gaps parse back to those arguments |
| `Command.ParseCommandRoundTrip` | main.go:161-166 | a non-empty argument vector without white space survives being joined with blanks and parsed |
| `Command.ParseCommandFlagDefault` | main.go:119 | the `-cmd` flag's default `"sleep infinity"` parses to `["sleep","infinity"]` |
| `Command.ParseCommandEcho` | main.go:161-166 | `"echo hi"` parses to `["echo","hi"]`: no shell, no quoting |
| `Paths.CleanRooted` | main.go:33 | `filepath.Clean` of a rooted path: the result is rooted, and is `/` or made only of plain elements |
| `Paths.StatePath` | main.go:33 | `filepath.Join(root, id, "state.json")`: whatever the ID, the path ends in `/state.json` |
| `Paths.StatePathPlain` | main.go:33 | for a plain container ID the state path is `/var/run/docker/runtime-runc/moby/<id>/state.json` verbatim |
| `Paths.StatePathEmpty` | main.go:33 | an empty ID is dropped by the join, giving `/var/run/docker/runtime-runc/moby/state.json` |
| `Paths.StatePathDotDot` | main.go:98 | the join cleans the path: an ID of `..` names `/var/run/docker/runtime-runc/state.json` |
| `Paths.StatePathInjective` | main.go:98 | distinct plain IDs have distinct state files |
| `Paths.SplitJoinSlash` | main.go:33 | splitting a path at `/` recovers the elements it was joined from |
| `Paths.WalkPlainSuffix` | main.go:33 | cleaning keeps plain trailing elements unchanged |
| `Configs.BuildHostConfig` | main.go:54-63 | auto-remove off; the PID, network and IPC modes are one and the same, `container:<source>` for a non-empty source ID, unset for an empty one; the source reads back from the mode |
| `Configs.SharedContainerOfMode` | main.go:60-62 | a `container:<id>` mode names container `id` |
| `Configs.BuildHostConfigInjective` | main.go:58-63 | different source IDs give different host configurations |
| `Configs.BuildConfig` | main.go:65-74 | image and command passed through unchanged, `StdinOnce` off, and all five of AttachStdin, AttachStdout, AttachStderr, OpenStdin and Tty on when interactive and off otherwise |
| `Engine.Host.InspectContainer` | main.go:22 | an inspection that succeeds names an existing container by its full ID; an empty reference always fails (the client refuses it); the call is logged |
| `Engine.Host.CreateContainer` | main.go:77 | a create that succeeds adds exactly one new, non-empty ID; a failed one changes nothing; the call is logged |
| `Engine.Host.StartContainer` | main.go:86 | only an existing container, named by its full ID, can start; a successful start adds it to the started set; the call is logged |
| `Engine.Host.StatFile` | main.go:36 | reports whether the path exists |
| `Engine.Host.ReadFile` | main.go:41 | a successful read returns the file's bytes unchanged |
| `Engine.Host.WriteFile` | main.go:100 | a successful write replaces the file with the bytes; a failed one leaves the old file or a prefix of the bytes (empty after a bare truncation, complete after a failed close); no other path changes |
| `Provision.ProvisionCallsOrdered` | main.go:77-92 | after provisioning, every start in the log still follows a create that returned the started ID |
| `Provision.AppendNoStart` | main.go:139 | calls other than starts (such as the inspection) keep that ordering |
| `Provision.CreateAndStartContainer` | main.go:51-93 | the calls are create with the built configurations, then (only if create succeeded) one start on the returned ID; create failure gives `Err(CreateFailed)` with nothing changed; start failure gives `Err(StartFailed(id))` and leaves the new container in place; success returns the new ID, now started |
| `Provision.CopyStateJSON` | main.go:95-114 | writes the bytes verbatim to the destination's state path, then starts the destination only if the write succeeded; a failed write leaves the old state file or a prefix of the bytes; no other path changes and no container is created or removed |
| `Provision.GetStateJSON` | main.go:31-47 | a missing state file gives "not found" with no read; otherwise the file is read and its bytes are returned unchanged, or a read error |
| `Cli.SelectTarget` | main.go:124-132 | a non-empty `-target` wins; else a non-empty first positional argument; else the token read at the prompt |
| `Cli.SelectTargetPriority` | main.go:124-132 | the selected target is the first non-empty of the `-target` flag, the first positional argument and the prompt token |
| `Cli.GetContainerFromID` | main.go:18-28 | inspection either gives a descriptor of an existing container or an error naming the identifier asked for; an empty identifier always gives the error |
| `Cli.Run` | main.go:124-158 | the selected target is inspected; inspection failure, always the case for an empty target, is fatal before any create or start; otherwise provisioning runs with the parsed command and the inspected canonical ID as namespace source; a failed create is fatal with nothing created; a failed start is fatal and leaves the new container behind; success reports exactly the created ID, distinct from the source and started; start ordering in the log is kept |
| `Cli.FlagDefaultsRun` | main.go:117-121 | with default flags the first argument is the target, the command is `["sleep","infinity"]` and the container is not interactive |

## Left out

- The Docker client itself (`NewClientWithOpts` with API version 1.45, and the panic when it cannot be built): the engine is the abstract `Engine.Host`.
- `Engine.Host.InspectContainer`: does not model how the engine resolves a partial ID or a name, nor the descriptor's name, status and image; any existing container may answer, so inspecting twice need not give the same answer.
- `Engine.Host.CreateContainer`, `Engine.Host.StartContainer`: whether the engine accepts a request for an existing container (image present, namespace source alive, resource limits) is a free choice; starting an already running container is modelled like any other start.
- `Engine.Host.StartContainer`: containers are named by their full ID only; a start by container name or unique ID prefix, which the engine accepts, never succeeds in the model. `main` starts only the ID that create returned (main.go:86), but `Provision.CopyStateJSON` starts the caller's `destination` (main.go:107) and so, in the model, succeeds only when that is a full ID.
- Real file I/O: files are a map from path to bytes; the `0644` permission bits, `os.Stat` errors other than "does not exist", and a crash part-way through a write are not modelled beyond the prefix a failed write may leave.
- Flag parsing, `fmt.Scan`, `fmt.Printf` and `log.Fatalf`: flag values, positional arguments and the prompt token arrive as parameters; a fatal exit is an `Err` result; printed output is not modelled.
- `context.Background()`: it carries no behaviour here.
- Go strings are bytes decoded as UTF-8 by `strings.Fields`; the model works on code points, so invalid UTF-8 is not modelled.
- `Provision.CopyStateJSON`: its `source` parameter is used only in a printed message, so the model ignores it.
- The exact text of Go error messages: errors are a datatype carrying the values the messages mention.
- Concurrency with the Docker daemon (the daemon reading `state.json` while it is written) is not modelled.
