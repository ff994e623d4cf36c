# fog, modelled in Dafny

fog boots QEMU virtual machines from a declarative project configuration.
This project models the sequential logic underneath the process and network
plumbing:

- **Images** (`image.dfy`): resolving a `name[:tag]` image reference against
  the manifests, loading them (the names come from a walk of the embedded
  manifest tree, the contents from reading that relative path on the host
  file system), the content-addressed path
  of a downloaded image, and the create / fetch / copy / hash / compare /
  rename sequence that publishes a download. The digest is compared as
  lowercase Base16 (section 8 of RFC 4648).
- **Machines** (`machine.dfy`): the machine ID (32 random bytes in lowercase
  hex), the socket names and the NoCloud datasource URL derived from it, the
  fixed 26-element QEMU argument vector, and the console connection, which is
  dialled at most three times and cached on the first success.
- **Logging** (`logmux.dfy`): the log multiplexer. Named streams are
  registered in a map, and every label is padded to the longest name. A
  stream's writes are cut into complete lines, and each line goes to the
  shared channel behind the stream's label. A write without any newline is
  held back, and a timer may flush it; in a write that has a newline, the
  bytes after the last newline are dropped.
- **Imds** (`imds.dfy`): the instance metadata service. It registers three
  routes per machine (user-data, meta-data, vendor-data), keyed by machine
  ID, and formats their bodies.
- **SshCommand** (`ssh.dfy`): the parameter selection of `fog ssh`. It
  covers which discovered service entry belongs to the machine (TXT
  key/value strings as in section 6 of RFC 6763), the `u=`/`p=` credential
  scan, the list of authentication methods, the dial address and the remote
  command.
- Support modules:
  - `wrappers.dfy` holds Option and Result.
  - `text.dfy` holds the Go standard-library string helpers the code relies
    on: `strings.SplitN`, `strings.Join`, `strings.HasPrefix`/`TrimPrefix`,
    `hex.EncodeToString` and `%d` formatting.
  - `config.dfy` holds the configuration types.

Foreign code and I/O become parameters. Each such parameter stands for one
of these:

- the outcome of a file-system call, an HTTP request, a socket dial, `exec`
  or `xdg` lookup;
- the SHA-256 digest;
- the YAML encoder and decoder;
- the colour palette;
- the terminal renderer of a label.

The model follows the code in these places:

- A reference is split at its *first* colon, so the tag keeps any later
  colons.
- `openConn` sleeps a constant second after each failed dial, the third
  included; there is no growing backoff. The sleep itself is not modelled.
- `Pull` has no existence check and no in-flight deduplication. The `up`
  command's help text (cmd/fog/up.go:16) says a missing base image is pulled
  when it does not exist locally, and image.go:91 leaves the check as a TODO:
  the model, like the code, downloads every time.
- The machine code (machine.go:81) reads `Conf.Ports`, which the
  configuration type (config.go:10-15) does not declare. `MachineConfig` here
  carries a `ports` field for it.

## Model

| member | source | states |
|---|---|---|
| Images.ParseImageName | image.go:146-158 | Never fails. A reference without ':' gives (reference, "latest"). A reference with ':' gives a colon-free name, and name + ":" + tag is the reference. |
| Images.ParseImageNameSplitsAtFirstColon | image.go:151-157 | For a colon-free name and any tag, the parse of name:tag is exactly (name, tag), so a tag keeps its own colons. |
| Images.ExtIsYamlIffSuffix | image.go:120 | `path.Ext` is ".yaml" exactly when the path ends in ".yaml". |
| Images.LoadManifests | image.go:108-144 | The walk loop returns the images and the error of the reference walk `Walk`. The images appended before a failure are kept. |
| Images.WalkFailsAtFirstStop | image.go:111-141 | The walk fails exactly when some entry stops it: a walk error, an unreadable ".yaml" file or a bad YAML document. It then fails with the first such entry's error. |
| Images.WalkLoadsOnlyYamlFiles | image.go:116-138 | Every loaded image is the decoding of a non-directory ".yaml" file of the walk. |
| Images.Find | image.go:60-86 | A manifest loading error is returned as such. Otherwise it succeeds exactly when some image has the name and lists the tag, and then returns the first such image in manifest order; if none does, the error is "image not found". |
| Images.ImagePath | image.go:99 | The final path is `<dataDir>/images/<checksum>.qcow2`. |
| Images.ImagePathInjective | image.go:99 | For checksums without '/', such as hex digests, two images share a final path exactly when their checksums are equal. |
| Images.StagingNeverFinal | image.go:230 | No staging path (final path + ".tmp") is the final path of any image. |
| Images.DownloadFile | image.go:160-235 | Result and new file map equal `Download`. The staging file is created first. Each failing step returns its error and leaves what was written. Only the last step renames the staging file into place. |
| Images.DownloadPublishesOnlyVerified | image.go:176-232 | If the final path is created or changed, the status was 200, the lowercase hex digest equals the checksum exactly, and the download succeeded. |
| Images.DownloadSuccessPublishesBody | image.go:203-234 | A successful download publishes the received body at the final path and removes the staging file. Every other file is unchanged. |
| Images.DownloadNeedsLowercaseHexChecksum | image.go:222-226 | A checksum verifies only if it is the lowercase Base16 text of the digest: twice as long, lowercase hex digits only, and decoding to the digest. |
| Images.DownloadSuccessVerified | image.go:222-226 | A successful download had a digest whose hex text equals the checksum. |
| Images.Pull | image.go:88-106 | A mkdir failure is reported and touches no file. Otherwise the download always runs at the content-addressed path, with no existence check, and its error is wrapped. |
| Images.PullIgnoresExistingCopy | image.go:91-99 | With the image already at its final path, a non-200 answer still makes `Pull` fail: the copy on disk is not consulted. |
| Machines.GenerateMachineID | machine.go:171-180 | The ID is 64 lowercase hex characters and decodes back to the 32 random bytes. |
| Machines.Machine.constructor | machine.go:33-43 | A new machine has the ID generated from its random bytes and the given name, configuration, image and image path. It has no socket addresses and no connection yet. |
| Machines.SocketNamesDistinct | machine.go:57-67 | For hex IDs, a console socket name is never a monitor socket name. |
| Machines.SocketNamesInjective | machine.go:57-67 | Each socket name determines the ID it was built from. |
| Machines.NetworkArgCarriesPorts | machine.go:79-106 | Without ports the network argument is "user". With ports it is "user,hostfwd=" followed by the ports joined by ',', which split back into the ports. |
| Machines.DatasourceUrlInjective | machine.go:77 | Different metadata ports or different IDs give different datasource URLs. |
| Machines.QemuArgs | machine.go:85-120 | The vector has 26 entries. Memory is always "512". The image path follows "-hda" and is followed by "-snapshot". |
| Machines.QemuArgsWiring | machine.go:103-119 | The network, serial socket, monitor socket and smbios datasource arguments sit at their positions, built from the given values. |
| Machines.Machine.Start | machine.go:50-133 | Each failing lookup or spawn returns its own error. `addr` is recorded once the console path is known, and `monAddr` once the monitor path is known. On success the command is the QEMU binary with `QemuArgs` of the machine's fields. |
| Machines.Machine.OpenConn | machine.go:135-158 | A cached connection is returned without dialling. Otherwise it makes at most 3 dials, caches and returns the first success, and after 3 failures returns an error with no connection cached. |
| Machines.Machine.Conn | machine.go:160-168 | It succeeds exactly when some of the 3 dials connects (or a connection is cached). A success is cached, and a failure caches nothing. |
| Logging.LabelStyle | log.go:112-118 | Name length plus right padding is the longest name length plus 2, for every stream. The padding is at least 2 and the right margin is 2. |
| Logging.CompleteLinesAreLines | log.go:138-147 | Every line read off the buffer ends in '\n' and holds no other. |
| Logging.LinesReassemble | log.go:137-147 | The complete lines, in order, followed by the bytes after the last newline, give back the buffer. |
| Logging.LinesLossless | log.go:137-147 | A buffer ending in '\n' is carried whole by its complete lines. |
| Logging.FramedAt | log.go:145-146 | Channel item 2k is the label and item 2k+1 is line k. |
| Logging.LogStream.ReadBytes | log.go:139 | With a newline, it returns the buffer through the first newline and keeps the rest. Without one, it returns and consumes the whole buffer, and reports end of data. |
| Logging.LogStream.Write | log.go:127-162 | Returns len(p) with no error, and no buffered newline is kept. If p holds '\n': every complete line of buffer+p is sent behind the label, in order; the buffer ends empty because the bytes after the last newline are dropped; any earlier timer is stopped. Otherwise p is appended, nothing is sent, and a timer is pending. |
| Logging.LogStream.SendLines | log.go:138-147 | The read loop sends label and line for each complete line of the buffer, in order, and ends with the buffer empty. |
| Logging.LogStream.Flush | log.go:149-158 | The timer callback sends the label, the held-back bytes and "\n", and does not clear the buffer. |
| Logging.LogMux.constructor | log.go:47-59 | A new multiplexer has no streams, a 10 ms flush timeout and a fresh, empty channel. |
| Logging.LogMux.Stream | log.go:75-93 | A duplicate name (a panic in the source) gives the failure "Stream <name> already exists", and the map and every stream stay unchanged. Otherwise exactly one new stream (empty buffer, no timer) is added under the name, and all streams are relabelled. |
| Logging.LogMux.LongestName | log.go:100-106 | The loop finds the longest name length, 0 with no streams. |
| Logging.MaxLenUnique | log.go:100-106 | The longest name length is unique, so the loop's answer is the only one. |
| Logging.IterationOrder | log.go:109 | The map's range order lists every key exactly once. |
| Logging.LogMux.RefreshColors | log.go:97-124 | Every stream gets a colour from a palette as large as the number of streams, the j-th stream in range order gets entry j, and each label is rendered with padding to the longest name. |
| Logging.LogMux.Recolor | log.go:108-123 | The j-th stream in order takes palette entry j and the label rendered from it. |
| Imds.RouteInjective | imds.go:21-44 | For slash-free IDs, a route determines its machine ID and its document kind. |
| Imds.AllRoutesAt | imds.go:18-48 | Registration 3i+t is registration t of machine i, in the order user-data, meta-data, vendor-data. |
| Imds.MetaDataOfOwnMachine | imds.go:39-42 | With a variable per loop iteration, machine i's meta-data route is keyed by its ID and answers with its own name. |
| Imds.SharedLoopVarMixesNames | imds.go:18-42 | With one loop variable shared by all iterations and two differently named machines, the first machine's meta-data route answers with the last machine's name, a different body from the one it should serve. |
| Imds.MetaDataBodyInjective | imds.go:40-41 | Machines with different names get different meta-data bodies. |
| Imds.Handle | imds.go:21-44 | Registering a pattern fails exactly when the pattern is already registered, and the failure names that pattern; otherwise the pattern is added with its handler. |
| Imds.HandleAllSucceeds | imds.go:18-48 | A series of registrations succeeds exactly when no pattern is already registered and no pattern repeats. |
| Imds.HandleAllMaps | imds.go:18-48 | After successful registrations, every registered pattern maps to its handler. |
| Imds.HandleAllKeeps | imds.go:18-48 | Registration leaves routes that were already there in place. |
| Imds.HandleAllOnly | imds.go:18-48 | Registration adds no route other than the registered patterns. |
| Imds.NewImdsServer | imds.go:15-53 | The loop builds exactly the table of registering every machine's three routes in order, and fails when a registration is refused. |
| Imds.DistinctIdsGiveFreshPatterns | imds.go:18-48 | For hex IDs, the patterns of all machines are pairwise distinct exactly when the machine IDs are. |
| Imds.ServerBuiltIffDistinctIds | imds.go:15-53 | For hex IDs, the server is built exactly when the machine IDs are distinct. |
| Imds.ServerTableHasRoutes | imds.go:18-48 | The table holds "/<ID>/user-data", "/<ID>/meta-data" and "/<ID>/vendor-data" for every machine, each with that machine's handler. |
| Imds.ServerTableOnlyRoutes | imds.go:18-48 | The table holds no other route. |
| Imds.Respond | imds.go:21-47 | User-data: on marshal failure, status 500 with the error text as body and no marker; otherwise status 200 with content type text/yaml and a body of "#cloud-config\n" followed by the YAML, the YAML only if a document was configured. Meta-data: the name-based body. Vendor-data: an empty body. |
| Imds.MetaDataLines | imds.go:40-41 | The meta-data body splits into "instance-id: fog/<Name>", "local-hostname: <Name>" and two empty lines; it uses the machine's name, not its ID. |
| Imds.Serve | imds.go:15-53 | A request is answered exactly when its path is a registered route. |
| SshCommand.SelectEntry | cmd/fog/ssh.go:38-48 | There is no match exactly when no entry has a TXT string equal to "fog=<name>". Otherwise the first such entry received is selected. |
| SshCommand.LastValueIsLast | cmd/fog/ssh.go:62-72 | The value is the text after the key in the last field that starts with the key. |
| SshCommand.LastValueAbsent | cmd/fog/ssh.go:62-72 | With no field starting with the key, the value is "". |
| SshCommand.ScanCredentials | cmd/fog/ssh.go:62-72 | The scan returns the last "u=" value as the user and the last "p=" value as the password. |
| SshCommand.Auths | cmd/fog/ssh.go:84-90 | The agent's public keys come first. A password method is appended exactly when the password is non-empty, so there are 1 or 2 methods. |
| SshCommand.DialAddressParses | cmd/fog/ssh.go:99 | The address is "127.0.0.1:" followed by the decimal port, which parses back to the port. |
| SshCommand.RemoteCommand | cmd/fog/ssh.go:168-172 | With only the machine name given, the command is "/bin/sh". |
| SshCommand.RemoteCommandWords | cmd/fog/ssh.go:168-172 | With more arguments, the command is those arguments joined by single spaces; space-free arguments split back out of it. |
| Text.HexRoundTrip | machine.go:179 | Lowercase hex encoding decodes back to the bytes. |
| Text.IntRoundTrip | cmd/fog/ssh.go:99 | Decimal formatting of an integer parses back to it. |
| Text.SplitJoin | machine.go:82 | Parts without the separator split back out of their join. |

## Left out

- cluster.go is not part of this model. It is concurrency and I/O: errgroup fan-out, the metadata listener and port handshake, and the console relays. It also calls `LoadManifests` and `ImagePath`, which the image code does not define; the path here is the one `Pull` builds.
- I/O is modelled only through its outcomes. This covers HTTP, file creation, reading, copying, renaming and `MkdirAll`, `xdg` runtime paths, `exec.LookPath` and process start, `net.Dial`, the progress bar, and the one-second sleep after each failed dial.
- SHA-256, YAML encoding and decoding, the colour palette and lipgloss rendering are parameters. The model does not say which digest, document text, colour or label bytes they produce.
- Images.DownloadFile: the hashed bytes are the digest parameter. The source hashes the temp file from its current offset without seeking back, so the model does not claim the digest covers the downloaded content. The `log.Fatalf` on a reader-close error is modelled as a returned error.
- Images.ImagePathInjective: stated only for checksums without '/'. With a '/' in a checksum, `path.Join`'s cleaning (which the model does not perform) could map two different checksums to one path. Lowercase hex checksums meet the condition.
- Images.LoadManifests: the walk is over the embedded manifest tree, but each file's bytes come from `os.ReadFile` of the same relative path on the host, so they depend on the working directory. The model takes that read's outcome as a parameter and does not relate it to the embedded files.
- Images.JoinPath: `path.Join`'s lexical cleaning (removing `.` and `..` and doubled slashes) is not modelled; non-empty elements are joined by '/'.
- Logging: the mutexes, the goroutine that copies the channel to the output writer, and the timer's scheduling are left out. The channel is the sequence of everything sent, and the timer firing is the `Flush` method, callable while a timer is pending.
- Logging.LogStream.Write and Logging.LogMux.Stream: the model relies on Dafny's field frames for "nothing else changes", rather than an explicit ensures that other fields are unchanged.
- Logging.LogMux.RefreshColors: the colour a given stream receives depends on Go's unspecified map iteration order. The model leaves that order open and states the result for whichever order was taken.
- Logging.LabelStyle: the source pads by the byte length of a name (`len` on a Go string); the model uses the character count, which agrees for ASCII names.
- Machines.GenerateMachineID: the random bytes are a parameter, so the panic when reading them from `crypto/rand` fails is not modelled.
- Machines.Machine.OpenConn: the mutex that serialises connection attempts is left out. The source sleeps one second after every failed dial, including the third and last; the sleep is I/O and is not modelled.
- Machines.Machine.Start: the log and print output is left out, and so is the started process itself.
- Imds.MachineRoutes: the model assumes Go 1.22 or later, where each iteration of the registration loop has its own machine variable, so every handler closure sees its own machine. The sources do not state the Go version. Under earlier releases the closures share one variable; see Findings.
- Imds.Handle: the source's `ServeMux` panics on a pattern registered twice, and the panic's wording depends on the Go release. The model returns a failure that carries the conflicting pattern.
- Logging.LogMux.Stream: the source panics when a name is registered twice; the model returns a failure instead.
- Imds.Serve: `http.ServeMux` pattern matching beyond exact paths (subtree patterns, redirects, 404 pages) and content-type sniffing are left out. The error log line on a failed marshal is also left out.
- SshCommand: mDNS lookup, the agent connection, the SSH client and session, pty modes and the stdio copy goroutines are left out. The discovered entries arrive as a sequence; when none matches, the source waits forever, which the model represents as None.
- cmd/fog/root.go, up.go, pull.go and main.go (command-line and configuration wiring) are left out.

## Findings

| source | as written | input that shows it | evidently intended | confidence | as-written member | corrected member |
|---|---|---|---|---|---|---|
| imds.go:18-42 | The handler closures capture the range variable `m`. Under Go releases before 1.22 it is one variable shared by every iteration, so each meta-data handler reads the last machine. | Two machines named `a` and `b`: the meta-data of `a` reports `instance-id: fog/b`. | Each machine's meta-data reports its own name, as it does with a variable per iteration (Go 1.22 and later). | not executed; holds only when the module builds with a Go release before 1.22, which the sources do not state | Imds.SharedLoopVarMixesNames | Imds.MetaDataOfOwnMachine |
