# field-exec remote runtime, modelled in Dafny

This project models the core of the field-exec remote runtime. That runtime is the Rust side of a Flutter app that runs commands on remote hosts over SSH. The model covers four parts:

- **The SSH request handlers** (`rust/codex_remote_runtime/src/ssh.rs`):
  - one-shot `exec`, which tries key authentication first and falls back to a password prompt;
  - streaming commands: the stream registry, the per-stream line splitter, and cancellation;
  - writing a remote file through `mkdir -p … && cat > …`;
  - the parsing around these: ports, `user@host`, timeouts, exit codes and shell quoting.
- **The storage client** (`rust/codex_remote_rinf/src/storage.rs`). It turns six storage operations into request signals with fresh ids and routes each response back to the caller waiting for it.
- **The macOS paste bridge** (`macos/Runner/MainFlutterWindow.swift`). It wraps `NSApplication.sendAction` so that a `paste:` which AppKit leaves unhandled is forwarded to the Flutter view over the `field_exec/paste` method channel.

Everything is modelled as pure functions over immutable data, plus two methods with loops: the line splitter and the stream task.

Calls whose outcome the runtime cannot decide are **parameters** carrying that outcome:

- SSH connects, commands and timeouts;
- the keychain lookup;
- the password prompt's reply;
- the clipboard and the windows.

A handler returns a "run" record. The record holds the response, the credentials tried in order, the prompt shown, and the remote command it issued.

Modules, one per file:

| file | module | what it holds |
|---|---|---|
| `wrappers.dfy` | `Wrappers`, `Ints` | `Option`, `Result`; the `i32`/`u16`/`u32` ranges |
| `strings.dfy` | `Strings` | Rust's `trim`, `trim_end_matches`, `find`, `rfind` on `seq<char>` |
| `decimal.dfy` | `Decimal` | decimal rendering of integers and reading it back |
| `line_splitter.dfy` | `LineSplitter` | `push_lines`, `flush_pending`, and the splitting they implement |
| `stream_task.dfy` | `StreamTask` | a streaming command's task: interleaved stdout/stderr chunks, then the flushes |
| `shell_quote.dfy` | `ShellQuote` | `sh_quote`; a POSIX shell word reader (section 2.2 of the Shell Command Language, IEEE Std 1003.1) as its inverse, and a tokenizer that tells words from operators (sections 2.3 and 2.10.1) |
| `ssh_params.dfy` | `SshParams` | port, timeout and exit-code conversion; `user@host`; remote directory; write-file command and error text |
| `ssh_auth.dfy` | `SshAuth` | password prompt, key resolution, `connect_with_optional_password` |
| `ssh_handlers.dfy` | `SshHandlers` | `handle_exec`, `handle_write_file` |
| `stream_registry.dfy` | `StreamRegistry` | stream ids, start, exit, cancel |
| `paste_bridge.dfy` | `PasteBridge` | the paste bridge and the swizzled method table |
| `storage.dfy` | `Storage` | `StorageClient` |

The paste bridge acts only on `paste:`, and only after AppKit's own dispatch has declined it. All it does is forward the clipboard; there is no text-insertion hook.

## Model

| member | source | states |
|---|---|---|
| Strings.Trim | rust/codex_remote_runtime/src/ssh.rs:459-460 | trimming yields nothing exactly for blank text; otherwise it is the contiguous slice after the leading whitespace, and neither of its ends is whitespace |
| Strings.TrimEndMatches | rust/codex_remote_runtime/src/ssh.rs:447 | the result is a prefix of the input that does not end with the character, and everything removed is that character |
| Strings.IndexOf | rust/codex_remote_runtime/src/ssh.rs:446 | returns the first position holding the character, and None exactly when the character is absent |
| Strings.LastIndexOf | rust/codex_remote_runtime/src/ssh.rs:589 | returns the last position holding the character, and None exactly when the character is absent |
| Decimal.ParseNatToString | rust/codex_remote_runtime/src/ssh.rs:663 | reading back the decimal digits of a natural number gives the number |
| Decimal.IntToString | rust/codex_remote_runtime/src/ssh.rs:663 | the rendering starts with '-' exactly for negatives, and its digits read back as the magnitude |
| Decimal.ParseIntToString | rust/codex_remote_runtime/src/ssh.rs:663 | every rendered status reads back as itself |
| LineSplitter.Segments | rust/codex_remote_runtime/src/ssh.rs:446-448 | no line that splitting produces, and not the remainder, contains a newline |
| LineSplitter.SegmentsJoin | rust/codex_remote_runtime/src/ssh.rs:446-448 | re-terminating the lines and appending the remainder rebuilds the buffer: splitting loses nothing |
| LineSplitter.SegmentsOfTerminated | rust/codex_remote_runtime/src/ssh.rs:446-448 | splitting is the inverse of joining newline-free lines, so the split is unique |
| LineSplitter.SegmentsCount | rust/codex_remote_runtime/src/ssh.rs:446-455 | one line comes out per newline in the buffer |
| LineSplitter.SegmentsAppend | rust/codex_remote_runtime/src/ssh.rs:445-448 | splitting a concatenation equals splitting the first part, then splitting its remainder followed by the second part |
| LineSplitter.PushLines | rust/codex_remote_runtime/src/ssh.rs:443-456 | one signal per newline in pending+chunk, in order, with the stream's id and tag. Each line is the text before its newline without trailing CRs. The new pending is the unterminated tail, and nothing is lost |
| LineSplitter.FlushPending | rust/codex_remote_runtime/src/ssh.rs:458-471 | the buffer is cleared; a signal is sent exactly when the pending text is not blank, and it carries the trimmed text |
| LineSplitter.PushAllIndependentOfChunking | rust/codex_remote_runtime/src/ssh.rs:443-456 | pushing chunks one at a time emits the same lines and leaves the same pending text as pushing their concatenation |
| StreamTask.Receive | rust/codex_remote_runtime/src/ssh.rs:390-406 | after each received chunk, each stream's pending buffer and lines are those its own output so far dictates |
| StreamTask.FlushBoth | rust/codex_remote_runtime/src/ssh.rs:409-410 | after the two flushes, each stream has shown its complete lines plus its trimmed non-blank remainder |
| StreamTask.RunStreamTask | rust/codex_remote_runtime/src/ssh.rs:379-410 | each stream's signalled lines depend only on that stream's output: chunk boundaries and interleaving with the other stream do not matter |
| ShellQuote.Escape | rust/codex_remote_runtime/src/ssh.rs:676 | text without single quotes is left as is, and escaping never shortens |
| ShellQuote.ShQuote | rust/codex_remote_runtime/src/ssh.rs:667-677 | the quoted form is never empty; it equals the input exactly when the input is a non-empty word of safe characters |
| ShellQuote.ShQuoteReadsBack | rust/codex_remote_runtime/src/ssh.rs:667-677 | the shell reads the quoted word back as the original text and stops exactly at the following space |
| ShellQuote.ShQuoteRoundTrip | rust/codex_remote_runtime/src/ssh.rs:667-677 | unquoting the quoted form of any string gives back that string |
| ShellQuote.ShQuoteTokens | rust/codex_remote_runtime/src/ssh.rs:667-677 | a quoted string followed by a blank, an operator or the end is tokenized as one word holding exactly that string, whatever characters it contains |
| ShellQuote.QuotedOperatorIsWord | rust/codex_remote_runtime/src/ssh.rs:667-677 | a quoted '&&' is a word, not the and-if operator |
| ShellQuote.OperatorEndsWord | rust/codex_remote_runtime/src/ssh.rs:593-597 | an unquoted operator character ends the word before it: a&b is the word a, the operator & and the word b |
| SshParams.ValidatePort | rust/codex_remote_runtime/src/ssh.rs:149-161 | a port is accepted exactly when it is in 0..65535, keeps its value, and otherwise yields "Invalid port" |
| SshParams.ClampTimeoutMs | rust/codex_remote_runtime/src/ssh.rs:163-166 | a timeout is at least 1 ms and at least the request's value, and is either 1 or that value |
| SshParams.ExitStatus | rust/codex_remote_runtime/src/ssh.rs:627 | an exit code is kept exactly when it fits an i32, and otherwise becomes -1 |
| SshParams.SplitUserAtHost | rust/codex_remote_runtime/src/ssh.rs:744-755 | succeeds exactly when there is an '@'; the user has no '@', and user + "@" + host rebuilds the input |
| SshParams.SplitUserAtHostOfJoin | rust/codex_remote_runtime/src/ssh.rs:744-755 | a user without '@' joined to any host splits back into that user and host |
| SshParams.InstallTarget | rust/codex_remote_runtime/src/ssh.rs:744-765 | the '@' check comes before the port check; success needs both |
| SshParams.RemoteDirAsWritten | rust/codex_remote_runtime/src/ssh.rs:589-592 | the text before the last '/', or "." without one |
| SshParams.RemoteDirAsWrittenOfJoin | rust/codex_remote_runtime/src/ssh.rs:589-592 | for dir + "/" + name with a slash-free name, the directory is dir |
| SshParams.RemoteDir | rust/codex_remote_runtime/src/ssh.rs:589-592 | the corrected directory is never empty: "/" for a file at the root, otherwise as written |
| SshParams.RemoteDirCorrectsOnlyRootFiles | rust/codex_remote_runtime/src/ssh.rs:589-592 | the correction changes the result exactly for root-level paths |
| SshParams.WriteFileCommandForTokens | rust/codex_remote_runtime/src/ssh.rs:593-597 | for any dir and path, the shell tokenizes the command as the words mkdir, -p and dir, the operator &&, the word cat, the operator > and the word path |
| SshParams.WriteFileCommandAsWritten | rust/codex_remote_runtime/src/ssh.rs:589-597 | the command as written tokenizes as words mkdir -p plus the text before the last '/' (or "."), the operator &&, the word cat, the operator > and the exact path |
| SshParams.WriteFileCommand | rust/codex_remote_runtime/src/ssh.rs:589-597 | the corrected command tokenizes the same way, with the corrected, never empty directory as mkdir's operand |
| SshParams.CorrectionChangesOnlyRootCommands | rust/codex_remote_runtime/src/ssh.rs:589-597 | the corrected command differs from the one as written exactly for a file directly under the root |
| SshParams.RootFileAsWrittenGivesEmptyDirectory | rust/codex_remote_runtime/src/ssh.rs:589-597 | as written, "/x" gives the command mkdir -p '' && cat > /x, whose mkdir operand is the empty string |
| SshParams.WriteFailureDetail | rust/codex_remote_runtime/src/ssh.rs:652-658 | the detail is trimmed stderr when that is not blank, and otherwise trimmed stdout |
| SshParams.WriteFailedMessageReadsBack | rust/codex_remote_runtime/src/ssh.rs:660-664 | partner of WriteFailedMessage, the "write failed (exit=N): detail" text: the message reads back into exactly the exit status and detail it was built from |
| SshAuth.RequestPassword | rust/codex_remote_runtime/src/ssh.rs:53-70 | a password comes back exactly when the prompt is answered with a value; a timeout and a cancel give their own errors |
| SshAuth.KeychainValue | rust/codex_remote_runtime/src/ssh.rs:477-482 | the stored string, or empty when the lookup failed or found nothing |
| SshAuth.ResolveKeyPem | rust/codex_remote_runtime/src/ssh.rs:473-483 | a non-blank override wins; otherwise the keychain value is used |
| SshAuth.ExecKeyPemIsResolveKeyPem | rust/codex_remote_runtime/src/ssh.rs:168-183 | the exec handler's inline key choice equals resolve_key_pem |
| SshAuth.OverrideIgnoresKeychain | rust/codex_remote_runtime/src/ssh.rs:474-476 | with a usable override, the keychain outcome does not matter |
| SshAuth.KeyAttemptResult | rust/codex_remote_runtime/src/ssh.rs:511-518 | a key attempt that was not rejected succeeds exactly when it connected, without a password |
| SshAuth.PasswordAttemptResult | rust/codex_remote_runtime/src/ssh.rs:528-541 | a password attempt succeeds exactly when it connected, and reports that a password was used |
| SshAuth.ConnectWithOptionalPassword | rust/codex_remote_runtime/src/ssh.rs:485-542 | a prompt appears exactly when the key is blank or rejected. The key, if any, is tried first and only once, and no other key is ever presented; at most two attempts are made, and a password is tried only after an answered prompt. The result says which credential connected; an invalid key gives its own error |
| SshHandlers.HandleExec | rust/codex_remote_runtime/src/ssh.rs:142-282 | a bad port fails with no attempt. The prompt appears exactly when the key is blank or rejected, and it names why. Success happens exactly when the key run or a password run after an answered prompt succeeds, and it returns that run's output; every failure has status -1 and empty output |
| SshHandlers.ExecFollowsConnectPolicy | rust/codex_remote_runtime/src/ssh.rs:185-281 | for the same outcomes, exec tries the same credentials, prompts in the same cases, and succeeds in the same cases as connect_with_optional_password |
| SshHandlers.HandleWriteFile | rust/codex_remote_runtime/src/ssh.rs:544-665 | a bad port fails before connecting. The command runs exactly when the connection succeeds, with the contents on stdin, and it is the command as written, so a file at the root gets mkdir -p ''. Success means exit status 0; a non-zero status gives the write-failure message, a timeout gives "SSH command timeout", and a command that fails to run gives its own error text |
| SshHandlers.HandleWriteFileCorrected | rust/codex_remote_runtime/src/ssh.rs:589-597 | with the root-file correction, the run has the same response and connection, and the command creates the never-empty corrected directory. It differs from the as-written command exactly for a file directly under the root |
| StreamRegistry.NewRegistry | rust/codex_remote_runtime/src/ssh.rs:290-295 | a new registry is valid and empty |
| StreamRegistry.Start | rust/codex_remote_runtime/src/ssh.rs:317-440 | a bad port changes nothing. Otherwise an id is used up whether or not the connection succeeds; only a successful start keeps a task and returns its id, which is new. A failed connection returns the connection's own error |
| StreamRegistry.Finish | rust/codex_remote_runtime/src/ssh.rs:412-428 | exactly one exit signal is appended, carrying the exit code when it fits an i32, and -1 with the error text on failure |
| StreamRegistry.Cancel | rust/codex_remote_runtime/src/ssh.rs:297-313 | a known id is removed and one "cancelled" exit with status -1 is sent; an unknown id changes nothing |
| StreamRegistry.CancelPreservesValid | rust/codex_remote_runtime/src/ssh.rs:297-313 | cancelling keeps every kept task's id among those handed out |
| StreamRegistry.CancelIdempotent | rust/codex_remote_runtime/src/ssh.rs:301-302 | a second cancel of the same id has no effect |
| StreamRegistry.StartIdsIncrease | rust/codex_remote_runtime/src/ssh.rs:337-339 | two successful starts get increasing ids, and the second id is not already in use |
| StreamRegistry.CancelAfterFinishSendsSecondExit | rust/codex_remote_runtime/src/ssh.rs:297-313 | a stream that has already exited and is then cancelled reports two exits, because its entry stays in the map |
| PasteBridge.HandlePaste | macos/Runner/MainFlutterWindow.swift:50-61 | handled exactly when the clipboard holds non-empty text and the window shows Flutter; the text is then sent unchanged to that engine's pasteText method |
| PasteBridge.TargetWindow | macos/Runner/MainFlutterWindow.swift:70 | the key window is preferred, and there is no target only when both windows are missing |
| PasteBridge.FieldExecSendAction | macos/Runner/MainFlutterWindow.swift:64-73 | AppKit's answer stands when it handled the action, and other actions pass through unchanged. Only an unhandled paste: with a target window reaches the bridge, and a message is sent only then |
| PasteBridge.Exchange | macos/Runner/MainFlutterWindow.swift:47 | the two selectors swap implementations |
| PasteBridge.ExchangeInvolution | macos/Runner/MainFlutterWindow.swift:47 | swapping twice restores the table, and a single swap of distinct implementations changes it |
| PasteBridge.Install | macos/Runner/MainFlutterWindow.swift:30-48 | install runs once. The swap happens only when both methods were found, and each implementation stays behind exactly one selector |
| PasteBridge.InstallAllIsFirstInstall | macos/Runner/MainFlutterWindow.swift:26-34 | any number of installs has the effect of the first |
| PasteBridge.SendAction | macos/Runner/MainFlutterWindow.swift:36-48 | while the swap is not installed, sendAction is AppKit's and sends nothing to Flutter |
| PasteBridge.InstalledBridgeForwardsPaste | macos/Runner/MainFlutterWindow.swift:30-48 | once installed, however often, sendAction behaves as the wrapper |
| PasteBridge.UnguardedReinstallUndoes | macos/Runner/MainFlutterWindow.swift:31-32 | without the guard, a second swap would restore AppKit's sendAction and switch the bridge off |
| Storage.Encode | rust/codex_remote_rinf/src/storage.rs:48-127 | each operation goes out under the given id with its key and the scope of its store; a value is carried exactly for the two set operations |
| Storage.DecodeEncode | rust/codex_remote_rinf/src/storage.rs:10-15 | reading the scope and op codes back recovers exactly the operation that sent the request |
| Storage.EncodeInjective | rust/codex_remote_rinf/src/storage.rs:10-15 | distinct operations never send the same request |
| Storage.NewClient | rust/codex_remote_rinf/src/storage.rs:24-28 | a new client is valid, with no one waiting and nothing sent |
| Storage.Send | rust/codex_remote_rinf/src/storage.rs:129-138 | the request goes out under the next id, which is new, and its caller waits under that id; validity is kept |
| Storage.Route | rust/codex_remote_rinf/src/storage.rs:38-44 | a response for a waiting id is handed to that caller and ends the wait; any other response is dropped; validity is kept |
| Storage.RouteOnce | rust/codex_remote_rinf/src/storage.rs:40-43 | a duplicate response is dropped |
| Storage.RouteOnlyTouchesItsId | rust/codex_remote_rinf/src/storage.rs:38-44 | routing a response leaves every other caller as it was |
| Storage.RequestResult | rust/codex_remote_rinf/src/storage.rs:140-147 | no response gives "Storage response channel closed". The value is returned exactly when the response is ok; a failure gives its own error or "Storage operation failed" |
| Storage.OperationResult | rust/codex_remote_rinf/src/storage.rs:62-88 | set and remove return unit and get returns the string, with the same success and error as the request |
| Storage.SendAll | rust/codex_remote_rinf/src/storage.rs:129-131 | sending n operations advances the id by n and only appends to what was sent |
| Storage.SendAllFromValid | rust/codex_remote_rinf/src/storage.rs:129-138 | the k-th of a run of operations goes out under id next+k, encoding that operation, and its caller waits; validity is kept |
| Storage.SendAllKeepsPending | rust/codex_remote_rinf/src/storage.rs:133-136 | sending never ends another caller's wait |

## Left out

- SSH transport, key parsing and cryptography are left out: connecting, authenticating and running a command are outcome parameters. So are the connect and command timeouts, the 300-second prompt limit, the keychain lookup and the prompt reply.
- Key generation, authorized-key derivation and the rest of handle_install_public_key after its argument checks are left out. They are cryptography and command building outside the modelled handlers.
- The AuthBroker's pending map and router are not modelled: a prompt is modelled by its reply only. The map is not the storage client's pattern. request_password files its sender under the caller's request id (ssh.rs:53-55, called with the request's own id), not under a fresh one. So a second prompt with the same id replaces the first sender, and the first prompt then ends with "Password prompt cancelled". A prompt that times out also leaves its entry behind. Storage.Send's fresh-id guarantee does not carry over to prompts.
- Concurrency is left out: the spawned router and task loops, the `select!` between output channels, and locking. The stream task takes the order in which chunks were received as its input.
- UTF-8 decoding is left out: output chunks are modelled as already-decoded text. Lossy decoding of a multi-byte character split across two chunks is not represented.
- Request and stream ids are unbounded naturals, so wrap-around of the u64 counters after 2^64 requests is not modelled.
- The texts of the SSH library's errors are not modelled: an error is its kind plus an opaque text. `run_command` (rust/codex_remote_adapters/src/ssh.rs) is network I/O and is not modelled. Its connect and command timeouts reach handle_exec as errors of kind OtherFailure whose text the response passes on.
- SshHandlers.HandleExec: the fallback "SSH auth failed" default for a missing last error is left out. It cannot be reached, because the last error is always set before the prompt.
- StreamRegistry.Finish: the task is spawned before its entry is inserted into the map, so in the runtime a very short command can exit before it is registered; the model applies a task's exit only after its start.
- ShellQuote.ShQuoteReadsBack: the reader and the tokenizer stop a word at a blank or an operator character (`&|;<>()`) and accept otherwise only sh_quote's safe characters unquoted. Other unquoted shell syntax (tabs, newlines, `$`, backquotes, double quotes, backslashes, globs) is rejected, not interpreted. Here-documents and reserved words are not recognized. The tokenizer covers what the write-file command needs.
- PasteBridge.SendAction: the Objective-C runtime's method lookup and exchange are a two-entry table, and whether the lookup found both methods is a parameter. The clipboard is an optional string, and the method channel is a message record.
- The window setup in awakeFromNib and plugin registration are left out. They are UI wiring apart from the call to install, which is modelled.
- SshHandlers.HandleWriteFileCorrected: the remote command's exit stays a parameter, so the model does not derive that mkdir -p '' fails and mkdir -p / succeeds. That step rests on POSIX mkdir rejecting an empty pathname, as the Findings row says.
- Storage.Decode is the receiving side's reading of the scope and op constants. The Dart-side storage itself is not part of this model.

## Findings

| source | as written | input that shows it | evidently intended | confidence | as-written member | corrected member |
|---|---|---|---|---|---|---|
| rust/codex_remote_runtime/src/ssh.rs:589-597 | the directory of the remote path is the text before its last '/' | remote path "/x": the directory is "" and the command is mkdir -p '' && cat > /x, where mkdir fails on the empty operand and the write is reported as failed | a file at the root has directory "/", so mkdir -p / succeeds and the file is written | not executed | SshParams.RootFileAsWrittenGivesEmptyDirectory | SshHandlers.HandleWriteFileCorrected |
