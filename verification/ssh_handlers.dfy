/**
  The request handlers handle_exec and handle_write_file of
  rust/codex_remote_runtime/src/ssh.rs as pure functions of the request and
  of the outcomes of the external calls they make (keychain lookup,
  connection or command attempts, password prompt, remote command).
*/
module SshHandlers {
  import opened Wrappers
  import opened Ints
  import opened Strings
  import opened SshParams
  import opened SshAuth
  import opened ShellQuote

  const NO_KEY_SET: string := "No SSH private key set"
  const KEY_AUTH_FAILED: string := "SSH key authentication failed"
  const COMMAND_TIMEOUT: string := "SSH command timeout"

  datatype ExecRequest = ExecRequest(
    requestId: nat, host: string, port: i32, username: string, command: string,
    privateKeyPem: Option<string>, passphrase: Option<string>,
    connectTimeoutMs: i32, commandTimeoutMs: i32)

  datatype ExecResponse = ExecResponse(
    requestId: nat, ok: bool, stdout: string, stderr: string, exitStatus: i32, error: Option<string>)

  /** What run_command returns on success. */
  datatype CommandResult = CommandResult(stdout: string, stderr: string, exitStatus: i32)

  /** The connect and command timeouts, in milliseconds. */
  datatype Timeouts = Timeouts(connectMs: nat, commandMs: nat)

  /** A run of handle_exec: the response, credentials tried in order, the prompt shown, the timeouts used. */
  datatype ExecRun = ExecRun(response: ExecResponse, attempts: seq<Credential>, prompt: Option<string>, timeouts: Option<Timeouts>)

  function ExecFailure(requestId: nat, error: string): ExecResponse {
    ExecResponse(requestId, false, [], [], -1, Some(error))
  }

  function ExecSuccess(requestId: nat, result: CommandResult): ExecResponse {
    ExecResponse(requestId, true, result.stdout, result.stderr, result.exitStatus, None)
  }

  predicate KeyRunRejected(keyRun: Result<CommandResult, SshError>) {
    keyRun.Err? && keyRun.error.kind == KeyAuthFailed
  }

  /**
    handle_exec: validates the port, chooses the key, runs the command with
    the key when there is one, and falls back to a password prompt when there
    is no key or the key was rejected.
  */
  function HandleExec(
    req: ExecRequest, keychain: Result<Option<string>, string>,
    keyRun: Result<CommandResult, SshError>, reply: PromptReply,
    passwordRun: Result<CommandResult, SshError>): (r: ExecRun)
    ensures r.response.requestId == req.requestId
    ensures !ValidPort(req.port) ==> r == ExecRun(ExecFailure(req.requestId, INVALID_PORT), [], None, None)
    ensures ValidPort(req.port) ==>
      r.timeouts == Some(Timeouts(ClampTimeoutMs(req.connectTimeoutMs), ClampTimeoutMs(req.commandTimeoutMs)))
    ensures r.response.ok <==> r.response.error.None?
    ensures !r.response.ok ==> r.response.exitStatus == -1 && r.response.stdout == [] && r.response.stderr == []
    ensures r.prompt.Some? <==>
      ValidPort(req.port) && (IsBlank(ResolveKeyPem(req.privateKeyPem, keychain)) || KeyRunRejected(keyRun))
    ensures r.prompt.Some? ==>
      r.prompt.value == (if IsBlank(ResolveKeyPem(req.privateKeyPem, keychain)) then NO_KEY_SET else KEY_AUTH_FAILED)
        + ". Password required for " + req.username + "@" + req.host + "."
    ensures r.response.ok <==>
      || (ValidPort(req.port) && r.prompt.None? && keyRun.Ok?)
      || (r.prompt.Some? && reply.Answered? && reply.value.Some? && passwordRun.Ok?)
    ensures r.response.ok && r.prompt.None? ==> r.response == ExecSuccess(req.requestId, keyRun.value)
    ensures r.response.ok && r.prompt.Some? ==> r.response == ExecSuccess(req.requestId, passwordRun.value)
    ensures ValidPort(req.port) && r.prompt.None? && keyRun.Err? && keyRun.error.kind == KeyInvalid ==>
      r.response.error == Some(KEY_INVALID)
    ensures ValidPort(req.port) && r.prompt.None? && keyRun.Err? && keyRun.error.kind == OtherFailure ==>
      r.response.error == Some(keyRun.error.text)
    ensures r.prompt.Some? && reply.PromptTimedOut? ==> r.response.error == Some(PROMPT_TIMED_OUT)
    ensures r.prompt.Some? && (reply.PromptDropped? || reply == Answered(None)) ==> r.response.error == Some(PROMPT_CANCELLED)
    ensures r.prompt.Some? && reply.Answered? && reply.value.Some? && passwordRun.Err? ==>
      r.response.error == Some(passwordRun.error.text)
  {
    match ValidatePort(req.port)
    case Err(e) => ExecRun(ExecFailure(req.requestId, e), [], None, None)
    case Ok(_) =>
      var timeouts := Timeouts(ClampTimeoutMs(req.connectTimeoutMs), ClampTimeoutMs(req.commandTimeoutMs));
      var pem := ExecKeyPem(req.privateKeyPem, keychain);
      ExecKeyPemIsResolveKeyPem(req.privateKeyPem, keychain);
      if !IsBlank(pem) && !KeyRunRejected(keyRun) then
        var response :=
          match keyRun
          case Ok(result) => ExecSuccess(req.requestId, result)
          case Err(e) => ExecFailure(req.requestId, if e.kind == KeyInvalid then KEY_INVALID else e.text);
        ExecRun(response, [KeyCredential(pem)], None, Some(timeouts))
      else
        var lastError := if IsBlank(pem) then NO_KEY_SET else KEY_AUTH_FAILED;
        var prompt := lastError + ". Password required for " + req.username + "@" + req.host + ".";
        var tried := if IsBlank(pem) then [] else [KeyCredential(pem)];
        match RequestPassword(reply)
        case Err(e) => ExecRun(ExecFailure(req.requestId, e), tried, Some(prompt), Some(timeouts))
        case Ok(password) =>
          var response :=
            match passwordRun
            case Ok(result) => ExecSuccess(req.requestId, result)
            case Err(e) => ExecFailure(req.requestId, e.text);
          ExecRun(response, tried + [PasswordCredential(password)], Some(prompt), Some(timeouts))
  }

  /** A command run seen as a connect attempt: success is a connection, an error is a failed connect. */
  function AsConnectOutcome(run: Result<CommandResult, SshError>): ConnectOutcome {
    match run
    case Ok(_) => Connected
    case Err(e) => ConnectFailed(e)
  }

  /**
    handle_exec and connect_with_optional_password follow one policy: for the
    same key and the same outcomes they try the same credentials in the same
    order, prompt in the same cases, and succeed in the same cases.
  */
  lemma ExecFollowsConnectPolicy(
    req: ExecRequest, keychain: Result<Option<string>, string>,
    keyRun: Result<CommandResult, SshError>, reply: PromptReply,
    passwordRun: Result<CommandResult, SshError>)
    requires ValidPort(req.port)
    ensures
      var run := HandleExec(req, keychain, keyRun, reply, passwordRun);
      var connect := ConnectWithOptionalPassword(
        req.username, req.host, ResolveKeyPem(req.privateKeyPem, keychain),
        AsConnectOutcome(keyRun), reply, AsConnectOutcome(passwordRun));
      && run.attempts == connect.attempts
      && run.prompt.Some? == connect.prompt.Some?
      && run.response.ok == connect.result.Ok?
  {
    ExecKeyPemIsResolveKeyPem(req.privateKeyPem, keychain);
  }

  datatype WriteFileRequest = WriteFileRequest(
    requestId: nat, host: string, port: i32, username: string, remotePath: string, contents: string,
    privateKeyPem: Option<string>, passphrase: Option<string>,
    connectTimeoutMs: i32, commandTimeoutMs: i32)

  datatype WriteFileResponse = WriteFileResponse(requestId: nat, ok: bool, error: Option<string>)

  /** How the remote command of a file write ended, within the command timeout. */
  datatype ExecOutcome = Exited(code: u32) | ExecFailed(err: SshError) | CommandTimedOut

  /** The command line run remotely and the text piped to its stdin. */
  datatype RemoteCommand = RemoteCommand(command: string, stdin: string)

  /** A run of handle_write_file: the response, the connection run, and the remote command, if it got that far. */
  datatype WriteFileRun = WriteFileRun(response: WriteFileResponse, connect: Option<ConnectRun>, command: Option<RemoteCommand>)

  function WriteFailure(requestId: nat, error: string): WriteFileResponse {
    WriteFileResponse(requestId, false, Some(error))
  }

  /**
    handle_write_file as written: validates the port, connects (key first,
    then password), runs mkdir -p <dir> && cat > <path> with the contents on
    stdin, and reports success only for exit status 0. The directory is the
    text before the path's last '/', so a file directly under the root gets
    mkdir -p ''.
  */
  function HandleWriteFile(
    req: WriteFileRequest, keychain: Result<Option<string>, string>,
    keyAttempt: ConnectOutcome, reply: PromptReply, passwordAttempt: ConnectOutcome,
    exec: ExecOutcome, stdout: string, stderr: string): (r: WriteFileRun)
    ensures r.response.requestId == req.requestId
    ensures r.response.ok <==> r.response.error.None?
    ensures !ValidPort(req.port) ==> r == WriteFileRun(WriteFailure(req.requestId, INVALID_PORT), None, None)
    ensures ValidPort(req.port) ==> r.connect == Some(ConnectWithOptionalPassword(
      req.username, req.host, ResolveKeyPem(req.privateKeyPem, keychain), keyAttempt, reply, passwordAttempt))
    ensures r.command.Some? <==> r.connect.Some? && r.connect.value.result.Ok?
    ensures r.connect.Some? && r.connect.value.result.Err? ==> r.response.error == Some(r.connect.value.result.error)
    ensures r.command.Some? ==> r.command.value == RemoteCommand(WriteFileCommandAsWritten(req.remotePath), req.contents)
    ensures r.response.ok <==> r.command.Some? && exec == Exited(0)
    ensures r.command.Some? && exec.Exited? && exec.code != 0 ==>
      r.response.error == Some(WriteFailedMessage(ExitStatus(exec.code), stderr, stdout))
    ensures r.command.Some? && exec == CommandTimedOut ==> r.response.error == Some(COMMAND_TIMEOUT)
    ensures r.command.Some? && exec.ExecFailed? ==> r.response.error == Some(exec.err.text)
  {
    match ValidatePort(req.port)
    case Err(e) => WriteFileRun(WriteFailure(req.requestId, e), None, None)
    case Ok(_) =>
      var pem := ResolveKeyPem(req.privateKeyPem, keychain);
      var connect := ConnectWithOptionalPassword(req.username, req.host, pem, keyAttempt, reply, passwordAttempt);
      match connect.result
      case Err(e) => WriteFileRun(WriteFailure(req.requestId, e), Some(connect), None)
      case Ok(_) =>
        var command := RemoteCommand(WriteFileCommandAsWritten(req.remotePath), req.contents);
        var response :=
          match exec
          case ExecFailed(e) => WriteFailure(req.requestId, e.text)
          case CommandTimedOut => WriteFailure(req.requestId, COMMAND_TIMEOUT)
          case Exited(code) =>
            var status := ExitStatus(code);
            if status == 0 then WriteFileResponse(req.requestId, true, None)
            else WriteFailure(req.requestId, WriteFailedMessage(status, stderr, stdout));
        WriteFileRun(response, Some(connect), Some(command))
  }

  /**
    handle_write_file with the root-file correction: the same run, except that
    the remote command creates the corrected directory, so mkdir is never
    handed an empty operand. The exit outcome stays a parameter.
  */
  function HandleWriteFileCorrected(
    req: WriteFileRequest, keychain: Result<Option<string>, string>,
    keyAttempt: ConnectOutcome, reply: PromptReply, passwordAttempt: ConnectOutcome,
    exec: ExecOutcome, stdout: string, stderr: string): (r: WriteFileRun)
    ensures
      var w := HandleWriteFile(req, keychain, keyAttempt, reply, passwordAttempt, exec, stdout, stderr);
      && r.response == w.response
      && r.connect == w.connect
      && r.command.Some? == w.command.Some?
      && (r.command.Some? ==>
            && r.command.value.stdin == req.contents
            && Tokens(r.command.value.command) == Some(WriteTokens(RemoteDir(req.remotePath), req.remotePath))
            && RemoteDir(req.remotePath) != []
            && (r.command.value != w.command.value
                <==> req.remotePath != [] && req.remotePath[0] == '/' && '/' !in req.remotePath[1..]))
  {
    var w := HandleWriteFile(req, keychain, keyAttempt, reply, passwordAttempt, exec, stdout, stderr);
    CorrectionChangesOnlyRootCommands(req.remotePath);
    if w.command.Some? then w.(command := Some(RemoteCommand(WriteFileCommand(req.remotePath), req.contents)))
    else w
  }
}
