/**
  How the SSH handlers in rust/codex_remote_runtime/src/ssh.rs choose
  credentials: the private key is the request's override or the keychain
  value; the key is tried first when there is one, and the user is asked
  for a password only when there is no key or the server rejected it.
  Connection attempts and the prompt are external: their outcomes are
  parameters.
*/
module SshAuth {
  import opened Wrappers
  import opened Strings

  const KEY_INVALID: string := "SSH private key is invalid or passphrase is wrong"
  const CONNECT_TIMEOUT: string := "SSH connect timeout"
  const PROMPT_TIMED_OUT: string := "Password prompt timed out"
  const PROMPT_CANCELLED: string := "Password prompt cancelled"

  /** The variants of the SSH library's error the handlers tell apart. */
  datatype ErrorKind = KeyAuthFailed | KeyInvalid | OtherFailure

  /** An error of the SSH library: its variant and its Display text. */
  datatype SshError = SshError(kind: ErrorKind, text: string)

  /** How a connect attempt bounded by the connect timeout ended. */
  datatype ConnectOutcome = Connected | ConnectFailed(err: SshError) | ConnectTimedOut

  /**
    How a password prompt ended: the UI answered with a value or with none,
    the reply channel was dropped, or the 300 second wait ran out.
  */
  datatype PromptReply = Answered(value: Option<string>) | PromptDropped | PromptTimedOut

  /** A credential presented to the server. */
  datatype Credential = KeyCredential(pem: string) | PasswordCredential(password: string)

  /**
    A run of connect_with_optional_password: the connection (true when it
    used a password) or an error, the credentials tried in order, and the
    prompt shown, if any.
  */
  datatype ConnectRun = ConnectRun(result: Result<bool, string>, attempts: seq<Credential>, prompt: Option<string>)

  /** AuthBroker::request_password: the password, or why there is none. */
  function RequestPassword(reply: PromptReply): (r: Result<string, string>)
    ensures r.Ok? <==> reply.Answered? && reply.value.Some?
    ensures r.Ok? ==> reply == Answered(Some(r.value))
    ensures r.Err? ==> r.error == (if reply.PromptTimedOut? then PROMPT_TIMED_OUT else PROMPT_CANCELLED)
  {
    match reply
    case PromptTimedOut => Err(PROMPT_TIMED_OUT)
    case PromptDropped => Err(PROMPT_CANCELLED)
    case Answered(None) => Err(PROMPT_CANCELLED)
    case Answered(Some(password)) => Ok(password)
  }

  /** The keychain lookup's value: the stored string, or empty when the lookup failed or found nothing. */
  function KeychainValue(lookup: Result<Option<string>, string>): (r: string)
    ensures lookup.Ok? && lookup.value.Some? ==> r == lookup.value.value
    ensures !(lookup.Ok? && lookup.value.Some?) ==> r == []
  {
    lookup.ToOption().GetOr(None).GetOr([])
  }

  predicate UsableOverride(overridePem: Option<string>) {
    overridePem.Some? && !IsBlank(overridePem.value)
  }

  /**
    resolve_key_pem: the override when it is not blank, else the keychain
    value (empty when missing or when the lookup failed).
  */
  function ResolveKeyPem(overridePem: Option<string>, keychain: Result<Option<string>, string>): (r: string)
    ensures UsableOverride(overridePem) ==> r == overridePem.value
    ensures !UsableOverride(overridePem) ==> r == KeychainValue(keychain)
  {
    if UsableOverride(overridePem) then overridePem.value else KeychainValue(keychain)
  }

  /** The same choice as handle_exec writes it inline: filter, default to "", then consult the keychain if blank. */
  function ExecKeyPem(overridePem: Option<string>, keychain: Result<Option<string>, string>): string {
    var pem := if overridePem.Some? && !IsBlank(overridePem.value) then overridePem.value else "";
    if IsBlank(pem) then KeychainValue(keychain) else pem
  }

  /** handle_exec's inline key choice and resolve_key_pem agree on every input. */
  lemma ExecKeyPemIsResolveKeyPem(overridePem: Option<string>, keychain: Result<Option<string>, string>)
    ensures ExecKeyPem(overridePem, keychain) == ResolveKeyPem(overridePem, keychain)
  {
    assert IsBlank("");
  }

  /** A usable override decides the key alone: the keychain cannot change it. */
  lemma OverrideIgnoresKeychain(overridePem: Option<string>, k1: Result<Option<string>, string>, k2: Result<Option<string>, string>)
    requires UsableOverride(overridePem)
    ensures ResolveKeyPem(overridePem, k1) == ResolveKeyPem(overridePem, k2) == overridePem.value
  {
  }

  /** The key attempt ended with the server rejecting the key: the one case that falls back to a password. */
  predicate KeyRejected(keyAttempt: ConnectOutcome) {
    keyAttempt.ConnectFailed? && keyAttempt.err.kind == KeyAuthFailed
  }

  /** The result of a connect attempt that ends the key path without a prompt. */
  function KeyAttemptResult(keyAttempt: ConnectOutcome): (r: Result<bool, string>)
    requires !KeyRejected(keyAttempt)
    ensures r.Ok? <==> keyAttempt.Connected?
    ensures r.Ok? ==> r.value == false
    ensures keyAttempt.ConnectTimedOut? ==> r == Err(CONNECT_TIMEOUT)
    ensures keyAttempt.ConnectFailed? && keyAttempt.err.kind == KeyInvalid ==> r == Err(KEY_INVALID)
    ensures keyAttempt.ConnectFailed? && keyAttempt.err.kind == OtherFailure ==> r == Err(keyAttempt.err.text)
  {
    match keyAttempt
    case Connected => Ok(false)
    case ConnectTimedOut => Err(CONNECT_TIMEOUT)
    case ConnectFailed(e) => if e.kind == KeyInvalid then Err(KEY_INVALID) else Err(e.text)
  }

  /** The result of the password connect attempt. */
  function PasswordAttemptResult(attempt: ConnectOutcome): (r: Result<bool, string>)
    ensures r.Ok? <==> attempt.Connected?
    ensures r.Ok? ==> r.value == true
    ensures attempt.ConnectTimedOut? ==> r == Err(CONNECT_TIMEOUT)
    ensures attempt.ConnectFailed? ==> r == Err(attempt.err.text)
  {
    match attempt
    case Connected => Ok(true)
    case ConnectTimedOut => Err(CONNECT_TIMEOUT)
    case ConnectFailed(e) => Err(e.text)
  }

  /**
    connect_with_optional_password: tries the key when it is not blank; a
    connection, an invalid key, another error or a timeout ends the run there.
    Otherwise (blank key, or key rejected) it prompts for a password and, if
    one is given, connects with it.
  */
  function ConnectWithOptionalPassword(
    username: string, host: string, pem: string,
    keyAttempt: ConnectOutcome, reply: PromptReply, passwordAttempt: ConnectOutcome): (r: ConnectRun)
    ensures r.prompt.Some? <==> IsBlank(pem) || KeyRejected(keyAttempt)
    ensures r.prompt.Some? ==> r.prompt.value == "Password required for " + username + "@" + host + "."
    ensures |r.attempts| <= 2
    ensures !IsBlank(pem) <==> |r.attempts| > 0 && r.attempts[0] == KeyCredential(pem)
    ensures forall i :: 0 <= i < |r.attempts| && r.attempts[i].KeyCredential? ==> i == 0 && r.attempts[i].pem == pem
    ensures forall i :: 0 <= i < |r.attempts| && r.attempts[i].PasswordCredential? ==>
      i == |r.attempts| - 1 && r.prompt.Some? && reply == Answered(Some(r.attempts[i].password))
    ensures r.prompt.Some? && reply.Answered? && reply.value.Some? ==>
      |r.attempts| > 0 && r.attempts[|r.attempts| - 1] == PasswordCredential(reply.value.value)
    ensures r.result == Ok(false) <==> !IsBlank(pem) && keyAttempt.Connected?
    ensures r.result == Ok(true) <==> r.prompt.Some? && reply.Answered? && reply.value.Some? && passwordAttempt.Connected?
    ensures !IsBlank(pem) && keyAttempt.ConnectFailed? && keyAttempt.err.kind == KeyInvalid ==> r.result == Err(KEY_INVALID)
    ensures !IsBlank(pem) && keyAttempt.ConnectFailed? && keyAttempt.err.kind == OtherFailure ==> r.result == Err(keyAttempt.err.text)
    ensures !IsBlank(pem) && keyAttempt.ConnectTimedOut? ==> r.result == Err(CONNECT_TIMEOUT)
    ensures r.prompt.Some? && reply.PromptTimedOut? ==> r.result == Err(PROMPT_TIMED_OUT)
    ensures r.prompt.Some? && (reply.PromptDropped? || reply == Answered(None)) ==> r.result == Err(PROMPT_CANCELLED)
    ensures r.prompt.Some? && reply.Answered? && reply.value.Some? && passwordAttempt.ConnectTimedOut? ==>
      r.result == Err(CONNECT_TIMEOUT)
    ensures r.prompt.Some? && reply.Answered? && reply.value.Some? && passwordAttempt.ConnectFailed? ==>
      r.result == Err(passwordAttempt.err.text)
  {
    if !IsBlank(pem) && !KeyRejected(keyAttempt) then
      ConnectRun(KeyAttemptResult(keyAttempt), [KeyCredential(pem)], None)
    else
      var tried := if IsBlank(pem) then [] else [KeyCredential(pem)];
      var prompt := "Password required for " + username + "@" + host + ".";
      match RequestPassword(reply)
      case Err(e) => ConnectRun(Err(e), tried, Some(prompt))
      case Ok(password) =>
        ConnectRun(PasswordAttemptResult(passwordAttempt), tried + [PasswordCredential(password)], Some(prompt))
  }
}
