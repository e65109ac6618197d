/**
  StreamRegistry of rust/codex_remote_runtime/src/ssh.rs: streaming commands
  get ids counting up from 1, a started stream's task is kept under its id,
  and a cancel request aborts and reports only a stream it knows.
*/
module StreamRegistry {
  import opened Wrappers
  import opened Ints
  import opened SshParams
  import opened SshAuth

  const CANCELLED: string := "cancelled"

  datatype StartRequest = StartRequest(
    requestId: nat, host: string, port: i32, username: string, command: string,
    privateKeyPem: Option<string>, passphrase: Option<string>, connectTimeoutMs: i32)

  datatype StartResponse = StartResponse(requestId: nat, ok: bool, streamId: nat, error: Option<string>)

  /** One SshStreamExit signal. */
  datatype StreamExit = StreamExit(streamId: nat, exitStatus: i32, error: Option<string>)

  /** The next id to hand out, the ids of the tasks kept in the map, and the exit signals sent so far. */
  datatype Registry = Registry(nextStreamId: nat, tasks: set<nat>, exits: seq<StreamExit>)

  /** A run of StreamRegistry::start: the new registry, the response, and the connection run if any. */
  datatype StartRun = StartRun(registry: Registry, response: StartResponse, connect: Option<ConnectRun>)

  /** StreamRegistry::new: ids start at 1, no tasks. */
  function NewRegistry(): (r: Registry)
    ensures Valid(r) && r.tasks == {} && r.exits == []
    ensures r.nextStreamId == 1
  {
    Registry(1, {}, [])
  }

  /** Every kept task has an id that was handed out already. */
  ghost predicate Valid(reg: Registry) {
    reg.nextStreamId >= 1 && forall id :: id in reg.tasks ==> 1 <= id < reg.nextStreamId
  }

  /**
    StreamRegistry::start: after the port check the next id is taken, whether
    or not the connection succeeds; the task is kept under that id only when
    it does.
  */
  function Start(
    reg: Registry, req: StartRequest, keychain: Result<Option<string>, string>,
    keyAttempt: ConnectOutcome, reply: PromptReply, passwordAttempt: ConnectOutcome): (r: StartRun)
    ensures r.response.requestId == req.requestId
    ensures r.registry.exits == reg.exits
    ensures !(ValidPort(req.port)) ==>
      r.registry == reg && r.response == StartResponse(req.requestId, false, 0, Some(INVALID_PORT)) && r.connect.None?
    ensures ValidPort(req.port) ==>
      r.registry.nextStreamId == reg.nextStreamId + 1
      && r.connect == Some(ConnectWithOptionalPassword(req.username, req.host,
           ResolveKeyPem(req.privateKeyPem, keychain), keyAttempt, reply, passwordAttempt))
    ensures r.response.ok <==> r.connect.Some? && r.connect.value.result.Ok?
    ensures r.response.ok ==>
      r.response.streamId == reg.nextStreamId && r.response.error.None?
      && r.registry.tasks == reg.tasks + {reg.nextStreamId}
    ensures !r.response.ok ==> r.response.streamId == 0 && r.response.error.Some? && r.registry.tasks == reg.tasks
    ensures r.connect.Some? && r.connect.value.result.Err? ==> r.response.error == Some(r.connect.value.result.error)
    ensures Valid(reg) ==> Valid(r.registry)
    ensures Valid(reg) && r.response.ok ==> r.response.streamId !in reg.tasks
  {
    match ValidatePort(req.port)
    case Err(e) => StartRun(reg, StartResponse(req.requestId, false, 0, Some(e)), None)
    case Ok(_) =>
      var streamId := reg.nextStreamId;
      var advanced := reg.(nextStreamId := streamId + 1);
      var pem := ResolveKeyPem(req.privateKeyPem, keychain);
      var connect := ConnectWithOptionalPassword(req.username, req.host, pem, keyAttempt, reply, passwordAttempt);
      match connect.result
      case Err(e) => StartRun(advanced, StartResponse(req.requestId, false, 0, Some(e)), Some(connect))
      case Ok(_) =>
        StartRun(advanced.(tasks := reg.tasks + {streamId}), StartResponse(req.requestId, true, streamId, None), Some(connect))
  }

  /**
    The end of a stream's task: it sends its exit signal, with the exit code
    or -1 and the error. The task's entry stays in the map.
  */
  function Finish(reg: Registry, streamId: nat, outcome: Result<u32, SshError>): (r: Registry)
    ensures r.nextStreamId == reg.nextStreamId && r.tasks == reg.tasks
    ensures |r.exits| == |reg.exits| + 1 && r.exits[..|reg.exits|] == reg.exits
    ensures r.exits[|reg.exits|].streamId == streamId
    ensures outcome.Ok? ==> r.exits[|reg.exits|] == StreamExit(streamId, ExitStatus(outcome.value), None)
    ensures outcome.Err? ==> r.exits[|reg.exits|] == StreamExit(streamId, -1, Some(outcome.error.text))
  {
    var exit :=
      match outcome
      case Ok(code) => StreamExit(streamId, ExitStatus(code), None)
      case Err(e) => StreamExit(streamId, -1, Some(e.text));
    reg.(exits := reg.exits + [exit])
  }

  /**
    A cancel request: a known id is removed, its task aborted, and a
    "cancelled" exit with status -1 sent; an unknown id changes nothing.
  */
  function Cancel(reg: Registry, streamId: nat): (r: Registry)
    ensures streamId in reg.tasks ==>
      r == Registry(reg.nextStreamId, reg.tasks - {streamId}, reg.exits + [StreamExit(streamId, -1, Some(CANCELLED))])
    ensures streamId !in reg.tasks ==> r == reg
  {
    if streamId in reg.tasks then
      Registry(reg.nextStreamId, reg.tasks - {streamId}, reg.exits + [StreamExit(streamId, -1, Some(CANCELLED))])
    else reg
  }

  /** Cancelling keeps the registry valid. */
  lemma CancelPreservesValid(reg: Registry, streamId: nat)
    requires Valid(reg)
    ensures Valid(Cancel(reg, streamId))
  {
  }

  /** A second cancel of the same id has no effect: at most one "cancelled" exit per id and request pair. */
  lemma CancelIdempotent(reg: Registry, streamId: nat)
    ensures Cancel(Cancel(reg, streamId), streamId) == Cancel(reg, streamId)
  {
  }

  /** Successive successful starts hand out distinct, increasing stream ids. */
  lemma StartIdsIncrease(
    reg: Registry,
    req1: StartRequest, keychain1: Result<Option<string>, string>,
    keyAttempt1: ConnectOutcome, reply1: PromptReply, passwordAttempt1: ConnectOutcome,
    req2: StartRequest, keychain2: Result<Option<string>, string>,
    keyAttempt2: ConnectOutcome, reply2: PromptReply, passwordAttempt2: ConnectOutcome)
    requires Valid(reg)
    ensures
      var first := Start(reg, req1, keychain1, keyAttempt1, reply1, passwordAttempt1);
      var second := Start(first.registry, req2, keychain2, keyAttempt2, reply2, passwordAttempt2);
      first.response.ok && second.response.ok ==>
        first.response.streamId < second.response.streamId && second.response.streamId !in first.registry.tasks
  {
  }

  /**
    The task entry stays in the map after the task ends, so a cancel after a
    normal exit still aborts the finished task and sends a second exit, the
    "cancelled" one.
  */
  lemma CancelAfterFinishSendsSecondExit(reg: Registry, streamId: nat, outcome: Result<u32, SshError>)
    requires streamId in reg.tasks
    ensures
      var after := Cancel(Finish(reg, streamId, outcome), streamId);
      && |after.exits| == |reg.exits| + 2
      && after.exits[|reg.exits|].streamId == streamId
      && after.exits[|reg.exits| + 1] == StreamExit(streamId, -1, Some(CANCELLED))
  {
  }
}
