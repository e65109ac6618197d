/**
  StorageClient of rust/codex_remote_rinf/src/storage.rs: each storage
  operation becomes a StorageRequest with a fresh request id, the waiting
  caller is parked in a pending map under that id, and a router hands each
  StorageResponse to the caller waiting for its id.
*/
module Storage {
  import opened Wrappers

  const SCOPE_SHARED_PREFERENCES: int := 0
  const SCOPE_KEYCHAIN: int := 1

  const OP_GET_STRING: int := 0
  const OP_SET_STRING: int := 1
  const OP_REMOVE: int := 2

  const CHANNEL_CLOSED: string := "Storage response channel closed"
  const OPERATION_FAILED: string := "Storage operation failed"

  /** The six public operations of the client. */
  datatype Operation =
    | GetSharedPrefString(key: string)
    | SetSharedPrefString(key: string, value: string)
    | RemoveSharedPref(key: string)
    | GetKeychainString(key: string)
    | SetKeychainString(key: string, value: string)
    | RemoveKeychain(key: string)

  datatype StorageRequest = StorageRequest(requestId: nat, scope: int, op: int, key: string, value: Option<string>)

  datatype StorageResponse = StorageResponse(requestId: nat, ok: bool, value: Option<string>, error: Option<string>)

  predicate IsSet(op: Operation) {
    op.SetSharedPrefString? || op.SetKeychainString?
  }

  predicate IsKeychain(op: Operation) {
    op.GetKeychainString? || op.SetKeychainString? || op.RemoveKeychain?
  }

  /** The request each operation sends. */
  function Encode(requestId: nat, op: Operation): (r: StorageRequest)
    ensures r.requestId == requestId && r.key == op.key
    ensures r.scope == (if IsKeychain(op) then SCOPE_KEYCHAIN else SCOPE_SHARED_PREFERENCES)
    ensures r.value.Some? <==> IsSet(op)
    ensures r.op in {OP_GET_STRING, OP_SET_STRING, OP_REMOVE}
  {
    match op
    case GetSharedPrefString(key) => StorageRequest(requestId, SCOPE_SHARED_PREFERENCES, OP_GET_STRING, key, None)
    case SetSharedPrefString(key, value) => StorageRequest(requestId, SCOPE_SHARED_PREFERENCES, OP_SET_STRING, key, Some(value))
    case RemoveSharedPref(key) => StorageRequest(requestId, SCOPE_SHARED_PREFERENCES, OP_REMOVE, key, None)
    case GetKeychainString(key) => StorageRequest(requestId, SCOPE_KEYCHAIN, OP_GET_STRING, key, None)
    case SetKeychainString(key, value) => StorageRequest(requestId, SCOPE_KEYCHAIN, OP_SET_STRING, key, Some(value))
    case RemoveKeychain(key) => StorageRequest(requestId, SCOPE_KEYCHAIN, OP_REMOVE, key, None)
  }

  /**
    How the receiving side reads a request: the scope and op codes select the
    operation; a set carries its value.
  */
  function Decode(req: StorageRequest): (r: Option<Operation>)
    ensures r.Some? ==> r.value.key == req.key
  {
    if req.scope != SCOPE_SHARED_PREFERENCES && req.scope != SCOPE_KEYCHAIN then None
    else
      var keychain := req.scope == SCOPE_KEYCHAIN;
      if req.op == OP_GET_STRING then
        Some(if keychain then GetKeychainString(req.key) else GetSharedPrefString(req.key))
      else if req.op == OP_SET_STRING then
        match req.value
        case None => None
        case Some(v) => Some(if keychain then SetKeychainString(req.key, v) else SetSharedPrefString(req.key, v))
      else if req.op == OP_REMOVE then
        Some(if keychain then RemoveKeychain(req.key) else RemoveSharedPref(req.key))
      else None
  }

  /** Every request the client sends reads back as the operation that sent it. */
  lemma DecodeEncode(requestId: nat, op: Operation)
    ensures Decode(Encode(requestId, op)) == Some(op)
  {
  }

  /** Distinct operations send distinct requests, even under the same id. */
  lemma EncodeInjective(requestId: nat, a: Operation, b: Operation)
    requires Encode(requestId, a) == Encode(requestId, b)
    ensures a == b
  {
    DecodeEncode(requestId, a);
    DecodeEncode(requestId, b);
  }

  /**
    The client: the next request id, the ids of callers still waiting, the
    requests sent so far, and the responses handed to callers.
  */
  datatype Client = Client(nextId: nat, pending: set<nat>, sent: seq<StorageRequest>, delivered: map<nat, StorageResponse>)

  /** StorageClient::new: ids start at 1. */
  function NewClient(): (c: Client)
    ensures Valid(c) && c.pending == {} && c.sent == []
  {
    Client(1, {}, [], map[])
  }

  /**
    Ids count up from 1 in the order requests are sent; a waiting caller has
    a sent id; no caller is both waiting and served.
  */
  ghost predicate Valid(c: Client) {
    && c.nextId == |c.sent| + 1
    && (forall i :: 0 <= i < |c.sent| ==> c.sent[i].requestId == i + 1)
    && (forall id :: id in c.pending ==> 1 <= id < c.nextId)
    && (forall id :: id in c.delivered ==> 1 <= id < c.nextId && id !in c.pending)
  }

  /** next_id followed by the pending insert and the send of request. */
  function Send(c: Client, op: Operation): (r: (Client, StorageRequest))
    ensures r.1 == Encode(c.nextId, op)
    ensures r.0.nextId == c.nextId + 1
    ensures r.0.pending == c.pending + {c.nextId}
    ensures r.0.sent == c.sent + [r.1]
    ensures r.0.delivered == c.delivered
    ensures Valid(c) ==> Valid(r.0) && c.nextId !in c.pending && c.nextId !in c.delivered
  {
    var req := Encode(c.nextId, op);
    (Client(c.nextId + 1, c.pending + {c.nextId}, c.sent + [req], c.delivered), req)
  }

  /**
    The response router: a response whose id is waiting is removed from the
    pending map and handed over; any other response is dropped.
  */
  function Route(c: Client, resp: StorageResponse): (r: Client)
    ensures r.nextId == c.nextId && r.sent == c.sent
    ensures resp.requestId in c.pending ==>
      r.pending == c.pending - {resp.requestId} && r.delivered == c.delivered[resp.requestId := resp]
    ensures resp.requestId !in c.pending ==> r == c
    ensures Valid(c) ==> Valid(r)
  {
    if resp.requestId in c.pending then
      c.(pending := c.pending - {resp.requestId}, delivered := c.delivered[resp.requestId := resp])
    else c
  }

  /** A response is handed over at most once: a duplicate is dropped. */
  lemma RouteOnce(c: Client, resp: StorageResponse, again: StorageResponse)
    requires again.requestId == resp.requestId
    ensures Route(Route(c, resp), again) == Route(c, resp)
  {
  }

  /** A response reaches exactly the caller of its own request id; other callers keep waiting. */
  lemma RouteOnlyTouchesItsId(c: Client, resp: StorageResponse, id: nat)
    requires id != resp.requestId
    ensures id in Route(c, resp).pending <==> id in c.pending
    ensures id in Route(c, resp).delivered <==> id in c.delivered
  {
  }

  /**
    What request returns to its caller: nothing received means the sender was
    dropped; a failed response gives its error or a default text.
  */
  function RequestResult(received: Option<StorageResponse>): (r: Result<Option<string>, string>)
    ensures received.None? ==> r == Err(CHANNEL_CLOSED)
    ensures r.Ok? <==> received.Some? && received.value.ok
    ensures r.Ok? ==> r.value == received.value.value
    ensures received.Some? && !received.value.ok ==>
      r.error == (if received.value.error.Some? then received.value.error.value else OPERATION_FAILED)
  {
    match received
    case None => Err(CHANNEL_CLOSED)
    case Some(resp) =>
      if resp.ok then Ok(resp.value)
      else Err(resp.error.GetOr(OPERATION_FAILED))
  }

  /** What a public operation returns: get gives the stored string, set and remove give unit. */
  datatype Reply = StringReply(value: Option<string>) | UnitReply

  function OperationResult(op: Operation, received: Option<StorageResponse>): (r: Result<Reply, string>)
    ensures r.Ok? <==> RequestResult(received).Ok?
    ensures r.Err? ==> r.error == RequestResult(received).error
    ensures r.Ok? ==> (r.value.UnitReply? <==> IsSet(op) || op.RemoveSharedPref? || op.RemoveKeychain?)
    ensures r.Ok? && r.value.StringReply? ==> r.value.value == received.value.value
  {
    match RequestResult(received)
    case Err(e) => Err(e)
    case Ok(v) =>
      if op.GetSharedPrefString? || op.GetKeychainString? then Ok(StringReply(v)) else Ok(UnitReply)
  }

  /** Sending a sequence of operations in order. */
  function SendAll(c: Client, ops: seq<Operation>): (r: Client)
    ensures r.nextId == c.nextId + |ops|
    ensures |r.sent| == |c.sent| + |ops| && r.sent[..|c.sent|] == c.sent
    ensures r.delivered == c.delivered
    decreases |ops|
  {
    if ops == [] then c else SendAll(Send(c, ops[0]).0, ops[1..])
  }

  /**
    From a fresh client, the k-th operation sent goes out under request id
    k + 1, reads back as that operation, and its caller is waiting.
  */
  lemma {:induction false} SendAllFromValid(c: Client, ops: seq<Operation>)
    requires Valid(c)
    ensures Valid(SendAll(c, ops))
    ensures forall k :: 0 <= k < |ops| ==>
      && SendAll(c, ops).sent[|c.sent| + k] == Encode(c.nextId + k, ops[k])
      && c.nextId + k in SendAll(c, ops).pending
    decreases |ops|
  {
    if ops != [] {
      var (c1, _) := Send(c, ops[0]);
      SendAllFromValid(c1, ops[1..]);
      var r := SendAll(c, ops);
      assert r == SendAll(c1, ops[1..]);
      forall k | 0 <= k < |ops|
        ensures r.sent[|c.sent| + k] == Encode(c.nextId + k, ops[k])
        ensures c.nextId + k in r.pending
      {
        if k == 0 {
          assert r.sent[..|c1.sent|] == c1.sent;
          assert r.sent[|c.sent|] == c1.sent[|c.sent|];
          SendAllKeepsPending(c1, ops[1..], c.nextId);
        } else {
          assert ops[1..][k - 1] == ops[k];
        }
      }
    }
  }

  /** Sending never takes a caller off the pending map. */
  lemma {:induction false} SendAllKeepsPending(c: Client, ops: seq<Operation>, id: nat)
    requires id in c.pending
    ensures id in SendAll(c, ops).pending
    decreases |ops|
  {
    if ops != [] {
      SendAllKeepsPending(Send(c, ops[0]).0, ops[1..], id);
    }
  }
}
