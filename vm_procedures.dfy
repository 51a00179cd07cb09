/** The VM mutations: `vm.restart`, `vm.snapshot`, `vm.revert` and
    `vm.delete`. Each builds a fixed parameter map and interprets the raw
    reply by its own convention. The raw reply is `Ok` with the JSON the
    server answered, or the transport's error. */
module VmProcedures {

  import opened Wrappers
  import opened Json
  import opened Macros
  import opened Types

  /** Errors of `restart_nonblocking`: the server declined, or the call failed. */
  datatype RestartError = ReportedFail | Rpc(e: RpcError)

  /** Errors of `revert`, with the same split. */
  datatype RevertSnapshotError = ReportedFail | Rpc(e: RpcError)

  /** Decoding a reply into a `#[serde(transparent)]` boolean. */
  function DecodeBool(j: JsonValue): (r: Result<bool, RpcError>)
    ensures r.Ok? <==> j.Bool?
    ensures r.Ok? ==> r.value == j.b
    ensures r.Err? ==> r.error.ParseError?
  {
    match j
    case Bool(b) => Ok(b)
    case _ => Err(ParseError("invalid type: expected a boolean"))
  }

  function RestartRequest(vmId: VmId): (req: Request)
    ensures req == Request("vm.restart", map["id" := String(vmId.s)])
  {
    ArgsMapOfOne("id", vmId.ToJson());
    Request("vm.restart", ArgsMap([("id", vmId.ToJson())]))
  }

  /** `true` is success, `false` is `ReportedFail`, and every failure of the
      call itself, a reply that is not a boolean included, is `Rpc`. */
  function RestartOutcome(reply: Result<JsonValue, RpcError>): (r: Result<(), RestartError>)
    ensures reply == Ok(Bool(true)) <==> r == Ok(())
    ensures reply == Ok(Bool(false)) <==> r == Err(RestartError.ReportedFail)
    ensures reply.Err? ==> r == Err(RestartError.Rpc(reply.error))
    ensures r.Err? && r.error.Rpc? ==> reply.Err? || !reply.value.Bool?
  {
    match reply
    case Err(e) => Err(RestartError.Rpc(e))
    case Ok(j) =>
      match DecodeBool(j)
      case Err(e) => Err(RestartError.Rpc(e))
      case Ok(false) => Err(RestartError.ReportedFail)
      case Ok(true) => Ok(())
  }

  /** `vm.snapshot`: exactly the four arguments, under their wire names. */
  function SnapshotRequest(vmId: VmId, name: string, description: string, saveMemory: bool)
    : (req: Request)
    ensures req.procedure == "vm.snapshot"
    ensures req.params.Keys == {"id", "name", "description", "saveMemory"}
    ensures req.params["id"] == String(vmId.s)
    ensures req.params["name"] == String(name)
    ensures req.params["description"] == String(description)
    ensures req.params["saveMemory"] == Bool(saveMemory)
  {
    ArgsMapOfFour("id", vmId.ToJson(), "name", String(name),
                  "description", String(description), "saveMemory", Bool(saveMemory));
    Request("vm.snapshot", ArgsMap([("id", vmId.ToJson()), ("name", String(name)),
                                    ("description", String(description)),
                                    ("saveMemory", Bool(saveMemory))]))
  }

  /** The reply to `vm.snapshot` is the new snapshot's id, a JSON string. */
  function SnapshotOutcome(reply: Result<JsonValue, RpcError>): (r: Result<SnapshotId, RpcError>)
    ensures reply.Err? ==> r == Err(reply.error)
    ensures reply.Ok? && reply.value.String? ==> r == Ok(SnapshotId(reply.value.s))
    ensures r.Ok? ==> reply == Ok(r.value.ToJson())
  {
    match reply
    case Err(e) => Err(e)
    case Ok(String(s)) => Ok(SnapshotId(s))
    case Ok(_) => Err(ParseError("invalid type: expected a string"))
  }

  function RevertRequest(snapshotId: SnapshotId): (req: Request)
    ensures req == Request("vm.revert", map["snapshot" := String(snapshotId.s)])
  {
    ArgsMapOfOne("snapshot", snapshotId.ToJson());
    Request("vm.revert", ArgsMap([("snapshot", snapshotId.ToJson())]))
  }

  /** The same convention as `RestartOutcome`, with `RevertSnapshotError`. */
  function RevertOutcome(reply: Result<JsonValue, RpcError>): (r: Result<(), RevertSnapshotError>)
    ensures reply == Ok(Bool(true)) <==> r == Ok(())
    ensures reply == Ok(Bool(false)) <==> r == Err(RevertSnapshotError.ReportedFail)
    ensures reply.Err? ==> r == Err(RevertSnapshotError.Rpc(reply.error))
    ensures r.Err? && r.error.Rpc? ==> reply.Err? || !reply.value.Bool?
  {
    match reply
    case Err(e) => Err(RevertSnapshotError.Rpc(e))
    case Ok(j) =>
      match DecodeBool(j)
      case Err(e) => Err(RevertSnapshotError.Rpc(e))
      case Ok(false) => Err(RevertSnapshotError.ReportedFail)
      case Ok(true) => Ok(())
  }

  /** `delete(id)` for a VM id or a snapshot id: the union id goes under `"id"`. */
  function DeleteRequest(id: VmOrSnapshotId): (req: Request)
    ensures req == Request("vm.delete", map["id" := String(id.s)])
  {
    ArgsMapOfOne("id", id.ToJson());
    Request("vm.delete", ArgsMap([("id", id.ToJson())]))
  }

  /** The reply shape `([(); 0], [(); 1])`: an empty array and an array
      holding one `null`. */
  predicate IsDeleteAck(j: JsonValue) {
    j == Array([Array([]), Array([Null])])
  }

  /** `vm.delete` succeeds when the call returns the expected marker; a
      transport error is passed on unchanged. */
  function DeleteOutcome(reply: Result<JsonValue, RpcError>): (r: Result<(), RpcError>)
    ensures reply.Err? ==> r == Err(reply.error)
    ensures r.Ok? <==> reply.Ok? && IsDeleteAck(reply.value)
  {
    match reply
    case Err(e) => Err(e)
    case Ok(j) => if IsDeleteAck(j) then Ok(()) else Err(ParseError("invalid type: expected a tuple"))
  }

  /** Deleting a VM and deleting a snapshot send the same request for the same string. */
  lemma DeleteEitherKind(vm: VmId, snap: SnapshotId)
    ensures DeleteRequest(VmOrSnapshotIdFromVm(vm)) == Request("vm.delete", map["id" := String(vm.s)])
    ensures DeleteRequest(VmOrSnapshotIdFromSnapshot(snap)) ==
            Request("vm.delete", map["id" := String(snap.s)])
    ensures vm.s == snap.s ==>
              DeleteRequest(VmOrSnapshotIdFromVm(vm)) == DeleteRequest(VmOrSnapshotIdFromSnapshot(snap))
  {
  }
}
