/** The typed query layer (`xo.getAllObjects`). For each call the model gives
    the request the client sends and, where the client does more than pass
    the reply on, what it makes of the reply. */
module Xo {

  import opened Wrappers
  import opened Json
  import opened Decimal
  import opened Macros
  import ObjectTypes
  import opened Types

  /** The `XoObject` capability of a record type: the constant wire tag of its
      kind and the conversion of its id type into JSON (the trait's
      `OBJECT_TYPE` and its `IdType: Into<JsonValue>` bound). */
  datatype XoObjectKind<-Id> = XoObjectKind(objectType: string, idToJson: Id -> JsonValue)

  /** `impl XoObject for Vm<O>`. */
  const VmKind: XoObjectKind<VmId> := XoObjectKind("VM", (id: VmId) => id.ToJson())

  /** `impl_xo_object!(Snapshot => "VM-snapshot", SnapshotId)`. */
  const SnapshotKind: XoObjectKind<SnapshotId> :=
    XoObjectKind("VM-snapshot", (id: SnapshotId) => id.ToJson())

  /** The tags the record kinds declare are the enum's tags for those kinds. */
  lemma KindTagsAgree()
    ensures VmKind.objectType == ObjectTypes.ToString(ObjectTypes.Vm)
    ensures SnapshotKind.objectType == ObjectTypes.ToString(ObjectTypes.VmSnapshot)
    ensures forall id: VmId :: VmKind.idToJson(id) == String(id.s)
    ensures forall id: SnapshotId :: SnapshotKind.idToJson(id) == String(id.s)
  {
  }

  /** The parameters of `xo.getAllObjects`: a `filter` entry exactly when a
      filter is given and a `limit` entry exactly when a limit is given. */
  function GetAllObjectsArgs(filter: Option<map<string, JsonValue>>, limit: Option<Usize>)
    : (args: map<string, JsonValue>)
    ensures "filter" in args <==> filter.Some?
    ensures "limit" in args <==> limit.Some?
    ensures args.Keys <= {"filter", "limit"}
    ensures filter.Some? ==> args["filter"] == Object(filter.value)
    ensures limit.Some? ==> args["limit"] == Number(limit.value)
  {
    match (filter, limit)
    case (Some(f), Some(l)) =>
      ArgsMapOfTwo("filter", Object(f), "limit", Number(l));
      ArgsMap([("filter", Object(f)), ("limit", Number(l))])
    case (Some(f), None) =>
      ArgsMapOfOne("filter", Object(f));
      ArgsMap([("filter", Object(f))])
    case (None, Some(l)) =>
      ArgsMapOfOne("limit", Number(l));
      ArgsMap([("limit", Number(l))])
    case (None, None) => ArgsMap([])
  }

  function GetAllObjectsRequest(filter: Option<map<string, JsonValue>>, limit: Option<Usize>)
    : (req: Request)
    ensures req.procedure == "xo.getAllObjects"
    ensures req.params == GetAllObjectsArgs(filter, limit)
  {
    Request("xo.getAllObjects", GetAllObjectsArgs(filter, limit))
  }

  /** The caller's filter (an absent one counts as empty) with `"type"` set to
      `tag`; whatever the caller had under `"type"` is replaced. */
  function TypedFilter(filter: Option<map<string, JsonValue>>, tag: string)
    : (f: map<string, JsonValue>)
    ensures f.Keys == (if filter.Some? then filter.value.Keys else {}) + {"type"}
    ensures f["type"] == String(tag)
    ensures forall k :: k in f && k != "type" ==>
              filter.Some? && k in filter.value && f[k] == filter.value[k]
  {
    var base := if filter.Some? then filter.value else map[];
    base["type" := String(tag)]
  }

  /** `get_objects::<R>(filter, limit)`: the typed filter is always sent. The
      decoded reply is returned unchanged. */
  function GetObjectsRequest<Id>(kind: XoObjectKind<Id>, filter: Option<map<string, JsonValue>>,
                                 limit: Option<Usize>): (req: Request)
    ensures req.procedure == "xo.getAllObjects"
    ensures req.params.Keys == {"filter"} + (if limit.Some? then {"limit"} else {})
    ensures req.params["filter"] == Object(TypedFilter(filter, kind.objectType))
    ensures req.params["filter"].fields["type"] == String(kind.objectType)
    ensures limit.Some? ==> req.params["limit"] == Number(limit.value)
  {
    GetAllObjectsRequest(Some(TypedFilter(filter, kind.objectType)), limit)
  }

  /** `get_object::<R>(id)`: a filter on exactly the id and the kind's tag, and
      a limit of 2, so that a second match shows up instead of being cut off. */
  function GetObjectRequest<Id>(kind: XoObjectKind<Id>, id: Id): (req: Request)
    ensures req == Request("xo.getAllObjects",
                           map["filter" := Object(map["id" := kind.idToJson(id),
                                                      "type" := String(kind.objectType)]),
                               "limit" := Number(2)])
  {
    var filter := ArgsMap([("id", kind.idToJson(id)), ("type", String(kind.objectType))]);
    ArgsMapOfTwo("id", kind.idToJson(id), "type", String(kind.objectType));
    GetAllObjectsRequest(Some(filter), Some(2))
  }

  datatype GetSingleObjectError = MultipleMatches | Rpc(e: RpcError)

  /** What `get_object` makes of the reply to `GetObjectRequest`: it takes the
      entry for `id` out of the reply and looks at what is left. */
  function GetObject<Id, R>(id: Id, reply: Result<map<Id, R>, RpcError>)
    : (r: Result<Option<R>, GetSingleObjectError>)
    ensures reply.Err? ==> r == Err(Rpc(reply.error))
    ensures reply.Ok? && id !in reply.value ==> r == Ok(None)
    ensures reply.Ok? && reply.value.Keys == {id} ==> r == Ok(Some(reply.value[id]))
    ensures reply.Ok? && id in reply.value && |reply.value| > 1 ==> r == Err(MultipleMatches)
    ensures r == Err(MultipleMatches) <==>
              reply.Ok? && id in reply.value && exists other :: other in reply.value && other != id
    ensures r.Ok? && r.value.Some? ==> reply.Ok? && id in reply.value && r.value.value == reply.value[id]
  {
    match reply
    case Err(e) => Err(Rpc(e))
    case Ok(m) =>
      if id !in m then Ok(None)
      else
        var rest := m - {id};
        if rest == map[] then
          assert m.Keys == rest.Keys + {id};
          Ok(Some(m[id]))
        else
          var other :| other in rest;
          assert |m| > 1 by {
            assert m.Keys == rest.Keys + {id} && id !in rest.Keys;
            assert |m.Keys| == |rest.Keys| + 1;
            assert other in rest.Keys;
            assert |m| == |m.Keys| && |rest| == |rest.Keys|;
          }
          Err(MultipleMatches)
  }
}
