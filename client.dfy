/** The query part of the older `Client`: queries by an `ObjectType` value
    and the typed getters bound to one kind each. The `xo.getAllObjects`
    parameters themselves are built exactly as in `Xo`. */
module Client {

  import opened Wrappers
  import opened Json
  import opened Decimal
  import opened ObjectTypes
  import Xo

  /** `get_objects_of_type(object_type, filter, limit)`: the caller's filter, or
      an empty one, with `"type"` set to the JSON value of `object_type`. */
  function GetObjectsOfTypeRequest(t: ObjectType, filter: Option<map<string, JsonValue>>,
                                   limit: Option<Usize>): (req: Request)
    ensures req.procedure == "xo.getAllObjects"
    ensures req.params.Keys == {"filter"} + (if limit.Some? then {"limit"} else {})
    ensures req.params["filter"].Object?
    ensures req.params["filter"].fields.Keys ==
              (if filter.Some? then filter.value.Keys else {}) + {"type"}
    ensures req.params["filter"].fields["type"] == ToJson(t)
    ensures forall k :: k in req.params["filter"].fields && k != "type" ==>
              filter.Some? && k in filter.value && req.params["filter"].fields[k] == filter.value[k]
    ensures limit.Some? ==> req.params["limit"] == Number(limit.value)
  {
    var f := (if filter.Some? then filter.value else map[])["type" := ToJson(t)];
    Xo.GetAllObjectsRequest(Some(f), limit)
  }

  /** The typed getters `get_vms`, `get_template`, `get_snapshots`,
      `get_vbds`, `get_vdis` and `get_vifs`. */
  datatype Getter = GetVms | GetTemplate | GetSnapshots | GetVbds | GetVdis | GetVifs

  /** The kind a getter is bound to. */
  function GetterObjectType(g: Getter): ObjectType {
    match g
    case GetVms => Vm
    case GetTemplate => VmTemplate
    case GetSnapshots => VmSnapshot
    case GetVbds => Vbd
    case GetVdis => Vdi
    case GetVifs => Vif
  }

  function GetterRequest(g: Getter, filter: Option<map<string, JsonValue>>, limit: Option<Usize>)
    : (req: Request)
    ensures req == GetObjectsOfTypeRequest(GetterObjectType(g), filter, limit)
  {
    GetObjectsOfTypeRequest(GetterObjectType(g), filter, limit)
  }

  /** The tag each getter puts in its filter, and that different getters
      never query the same kind. */
  lemma GetterTags(g: Getter, h: Getter, filter: Option<map<string, JsonValue>>, limit: Option<Usize>)
    ensures GetterRequest(g, filter, limit).params["filter"].fields["type"] == String(
              match g
              case GetVms => "VM"
              case GetTemplate => "VM-template"
              case GetSnapshots => "VM-snapshot"
              case GetVbds => "VBD"
              case GetVdis => "VDI"
              case GetVifs => "VIF")
    ensures g != h ==> GetterRequest(g, filter, limit) != GetterRequest(h, filter, limit)
  {
    if g != h {
      var a := GetterRequest(g, filter, limit).params["filter"].fields["type"];
      var b := GetterRequest(h, filter, limit).params["filter"].fields["type"];
      ToJsonInjective(GetterObjectType(g), GetterObjectType(h));
      assert a != b;
    }
  }
}
