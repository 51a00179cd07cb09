/** Disk creation (`disk.create`): the new disk, how its fields are
    serialised, and the parameter map built from that serialisation. */
module Disk {

  import opened Wrappers
  import opened Json
  import opened Decimal
  import opened Types

  /** `DiskMode`, serialised in `snake_case`. */
  datatype DiskMode = System

  function DiskModeToJson(m: DiskMode): (j: JsonValue)
    ensures j == String("system")
  {
    match m
    case System => String("system")
  }

  datatype NewDisk =
    | Attached(name: string, size: Usize, sr: SrId, vm: VmId, bootable: Option<bool>,
               mode: Option<DiskMode>, position: Option<Usize>)
    | NotAttached(name: string, size: Usize, sr: SrId)

  /** `option_usize_to_string`: a position travels as its decimal text, and
      no position as unit, which is JSON `null`. */
  function OptionUsizeToString(v: Option<Usize>): (j: JsonValue)
    ensures v.None? ==> j == Null
    ensures v.Some? ==> j.String? && Canonical(j.s) && DigitsValue(j.s) == v.value
  {
    match v
    case None => Null
    case Some(n) =>
      DigitsOfDecimal(n);
      String(NatToDecimal(n))
  }

  /** The position the server gets back is the one sent: the decimal text
      decodes, as `Vbd.position` is decoded, to the same number. */
  lemma PositionRoundTrip(v: Usize)
    ensures OptionUsizeToString(Some(v)).String?
    ensures DecodePosition(OptionUsizeToString(Some(v))) == Some(v)
  {
    DecimalRoundTrip(v);
  }

  /** The serialisation of an `Option` field without `skip_serializing_if`. */
  function OptionToJson<T>(v: Option<T>, f: T -> JsonValue): (j: JsonValue)
    ensures v.None? ==> j == Null
    ensures v.Some? ==> j == f(v.value)
  {
    match v
    case None => Null
    case Some(x) => f(x)
  }

  /** The fields of a variant, as its derived `Serialize` writes them. The
      `position` field is skipped when it is `None`. */
  function DiskFields(d: NewDisk): (fields: map<string, JsonValue>)
    ensures d.NotAttached? ==> fields.Keys == {"name", "size", "sr"}
    ensures d.Attached? ==> fields.Keys == {"name", "size", "sr", "vm", "bootable", "mode"} +
                                           (if d.position.Some? then {"position"} else {})
    ensures fields["name"] == String(d.name) && fields["size"] == Number(d.size)
    ensures fields["sr"] == String(d.sr.s)
    ensures d.Attached? ==> fields["vm"] == String(d.vm.s)
    ensures d.Attached? ==> fields["bootable"] == OptionToJson(d.bootable, (b: bool) => Bool(b))
    ensures d.Attached? ==> fields["mode"] == OptionToJson(d.mode, DiskModeToJson)
    ensures d.Attached? && d.position.Some? ==> fields["position"] == OptionUsizeToString(d.position)
  {
    var common := map["name" := String(d.name), "size" := Number(d.size), "sr" := String(d.sr.s)];
    match d
    case NotAttached(_, _, _) => common
    case Attached(_, _, _, vm, bootable, mode, position) =>
      var attached := common["vm" := String(vm.s)]
                            ["bootable" := OptionToJson(bootable, (b: bool) => Bool(b))]
                            ["mode" := OptionToJson(mode, DiskModeToJson)];
      if position.Some? then attached["position" := OptionUsizeToString(position)] else attached
  }

  /** The derived `Serialize` of the enum: externally tagged, so the fields sit
      under the variant's name. */
  function SerializeNewDisk(d: NewDisk): (j: JsonValue)
    ensures j.Object?
    ensures d.Attached? ==> j.fields == map["Attached" := Object(DiskFields(d))]
    ensures d.NotAttached? ==> j.fields == map["NotAttached" := Object(DiskFields(d))]
  {
    Object(map[(if d.Attached? then "Attached" else "NotAttached") := Object(DiskFields(d))])
  }

  /** `disk.create` as written: `struct_to_map!` turns the serialised value's
      top-level object into the parameter map, so the only parameter is the
      variant's name. */
  function CreateRequestAsWritten(d: NewDisk): (req: Request)
    ensures req.procedure == "disk.create"
    ensures req.params == SerializeNewDisk(d).fields
  {
    Request("disk.create", SerializeNewDisk(d).fields)
  }

  /** As written, none of the arguments the server expects reaches it at the top level. */
  lemma CreateParamsNested(d: NewDisk)
    ensures "name" !in CreateRequestAsWritten(d).params
    ensures "size" !in CreateRequestAsWritten(d).params
    ensures "sr" !in CreateRequestAsWritten(d).params
    ensures |CreateRequestAsWritten(d).params| == 1
  {
  }

  /** `disk.create` as the parameter list beside it describes it: the fields
      themselves are the parameters. */
  function CreateRequest(d: NewDisk): (req: Request)
    ensures req.procedure == "disk.create"
    ensures req.params == DiskFields(d)
  {
    Request("disk.create", DiskFields(d))
  }

  /** The corrected parameters are exactly the server's: `name`, `size` and `sr`
      always, `vm`, `bootable` and `mode` for an attached disk, and `position`
      only when one is given. */
  lemma CreateParamsFlat(d: NewDisk)
    ensures CreateRequest(d).params.Keys <= {"name", "size", "sr", "vm", "bootable", "mode", "position"}
    ensures {"name", "size", "sr"} <= CreateRequest(d).params.Keys
    ensures "position" in CreateRequest(d).params <==> d.Attached? && d.position.Some?
    ensures d.Attached? && d.position.Some? ==>
              DecodePosition(CreateRequest(d).params["position"]) == d.position
  {
    if d.Attached? && d.position.Some? {
      PositionRoundTrip(d.position.value);
    }
  }

  /** The reply to `disk.create` is the new disk's id. */
  function CreateOutcome(reply: Result<JsonValue, RpcError>): (r: Result<VdiId, RpcError>)
    ensures reply.Err? ==> r == Err(reply.error)
    ensures reply.Ok? && reply.value.String? ==> r == Ok(VdiId(reply.value.s))
    ensures r.Ok? ==> reply == Ok(String(r.value.s))
  {
    match reply
    case Err(e) => Err(e)
    case Ok(String(s)) => Ok(VdiId(s))
    case Ok(_) => Err(ParseError("invalid type: expected a string"))
  }
}
