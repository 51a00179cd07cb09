/** The wire-level type tags the server filters objects by. */
module ObjectTypes {

  import opened Wrappers
  import opened Json

  datatype ObjectType =
    | GpuGroup
    | Host
    | Message
    | Network
    | Pbd
    | Pci
    | Pgpu
    | Pif
    | Pool
    | Sr
    | Task
    | Vbd
    | Vdi
    | VdiSnapshot
    | VdiUnmanaged
    | Vif
    | Vm
    | VmController
    | VmSnapshot
    | VmTemplate

  /** `ObjectType::to_string`: the tag as the server spells it. */
  function ToString(t: ObjectType): string {
    match t
    case GpuGroup => "gpuGroup"
    case Host => "host"
    case Message => "message"
    case Network => "network"
    case Pbd => "PBD"
    case Pci => "PCI"
    case Pgpu => "PGPU"
    case Pif => "PIF"
    case Pool => "pool"
    case Sr => "SR"
    case Task => "task"
    case Vbd => "VBD"
    case Vdi => "VDI"
    case VdiSnapshot => "VDI-snapshot"
    case VdiUnmanaged => "VDI-unmanaged"
    case Vif => "VIF"
    case Vm => "VM"
    case VmController => "VM-controller"
    case VmSnapshot => "VM-snapshot"
    case VmTemplate => "VM-template"
  }

  /** `From<ObjectType> for JsonValue`: the JSON string of the tag. */
  function ToJson(t: ObjectType): (j: JsonValue)
    ensures j.String? && j.s == ToString(t)
  {
    String(ToString(t))
  }

  /** Reading a tag back: the reference inverse of `ToString`, used to show
      that no two kinds share a tag. */
  function FromWireTag(s: string): (r: Option<ObjectType>)
    ensures r.Some? ==> ToString(r.value) == s
  {
    if s == "gpuGroup" then Some(GpuGroup)
    else if s == "host" then Some(Host)
    else if s == "message" then Some(Message)
    else if s == "network" then Some(Network)
    else if s == "PBD" then Some(Pbd)
    else if s == "PCI" then Some(Pci)
    else if s == "PGPU" then Some(Pgpu)
    else if s == "PIF" then Some(Pif)
    else if s == "pool" then Some(Pool)
    else if s == "SR" then Some(Sr)
    else if s == "task" then Some(Task)
    else if s == "VBD" then Some(Vbd)
    else if s == "VDI" then Some(Vdi)
    else if s == "VDI-snapshot" then Some(VdiSnapshot)
    else if s == "VDI-unmanaged" then Some(VdiUnmanaged)
    else if s == "VIF" then Some(Vif)
    else if s == "VM" then Some(Vm)
    else if s == "VM-controller" then Some(VmController)
    else if s == "VM-snapshot" then Some(VmSnapshot)
    else if s == "VM-template" then Some(VmTemplate)
    else None
  }

  lemma WireTagRoundTrip(t: ObjectType)
    ensures FromWireTag(ToString(t)) == Some(t)
  {
  }

  /** The table is injective: the twenty kinds have twenty distinct tags. */
  lemma ToStringInjective(a: ObjectType, b: ObjectType)
    ensures ToString(a) == ToString(b) ==> a == b
  {
    WireTagRoundTrip(a);
    WireTagRoundTrip(b);
  }

  /** The JSON encoding is injective as well. */
  lemma ToJsonInjective(a: ObjectType, b: ObjectType)
    ensures ToJson(a) == ToJson(b) ==> a == b
  {
    ToStringInjective(a, b);
  }
}
