/** Identifiers and the record shapes the client decodes.

    Every identifier is an opaque wrapper around the string the server
    assigned; one type per entity kind keeps kinds apart. Records are the
    already-decoded values of remote objects (decoding itself is serde's). */
module Types {

  import opened Wrappers
  import opened Json
  import opened Decimal
  import Strings

  datatype VmId = VmId(s: string) {
    /** `impl_to_json_value!`: the JSON value of an id is the string it wraps. */
    function ToJson(): (j: JsonValue)
      ensures j.String? && j.s == s
    {
      String(s)
    }
  }

  datatype SnapshotId = SnapshotId(s: string) {
    function ToJson(): (j: JsonValue)
      ensures j.String? && j.s == s
    {
      String(s)
    }
  }

  /** The union accepted by `vm.delete`: either a VM's or a snapshot's id. */
  datatype VmOrSnapshotId = VmOrSnapshotId(s: string) {
    function ToJson(): (j: JsonValue)
      ensures j.String? && j.s == s
    {
      String(s)
    }
  }

  datatype TemplateId = TemplateId(s: string) {
    function ToJson(): (j: JsonValue)
      ensures j.String? && j.s == s
    {
      String(s)
    }
  }

  datatype CloudConfigId = CloudConfigId(s: string)
  datatype NetworkConfigId = NetworkConfigId(s: string)
  datatype SrId = SrId(s: string)
  datatype NetworkId = NetworkId(s: string)
  datatype VdiId = VdiId(s: string)
  datatype VbdId = VbdId(s: string)
  datatype VifId = VifId(s: string)

  /** `From<VmId> for VmOrSnapshotId`. */
  function VmOrSnapshotIdFromVm(id: VmId): (r: VmOrSnapshotId)
    ensures r.s == id.s && r.ToJson() == id.ToJson()
  {
    VmOrSnapshotId(id.s)
  }

  /** `From<SnapshotId> for VmOrSnapshotId`. */
  function VmOrSnapshotIdFromSnapshot(id: SnapshotId): (r: VmOrSnapshotId)
    ensures r.s == id.s && r.ToJson() == id.ToJson()
  {
    VmOrSnapshotId(id.s)
  }

  /** `From<&str>` and `From<String>` for `TemplateId` (the same in the model). */
  function TemplateIdFrom(s: string): (id: TemplateId)
    ensures id.s == s && id.ToJson() == String(s)
  {
    TemplateId(s)
  }

  /** `From<VmId> for String`. */
  function VmIdToString(id: VmId): (s: string)
    ensures VmId(s) == id
  {
    id.s
  }

  /** `From<SnapshotId> for String`. */
  function SnapshotIdToString(id: SnapshotId): (s: string)
    ensures SnapshotId(s) == id
  {
    id.s
  }

  /** The derived `Ord` of a one-field id struct: the order of the wrapped string. */
  predicate VmIdLess(a: VmId, b: VmId) {
    Strings.LexLess(a.s, b.s)
  }

  /** Id equality is string equality, and the derived order is a strict total
      order on ids, so ids can key a `BTreeMap`. */
  lemma VmIdOrder(a: VmId, b: VmId, c: VmId)
    ensures a == b <==> a.s == b.s
    ensures !VmIdLess(a, a)
    ensures VmIdLess(a, b) && VmIdLess(b, c) ==> VmIdLess(a, c)
    ensures a == b || VmIdLess(a, b) || VmIdLess(b, a)
  {
    Strings.LexLessIrreflexive(a.s);
    if VmIdLess(a, b) && VmIdLess(b, c) {
      Strings.LexLessTransitive(a.s, b.s, c.s);
    }
    Strings.LexLessTotal(a.s, b.s);
  }

  type U16 = n: nat | n < 0x1_0000

  /** A template, reduced to what VM creation reads from it. */
  datatype Template = Template(id: TemplateId, vifs: seq<VifId>, vbds: seq<VbdId>)

  datatype Snapshot = Snapshot(id: SnapshotId, nameLabel: string, nameDescription: string)

  /** A disk to be copied from the template into the new VM. */
  datatype PartialVdi = PartialVdi(nameDescription: string, nameLabel: string, size: Usize, sr: SrId)

  /** A network interface of the new VM: only the network it joins. */
  datatype PartialVif = PartialVif(network: NetworkId)

  /** A virtual disk. */
  datatype Vdi = Vdi(
    id: VdiId,
    missing: bool,
    nameDescription: string,
    nameLabel: string,
    size: Usize,
    tags: seq<string>,
    usage: Usize,
    sr: SrId,
    vbds: seq<VbdId>)

  /** An attachment of a disk (or of a CD drive) to a VM at a position. */
  datatype Vbd = Vbd(
    id: VbdId,
    attached: bool,
    bootable: bool,
    device: Option<string>,
    isCdDrive: bool,
    position: Usize,
    readOnly: bool,
    vdi: VdiId,
    vm: VmId)

  /** A network interface of a VM. */
  datatype Vif = Vif(id: VifId, attached: bool, mac: string, mtu: U16, network: NetworkId, vm: VmId)

  /** `Vbd.position` is decoded with `display_fromstr`: the JSON value must be
      a string, which is parsed with `usize::from_str`. */
  function DecodePosition(raw: JsonValue): (r: Option<Usize>)
    ensures raw.String? ==> r == ParseUsize(raw.s)
    ensures !raw.String? ==> r.None?
    ensures r.Some? ==> raw.String? && ParseUsize(raw.s) == r
    ensures raw.String? && Canonical(raw.s) && r.Some? ==> raw.s == NatToDecimal(r.value)
  {
    match raw
    case String(s) =>
      var p := ParseUsize(s);
      ParseCanonical(s);
      p
    case _ => None
  }
}
