/** The older VM record of the `vm` module, where `os_version` is optional.
    Its derived views reuse the address logic of `VmTypes`. */
module VmLegacy {

  import opened Wrappers
  import opened Types
  import opened Strings
  import VmTypes

  datatype LegacyVm<O> = LegacyVm(
    id: VmId,
    nameLabel: string,
    nameDescription: string,
    powerState: VmTypes.PowerState,
    pool: string,
    tags: seq<string>,
    addresses: StringMap,
    osVersion: Option<StringMap>,
    other: O)

  function IsRunning<O>(vm: LegacyVm<O>): (b: bool)
    ensures b <==> vm.powerState == VmTypes.Running
  {
    vm.powerState.Running?
  }

  /** The distribution guess: nothing without an `os_version` map, and the
      same choice as the newer record inside one. */
  function Distro<O>(vm: LegacyVm<O>): (r: Option<string>)
    ensures vm.osVersion.None? ==> r == None
    ensures vm.osVersion.Some? && VmTypes.HasKey(vm.osVersion.value, "distro") ==>
              r == Get(vm.osVersion.value, "distro")
    ensures vm.osVersion.Some? && !VmTypes.HasKey(vm.osVersion.value, "distro") ==>
              (r == Some("windows") <==> VmTypes.HasKey(vm.osVersion.value, "spmajor"))
    ensures (vm.osVersion.Some? && !VmTypes.HasKey(vm.osVersion.value, "distro") &&
             !VmTypes.HasKey(vm.osVersion.value, "spmajor")) ==> r == None
    ensures vm.osVersion.Some? ==> r == VmTypes.DistroOf(vm.osVersion.value)
    ensures r.Some? ==> vm.osVersion.Some?
  {
    match vm.osVersion
    case None => None
    case Some(os) => VmTypes.DistroOf(os)
  }

  /** `ipv4_addresses`, with the same filter, split and parse as the newer record. */
  function Ipv4Addresses<O>(vm: LegacyVm<O>): (r: seq<VmTypes.Ipv4Addr>)
    ensures r == VmTypes.Ipv4AddressesOf(vm.addresses)
  {
    VmTypes.Ipv4AddressesOf(vm.addresses)
  }

  /** The newer record is the older one with a missing `os_version` read as
      an empty map; every derived view agrees between the two. */
  function Upgrade<O>(vm: LegacyVm<O>): (n: VmTypes.Vm<O>)
    ensures n.osVersion == VmTypes.DecodeOsVersion(Some(vm.osVersion))
    ensures n.id == vm.id && n.addresses == vm.addresses && n.powerState == vm.powerState
  {
    VmTypes.Vm(vm.id, vm.nameLabel, vm.nameDescription, vm.powerState, vm.pool, vm.tags,
               vm.addresses, VmTypes.DecodeOsVersion(Some(vm.osVersion)), vm.other)
  }

  lemma UpgradeAgrees<O>(vm: LegacyVm<O>)
    ensures VmTypes.IsRunning(Upgrade(vm)) == IsRunning(vm)
    ensures VmTypes.Distro(Upgrade(vm)) == Distro(vm)
    ensures VmTypes.Ipv4Addresses(Upgrade(vm)) == Ipv4Addresses(vm)
  {
  }
}
