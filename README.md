# xo-api-client in Dafny

A model of the core of `xo-api-client`, a Rust client for the JSON-RPC API of
Xen Orchestra, with proofs about that model. The modelled parts are:

- the **requests** the client sends. Each is a procedure name and a parameter
  map. The model covers how the two map-building macros assemble that map,
  and the `xo.getAllObjects` filter with its `"type"` tag.
- the **interpretation of replies**:
  - `get_object`: no match, one match, or several matches;
  - the boolean replies of `vm.restart` and `vm.revert`;
  - the acknowledgement of `vm.delete`;
  - the id returned by `vm.snapshot`, `disk.create` and `token.create`.
- the **record logic** of a VM, in both the newer (`api/vm`) and the older
  (`vm.rs`) record shape:
  - the running state;
  - the distribution guess;
  - the IPv4 addresses.
- **`NewVmArgs`**: `new_raw` fills in a draft VM from a name and a template.
  `new` then copies the template's disks and network interfaces after
  looking each one up on the server.

The network is replaced by values. A request is the `Json.Request` the client
would send. A reply is `Ok` with the JSON the server answered, or the
transport's `RpcError`. Typed replies are already-decoded maps. The server seen
by `NewVmArgs::new` is a `NewVm.Server` value: three total functions from the
request sent to the reply.

The modules and the source files they model:

| module | file |
|---|---|
| `Wrappers` | `Option`, `Result` |
| `Json` | JSON values, RPC errors, requests |
| `Strings` | `str::contains`, `split`/join, ordering, `BTreeMap<String, String>` as a key-ascending entry list |
| `Decimal` | `usize` (64-bit) and its decimal text, `usize::from_str` |
| `Macros` | `src/macros.rs` |
| `ObjectTypes` | `src/object_type.rs` |
| `Types` | `src/types.rs` |
| `Xo` | `src/api/xo.rs` |
| `Client` | `src/client.rs`: typed getters |
| `VmProcedures` | `src/api/vm/mod.rs` (and the same procedures in `src/client.rs`) |
| `VmTypes` | `src/api/vm/types.rs` |
| `VmLegacy` | `src/vm.rs` |
| `Credentials` | `src/credentials.rs` and the sign-in and token calls of `src/client.rs` |
| `Disk` | `src/api/disk.rs` |
| `NewVm` | `NewVmArgs` in `src/client.rs` |

`NewVm.New` is a method. Each of its two loops handles one template item per
iteration and returns at the first error. It is proved equal to `NewVm.Assemble`,
which is built from two recursive folds, `CollectDisks` and `CollectVifs`. The
properties of `new` are lemmas about those folds.

## Model

| member | source | states |
|---|---|---|
| Macros.ProcedureArgs | src/macros.rs:5-14 | the insert loop of `procedure_args!` yields the macro's map of its pairs |
| Macros.ArgsMapKeys | src/macros.rs:8-12 | the keys of the built map are exactly the keys written |
| Macros.ArgsMapLastWins | src/macros.rs:8-12 | a key maps to the value of its last occurrence |
| Macros.ArgsMapDistinct | src/macros.rs:23-31 | with distinct keys, every pair is in the map and the map has one entry per pair |
| Macros.ArgsMapOfOne | src/macros.rs:5-14 | the one-pair macro is the singleton map |
| Macros.ArgsMapOfTwo | src/macros.rs:5-14 | the two-pair macro inserts both pairs, the second last |
| Macros.ArgsMapOfFour | src/macros.rs:5-14 | the four-pair macro inserts the pairs in order |
| ObjectTypes.ToJson | src/object_type.rs:58-62 | an object type is sent as the JSON string of its tag |
| ObjectTypes.FromWireTag | src/object_type.rs:30-56 | a recognised tag is the tag of the type it gives |
| ObjectTypes.WireTagRoundTrip | src/object_type.rs:30-56 | every type's tag is read back as that type |
| ObjectTypes.ToStringInjective | src/object_type.rs:30-56 | no two object types share a tag |
| ObjectTypes.ToJsonInjective | src/object_type.rs:58-62 | no two object types share a JSON value |
| Types.VmId.ToJson | src/types.rs:5-13 | a VM id is sent as the JSON string of its text |
| Types.SnapshotId.ToJson | src/types.rs:118 | a snapshot id is sent as the JSON string of its text |
| Types.VmOrSnapshotId.ToJson | src/types.rs:53 | the union id is sent as the JSON string of its text |
| Types.TemplateId.ToJson | src/types.rs:65 | a template id is sent as the JSON string of its text |
| Types.VmOrSnapshotIdFromVm | src/types.rs:55-59 | the union id of a VM id keeps its text and its JSON value |
| Types.VmOrSnapshotIdFromSnapshot | src/types.rs:47-51 | the union id of a snapshot id keeps its text and its JSON value |
| Types.TemplateIdFrom | src/types.rs:15-28 | a template id made from text wraps that text and is sent as it |
| Types.VmIdToString | src/types.rs:36-40 | converting a VM id to a string and back gives the same id |
| Types.SnapshotIdToString | src/types.rs:120-124 | converting a snapshot id to a string and back gives the same id |
| Types.VmIdOrder | src/types.rs:31-34 | the derived order of VM ids (the map key order) is a strict total order and equality is equality of text |
| Types.DecodePosition | src/types.rs:181-182 | a JSON string decodes to its `usize` parse and any other JSON value to none; canonical text is the number's decimal form |
| Decimal.DecimalRoundTrip | src/api/disk.rs:70-71 | the decimal text of a `usize` parses back to it |
| Decimal.ParseCanonical | src/types.rs:181-182 | a canonical decimal text that parses is the decimal form of its value |
| Xo.KindTagsAgree | src/api/vm/types.rs:34-37 | the VM and snapshot kinds carry the enum's tags and send ids as their text |
| Xo.GetAllObjectsArgs | src/api/xo.rs:29-36 | `filter` is present iff a filter is given, `limit` iff a limit is given, with those values, and nothing else |
| Xo.GetAllObjectsRequest | src/api/xo.rs:24-41 | `xo.getAllObjects` is called with those parameters |
| Xo.TypedFilter | src/api/xo.rs:52-53 | the typed filter has the caller's keys plus `type`, `type` is the tag whatever the caller put there, and other keys are unchanged |
| Xo.GetObjectsRequest | src/api/xo.rs:47-56 | `get_objects` always sends the typed filter, and the limit only when given |
| Xo.GetObjectRequest | src/api/xo.rs:61-75 | `get_object` sends a filter of exactly `id` and `type` with a limit of 2 |
| Xo.GetObject | src/api/xo.rs:74-83 | transport error gives `Rpc`; an id missing from the reply gives `Ok(None)`; the id alone gives its record; the id with any other entry gives `MultipleMatches`, and only then |
| Client.GetObjectsOfTypeRequest | src/client.rs:200-212 | the caller's filter or an empty one, with `type` overwritten by the object type's JSON value |
| Client.GetterRequest | src/client.rs:23-41 | each typed getter is `get_objects_of_type` with its kind |
| Client.GetterTags | src/client.rs:217-229 | the tag each getter sends, and different getters never send the same request |
| VmProcedures.DecodeBool | src/api/vm/mod.rs:23-25 | a transparent boolean decodes exactly from a JSON boolean |
| VmProcedures.RestartRequest | src/api/vm/mod.rs:27-31 | `vm.restart` with exactly `id` |
| VmProcedures.RestartOutcome | src/api/vm/mod.rs:29-39 | `true` iff `Ok`, `false` iff `ReportedFail`, and every transport or decoding failure is `Rpc` |
| VmProcedures.SnapshotRequest | src/api/vm/mod.rs:56-64 | `vm.snapshot` with exactly `id`, `name`, `description` and `saveMemory`, holding the arguments |
| VmProcedures.SnapshotOutcome | src/api/vm/mod.rs:63-66 | a string reply is the new snapshot's id, and errors pass through |
| VmProcedures.RevertRequest | src/api/vm/mod.rs:77-81 | `vm.revert` with exactly `snapshot` |
| VmProcedures.RevertOutcome | src/api/vm/mod.rs:79-90 | `true` iff `Ok`, `false` iff `ReportedFail`, other failures are `Rpc` |
| VmProcedures.DeleteRequest | src/api/vm/mod.rs:104-109 | `vm.delete` with exactly `id` |
| VmProcedures.DeleteOutcome | src/api/vm/mod.rs:100-112 | success iff the reply is the `([], [null])` marker; a transport error passes through |
| VmProcedures.DeleteEitherKind | src/api/vm/types.rs:118-134 | deleting a VM or a snapshot of the same text sends the same request |
| VmTypes.DecodeAddresses | src/api/vm/types.rs:25-26 | an absent `addresses` field is the empty map |
| VmTypes.DecodeOsVersion | src/api/vm/types.rs:84-90 | an absent or `null` `os_version` is the empty map |
| VmTypes.MissingFieldsDecodeEmpty | src/api/vm/types.rs:25-29 | a VM without addresses has no IPv4 address, and without an OS map no distribution |
| VmTypes.IsRunning | src/api/vm/types.rs:50-52 | true iff the power state is `Running` |
| VmTypes.DistroOf | src/api/vm/types.rs:58-64 | the `distro` value if present; else `windows` iff there is an `spmajor` key; else none |
| VmTypes.Distro | src/api/vm/types.rs:58-64 | the guess is made from the VM's OS map |
| VmTypes.DistroFromEntries | src/api/vm/types.rs:59-61 | an entry `distro` in the map gives its value; an `spmajor` entry without `distro` gives `windows` |
| VmTypes.ParseOctet | src/api/vm/types.rs:74 | a part of an address parses iff it is 1 to 3 decimal digits without a leading zero and at most 255 |
| VmTypes.OctetRoundTrip | src/api/vm/types.rs:74 | the decimal form of every octet parses back to it |
| VmTypes.Ipv4RoundTrip | src/api/vm/types.rs:74 | every address's dotted text parses back to it |
| VmTypes.Ipv4Canonical | src/api/vm/types.rs:74 | text that parses is the dotted text of its address |
| VmTypes.Ipv4Addresses | src/api/vm/types.rs:69-81 | the addresses of a VM are those of its `addresses` entries |
| VmTypes.PiecesAppend | src/api/vm/types.rs:70-73 | the filtered and split pieces of two entry lists are concatenated in order |
| VmTypes.ParseAllAppend | src/api/vm/types.rs:74-80 | parsing keeps the order of the pieces |
| VmTypes.Ipv4AddressesAppend | src/api/vm/types.rs:70-81 | addresses are listed in key order, then in-string order, duplicates kept |
| VmTypes.Ipv4AddressesOfEntry | src/api/vm/types.rs:72-73 | an entry whose key contains `ipv4` contributes its value split on spaces and parsed; any other entry contributes nothing |
| VmTypes.Ipv4IgnoresOtherKeys | src/api/vm/types.rs:72 | inserting an entry without `ipv4` in its key changes nothing |
| VmTypes.ParseAllBounds | src/api/vm/types.rs:74-80 | no more addresses than pieces, and an address is listed iff some piece parses to it |
| VmTypes.ParseAllFormatted | src/api/vm/types.rs:74-80 | the dotted texts of a list of addresses parse back to that list |
| VmTypes.EntryOfAddresses | src/api/vm/types.rs:72-80 | an `ipv4` entry with space-separated addresses yields exactly those addresses |
| VmTypes.AddressKeys | src/api/vm/tests.rs:50-55 | keys of the `n/ipv4/m` form contain `ipv4` and keys of the `n/ipv6/m` form do not |
| VmTypes.DebianAddresses | src/api/vm/tests.rs:45-59 | the Debian test's address map yields exactly 10.0.1.52, whatever its ipv6 value |
| VmTypes.ListedAddresses | src/api/vm/tests.rs:80-117 | entries with `ipv4` keys and space-separated addresses (like the pfsense test's) yield all the addresses, in order, duplicates kept |
| VmLegacy.IsRunning | src/vm.rs:34-36 | true iff the power state is `Running` |
| VmLegacy.Distro | src/vm.rs:38-47 | no OS map gives none; otherwise the `distro` value, else `windows` iff `spmajor`, else (neither key) none |
| VmLegacy.Ipv4Addresses | src/vm.rs:49-61 | the same filter, split and parse as the newer record |
| VmLegacy.Upgrade | src/vm.rs:5-23 | the newer record with a missing OS map read as empty, same id, addresses and power state |
| VmLegacy.UpgradeAgrees | src/vm.rs:33-62 | running state, distribution and addresses agree between the two record shapes |
| Credentials.TokenToString | src/credentials.rs:11-15 | a token's text wraps back to the same token |
| Credentials.TokenFromStr | src/credentials.rs:17-23 | reading a token never fails and keeps the text |
| Credentials.TokenRoundTrip | src/credentials.rs:11-23 | writing then reading a token gives it back |
| Credentials.FromToken | src/credentials.rs:25-29 | a token becomes token credentials holding it |
| Credentials.FromEmailAndPassword | src/credentials.rs:40-44 | an email and password become password credentials holding them |
| Credentials.ToParams | src/credentials.rs:54-65 | password credentials are exactly `email` and `password`, token credentials exactly `token` |
| Credentials.ParamsRoundTrip | src/credentials.rs:54-65 | the parameters determine the credentials |
| Credentials.SignInRequest | src/client.rs:124-145 | `session.signIn` with parameters from which the credentials are read back |
| Credentials.CreateTokenRequest | src/client.rs:161-166 | `token.create` with no parameters |
| Credentials.CreateTokenOutcome | src/client.rs:163-168 | a string reply is the token, and errors pass through |
| Disk.DiskModeToJson | src/api/disk.rs:60-64 | `System` is sent as `"system"` |
| Disk.OptionUsizeToString | src/api/disk.rs:66-74 | a position is sent as its canonical decimal text, no position as `null` |
| Disk.PositionRoundTrip | src/api/disk.rs:66-74 | the position sent decodes, as a VBD position is decoded, to the same number |
| Disk.OptionToJson | src/api/disk.rs:43-47 | an absent optional field is sent as `null` |
| Disk.DiskFields | src/api/disk.rs:34-58 | the fields of each variant, with `position` only when given |
| Disk.SerializeNewDisk | src/api/disk.rs:34-35 | the enum is externally tagged: its fields sit under the variant's name |
| Disk.CreateRequestAsWritten | src/api/disk.rs:16-21 | `disk.create` sends the top-level object of the serialised value |
| Disk.CreateParamsNested | src/api/disk.rs:16-21 | as written, the only parameter is the variant name, and `name`, `size` and `sr` are missing |
| Disk.CreateRequest | src/api/disk.rs:24-32 | the corrected call sends the disk's fields as the parameters |
| Disk.CreateParamsFlat | src/api/disk.rs:24-32 | the corrected parameters are within the server's list, always include `name`, `size` and `sr`, include `position` iff given, and the position reads back |
| Disk.CreateOutcome | src/api/disk.rs:16-21 | a string reply is the new disk's id, and errors pass through |
| NewVm.NewRaw | src/client.rs:430-453 | the given name and template; empty disks, VDIs, VIFs, tags and description; every option unset |
| NewVm.VbdLookup | src/client.rs:466 | the attachment lookup sends a filter of exactly the id and `VBD` |
| NewVm.VdiLookup | src/client.rs:479 | the disk lookup sends a filter of exactly the id and `VDI` |
| NewVm.VifLookup | src/client.rs:521 | the VIF lookup sends a filter of exactly the id and `VIF` |
| NewVm.DiskEntryCases | src/client.rs:463-495 | a failed attachment lookup is its error; a missing attachment or a CD drive is skipped; for a resolved non-CD attachment, a failed disk lookup is its error, a disk missing from its reply is skipped, and a found disk is copied at the attachment's position with its name, description, size and SR |
| NewVm.VifEntryCases | src/client.rs:518-533 | a failed VIF lookup is its error; a VIF missing from the reply is skipped, and only then; a found VIF gives its network |
| NewVm.Assemble | src/client.rs:455-555 | succeeds iff both collections succeed, and then is the `new_raw` draft with the collected disks and VIFs; the first failing collection decides the error |
| NewVm.New | src/client.rs:455-555 | the two loops with early return compute `Assemble` |
| NewVm.DisksFirstError | src/client.rs:462-497 | the disk collection fails iff some step fails, with the error of the first failing step |
| NewVm.DisksKeys | src/client.rs:486-497 | the copied disks are keyed by exactly the positions of the steps that resolve, not renumbered |
| NewVm.DisksLastWins | src/client.rs:486-497 | at each position, the disk of the last step there |
| NewVm.DisksKeepUnwritten | src/client.rs:496-497 | a position no step writes keeps its earlier disk |
| NewVm.DisksAppend | src/client.rs:462-497 | collecting two lists one after the other is collecting their concatenation |
| NewVm.VifsFirstError | src/client.rs:517-535 | the VIF collection fails iff some step fails, with the error of the first failing step |
| NewVm.VifsBounds | src/client.rs:517-535 | at most one interface per template VIF, and what was collected before is kept |
| NewVm.VifsAllResolved | src/client.rs:517-535 | when every VIF resolves, one interface per template VIF, in template order |
| NewVm.VifsAllSkipped | src/client.rs:524-525 | VIFs missing from every reply are skipped without error |
| NewVm.VifsAppend | src/client.rs:517-535 | collecting two lists one after the other is collecting their concatenation |
| NewVm.CdDriveThenDisk | src/client.rs:462-497 | a template with a CD drive at position 0 and a disk at position 1 yields exactly one disk, at position 1, with the disk's fields |
| NewVm.SkippedAttachment | src/client.rs:469-475 | a CD drive, or an attachment missing from its reply, is neither an error nor a disk |

## Left out

- Transport, sessions and JSON decoding are left out. This covers `connect`, the WebSocket client, `subscribe_to_notification_all`, and the serde decoding of typed maps and records. Replies are given as values, and typed replies are already-decoded maps.
- Logging (`log::warn!`, `println!`) has no effect on results and is not modelled.
- `create_vm` ends in `todo!()` after sending `vm.create`, so it has no result to model. The serialisation of `NewVmArgs` is not modelled either.
- `new` runs its lookups as a futures stream. The model runs them one after another, which is the order `try_collect` awaits them in. No concurrency is modelled.
- `procedure_args!` has a trailing-comma rule that re-expands into its main rule. `procedure_object!`'s trailing-comma rule (src/macros.rs:19) instead expands into `procedure_args!`, so it builds a `BTreeMap` of `serde_json::Value::from` values rather than a `serde_json::Map`. No modelled call site uses that form, so it is not modelled.
- The conversion `String::from` of literal keys is the identity on text.
- Strings are sequences of characters. `str::contains`, `split(' ')` and the key order of `BTreeMap<String, String>` work on characters here, not on UTF-8 bytes. For ASCII keys such as those of `addresses` they agree.
- IPv4 parsing is modelled as four `.`-separated parts, each 1 to 3 digits without a leading zero and at most 255. Other forms that `Ipv4Addr::from_str` might accept or reject are not modelled.
- The Windows and pfsense address tests are stated in general form rather than with their literal entries. `VmTypes.ListedAddresses`, `VmTypes.AddressKeys` and `VmTypes.Ipv4IgnoresOtherKeys` cover them. Only the Debian vector is stated concretely.
- `Impossible`, the error type of `Token::from_str`, has no values. The unit type stands in for it.
- `VmProcedures.DeleteOutcome`: a reply of another shape is a decoding error (`ParseError`). The source only promises that a transport error is passed on.
- `VmTypes.FormatIpv4` is the `Display` of an address. It is used only to state the round trips.
- The grow-disk builder operations (`NoSuchDisk`, `NewSizeIsSmaller`) are not part of this model, because no source file defines them.
- `src/api/extensions.rs`, `src/api/session.rs`, `src/api/token.rs`, `src/token_handler.rs` and `src/api/mod.rs` are not part of this model.
- `src/client.rs` repeats `get_all_objects`, `restart_nonblocking`, `snapshot`, `revert_snapshot` and `delete_snapshot` with the same bodies as `src/api/xo.rs` and `src/api/vm/mod.rs`. The members of `Xo` and `VmProcedures` model both copies.

## Findings

| source | as written | input that shows it | evidently intended | confidence | as-written member | corrected member |
|---|---|---|---|---|---|---|
| src/api/disk.rs:16-21 | `struct_to_map!` takes the top-level object of the serialised `NewDisk`. The enum is externally tagged, so that object is `{"Attached": {...}}` or `{"NotAttached": {...}}`, and `disk.create` receives a single parameter named after the variant. | `NotAttached { name: "d", size: 10, sr: SrId("sr") }` sends `{"NotAttached": {"name": "d", "size": 10, "sr": "sr"}}`, with no `name`, `size` or `sr` parameter | the parameters listed beside the call (lines 24-32): the variant's own fields at the top level | medium, not executed | Disk.CreateParamsNested | Disk.CreateParamsFlat |
