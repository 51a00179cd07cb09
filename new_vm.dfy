/** The draft of a new VM built from a template (`NewVmArgs`): `new_raw`
    fills in the defaults, and `new` copies the template's disks and network
    interfaces after looking each of them up on the server, one after another. */
module NewVm {

  import opened Wrappers
  import opened Json
  import opened Decimal
  import opened Types
  import opened Macros
  import Client

  datatype NewVmArgs = NewVmArgs(
    clone: Option<bool>,
    existingDisks: map<Usize, PartialVdi>,
    nameLabel: string,
    template: TemplateId,
    vdis: seq<PartialVdi>,
    vifs: seq<PartialVif>,
    coresPerSocket: Option<Usize>,
    cpus: Option<Usize>,
    nameDescription: string,
    autoPoweron: Option<bool>,
    bootAfterCreate: Option<bool>,
    cloudConfig: Option<CloudConfigId>,
    networkConfig: Option<NetworkConfigId>,
    tags: seq<string>)

  /** `new_raw`: the given name and template, nothing else chosen. */
  function NewRaw(nameLabel: string, template: TemplateId): (a: NewVmArgs)
    ensures a.nameLabel == nameLabel && a.template == template
    ensures a.existingDisks == map[] && a.vdis == [] && a.vifs == [] && a.tags == []
    ensures a.nameDescription == ""
    ensures a.clone.None? && a.coresPerSocket.None? && a.cpus.None?
    ensures a.autoPoweron.None? && a.bootAfterCreate.None?
    ensures a.cloudConfig.None? && a.networkConfig.None?
  {
    NewVmArgs(None, map[], nameLabel, template, [], [], None, None, "", None, None, None, None, [])
  }

  /** The server as `new` sees it: what `get_vbds`, `get_vdis` and `get_vifs`
      return for the request each of them sends. */
  datatype Server = Server(
    vbds: Request -> Result<map<VbdId, Vbd>, RpcError>,
    vdis: Request -> Result<map<VdiId, Vdi>, RpcError>,
    vifs: Request -> Result<map<VifId, Vif>, RpcError>)

  /** The lookup filter `procedure_object! { "id" => id }` of one object,
      with the getter's kind added. */
  predicate LooksUp(req: Request, id: string, tag: string) {
    && req.procedure == "xo.getAllObjects"
    && req.params.Keys == {"filter"}
    && req.params["filter"] == Object(map["id" := String(id), "type" := String(tag)])
  }

  function LookupFilter(id: string): (f: map<string, JsonValue>)
    ensures f == map["id" := String(id)]
  {
    ArgsMapOfOne("id", String(id));
    ArgsMap([("id", String(id))])
  }

  function VbdLookup(id: VbdId): (req: Request)
    ensures LooksUp(req, id.s, "VBD")
  {
    var req := Client.GetterRequest(Client.GetVbds, Some(LookupFilter(id.s)), None);
    assert req.params["filter"].fields == map["id" := String(id.s), "type" := String("VBD")];
    req
  }

  function VdiLookup(id: VdiId): (req: Request)
    ensures LooksUp(req, id.s, "VDI")
  {
    var req := Client.GetterRequest(Client.GetVdis, Some(LookupFilter(id.s)), None);
    assert req.params["filter"].fields == map["id" := String(id.s), "type" := String("VDI")];
    req
  }

  function VifLookup(id: VifId): (req: Request)
    ensures LooksUp(req, id.s, "VIF")
  {
    var req := Client.GetterRequest(Client.GetVifs, Some(LookupFilter(id.s)), None);
    assert req.params["filter"].fields == map["id" := String(id.s), "type" := String("VIF")];
    req
  }

  /** The disk copied from a template attachment: `None` when the attachment
      is skipped, an error when a lookup fails, otherwise the attachment's
      position with the disk's fields. */
  type DiskEntryResult = Option<Result<(Usize, PartialVdi), RpcError>>

  /** A step that ends the collection with a lookup error. */
  predicate IsError<T>(e: Option<Result<T, RpcError>>) {
    e.Some? && e.value.Err?
  }

  /** One step of the attachment stream of `new`. */
  function DiskEntry(server: Server, vbdId: VbdId): DiskEntryResult
  {
    match server.vbds(VbdLookup(vbdId))
    case Err(e) => Some(Err(e))
    case Ok(vbds) =>
      if vbdId !in vbds then None
      else
        var vbd := vbds[vbdId];
        if vbd.isCdDrive then None
        else
          match server.vdis(VdiLookup(vbd.vdi))
          case Err(e) => Some(Err(e))
          case Ok(vdis) =>
            if vbd.vdi !in vdis then None
            else
              var vdi := vdis[vbd.vdi];
              Some(Ok((vbd.position, PartialVdi(vdi.nameDescription, vdi.nameLabel, vdi.size, vdi.sr))))
  }

  /** The cases of one attachment: a failed attachment lookup is that error;
      a missing attachment and a CD drive are skipped; a copied disk sits at
      the attachment's own position with the disk's name, description, size
      and storage repository; and every other error is that of the disk lookup. */
  lemma DiskEntryCases(server: Server, vbdId: VbdId)
    ensures server.vbds(VbdLookup(vbdId)).Err? ==>
              DiskEntry(server, vbdId) == Some(Err(server.vbds(VbdLookup(vbdId)).error))
    ensures server.vbds(VbdLookup(vbdId)).Ok? && vbdId !in server.vbds(VbdLookup(vbdId)).value ==>
              DiskEntry(server, vbdId).None?
    ensures (server.vbds(VbdLookup(vbdId)).Ok? && vbdId in server.vbds(VbdLookup(vbdId)).value &&
             server.vbds(VbdLookup(vbdId)).value[vbdId].isCdDrive) ==> DiskEntry(server, vbdId).None?
    ensures DiskEntry(server, vbdId).Some? && DiskEntry(server, vbdId).value.Ok? ==>
              var r := DiskEntry(server, vbdId).value.value;
              var vbds := server.vbds(VbdLookup(vbdId));
              && vbds.Ok? && vbdId in vbds.value
              && var vbd := vbds.value[vbdId];
              && !vbd.isCdDrive && r.0 == vbd.position
              && var vdis := server.vdis(VdiLookup(vbd.vdi));
              && vdis.Ok? && vbd.vdi in vdis.value
              && var vdi := vdis.value[vbd.vdi];
              && r.1 == PartialVdi(vdi.nameDescription, vdi.nameLabel, vdi.size, vdi.sr)
    ensures IsError(DiskEntry(server, vbdId)) ==>
              server.vbds(VbdLookup(vbdId)) == Err(DiskEntry(server, vbdId).value.error) ||
              (server.vbds(VbdLookup(vbdId)).Ok? && vbdId in server.vbds(VbdLookup(vbdId)).value &&
               server.vdis(VdiLookup(server.vbds(VbdLookup(vbdId)).value[vbdId].vdi)) ==
               Err(DiskEntry(server, vbdId).value.error))
    ensures var vbdR := server.vbds(VbdLookup(vbdId));
            vbdR.Ok? && vbdId in vbdR.value && !vbdR.value[vbdId].isCdDrive ==>
              var vbd := vbdR.value[vbdId];
              var vdiR := server.vdis(VdiLookup(vbd.vdi));
              && (vdiR.Err? ==> DiskEntry(server, vbdId) == Some(Err(vdiR.error)))
              && (vdiR.Ok? && vbd.vdi !in vdiR.value ==> DiskEntry(server, vbdId).None?)
              && (vdiR.Ok? && vbd.vdi in vdiR.value ==>
                    var vdi := vdiR.value[vbd.vdi];
                    DiskEntry(server, vbdId) ==
                      Some(Ok((vbd.position, PartialVdi(vdi.nameDescription, vdi.nameLabel, vdi.size, vdi.sr)))))
  {
  }

  /** The steps of the attachment stream, one per attachment of the template. */
  function DiskEntries(server: Server, vbds: seq<VbdId>): (es: seq<DiskEntryResult>)
    ensures |es| == |vbds|
    ensures forall i :: 0 <= i < |vbds| ==> es[i] == DiskEntry(server, vbds[i])
  {
    seq(|vbds|, i requires 0 <= i < |vbds| => DiskEntry(server, vbds[i]))
  }

  /** An entry that puts a disk at position `p`. */
  predicate WritesAt(e: DiskEntryResult, p: Usize) {
    e.Some? && e.value.Ok? && e.value.value.0 == p
  }

  /** The positions the entries put a disk at. */
  function Positions(es: seq<DiskEntryResult>): set<Usize> {
    set i | 0 <= i < |es| && es[i].Some? && es[i].value.Ok? :: es[i].value.value.0
  }

  /** `try_collect` of the attachment stream into a map: entries in template
      order, the first error ends the collection with that error, and a later
      entry at a position replaces an earlier one. */
  function CollectDisks(es: seq<DiskEntryResult>, acc: map<Usize, PartialVdi>)
    : Result<map<Usize, PartialVdi>, RpcError>
    decreases |es|
  {
    if es == [] then Ok(acc)
    else
      match es[0]
      case None => CollectDisks(es[1..], acc)
      case Some(Err(e)) => Err(e)
      case Some(Ok((p, d))) => CollectDisks(es[1..], acc[p := d])
  }

  /** The map a non-failing entry leaves behind. */
  function AfterEntry(e: DiskEntryResult, acc: map<Usize, PartialVdi>): map<Usize, PartialVdi> {
    if e.Some? && e.value.Ok? then acc[e.value.value.0 := e.value.value.1] else acc
  }

  /** One step of the VIF stream of `new`. */
  function VifEntry(server: Server, vifId: VifId): Option<Result<PartialVif, RpcError>>
  {
    match server.vifs(VifLookup(vifId))
    case Err(e) => Some(Err(e))
    case Ok(vifs) =>
      if vifId !in vifs then None
      else Some(Ok(PartialVif(vifs[vifId].network)))
  }

  /** The cases of one VIF: a failed lookup is that error, a VIF missing from
      the reply is skipped, and a found one gives its network. */
  lemma VifEntryCases(server: Server, vifId: VifId)
    ensures server.vifs(VifLookup(vifId)).Err? ==>
              VifEntry(server, vifId) == Some(Err(server.vifs(VifLookup(vifId)).error))
    ensures VifEntry(server, vifId).None? <==>
              server.vifs(VifLookup(vifId)).Ok? && vifId !in server.vifs(VifLookup(vifId)).value
    ensures VifEntry(server, vifId).Some? && VifEntry(server, vifId).value.Ok? ==>
              server.vifs(VifLookup(vifId)).Ok? && vifId in server.vifs(VifLookup(vifId)).value &&
              VifEntry(server, vifId).value.value == PartialVif(server.vifs(VifLookup(vifId)).value[vifId].network)
  {
  }


  type VifEntryResult = Option<Result<PartialVif, RpcError>>

  /** The steps of the VIF stream, one per VIF of the template. */
  function VifEntries(server: Server, ids: seq<VifId>): (es: seq<VifEntryResult>)
    ensures |es| == |ids|
    ensures forall i :: 0 <= i < |ids| ==> es[i] == VifEntry(server, ids[i])
  {
    seq(|ids|, i requires 0 <= i < |ids| => VifEntry(server, ids[i]))
  }

  /** `try_collect` of the VIF stream into a vector, in template order. */
  function CollectVifs(es: seq<VifEntryResult>, acc: seq<PartialVif>): Result<seq<PartialVif>, RpcError>
    decreases |es|
  {
    if es == [] then Ok(acc)
    else
      match es[0]
      case None => CollectVifs(es[1..], acc)
      case Some(Err(e)) => Err(e)
      case Some(Ok(v)) => CollectVifs(es[1..], acc + [v])
  }

  /** The vector a non-failing entry leaves behind. */
  function AfterVif(e: VifEntryResult, acc: seq<PartialVif>): seq<PartialVif> {
    if e.Some? && e.value.Ok? then acc + [e.value.value] else acc
  }

  /** What `new` returns: the disks are collected first, then the VIFs, and
      the draft of `new_raw` takes both. */
  function Assemble(nameLabel: string, template: Template, server: Server)
    : (r: Result<NewVmArgs, RpcError>)
    ensures r.Ok? ==> r.value.nameLabel == nameLabel && r.value.template == template.id
    ensures r.Ok? ==> r.value == NewRaw(nameLabel, template.id).(existingDisks := r.value.existingDisks,
                                                                   vifs := r.value.vifs)
    ensures r.Ok? ==> CollectDisks(DiskEntries(server, template.vbds), map[]) == Ok(r.value.existingDisks)
    ensures r.Ok? ==> CollectVifs(VifEntries(server, template.vifs), []) == Ok(r.value.vifs)
    ensures CollectDisks(DiskEntries(server, template.vbds), map[]).Err? ==>
              r == Err(CollectDisks(DiskEntries(server, template.vbds), map[]).error)
    ensures (CollectDisks(DiskEntries(server, template.vbds), map[]).Ok? &&
             CollectVifs(VifEntries(server, template.vifs), []).Err?) ==>
              r == Err(CollectVifs(VifEntries(server, template.vifs), []).error)
    ensures (CollectDisks(DiskEntries(server, template.vbds), map[]).Ok? &&
             CollectVifs(VifEntries(server, template.vifs), []).Ok?) ==> r.Ok?
  {
    match CollectDisks(DiskEntries(server, template.vbds), map[])
    case Err(e) => Err(e)
    case Ok(disks) =>
      match CollectVifs(VifEntries(server, template.vifs), [])
      case Err(e) => Err(e)
      case Ok(vifs) => Ok(NewRaw(nameLabel, template.id).(existingDisks := disks, vifs := vifs))
  }

  /** `NewVmArgs::new`: the per-attachment loop, then the per-VIF loop, each
      returning at its first error, then the two fields of the draft are set. */
  method New(nameLabel: string, template: Template, server: Server) returns (r: Result<NewVmArgs, RpcError>)
    ensures r == Assemble(nameLabel, template, server)
  {
    var draft := NewRaw(nameLabel, template.id);

    ghost var disks := DiskEntries(server, template.vbds);
    var existingDisks: map<Usize, PartialVdi> := map[];
    var i := 0;
    while i < |template.vbds|
      invariant 0 <= i <= |template.vbds|
      invariant CollectDisks(disks, map[]) == CollectDisks(disks[i..], existingDisks)
    {
      assert disks[i..][0] == DiskEntry(server, template.vbds[i]);
      assert disks[i..][1..] == disks[i + 1..];
      var entry := DiskEntry(server, template.vbds[i]);
      match entry {
        case None =>
        case Some(Err(e)) =>
          return Err(e);
        case Some(Ok((position, disk))) =>
          existingDisks := existingDisks[position := disk];
      }
      i := i + 1;
    }

    ghost var interfaces := VifEntries(server, template.vifs);
    var vifs: seq<PartialVif> := [];
    var j := 0;
    while j < |template.vifs|
      invariant 0 <= j <= |template.vifs|
      invariant CollectDisks(disks, map[]) == Ok(existingDisks)
      invariant CollectVifs(interfaces, []) == CollectVifs(interfaces[j..], vifs)
    {
      assert interfaces[j..][0] == VifEntry(server, template.vifs[j]);
      assert interfaces[j..][1..] == interfaces[j + 1..];
      var entry := VifEntry(server, template.vifs[j]);
      match entry {
        case None =>
        case Some(Err(e)) =>
          return Err(e);
        case Some(Ok(vif)) =>
          vifs := vifs + [vif];
      }
      j := j + 1;
    }

    draft := draft.(existingDisks := existingDisks, vifs := vifs);
    r := Ok(draft);
  }

  /** The collection of the disks fails exactly when some entry is an error,
      and then with the error of the first one. */
  lemma {:induction false} DisksFirstError(es: seq<DiskEntryResult>, acc: map<Usize, PartialVdi>)
    ensures CollectDisks(es, acc).Err? <==> exists i :: 0 <= i < |es| && IsError(es[i])
    ensures CollectDisks(es, acc).Err? ==>
              exists i :: 0 <= i < |es| && es[i] == Some(Err(CollectDisks(es, acc).error)) &&
                          forall j :: 0 <= j < i ==> !IsError(es[j])
    decreases |es|
  {
    if es != [] && !IsError(es[0]) {
      DisksFirstError(es[1..], AfterEntry(es[0], acc));
      assert CollectDisks(es, acc) == CollectDisks(es[1..], AfterEntry(es[0], acc));
      if exists i :: 0 <= i < |es| && IsError(es[i]) {
        var i :| 0 <= i < |es| && IsError(es[i]);
        assert es[1..][i - 1] == es[i];
      }
      if CollectDisks(es, acc).Err? {
        var k :| 0 <= k < |es[1..]| && es[1..][k] == Some(Err(CollectDisks(es, acc).error)) &&
                 forall j :: 0 <= j < k ==> !IsError(es[1..][j]);
        assert es[1..][k] == es[k + 1];
        forall j | 0 <= j < k + 1
          ensures !IsError(es[j])
        {
          if j > 0 {
            assert es[1..][j - 1] == es[j];
          }
        }
      }
    }
  }

  /** A successful collection of the disks has an entry at the position of
      every entry that resolves, and nothing beyond the starting map else. */
  lemma {:induction false} DisksKeys(es: seq<DiskEntryResult>, acc: map<Usize, PartialVdi>)
    requires CollectDisks(es, acc).Ok?
    ensures CollectDisks(es, acc).value.Keys == acc.Keys + Positions(es)
    decreases |es|
  {
    if es == [] {
      assert Positions(es) == {};
    } else {
      var next := AfterEntry(es[0], acc);
      assert CollectDisks(es, acc) == CollectDisks(es[1..], next);
      DisksKeys(es[1..], next);
      var head := if es[0].Some? && es[0].value.Ok? then {es[0].value.value.0} else {};
      assert next.Keys == acc.Keys + head;
      assert Positions(es) == head + Positions(es[1..]) by {
        forall p | p in Positions(es)
          ensures p in head + Positions(es[1..])
        {
          var i :| 0 <= i < |es| && es[i].Some? && es[i].value.Ok? && es[i].value.value.0 == p;
          if i > 0 {
            assert es[1..][i - 1] == es[i];
          }
        }
        forall p | p in Positions(es[1..])
          ensures p in Positions(es)
        {
          var i :| 0 <= i < |es[1..]| && es[1..][i].Some? && es[1..][i].value.Ok? && es[1..][i].value.value.0 == p;
          assert es[1..][i] == es[i + 1];
        }
        if es[0].Some? && es[0].value.Ok? {
          assert es[0].value.value.0 in Positions(es);
        }
      }
    }
  }

  /** At each position, a successful collection holds the disk of the last
      entry that writes there. */
  lemma {:induction false} DisksLastWins(es: seq<DiskEntryResult>, acc: map<Usize, PartialVdi>, i: nat, p: Usize)
    requires CollectDisks(es, acc).Ok?
    requires i < |es| && WritesAt(es[i], p)
    requires forall j :: i < j < |es| ==> !WritesAt(es[j], p)
    ensures p in CollectDisks(es, acc).value && CollectDisks(es, acc).value[p] == es[i].value.value.1
    decreases |es|
  {
    var next := AfterEntry(es[0], acc);
    assert CollectDisks(es, acc) == CollectDisks(es[1..], next);
    if i > 0 {
      assert es[1..][i - 1] == es[i];
      forall j | i - 1 < j < |es[1..]|
        ensures !WritesAt(es[1..][j], p)
      {
        assert es[1..][j] == es[j + 1];
      }
      DisksLastWins(es[1..], next, i - 1, p);
    } else {
      forall j | 0 <= j < |es[1..]|
        ensures !WritesAt(es[1..][j], p)
      {
        assert es[1..][j] == es[j + 1];
      }
      DisksKeepUnwritten(es[1..], next, p);
    }
  }

  /** Where no entry writes, a successful collection keeps the starting map's disk. */
  lemma {:induction false} DisksKeepUnwritten(es: seq<DiskEntryResult>, acc: map<Usize, PartialVdi>, p: Usize)
    requires CollectDisks(es, acc).Ok?
    requires p in acc
    requires forall j :: 0 <= j < |es| ==> !WritesAt(es[j], p)
    ensures p in CollectDisks(es, acc).value && CollectDisks(es, acc).value[p] == acc[p]
    decreases |es|
  {
    if es != [] {
      var next := AfterEntry(es[0], acc);
      assert CollectDisks(es, acc) == CollectDisks(es[1..], next);
      assert !WritesAt(es[0], p);
      forall j | 0 <= j < |es[1..]|
        ensures !WritesAt(es[1..][j], p)
      {
        assert es[1..][j] == es[j + 1];
      }
      DisksKeepUnwritten(es[1..], next, p);
    }
  }

  /** Collecting the entries of two lists one after the other is collecting
      the entries of the concatenation. */
  lemma {:induction false} DisksAppend(a: seq<DiskEntryResult>, b: seq<DiskEntryResult>, acc: map<Usize, PartialVdi>)
    ensures CollectDisks(a + b, acc) ==
              match CollectDisks(a, acc)
              case Err(e) => Err(e)
              case Ok(m) => CollectDisks(b, m)
    decreases |a|
  {
    if a == [] {
      assert a + b == b;
    } else {
      assert (a + b)[0] == a[0];
      assert (a + b)[1..] == a[1..] + b;
      DisksAppend(a[1..], b, AfterEntry(a[0], acc));
    }
  }

  /** The collection of the VIFs fails exactly when some entry is an error,
      and then with the error of the first one. */
  lemma {:induction false} VifsFirstError(es: seq<VifEntryResult>, acc: seq<PartialVif>)
    ensures CollectVifs(es, acc).Err? <==> exists i :: 0 <= i < |es| && IsError(es[i])
    ensures CollectVifs(es, acc).Err? ==>
              exists i :: 0 <= i < |es| && es[i] == Some(Err(CollectVifs(es, acc).error)) &&
                          forall j :: 0 <= j < i ==> !IsError(es[j])
    decreases |es|
  {
    if es != [] && !IsError(es[0]) {
      VifsFirstError(es[1..], AfterVif(es[0], acc));
      assert CollectVifs(es, acc) == CollectVifs(es[1..], AfterVif(es[0], acc));
      if exists i :: 0 <= i < |es| && IsError(es[i]) {
        var i :| 0 <= i < |es| && IsError(es[i]);
        assert es[1..][i - 1] == es[i];
      }
      if CollectVifs(es, acc).Err? {
        var k :| 0 <= k < |es[1..]| && es[1..][k] == Some(Err(CollectVifs(es, acc).error)) &&
                 forall j :: 0 <= j < k ==> !IsError(es[1..][j]);
        assert es[1..][k] == es[k + 1];
        forall j | 0 <= j < k + 1
          ensures !IsError(es[j])
        {
          if j > 0 {
            assert es[1..][j - 1] == es[j];
          }
        }
      }
    }
  }

  /** A successful collection of the VIFs keeps what it started with and adds
      at most one interface per entry. */
  lemma {:induction false} VifsBounds(es: seq<VifEntryResult>, acc: seq<PartialVif>)
    requires CollectVifs(es, acc).Ok?
    ensures |acc| <= |CollectVifs(es, acc).value| <= |acc| + |es|
    ensures CollectVifs(es, acc).value[..|acc|] == acc
    decreases |es|
  {
    if es == [] {
      assert acc[..|acc|] == acc;
    } else {
      var next := AfterVif(es[0], acc);
      assert CollectVifs(es, acc) == CollectVifs(es[1..], next);
      VifsBounds(es[1..], next);
      var v := CollectVifs(es, acc).value;
      assert v[..|acc|] == v[..|next|][..|acc|];
      assert next[..|acc|] == acc;
    }
  }

  /** When every VIF resolves, the collection adds exactly one interface per
      entry, in the entries' order. */
  lemma {:induction false} VifsAllResolved(es: seq<VifEntryResult>, acc: seq<PartialVif>)
    requires forall i :: 0 <= i < |es| ==> es[i].Some? && es[i].value.Ok?
    ensures CollectVifs(es, acc).Ok?
    ensures |CollectVifs(es, acc).value| == |acc| + |es|
    ensures forall i :: 0 <= i < |es| ==> CollectVifs(es, acc).value[|acc| + i] == es[i].value.value
    decreases |es|
  {
    if es != [] {
      var next := acc + [es[0].value.value];
      assert CollectVifs(es, acc) == CollectVifs(es[1..], next);
      forall i | 0 <= i < |es[1..]|
        ensures es[1..][i].Some? && es[1..][i].value.Ok?
      {
        assert es[1..][i] == es[i + 1];
      }
      VifsAllResolved(es[1..], next);
      VifsBounds(es[1..], next);
      var v := CollectVifs(es, acc).value;
      forall i | 0 <= i < |es|
        ensures v[|acc| + i] == es[i].value.value
      {
        if i == 0 {
          assert v[|acc|] == v[..|next|][|acc|];
        } else {
          assert es[1..][i - 1] == es[i];
        }
      }
    }
  }

  /** Entries that are all skipped leave the vector as it was. */
  lemma {:induction false} VifsAllSkipped(es: seq<VifEntryResult>, acc: seq<PartialVif>)
    requires forall i :: 0 <= i < |es| ==> es[i].None?
    ensures CollectVifs(es, acc) == Ok(acc)
    decreases |es|
  {
    if es != [] {
      forall i | 0 <= i < |es[1..]|
        ensures es[1..][i].None?
      {
        assert es[1..][i] == es[i + 1];
      }
      VifsAllSkipped(es[1..], acc);
    }
  }

  /** Collecting the entries of two lists one after the other is collecting
      the entries of the concatenation, so the order of the template is kept. */
  lemma {:induction false} VifsAppend(a: seq<VifEntryResult>, b: seq<VifEntryResult>, acc: seq<PartialVif>)
    ensures CollectVifs(a + b, acc) ==
              match CollectVifs(a, acc)
              case Err(e) => Err(e)
              case Ok(v) => CollectVifs(b, v)
    decreases |a|
  {
    if a == [] {
      assert a + b == b;
    } else {
      assert (a + b)[0] == a[0];
      assert (a + b)[1..] == a[1..] + b;
      VifsAppend(a[1..], b, AfterVif(a[0], acc));
    }
  }

  /** A CD drive of the template, or an attachment the server does not
      return, leaves no disk in the draft, whatever the other attachments. */
  lemma SkippedAttachment(server: Server, vbds: seq<VbdId>, i: nat)
    requires i < |vbds|
    requires server.vbds(VbdLookup(vbds[i])).Ok?
    requires vbds[i] !in server.vbds(VbdLookup(vbds[i])).value ||
             server.vbds(VbdLookup(vbds[i])).value[vbds[i]].isCdDrive
    ensures !IsError(DiskEntries(server, vbds)[i])
    ensures forall p :: !WritesAt(DiskEntries(server, vbds)[i], p)
  {
    DiskEntryCases(server, vbds[i]);
  }

  /** A template with a CD drive at position 0 and a disk at position 1, and
      no network interface: the draft holds exactly the disk, at position 1,
      with the fields of its VDI. */
  lemma CdDriveThenDisk(nameLabel: string, template: Template, server: Server, cd: VbdId, disk: VbdId)
    requires template.vbds == [cd, disk] && template.vifs == []
    requires server.vbds(VbdLookup(cd)).Ok? && cd in server.vbds(VbdLookup(cd)).value
    requires server.vbds(VbdLookup(cd)).value[cd].isCdDrive
    requires server.vbds(VbdLookup(cd)).value[cd].position == 0
    requires server.vbds(VbdLookup(disk)).Ok? && disk in server.vbds(VbdLookup(disk)).value
    requires !server.vbds(VbdLookup(disk)).value[disk].isCdDrive
    requires server.vbds(VbdLookup(disk)).value[disk].position == 1
    requires server.vdis(VdiLookup(server.vbds(VbdLookup(disk)).value[disk].vdi)).Ok?
    requires server.vbds(VbdLookup(disk)).value[disk].vdi in
               server.vdis(VdiLookup(server.vbds(VbdLookup(disk)).value[disk].vdi)).value
    ensures Assemble(nameLabel, template, server).Ok?
    ensures Assemble(nameLabel, template, server).value.existingDisks.Keys == {1}
    ensures var vbd := server.vbds(VbdLookup(disk)).value[disk];
            var vdi := server.vdis(VdiLookup(vbd.vdi)).value[vbd.vdi];
            Assemble(nameLabel, template, server).value.existingDisks[1] ==
              PartialVdi(vdi.nameDescription, vdi.nameLabel, vdi.size, vdi.sr)
    ensures Assemble(nameLabel, template, server).value.vifs == []
  {
    var es := DiskEntries(server, template.vbds);
    DiskEntryCases(server, cd);
    DiskEntryCases(server, disk);
    var vbd := server.vbds(VbdLookup(disk)).value[disk];
    var vdi := server.vdis(VdiLookup(vbd.vdi)).value[vbd.vdi];
    var d := PartialVdi(vdi.nameDescription, vdi.nameLabel, vdi.size, vdi.sr);
    assert es[0].None? && es[1] == Some(Ok((1, d)));
    var rest: seq<DiskEntryResult> := es[1..];
    var none: map<Usize, PartialVdi> := map[];
    assert CollectDisks(es, none) == CollectDisks(rest, none);
    assert CollectDisks(rest, none) == CollectDisks(rest[1..], none[1 := d]);
    assert rest[1..] == [];
    assert VifEntries(server, template.vifs) == [];
  }
}
