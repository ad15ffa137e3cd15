/** `report_graphviz2.py`: the instances of the dump drawn as one graphviz
    graph, each instance a record node inside the cluster of its subnet,
    and each subnet cluster inside the cluster of its VPC. */
module Topology {
  import opened Wrappers
  import opened Dicts
  import opened Records
  import opened Tags
  import opened Text
  import Security

  // ---------------------------------------------------------------------
  // the records

  /** An instance: its tags (none when the record has no `Tags`), the
      subnet it sits in, and its public and private addresses when the
      record has them. */
  datatype InstanceData = InstanceData(
    tags: seq<Tag>, subnetId: string, publicIp: Option<string>, privateIp: Option<string>)

  /** A network interface: stored, and never read again. */
  datatype InterfaceData = InterfaceData

  datatype SubnetData = SubnetData(tags: seq<Tag>, vpcId: string, cidrBlock: string)

  datatype VpcData = VpcData(tags: seq<Tag>)

  /** The `specifics` of a record, by its `datatype` string. */
  datatype Specifics =
    | InstanceRecord(instance: InstanceData)    // aws.ec2.instances
    | InterfaceRecord(iface: InterfaceData)     // aws.ec2.network_interfaces
    | SubnetRecord(subnet: SubnetData)          // aws.ec2.subnets
    | VpcRecord(vpc: VpcData)                   // aws.ec2.vpcs
    | OtherRecord(kind: string)

  datatype Record = Record(metadata: Metadata, specifics: Specifics)

  /** The global `db`. The VPCs are drawn in the order of their dict, so
      that one keeps its insertion order; `vpcSubnets` is
      `index_vpc_subnet` and `subnetInstances` is `index_subnet_instance`,
      each a list of ids per key in the order they were appended. */
  datatype Db = Db(
    instance: map<string, InstanceData>,
    networkInterface: map<string, InterfaceData>,
    subnet: map<string, SubnetData>,
    vpc: Dict<string, VpcData>,
    vpcSubnets: map<string, seq<string>>,
    subnetInstances: map<string, seq<string>>)

  function EmptyDb(): Db
  {
    Db(map[], map[], map[], Empty(), map[], map[])
  }

  // ---------------------------------------------------------------------
  // the two indices

  /** The list an index holds under `key`; none is an empty list. */
  function Listed(index: map<string, seq<string>>, key: string): seq<string>
  {
    if key in index then index[key] else []
  }

  /** `index.setdefault(key, []).append(id)`: `id` goes at the end of the
      list under `key`, whether or not that list holds it already, and
      every other list stays as it was. */
  function Appended(index: map<string, seq<string>>, key: string, id: string): (r: map<string, seq<string>>)
    ensures key in r && r[key] == Listed(index, key) + [id]
    ensures forall k :: k != key ==> Listed(r, k) == Listed(index, k)
    ensures r.Keys == index.Keys + {key}
  {
    index[key := Listed(index, key) + [id]]
  }

  /** `index.setdefault(key, [])`: an empty list under `key` unless the
      index holds a list there already; nothing else changes. */
  function Defaulted(index: map<string, seq<string>>, key: string): (r: map<string, seq<string>>)
    ensures key in r
    ensures forall k :: Listed(r, k) == Listed(index, k)
    ensures r.Keys == index.Keys + {key}
  {
    if key in index then index else index[key := []]
  }

  // ---------------------------------------------------------------------
  // load_data

  /** `data_add_instance`, `data_add_network_interface`, `data_add_subnet`
      and `data_add_vpc` behind the datatype dispatch of `load_data`. */
  function Register(db: Db, id: string, s: Specifics): Db
  {
    match s
    case InstanceRecord(d) =>
      db.(instance := db.instance[id := d], subnetInstances := Appended(db.subnetInstances, d.subnetId, id))
    case InterfaceRecord(d) => db.(networkInterface := db.networkInterface[id := d])
    case SubnetRecord(d) =>
      db.(subnet := db.subnet[id := d], subnetInstances := Defaulted(db.subnetInstances, id),
          vpcSubnets := Appended(db.vpcSubnets, d.vpcId, id))
    case VpcRecord(d) => db.(vpc := Set(db.vpc, id, d))
    case OtherRecord(_) => db
  }

  /** One record of `load_data`: skipped by the profile and region
      filters, otherwise stored by its datatype under its resource id. */
  function Ingest(db: Db, rec: Record, profiles: seq<string>, regions: seq<string>): (r: Db)
    ensures Skipped(rec.metadata, profiles, regions) || rec.specifics.OtherRecord? ==> r == db
  {
    if Skipped(rec.metadata, profiles, regions) then db else Register(db, rec.metadata.resourceid, rec.specifics)
  }

  function IngestAll(db: Db, recs: seq<Record>, profiles: seq<string>, regions: seq<string>): Db
    decreases |recs|
  {
    if recs == [] then db
    else Ingest(IngestAll(db, recs[..|recs| - 1], profiles, regions), recs[|recs| - 1], profiles, regions)
  }

  /** What registration keeps true of the indices: every instance an index
      lists is loaded, every subnet listed under a VPC is loaded, and every
      loaded subnet has an instance list of its own. */
  predicate Indexed(db: Db)
  {
    && (forall s, i :: s in db.subnetInstances && i in db.subnetInstances[s] ==> i in db.instance)
    && (forall v, s :: v in db.vpcSubnets && s in db.vpcSubnets[v] ==> s in db.subnet)
    && (forall s :: s in db.subnet ==> s in db.subnetInstances)
  }

  /** Every registration keeps the indices consistent. */
  lemma RegisterIndexed(db: Db, id: string, s: Specifics)
    requires Indexed(db)
    ensures Indexed(Register(db, id, s))
  {
    var r := Register(db, id, s);
    match s
    case InstanceRecord(d) =>
      forall t, i | t in r.subnetInstances && i in r.subnetInstances[t] ensures i in r.instance {
        if t != d.subnetId {
          assert Listed(r.subnetInstances, t) == Listed(db.subnetInstances, t);
        }
      }
    case SubnetRecord(d) =>
      forall v, t | v in r.vpcSubnets && t in r.vpcSubnets[v] ensures t in r.subnet {
        if v != d.vpcId {
          assert Listed(r.vpcSubnets, v) == Listed(db.vpcSubnets, v);
        }
      }
      forall t, i | t in r.subnetInstances && i in r.subnetInstances[t] ensures i in r.instance {
        assert Listed(r.subnetInstances, t) == Listed(db.subnetInstances, t);
      }
    case _ =>
  }

  /** Loading keeps the indices consistent, so every database the loader
      builds from nothing is consistent. */
  lemma {:induction false} LoadIndexed(db: Db, recs: seq<Record>, profiles: seq<string>, regions: seq<string>)
    requires Indexed(db)
    ensures Indexed(IngestAll(db, recs, profiles, regions))
    decreases |recs|
  {
    if recs != [] {
      var n := |recs|;
      LoadIndexed(db, recs[..n - 1], profiles, regions);
      if !Skipped(recs[n - 1].metadata, profiles, regions) {
        RegisterIndexed(IngestAll(db, recs[..n - 1], profiles, regions), recs[n - 1].metadata.resourceid, recs[n - 1].specifics);
      }
    }
  }

  /** Whether `rec` is a selected instance record for `id` in subnet `s`. */
  predicate PlacesInstance(rec: Record, profiles: seq<string>, regions: seq<string>, s: string, id: string)
  {
    && !Skipped(rec.metadata, profiles, regions)
    && rec.specifics.InstanceRecord?
    && rec.specifics.instance.subnetId == s
    && rec.metadata.resourceid == id
  }

  /** Whether `rec` is a selected subnet record in VPC `v`. */
  predicate SubnetIn(rec: Record, profiles: seq<string>, regions: seq<string>, v: string)
  {
    && !Skipped(rec.metadata, profiles, regions)
    && rec.specifics.SubnetRecord?
    && rec.specifics.subnet.vpcId == v
  }

  /** One record adds an instance to a subnet's list exactly when it
      places the instance there, and takes none away. */
  lemma IngestInstances(db: Db, rec: Record, profiles: seq<string>, regions: seq<string>, s: string, id: string)
    ensures id in Listed(Ingest(db, rec, profiles, regions).subnetInstances, s) <==>
      id in Listed(db.subnetInstances, s) || PlacesInstance(rec, profiles, regions, s, id)
  {
  }

  /** One record adds a subnet to a VPC's list exactly when it is that
      subnet's record naming that VPC, and takes none away. */
  lemma IngestSubnets(db: Db, rec: Record, profiles: seq<string>, regions: seq<string>, v: string, id: string)
    ensures id in Listed(Ingest(db, rec, profiles, regions).vpcSubnets, v) <==>
      id in Listed(db.vpcSubnets, v) || (SubnetIn(rec, profiles, regions, v) && rec.metadata.resourceid == id)
    ensures v in Ingest(db, rec, profiles, regions).vpcSubnets <==> v in db.vpcSubnets || SubnetIn(rec, profiles, regions, v)
  {
  }

  /** After loading, a subnet lists an instance exactly when some selected
      record placed that instance in that subnet. A record never takes an
      id out of a list: an instance loaded twice with two subnets is
      listed under both. */
  lemma {:induction false} SubnetInstancesLoaded(recs: seq<Record>, profiles: seq<string>, regions: seq<string>, s: string, id: string)
    ensures id in Listed(IngestAll(EmptyDb(), recs, profiles, regions).subnetInstances, s) <==>
      exists j :: 0 <= j < |recs| && PlacesInstance(recs[j], profiles, regions, s, id)
    decreases |recs|
  {
    if recs != [] {
      var n := |recs|;
      var prefix := recs[..n - 1];
      SubnetInstancesLoaded(prefix, profiles, regions, s, id);
      IngestInstances(IngestAll(EmptyDb(), prefix, profiles, regions), recs[n - 1], profiles, regions, s, id);
      assert forall j :: 0 <= j < n - 1 ==> prefix[j] == recs[j];
      if exists j :: 0 <= j < n - 1 && PlacesInstance(recs[j], profiles, regions, s, id) {
        var j :| 0 <= j < n - 1 && PlacesInstance(recs[j], profiles, regions, s, id);
        assert PlacesInstance(prefix[j], profiles, regions, s, id);
      }
    }
  }

  /** After loading, a VPC lists a subnet exactly when some selected
      subnet record with that id names that VPC. */
  lemma {:induction false} VpcSubnetsLoaded(recs: seq<Record>, profiles: seq<string>, regions: seq<string>, v: string, id: string)
    ensures id in Listed(IngestAll(EmptyDb(), recs, profiles, regions).vpcSubnets, v) <==>
      exists j :: 0 <= j < |recs| && SubnetIn(recs[j], profiles, regions, v) && recs[j].metadata.resourceid == id
    decreases |recs|
  {
    if recs != [] {
      var n := |recs|;
      var prefix := recs[..n - 1];
      VpcSubnetsLoaded(prefix, profiles, regions, v, id);
      IngestSubnets(IngestAll(EmptyDb(), prefix, profiles, regions), recs[n - 1], profiles, regions, v, id);
      assert forall j :: 0 <= j < n - 1 ==> prefix[j] == recs[j];
      if exists j :: 0 <= j < n - 1 && SubnetIn(recs[j], profiles, regions, v) && recs[j].metadata.resourceid == id {
        var j :| 0 <= j < n - 1 && SubnetIn(recs[j], profiles, regions, v) && recs[j].metadata.resourceid == id;
        assert SubnetIn(prefix[j], profiles, regions, v);
      }
    }
  }

  /** After loading, `index_vpc_subnet` has an entry for a VPC exactly
      when some selected subnet record names that VPC. */
  lemma {:induction false} VpcKeyLoaded(recs: seq<Record>, profiles: seq<string>, regions: seq<string>, v: string)
    ensures v in IngestAll(EmptyDb(), recs, profiles, regions).vpcSubnets <==>
      exists j :: 0 <= j < |recs| && SubnetIn(recs[j], profiles, regions, v)
    decreases |recs|
  {
    if recs != [] {
      var n := |recs|;
      var prefix := recs[..n - 1];
      VpcKeyLoaded(prefix, profiles, regions, v);
      IngestSubnets(IngestAll(EmptyDb(), prefix, profiles, regions), recs[n - 1], profiles, regions, v, "");
      assert forall j :: 0 <= j < n - 1 ==> prefix[j] == recs[j];
      if exists j :: 0 <= j < n - 1 && SubnetIn(recs[j], profiles, regions, v) {
        var j :| 0 <= j < n - 1 && SubnetIn(recs[j], profiles, regions, v);
        assert SubnetIn(prefix[j], profiles, regions, v);
      }
    }
  }

  // ---------------------------------------------------------------------
  // names

  /** `_tagged_name`: for a loaded resource, the value of its last `Name`
      tag in lower case, or else its id as it is; for one that is not
      loaded (`tags` is `None`), a `ValueError`. */
  function TaggedName(tags: Option<seq<Tag>>, id: string, kind: string): (r: Result<string>)
    ensures r.Failure? <==> tags.None?
    ensures r.Failure? ==> r.error == ValueError("Unknown " + id + " " + kind)
    ensures r.Success? && Security.Unnamed(tags.value) ==> r.value == id
    ensures r.Success? ==> forall i :: Security.LastNameTag(tags.value, i) ==> r.value == Lower(tags.value[i].value)
  {
    match tags
    case None => Failure(ValueError("Unknown " + id + " " + kind))
    case Some(t) =>
      NameTagAbsent(t);
      assert forall i :: Security.LastNameTag(t, i) ==> NameTag(t) == Some(t[i].value) by {
        forall i | Security.LastNameTag(t, i) ensures NameTag(t) == Some(t[i].value) {
          NameTagIsLast(t, i);
        }
      }
      Success(NameOr(t, id))
  }

  /** `str_instance_name` */
  function InstanceName(db: Db, id: string): (r: Result<string>)
    ensures r.Success? <==> id in db.instance
  {
    TaggedName(if id in db.instance then Some(db.instance[id].tags) else None, id, "instance")
  }

  /** `str_subnet_name` */
  function SubnetName(db: Db, id: string): (r: Result<string>)
    ensures r.Success? <==> id in db.subnet
  {
    TaggedName(if id in db.subnet then Some(db.subnet[id].tags) else None, id, "subnet")
  }

  /** `str_vpc_name` */
  function VpcName(db: Db, id: string): (r: Result<string>)
    ensures r.Success? <==> id in db.vpc.entries
  {
    TaggedName(if id in db.vpc.entries then Some(db.vpc.entries[id].tags) else None, id, "vpc")
  }

  // ---------------------------------------------------------------------
  // dump_graphviz

  const Header := ["graph G {", " node [ shape=record ]", " rankdir = TB", " pack=true"]

  /** One field of a node label: an address the instance lacks, or has
      empty, leaves its field empty. */
  function Field(address: Option<string>): string
  {
    if address.Some? && address.value != "" then address.value else ""
  }

  /** The record node of one instance, named by the instance's name and
      labelled with its public address, its private address and its
      name, separated by `|`. */
  function NodeLine(name: string, publicIp: Option<string>, privateIp: Option<string>): (line: string)
    ensures line == "   \"" + name + "\" [label=\"{" + publicIp.GetOr("") + "|" + privateIp.GetOr("") + "|" + name + "}\"]"
  {
    Join3(Field(publicIp), Field(privateIp), name, "|");
    assert Field(publicIp) == publicIp.GetOr("") && Field(privateIp) == privateIp.GetOr("");
    "   \"" + name + "\" [label=\"{" + Join([Field(publicIp), Field(privateIp), name], "|") + "}\"]"
  }

  /** The lines of one instance of a subnet's instance list. */
  function InstanceLine(db: Db, id: string): (r: Result<seq<string>>)
    ensures r.Success? <==> id in db.instance
    ensures r.Failure? ==> r.error == KeyError(id)
  {
    if id !in db.instance then Failure(KeyError(id))
    else
      var name := InstanceName(db, id).value;
      var instance := db.instance[id];
      Success([NodeLine(name, instance.publicIp, instance.privateIp)])
  }

  function InstanceLines(db: Db): string -> Result<seq<string>>
  {
    id => InstanceLine(db, id)
  }

  /** The two lines that open a subnet's cluster. */
  function SubnetOpening(name: string, cidrBlock: string): seq<string>
  {
    ["  subgraph \"cluster_" + name + "\" {", "   label=\"" + name + "\\n" + cidrBlock + "\""]
  }

  /** The cluster of one subnet of a VPC's subnet list: its nodes in the
      order of the subnet's instance list. */
  function SubnetBlock(db: Db, id: string): Result<seq<string>>
  {
    if id !in db.subnet then Failure(KeyError(id))
    else
      var name := SubnetName(db, id).value;
      if id !in db.subnetInstances then Failure(KeyError(id))
      else
        var nodes :- Gather(db.subnetInstances[id], InstanceLines(db));
        Success(SubnetOpening(name, db.subnet[id].cidrBlock) + nodes + ["  }"])
  }

  function SubnetBlocks(db: Db): string -> Result<seq<string>>
  {
    id => SubnetBlock(db, id)
  }

  /** The two lines that open a VPC's cluster. */
  function VpcOpening(name: string): seq<string>
  {
    [" subgraph \"cluster_" + name + "\" {", "  label=\"" + name + "\""]
  }

  /** The cluster of one VPC: its subnets' clusters in the order of its
      subnet list; a VPC no subnet names has no list, and the lookup
      raises `KeyError`. */
  function VpcBlock(db: Db, id: string): Result<seq<string>>
  {
    var name :- VpcName(db, id);
    if id !in db.vpcSubnets then Failure(KeyError(id))
    else
      var clusters :- Gather(db.vpcSubnets[id], SubnetBlocks(db));
      Success(VpcOpening(name) + clusters + [" }"])
  }

  function VpcBlocks(db: Db): string -> Result<seq<string>>
  {
    id => VpcBlock(db, id)
  }

  /** `dump_graphviz`: the header, the VPC clusters in the order the VPCs
      were loaded, and the closing brace, one entry per `print`. */
  function Graph(db: Db): Result<seq<string>>
  {
    var clusters :- Gather(db.vpc.keys, VpcBlocks(db));
    Success(Header + clusters + ["}"])
  }

  // ---------------------------------------------------------------------
  // when the graph is drawn

  /** In a consistent database, a subnet's cluster is drawn exactly when
      the subnet is loaded. */
  lemma SubnetBlockSucceeds(db: Db, id: string)
    requires Indexed(db)
    ensures SubnetBlock(db, id).Success? <==> id in db.subnet
  {
    if id in db.subnet {
      var ids := db.subnetInstances[id];
      GatherSucceeds(ids, InstanceLines(db));
      assert forall k :: 0 <= k < |ids| ==> ids[k] in db.instance;
    }
  }

  /** In a consistent database, a loaded VPC's cluster is drawn exactly
      when some subnet names the VPC, and otherwise the lookup of its
      subnet list fails with the VPC's id. */
  lemma VpcBlockSucceeds(db: Db, id: string)
    requires Indexed(db) && id in db.vpc.entries
    ensures VpcBlock(db, id).Success? <==> id in db.vpcSubnets
    ensures VpcBlock(db, id).Failure? ==> VpcBlock(db, id).error == KeyError(id)
  {
    if id in db.vpcSubnets {
      var ids := db.vpcSubnets[id];
      GatherSucceeds(ids, SubnetBlocks(db));
      forall k | 0 <= k < |ids| ensures SubnetBlock(db, ids[k]).Success? {
        SubnetBlockSucceeds(db, ids[k]);
      }
    }
  }

  /** In a consistent database the graph is drawn exactly when every
      loaded VPC has a subnet; otherwise the output is a `KeyError` for a
      loaded VPC that has none. */
  lemma GraphSucceeds(db: Db)
    requires Indexed(db)
    ensures Graph(db).Success? <==> forall v :: v in db.vpc.entries ==> v in db.vpcSubnets
    ensures Graph(db).Failure? ==> exists v :: v in db.vpc.entries && v !in db.vpcSubnets && Graph(db).error == KeyError(v)
  {
    var keys := db.vpc.keys;
    GatherSucceeds(keys, VpcBlocks(db));
    forall k | 0 <= k < |keys| ensures VpcBlock(db, keys[k]).Success? <==> keys[k] in db.vpcSubnets {
      VpcBlockSucceeds(db, keys[k]);
    }
    if Graph(db).Failure? {
      GatherFirstError(keys, VpcBlocks(db));
      var k :| 0 <= k < |keys| && VpcBlock(db, keys[k]).Failure? && VpcBlock(db, keys[k]).error == Graph(db).error;
      VpcBlockSucceeds(db, keys[k]);
    }
  }

  /** End to end: the graph of the loaded records is drawn exactly when
      every loaded VPC is named by some selected subnet record. */
  lemma LoadedGraphSucceeds(recs: seq<Record>, profiles: seq<string>, regions: seq<string>)
    ensures Graph(IngestAll(EmptyDb(), recs, profiles, regions)).Success? <==>
      forall v :: v in IngestAll(EmptyDb(), recs, profiles, regions).vpc.entries ==>
        exists j :: 0 <= j < |recs| && SubnetIn(recs[j], profiles, regions, v)
  {
    var db := IngestAll(EmptyDb(), recs, profiles, regions);
    LoadIndexed(EmptyDb(), recs, profiles, regions);
    GraphSucceeds(db);
    forall v ensures v in db.vpcSubnets <==> exists j :: 0 <= j < |recs| && SubnetIn(recs[j], profiles, regions, v) {
      VpcKeyLoaded(recs, profiles, regions, v);
    }
  }

  // ---------------------------------------------------------------------
  // where the instances are drawn

  /** Whether `line` is an instance node: only those start with three
      spaces and a quote. */
  predicate IsNodeLine(line: string)
  {
    |line| >= 4 && line[0] == ' ' && line[1] == ' ' && line[2] == ' ' && line[3] == '"'
  }

  /** A node line found among lines with no node line before or after it
      is found in the middle part. */
  lemma NodeInside(before: seq<string>, inside: seq<string>, after: seq<string>, line: string)
    requires line in before + inside + after && IsNodeLine(line)
    requires forall x :: x in before ==> !IsNodeLine(x)
    requires forall x :: x in after ==> !IsNodeLine(x)
    ensures line in inside
  {
  }

  /** No line of the header, of a cluster's opening or of a closing brace
      is an instance node. */
  lemma FramesAreNotNodes(name: string, cidrBlock: string)
    ensures forall x :: x in Header ==> !IsNodeLine(x)
    ensures forall x :: x in SubnetOpening(name, cidrBlock) ==> !IsNodeLine(x)
    ensures forall x :: x in VpcOpening(name) ==> !IsNodeLine(x)
    ensures !IsNodeLine("}") && !IsNodeLine(" }") && !IsNodeLine("  }")
  {
    var s := SubnetOpening(name, cidrBlock);
    assert s[0][2] == 's' && s[1][3] == 'l';
    var v := VpcOpening(name);
    assert v[0][1] == 's' && v[1][2] == 'l';
    assert Header[0][0] == 'g' && Header[1][1] == 'n' && Header[2][1] == 'r' && Header[3][1] == 'p';
  }

  /** Instance `i` sits in subnet `s` of VPC `v`: all three are loaded, the
      VPC lists the subnet and the subnet lists the instance. */
  predicate Placed(db: Db, v: string, s: string, i: string)
  {
    && v in db.vpc.entries && v in db.vpcSubnets && s in db.vpcSubnets[v]
    && s in db.subnet && s in db.subnetInstances && i in db.subnetInstances[s]
    && i in db.instance
  }

  /** A node drawn in a subnet's cluster belongs to an instance the subnet
      lists. */
  lemma SubnetNodes(db: Db, s: string, line: string)
    requires SubnetBlock(db, s).Success? && line in SubnetBlock(db, s).value && IsNodeLine(line)
    ensures s in db.subnet && s in db.subnetInstances
    ensures exists i :: i in db.subnetInstances[s] && InstanceLine(db, i) == Success([line])
  {
    var ids := db.subnetInstances[s];
    var nodes := Gather(ids, InstanceLines(db)).value;
    var opening := SubnetOpening(SubnetName(db, s).value, db.subnet[s].cidrBlock);
    FramesAreNotNodes(SubnetName(db, s).value, db.subnet[s].cidrBlock);
    NodeInside(opening, nodes, ["  }"], line);
    GatherFrom(ids, InstanceLines(db), line);
    var k :| 0 <= k < |ids| && InstanceLine(db, ids[k]).Success? && line in InstanceLine(db, ids[k]).value;
    assert ids[k] in ids;
  }

  /** A node drawn in a VPC's cluster belongs to an instance listed by a
      loaded subnet the VPC lists. */
  lemma VpcNodes(db: Db, v: string, line: string)
    requires VpcBlock(db, v).Success? && line in VpcBlock(db, v).value && IsNodeLine(line)
    ensures v in db.vpc.entries && v in db.vpcSubnets
    ensures exists s, i ::
      && s in db.vpcSubnets[v] && s in db.subnet && s in db.subnetInstances
      && i in db.subnetInstances[s] && InstanceLine(db, i) == Success([line])
  {
    var ids := db.vpcSubnets[v];
    var clusters := Gather(ids, SubnetBlocks(db)).value;
    var opening := VpcOpening(VpcName(db, v).value);
    FramesAreNotNodes(VpcName(db, v).value, "");
    NodeInside(opening, clusters, [" }"], line);
    GatherFrom(ids, SubnetBlocks(db), line);
    var k :| 0 <= k < |ids| && SubnetBlock(db, ids[k]).Success? && line in SubnetBlock(db, ids[k]).value;
    SubnetNodes(db, ids[k], line);
    assert ids[k] in ids;
  }

  /** Every node of the graph is an instance drawn where it is placed: in
      the cluster of a loaded subnet that lists it, inside the cluster of
      a loaded VPC that lists the subnet. */
  lemma GraphNodesPlaced(db: Db, line: string)
    requires Graph(db).Success? && line in Graph(db).value && IsNodeLine(line)
    ensures exists v, s, i :: Placed(db, v, s, i) && InstanceLine(db, i) == Success([line])
  {
    var keys := db.vpc.keys;
    var clusters := Gather(keys, VpcBlocks(db)).value;
    FramesAreNotNodes("", "");
    NodeInside(Header, clusters, ["}"], line);
    GatherFrom(keys, VpcBlocks(db), line);
    var k :| 0 <= k < |keys| && VpcBlock(db, keys[k]).Success? && line in VpcBlock(db, keys[k]).value;
    var v := keys[k];
    VpcNodes(db, v, line);
    var s, i :|
      && s in db.vpcSubnets[v] && s in db.subnet && s in db.subnetInstances
      && i in db.subnetInstances[s] && InstanceLine(db, i) == Success([line]);
    assert Placed(db, v, s, i);
  }

  /** Conversely, every placed instance is drawn: its node appears in the
      graph whenever the graph is drawn at all. */
  lemma PlacedNodesDrawn(db: Db, v: string, s: string, i: string)
    requires Graph(db).Success? && Placed(db, v, s, i)
    ensures InstanceLine(db, i).Success? && InstanceLine(db, i).value[0] in Graph(db).value
  {
    var line := InstanceLine(db, i).value[0];
    var keys := db.vpc.keys;
    GatherSucceeds(keys, VpcBlocks(db));
    var kv :| 0 <= kv < |keys| && keys[kv] == v;
    var subnets := db.vpcSubnets[v];
    GatherSucceeds(subnets, SubnetBlocks(db));
    var ks :| 0 <= ks < |subnets| && subnets[ks] == s;
    var ids := db.subnetInstances[s];
    var ki :| 0 <= ki < |ids| && ids[ki] == i;
    GatherHas(ids, InstanceLines(db), ki, line);
    GatherHas(subnets, SubnetBlocks(db), ks, line);
    GatherHas(keys, VpcBlocks(db), kv, line);
  }

  // ---------------------------------------------------------------------
  // dump_graphviz as the source writes it

  /** `_tagged_name` with its tag loop. */
  method NameOf(tags: Option<seq<Tag>>, id: string, kind: string) returns (r: Result<string>)
    ensures r == TaggedName(tags, id, kind)
  {
    if tags.None? {
      return Failure(ValueError("Unknown " + id + " " + kind));
    }
    var name := FindName(tags.value, id);
    r := Success(name);
  }

  /** The body of the instance loop: the label fields collected one by
      one, then joined. */
  method NodeBody(db: Db, id: string) returns (r: Result<seq<string>>)
    ensures r == InstanceLine(db, id)
  {
    if id !in db.instance {
      return Failure(KeyError(id));
    }
    var instance := db.instance[id];
    var name := NameOf(Some(instance.tags), id, "instance");
    var fields: seq<string> := [];
    if instance.publicIp.Some? && instance.publicIp.value != "" {
      fields := fields + [instance.publicIp.value];
    } else {
      fields := fields + [""];
    }
    if instance.privateIp.Some? && instance.privateIp.value != "" {
      fields := fields + [instance.privateIp.value];
    } else {
      fields := fields + [""];
    }
    fields := fields + [name.value];
    assert fields == [Field(instance.publicIp), Field(instance.privateIp), name.value];
    r := Success(["   \"" + name.value + "\" [label=\"{" + Join(fields, "|") + "}\"]"]);
  }

  /** The body of the subnet loop: the cluster opened, the instance loop,
      the cluster closed. */
  method SubnetBody(db: Db, id: string) returns (r: Result<seq<string>>)
    ensures r == SubnetBlock(db, id)
  {
    if id !in db.subnet {
      return Failure(KeyError(id));
    }
    var name := NameOf(Some(db.subnet[id].tags), id, "subnet");
    if id !in db.subnetInstances {
      return Failure(KeyError(id));
    }
    var ids := db.subnetInstances[id];
    var nodes: seq<string> := [];
    for k := 0 to |ids|
      invariant Gather(ids[..k], InstanceLines(db)) == Success(nodes)
    {
      GatherStep(ids, InstanceLines(db), k, nodes);
      var more := NodeBody(db, ids[k]);
      if more.Failure? {
        return Failure(more.error);
      }
      nodes := nodes + more.value;
    }
    assert ids[..|ids|] == ids;
    r := Success(SubnetOpening(name.value, db.subnet[id].cidrBlock) + nodes + ["  }"]);
  }

  /** The body of the VPC loop: the cluster opened, the subnet loop, the
      cluster closed. */
  method VpcBody(db: Db, id: string) returns (r: Result<seq<string>>)
    ensures r == VpcBlock(db, id)
  {
    var name := NameOf(if id in db.vpc.entries then Some(db.vpc.entries[id].tags) else None, id, "vpc");
    if name.Failure? {
      return Failure(name.error);
    }
    if id !in db.vpcSubnets {
      return Failure(KeyError(id));
    }
    var ids := db.vpcSubnets[id];
    var clusters: seq<string> := [];
    for k := 0 to |ids|
      invariant Gather(ids[..k], SubnetBlocks(db)) == Success(clusters)
    {
      GatherStep(ids, SubnetBlocks(db), k, clusters);
      var more := SubnetBody(db, ids[k]);
      if more.Failure? {
        return Failure(more.error);
      }
      clusters := clusters + more.value;
    }
    assert ids[..|ids|] == ids;
    r := Success(VpcOpening(name.value) + clusters + [" }"]);
  }

  /** `dump_graphviz`: the graph, or the first exception. The model then
      returns only the exception, not the lines printed before it. */
  method DumpGraphviz(db: Db) returns (r: Result<seq<string>>)
    ensures r == Graph(db)
  {
    var keys := db.vpc.keys;
    var clusters: seq<string> := [];
    for k := 0 to |keys|
      invariant Gather(keys[..k], VpcBlocks(db)) == Success(clusters)
    {
      GatherStep(keys, VpcBlocks(db), k, clusters);
      var more := VpcBody(db, keys[k]);
      if more.Failure? {
        return Failure(more.error);
      }
      clusters := clusters + more.value;
    }
    assert keys[..|keys|] == keys;
    r := Success(Header + clusters + ["}"]);
  }

  // ---------------------------------------------------------------------
  // the global db as an object

  /** The global `db`, as one object whose methods update it in place. */
  class Store {
    var instance: map<string, InstanceData>
    var networkInterface: map<string, InterfaceData>
    var subnet: map<string, SubnetData>
    var vpc: Dict<string, VpcData>
    var vpcSubnets: map<string, seq<string>>
    var subnetInstances: map<string, seq<string>>

    function Snapshot(): Db
      reads this
    {
      Db(instance, networkInterface, subnet, vpc, vpcSubnets, subnetInstances)
    }

    constructor ()
      ensures Snapshot() == EmptyDb()
    {
      instance, networkInterface, subnet, vpc := map[], map[], map[], Empty();
      vpcSubnets, subnetInstances := map[], map[];
    }

    /** `data_add_instance` */
    method AddInstance(id: string, item: InstanceData)
      modifies this
      ensures Snapshot() == Register(old(Snapshot()), id, InstanceRecord(item))
    {
      instance := instance[id := item];
      var index := if item.subnetId in subnetInstances then subnetInstances[item.subnetId] else [];
      subnetInstances := subnetInstances[item.subnetId := index + [id]];
    }

    /** `data_add_network_interface` */
    method AddInterface(id: string, item: InterfaceData)
      modifies this
      ensures Snapshot() == Register(old(Snapshot()), id, InterfaceRecord(item))
    {
      networkInterface := networkInterface[id := item];
    }

    /** `data_add_subnet` */
    method AddSubnet(id: string, item: SubnetData)
      modifies this
      ensures Snapshot() == Register(old(Snapshot()), id, SubnetRecord(item))
    {
      subnet := subnet[id := item];
      if id !in subnetInstances {
        subnetInstances := subnetInstances[id := []];
      }
      var index := if item.vpcId in vpcSubnets then vpcSubnets[item.vpcId] else [];
      vpcSubnets := vpcSubnets[item.vpcId := index + [id]];
    }

    /** `data_add_vpc` */
    method AddVpc(id: string, item: VpcData)
      modifies this
      ensures Snapshot() == Register(old(Snapshot()), id, VpcRecord(item))
    {
      vpc := Set(vpc, id, item);
    }

    /** The body of the record loop of `load_data`. */
    method Dispatch(rec: Record, profiles: seq<string>, regions: seq<string>)
      modifies this
      ensures Snapshot() == Ingest(old(Snapshot()), rec, profiles, regions)
    {
      if Skipped(rec.metadata, profiles, regions) {
        return;
      }
      var id := rec.metadata.resourceid;
      match rec.specifics
      case InstanceRecord(d) => AddInstance(id, d);
      case InterfaceRecord(d) => AddInterface(id, d);
      case SubnetRecord(d) => AddSubnet(id, d);
      case VpcRecord(d) => AddVpc(id, d);
      case OtherRecord(_) =>
    }

    /** The record loop of `load_data`. */
    method Load(records: seq<Record>, profiles: seq<string>, regions: seq<string>)
      modifies this
      ensures Snapshot() == IngestAll(old(Snapshot()), records, profiles, regions)
    {
      for i := 0 to |records|
        invariant Snapshot() == IngestAll(old(Snapshot()), records[..i], profiles, regions)
      {
        assert records[..i + 1][..i] == records[..i];
        Dispatch(records[i], profiles, regions);
      }
      assert records[..|records|] == records;
    }
  }

  /** `main`: a fresh store filled from the selected records, then the
      graph. */
  method ReportGraphviz(records: seq<Record>, profiles: seq<string>, regions: seq<string>) returns (r: Result<seq<string>>)
    ensures r == Graph(IngestAll(EmptyDb(), records, profiles, regions))
  {
    var store := new Store();
    store.Load(records, profiles, regions);
    r := DumpGraphviz(store.Snapshot());
  }
}
