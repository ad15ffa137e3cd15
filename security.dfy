/** The records `report_security.py` loads into its global `db`: network
    ACLs, instances, security groups and their rules, VPCs and load
    balancers, keyed by resource id, and the two membership indices from a
    security group to the instances and to the load balancers attached to
    it. Also the `*_name` helpers that turn an id into a printable name. */
module Security {
  import opened Wrappers
  import opened Text
  import opened Dicts
  import opened Records
  import opened Tags

  // ---------------------------------------------------------------------
  // the records

  datatype PortRange = PortRange(from: int, to: int)

  /** One entry of a network ACL. `portRange` is `None` when the entry has
      no `PortRange` (it covers every port); `cidrBlock` is `None` for an
      entry that carries only an IPv6 block. `protocol` is the text AWS
      reports, a protocol number or `-1` for all protocols. */
  datatype AclEntry = AclEntry(
    ruleNumber: int, protocol: string, portRange: Option<PortRange>,
    egress: bool, cidrBlock: Option<string>, ruleAction: string)

  /** A network ACL; `vpcId` is `""` when the record has no `VpcId`, and
      `tags` is empty when it has no `Tags`. */
  datatype AclData = AclData(tags: seq<Tag>, vpcId: string, entries: seq<AclEntry>)

  /** An instance and the ids of the security groups attached to it. */
  datatype InstanceData = InstanceData(tags: seq<Tag>, securityGroups: seq<string>)

  datatype GroupData = GroupData(groupName: Option<string>, description: Option<string>)

  /** One security group rule. Ports are `-1` for a rule covering all
      traffic; a rule names its peer by an IPv4 block, by another
      security group, or (IPv6 blocks, prefix lists) by neither of the two
      fields the report reads. */
  datatype GroupRuleData = GroupRuleData(
    groupId: string, fromPort: int, toPort: int, ipProtocol: string,
    description: Option<string>, tags: Option<seq<Tag>>,
    cidrIpv4: Option<string>, referencedGroup: Option<string>, isEgress: bool)

  datatype VpcData = VpcData(tags: seq<Tag>)

  /** A load balancer and the ids of its security groups. */
  datatype ElbData = ElbData(securityGroups: seq<string>)

  /** The `specifics` of a record, by its `datatype` string. */
  datatype Specifics =
    | InstanceRecord(instance: InstanceData)     // aws.ec2.instances
    | AclRecord(acl: AclData)                     // aws.ec2.network_acls
    | GroupRuleRecord(rule: GroupRuleData)        // aws.ec2.security_group_rules
    | GroupRecord(group: GroupData)               // aws.ec2.security_groups
    | VpcRecord(vpc: VpcData)                     // aws.ec2.vpcs
    | ElbRecord(elb: ElbData)                     // aws.elbv2.load_balancers
    | OtherRecord(kind: string)

  datatype Record = Record(metadata: Metadata, specifics: Specifics)

  /** The global `db`. A membership index maps a group id to its members,
      a Python `set` kept here as a list without repeats. */
  datatype Db = Db(
    acl: Dict<string, AclData>,
    elb: map<string, ElbData>,
    instance: map<string, InstanceData>,
    sg: map<string, GroupData>,
    sgInstances: map<string, seq<string>>,
    sgElb: map<string, seq<string>>,
    sgr: Dict<string, GroupRuleData>,
    vpc: map<string, VpcData>)

  function EmptyDb(): Db
  {
    Db(Empty(), map[], map[], map[], map[], map[], Empty(), map[])
  }

  // ---------------------------------------------------------------------
  // the membership indices

  /** Whether `x` is a member of group `g` in `index`. */
  predicate IsMember(index: map<string, seq<string>>, g: string, x: string)
  {
    g in index && x in index[g]
  }

  /** `index.setdefault(g, set()).add(id)` */
  function AddMember(index: map<string, seq<string>>, g: string, id: string): (r: map<string, seq<string>>)
    ensures r.Keys == index.Keys + {g}
    ensures forall h, x :: IsMember(r, h, x) <==> IsMember(index, h, x) || (h == g && x == id)
  {
    var members := if g in index then index[g] else [];
    index[g := if id in members then members else members + [id]]
  }

  /** The index after `id` was added to every group of `groups`. */
  function JoinAll(index: map<string, seq<string>>, groups: seq<string>, id: string): (r: map<string, seq<string>>)
    ensures forall h :: h in r <==> h in index || h in groups
    ensures forall h, x :: IsMember(r, h, x) <==> IsMember(index, h, x) || (h in groups && x == id)
    decreases |groups|
  {
    if groups == [] then index
    else AddMember(JoinAll(index, groups[..|groups| - 1], id), groups[|groups| - 1], id)
  }

  /** The `for` loop of `data_add_instance` and `data_add_elb`: the id
      joins the member set of each group in turn. */
  method JoinLoop(index: map<string, seq<string>>, groups: seq<string>, id: string) returns (r: map<string, seq<string>>)
    ensures r == JoinAll(index, groups, id)
  {
    r := index;
    for i := 0 to |groups|
      invariant r == JoinAll(index, groups[..i], id)
    {
      assert groups[..i + 1][..i] == groups[..i];
      var members := if groups[i] in r then r[groups[i]] else [];
      if id !in members {
        members := members + [id];
      }
      r := r[groups[i] := members];
    }
    assert groups[..|groups|] == groups;
  }

  // ---------------------------------------------------------------------
  // registration

  /** `data_add_acl` */
  function WithAcl(db: Db, id: string, item: AclData): Db
  {
    db.(acl := Set(db.acl, id, item))
  }

  /** `data_add_instance`: stored under its id, and the id joins the
      member set of each of its security groups. */
  function WithInstance(db: Db, id: string, item: InstanceData): Db
  {
    db.(instance := db.instance[id := item], sgInstances := JoinAll(db.sgInstances, item.securityGroups, id))
  }

  /** `data_add_sg` */
  function WithGroup(db: Db, id: string, item: GroupData): Db
  {
    db.(sg := db.sg[id := item])
  }

  /** `data_add_sgr` */
  function WithGroupRule(db: Db, id: string, item: GroupRuleData): Db
  {
    db.(sgr := Set(db.sgr, id, item))
  }

  /** `data_add_vpc` */
  function WithVpc(db: Db, id: string, item: VpcData): Db
  {
    db.(vpc := db.vpc[id := item])
  }

  /** `data_add_elb`: stored under its id, and the id joins the member set
      of each of its security groups. */
  function WithElb(db: Db, id: string, item: ElbData): Db
  {
    db.(elb := db.elb[id := item], sgElb := JoinAll(db.sgElb, item.securityGroups, id))
  }

  /** One record of `load_data`: skipped by the profile and region
      filters, otherwise stored by its datatype under its resource id;
      other datatypes are ignored. */
  function Ingest(db: Db, rec: Record, profiles: seq<string>, regions: seq<string>): (r: Db)
    ensures Skipped(rec.metadata, profiles, regions) || rec.specifics.OtherRecord? ==> r == db
  {
    if Skipped(rec.metadata, profiles, regions) then db else Register(db, rec.metadata.resourceid, rec.specifics)
  }

  /** A selected record, dispatched on its datatype. */
  function Register(db: Db, id: string, s: Specifics): (r: Db)
    ensures s.OtherRecord? ==> r == db
  {
    match s
    case InstanceRecord(d) => WithInstance(db, id, d)
    case AclRecord(d) => WithAcl(db, id, d)
    case GroupRuleRecord(d) => WithGroupRule(db, id, d)
    case GroupRecord(d) => WithGroup(db, id, d)
    case VpcRecord(d) => WithVpc(db, id, d)
    case ElbRecord(d) => WithElb(db, id, d)
    case OtherRecord(_) => db
  }

  /** Only an instance record touches the instance index, only a load
      balancer record the load balancer index, only an ACL record the
      ACLs. */
  lemma RegisterTouches(db: Db, id: string, s: Specifics)
    ensures !s.InstanceRecord? ==> Register(db, id, s).sgInstances == db.sgInstances
    ensures !s.ElbRecord? ==> Register(db, id, s).sgElb == db.sgElb
    ensures !s.AclRecord? ==> Register(db, id, s).acl == db.acl
  {
  }

  lemma IngestInstanceMembers(db: Db, rec: Record, profiles: seq<string>, regions: seq<string>, g: string, id: string)
    ensures IsMember(Ingest(db, rec, profiles, regions).sgInstances, g, id) <==>
      IsMember(db.sgInstances, g, id) || JoinsAsInstance(rec, profiles, regions, g, id)
  {
    if !Skipped(rec.metadata, profiles, regions) {
      RegisterTouches(db, rec.metadata.resourceid, rec.specifics);
    }
  }

  lemma IngestElbMembers(db: Db, rec: Record, profiles: seq<string>, regions: seq<string>, g: string, id: string)
    ensures IsMember(Ingest(db, rec, profiles, regions).sgElb, g, id) <==>
      IsMember(db.sgElb, g, id) || JoinsAsElb(rec, profiles, regions, g, id)
  {
    if !Skipped(rec.metadata, profiles, regions) {
      RegisterTouches(db, rec.metadata.resourceid, rec.specifics);
    }
  }

  lemma IngestAclStep(db: Db, rec: Record, profiles: seq<string>, regions: seq<string>, id: string)
    ensures LoadsAcl(rec, profiles, regions, id) ==> Get(Ingest(db, rec, profiles, regions).acl, id) == Some(rec.specifics.acl)
    ensures !LoadsAcl(rec, profiles, regions, id) ==> Get(Ingest(db, rec, profiles, regions).acl, id) == Get(db.acl, id)
  {
    if !Skipped(rec.metadata, profiles, regions) {
      RegisterTouches(db, rec.metadata.resourceid, rec.specifics);
    }
  }

  function IngestAll(db: Db, recs: seq<Record>, profiles: seq<string>, regions: seq<string>): Db
    decreases |recs|
  {
    if recs == [] then db
    else Ingest(IngestAll(db, recs[..|recs| - 1], profiles, regions), recs[|recs| - 1], profiles, regions)
  }

  /** Whether `rec` is a selected instance record for `id` listing group
      `g`. */
  predicate JoinsAsInstance(rec: Record, profiles: seq<string>, regions: seq<string>, g: string, id: string)
  {
    && !Skipped(rec.metadata, profiles, regions)
    && rec.specifics.InstanceRecord?
    && rec.metadata.resourceid == id
    && g in rec.specifics.instance.securityGroups
  }

  /** Whether `rec` is a selected load balancer record for `id` listing
      group `g`. */
  predicate JoinsAsElb(rec: Record, profiles: seq<string>, regions: seq<string>, g: string, id: string)
  {
    && !Skipped(rec.metadata, profiles, regions)
    && rec.specifics.ElbRecord?
    && rec.metadata.resourceid == id
    && g in rec.specifics.elb.securityGroups
  }

  /** The instance index never forgets: after loading, an id is a member
      of a group exactly when it was before or some selected instance
      record with that id lists the group, even one a later record for
      the same id replaced. */
  lemma {:induction false} LoadedInstanceMembers(db: Db, recs: seq<Record>, profiles: seq<string>, regions: seq<string>, g: string, id: string)
    ensures IsMember(IngestAll(db, recs, profiles, regions).sgInstances, g, id) <==>
      IsMember(db.sgInstances, g, id) || exists j :: 0 <= j < |recs| && JoinsAsInstance(recs[j], profiles, regions, g, id)
    decreases |recs|
  {
    if recs != [] {
      var n := |recs|;
      var prefix := recs[..n - 1];
      LoadedInstanceMembers(db, prefix, profiles, regions, g, id);
      IngestInstanceMembers(IngestAll(db, prefix, profiles, regions), recs[n - 1], profiles, regions, g, id);
      assert forall j :: 0 <= j < n - 1 ==> prefix[j] == recs[j];
      if exists j :: 0 <= j < |recs| && JoinsAsInstance(recs[j], profiles, regions, g, id) {
        var j :| 0 <= j < |recs| && JoinsAsInstance(recs[j], profiles, regions, g, id);
        if j < n - 1 {
          assert JoinsAsInstance(prefix[j], profiles, regions, g, id);
        }
      }
    }
  }

  /** The load balancer index never forgets, in the same way. */
  lemma {:induction false} LoadedElbMembers(db: Db, recs: seq<Record>, profiles: seq<string>, regions: seq<string>, g: string, id: string)
    ensures IsMember(IngestAll(db, recs, profiles, regions).sgElb, g, id) <==>
      IsMember(db.sgElb, g, id) || exists j :: 0 <= j < |recs| && JoinsAsElb(recs[j], profiles, regions, g, id)
    decreases |recs|
  {
    if recs != [] {
      var n := |recs|;
      var prefix := recs[..n - 1];
      LoadedElbMembers(db, prefix, profiles, regions, g, id);
      IngestElbMembers(IngestAll(db, prefix, profiles, regions), recs[n - 1], profiles, regions, g, id);
      assert forall j :: 0 <= j < n - 1 ==> prefix[j] == recs[j];
      if exists j :: 0 <= j < |recs| && JoinsAsElb(recs[j], profiles, regions, g, id) {
        var j :| 0 <= j < |recs| && JoinsAsElb(recs[j], profiles, regions, g, id);
        if j < n - 1 {
          assert JoinsAsElb(prefix[j], profiles, regions, g, id);
        }
      }
    }
  }

  /** Whether `rec` is a selected ACL record for `id`. */
  predicate LoadsAcl(rec: Record, profiles: seq<string>, regions: seq<string>, id: string)
  {
    && !Skipped(rec.metadata, profiles, regions)
    && rec.specifics.AclRecord?
    && rec.metadata.resourceid == id
  }

  /** Last write wins: after loading, an ACL id holds the last selected
      record for it. */
  lemma {:induction false} LoadedAcl(db: Db, recs: seq<Record>, profiles: seq<string>, regions: seq<string>, id: string, i: int)
    requires 0 <= i < |recs| && LoadsAcl(recs[i], profiles, regions, id)
    requires forall j :: i < j < |recs| ==> !LoadsAcl(recs[j], profiles, regions, id)
    ensures Get(IngestAll(db, recs, profiles, regions).acl, id) == Some(recs[i].specifics.acl)
    decreases |recs|
  {
    var n := |recs|;
    var prefix := recs[..n - 1];
    IngestAclStep(IngestAll(db, prefix, profiles, regions), recs[n - 1], profiles, regions, id);
    if i < n - 1 {
      assert prefix[i] == recs[i];
      assert forall j :: i < j < n - 1 ==> prefix[j] == recs[j];
      LoadedAcl(db, prefix, profiles, regions, id, i);
    }
  }

  /** Without a selected record for it, an ACL id keeps what it held. */
  lemma {:induction false} UnloadedAcl(db: Db, recs: seq<Record>, profiles: seq<string>, regions: seq<string>, id: string)
    requires forall j :: 0 <= j < |recs| ==> !LoadsAcl(recs[j], profiles, regions, id)
    ensures Get(IngestAll(db, recs, profiles, regions).acl, id) == Get(db.acl, id)
    decreases |recs|
  {
    if recs != [] {
      var n := |recs|;
      var prefix := recs[..n - 1];
      assert forall j :: 0 <= j < n - 1 ==> prefix[j] == recs[j];
      UnloadedAcl(db, prefix, profiles, regions, id);
      IngestAclStep(IngestAll(db, prefix, profiles, regions), recs[n - 1], profiles, regions, id);
    }
  }

  // ---------------------------------------------------------------------
  // names

  /** Whether the tag at `i` is the last one named `Name`. */
  predicate LastNameTag(tags: seq<Tag>, i: int)
  {
    0 <= i < |tags| && tags[i].key == "Name" && forall j :: i < j < |tags| ==> tags[j].key != "Name"
  }

  predicate Unnamed(tags: seq<Tag>)
  {
    forall i :: 0 <= i < |tags| ==> tags[i].key != "Name"
  }

  /** The name part of `acl_name`, `instance_name` and `vpc_name` for a
      loaded resource: its last `Name` tag in lower case, or `?`. */
  function TaggedName(tags: seq<Tag>): (r: string)
    ensures Unnamed(tags) ==> r == "?"
    ensures forall i :: LastNameTag(tags, i) ==> r == Lower(tags[i].value)
  {
    NameTagAbsent(tags);
    forall i | LastNameTag(tags, i) ensures NameTag(tags) == Some(tags[i].value) {
      NameTagIsLast(tags, i);
    }
    NameOr(tags, "?")
  }

  /** `acl_name(_id)`: `? (<id>)` for an ACL that is not loaded,
      otherwise its name and its id in parentheses. */
  function AclName(acl: Dict<string, AclData>, id: string): (r: string)
    ensures id !in acl.entries ==> r == "? (" + id + ")"
    ensures id in acl.entries ==> r == TaggedName(acl.entries[id].tags) + " (" + id + ")"
  {
    if id !in acl.entries then "? (" + id + ")"
    else TaggedName(acl.entries[id].tags) + " (" + id + ")"
  }

  /** `instance_name(_id)` */
  function InstanceName(instance: map<string, InstanceData>, id: string): (r: string)
    ensures id !in instance ==> r == "? (" + id + ")"
    ensures id in instance ==> r == TaggedName(instance[id].tags) + " (" + id + ")"
  {
    if id !in instance then "? (" + id + ")"
    else TaggedName(instance[id].tags) + " (" + id + ")"
  }

  /** `vpc_name(_id)` */
  function VpcName(vpc: map<string, VpcData>, id: string): (r: string)
    ensures id !in vpc ==> r == "? (" + id + ")"
    ensures id in vpc ==> r == TaggedName(vpc[id].tags) + " (" + id + ")"
  {
    if id !in vpc then "? (" + id + ")"
    else TaggedName(vpc[id].tags) + " (" + id + ")"
  }

  /** `group_name(_id)`: the group's `GroupName` in lower case instead of
      a tag. */
  function GroupName(sg: map<string, GroupData>, id: string): (r: string)
    ensures id !in sg || sg[id].groupName.None? ==> r == "? (" + id + ")"
    ensures id in sg && sg[id].groupName.Some? ==> r == Lower(sg[id].groupName.value) + " (" + id + ")"
  {
    var name := if id in sg && sg[id].groupName.Some? then Lower(sg[id].groupName.value) else "?";
    name + " (" + id + ")"
  }

  /** A printed name ends with the id in parentheses, so two ids get
      different names whenever neither they nor the name parts contain an
      opening parenthesis. */
  lemma NamesEndWithId(p: string, id: string, q: string, other: string)
    requires '(' !in p && '(' !in q && '(' !in id && '(' !in other
    ensures p + " (" + id + ")" == q + " (" + other + ")" ==> id == other
  {
    var a, b := p + " (" + id + ")", q + " (" + other + ")";
    if a == b {
      OpenParen(p, id);
      OpenParen(q, other);
      assert |p| == |q|;
      assert a[|p| + 2..|a| - 1] == id;
      assert b[|q| + 2..|b| - 1] == other;
    }
  }

  lemma OpenParen(p: string, id: string)
    requires '(' !in p && '(' !in id
    ensures '(' in p + " (" + id + ")" && IndexOf(p + " (" + id + ")", '(') == |p| + 1
  {
    IndexOfAfterPrefix(p + " ", '(', id + ")");
    assert p + " (" + id + ")" == (p + " ") + ['('] + (id + ")");
  }

  // ---------------------------------------------------------------------
  // the global db as an object

  /** The global `db`, as one object whose methods update it in place. */
  class Store {
    var acl: Dict<string, AclData>
    var elb: map<string, ElbData>
    var instance: map<string, InstanceData>
    var sg: map<string, GroupData>
    var sgInstances: map<string, seq<string>>
    var sgElb: map<string, seq<string>>
    var sgr: Dict<string, GroupRuleData>
    var vpc: map<string, VpcData>

    function Snapshot(): Db
      reads this
    {
      Db(acl, elb, instance, sg, sgInstances, sgElb, sgr, vpc)
    }

    constructor ()
      ensures Snapshot() == EmptyDb()
    {
      acl, elb, instance, sg := Empty(), map[], map[], map[];
      sgInstances, sgElb, sgr, vpc := map[], map[], Empty(), map[];
    }

    method AddAcl(id: string, item: AclData)
      modifies this
      ensures Snapshot() == WithAcl(old(Snapshot()), id, item)
    {
      acl := Set(acl, id, item);
    }

    method AddInstance(id: string, item: InstanceData)
      modifies this
      ensures Snapshot() == WithInstance(old(Snapshot()), id, item)
    {
      instance := instance[id := item];
      sgInstances := JoinLoop(sgInstances, item.securityGroups, id);
    }

    method AddGroup(id: string, item: GroupData)
      modifies this
      ensures Snapshot() == WithGroup(old(Snapshot()), id, item)
    {
      sg := sg[id := item];
    }

    method AddGroupRule(id: string, item: GroupRuleData)
      modifies this
      ensures Snapshot() == WithGroupRule(old(Snapshot()), id, item)
    {
      sgr := Set(sgr, id, item);
    }

    method AddVpc(id: string, item: VpcData)
      modifies this
      ensures Snapshot() == WithVpc(old(Snapshot()), id, item)
    {
      vpc := vpc[id := item];
    }

    method AddElb(id: string, item: ElbData)
      modifies this
      ensures Snapshot() == WithElb(old(Snapshot()), id, item)
    {
      elb := elb[id := item];
      sgElb := JoinLoop(sgElb, item.securityGroups, id);
    }

    /** The body of the record loop of `load_data`. */
    method Dispatch(rec: Record, profiles: seq<string>, regions: seq<string>)
      modifies this
      ensures Snapshot() == Ingest(old(Snapshot()), rec, profiles, regions)
    {
      if Skipped(rec.metadata, profiles, regions) {
        return;
      }
      var id := rec.metadata.resourceid;
      match rec.specifics
      case InstanceRecord(d) => AddInstance(id, d);
      case AclRecord(d) => AddAcl(id, d);
      case GroupRuleRecord(d) => AddGroupRule(id, d);
      case GroupRecord(d) => AddGroup(id, d);
      case VpcRecord(d) => AddVpc(id, d);
      case ElbRecord(d) => AddElb(id, d);
      case OtherRecord(_) =>
    }

    /** The record loop of `load_data`. */
    method Load(records: seq<Record>, profiles: seq<string>, regions: seq<string>)
      modifies this
      ensures Snapshot() == IngestAll(old(Snapshot()), records, profiles, regions)
    {
      for i := 0 to |records|
        invariant Snapshot() == IngestAll(old(Snapshot()), records[..i], profiles, regions)
      {
        assert records[..i + 1][..i] == records[..i];
        Dispatch(records[i], profiles, regions);
      }
      assert records[..|records|] == records;
    }
  }
}
