/** The ELB topology report, first half: the registries that
    `report_elb.py` keeps in the class-level `db` dicts of its item
    classes, the secondary indices by DNS name and by public address, the
    dispatch of loaded records, and the `bind_data` passes that attach
    children to their parents. The graph text is produced by module
    ElbGraph.

    The item objects are values here. An object's mutable state (the
    children dicts the `add_*` methods fill, the `dns_ref` flags, a DNS
    record's `ref`) is a field of its value, and a reference from one
    object to another is the other object's registry key. */
module Elb {
  import opened Wrappers
  import opened Dicts
  import opened Sorting
  import opened Tags
  import opened Records

  // ---------------------------------------------------------------------
  // records, as parsed from the dump

  /** One entry of a rule's `Actions` or a listener's `DefaultActions`,
      by its `Type`. */
  datatype Action =
    | Forward(targetGroupArn: string)
    | Redirect(protocol: string, host: string, port: string)
    | FixedResponse
    | OtherAction(kind: string)

  datatype LoadBalancerData = LoadBalancerData(arn: string, name: string, dnsName: string)

  datatype ListenerData = ListenerData(
    arn: string, loadBalancerArn: string, protocol: string, port: int, defaultActions: seq<Action>)

  /** `_listener_arn` is absent from dumps written by older versions. */
  datatype RuleData = RuleData(arn: string, listenerArn: Option<string>, actions: seq<Action>)

  datatype TargetGroupData = TargetGroupData(arn: string, name: string, loadBalancerArns: seq<string>)

  datatype Target = Target(id: string, port: int)

  /** The health record of one target group: `_arn` is the group's ARN,
      and `TargetHealthDescriptions` is a dict of targets. */
  datatype TargetHealthData = TargetHealthData(groupArn: string, descriptions: Dict<string, Target>)

  datatype InstanceData = InstanceData(instanceId: string, publicIp: Option<string>, tags: seq<Tag>, state: string)

  /** A Cloudflare DNS record: `name`, `type` and `content`. */
  datatype DnsData = DnsData(name: string, kind: string, content: string)

  /** The `specifics` of a dumped record, by its `datatype`. */
  datatype Specifics =
    | LoadBalancerRecord(lb: LoadBalancerData)       // aws.elbv2.load_balancers
    | ListenerRecord(listener: ListenerData)         // aws.elbv2.listeners
    | TargetGroupRecord(group: TargetGroupData)      // aws.elbv2.target_groups
    | TargetHealthRecord(health: TargetHealthData)   // aws.elbv2.target_health
    | RuleRecord(rule: RuleData)                     // aws.elbv2.rules
    | InstanceRecord(instance: InstanceData)         // aws.ec2.instances
    | OtherRecord(kind: string)

  datatype Record = Record(metadata: Metadata, specifics: Specifics)

  // ---------------------------------------------------------------------
  // objects and the registry

  /** What a DNS record was bound to, by registry key. */
  datatype Ref = ToLoadBalancer(arn: string) | ToInstance(arn: string)

  /** A `Load_Balancer`: its `listeners` and `target_groups` dicts are kept
      as their keys, in insertion order. */
  datatype LoadBalancer = LoadBalancer(data: LoadBalancerData, listeners: seq<string>, targetGroups: seq<string>, dnsRef: bool)

  datatype Listener = Listener(data: ListenerData, rules: seq<string>)

  /** A `Target_Group` and the key of the health record bound to it. */
  datatype TargetGroup = TargetGroup(data: TargetGroupData, health: Option<string>)

  datatype Instance = Instance(data: InstanceData, health: seq<string>, dnsRef: bool)

  datatype Dns = Dns(data: DnsData, ref: Option<Ref>)

  /** The class-level dicts: `Load_Balancer.db` and `.db_fqdn`,
      `Listener.db`, `Rules.db`, `Target_Group.db`, `Target_Health.db`,
      `Instance.db` and `.db_ipaddr`, and `DNS.db`. */
  datatype Db = Db(
    lbs: Dict<string, LoadBalancer>,
    lbByFqdn: map<string, string>,
    listeners: Dict<string, Listener>,
    rules: Dict<string, RuleData>,
    groups: Dict<string, TargetGroup>,
    health: Dict<string, TargetHealthData>,
    instances: Dict<string, Instance>,
    instanceByIp: map<string, string>,
    dns: Dict<string, Dns>)

  /** `Instance.arn()`: instances have no ARN in the dump, so their key is
      made from the instance id. */
  function InstanceArn(id: string): string
  {
    "FIXME:instance/" + id
  }

  /** Two instances share a key only when they share an id. */
  lemma InstanceArnInjective(a: string, b: string)
    ensures InstanceArn(a) == InstanceArn(b) <==> a == b
  {
    var n := |"FIXME:instance/"|;
    if InstanceArn(a) == InstanceArn(b) {
      assert a == InstanceArn(a)[n..];
      assert b == InstanceArn(b)[n..];
    }
  }

  /** `Rules.listener_arn()` */
  function RuleListenerArn(r: RuleData): string
  {
    match r.listenerArn
    case Some(arn) => arn
    case None => "FIXME_old_dump_data"
  }

  /** Every object is stored under its own identity, and the indices point
      at stored objects. */
  ghost predicate Keyed(db: Db)
  {
    && LoadBalancersKeyed(db.lbs) && Indexes(db.lbByFqdn, db.lbs)
    && ListenersKeyed(db.listeners) && RulesKeyed(db.rules)
    && GroupsKeyed(db.groups) && HealthKeyed(db.health)
    && InstancesKeyed(db.instances) && Indexes(db.instanceByIp, db.instances)
    && DnsKeyed(db.dns)
  }

  ghost predicate LoadBalancersKeyed(lbs: Dict<string, LoadBalancer>)
  {
    forall a :: a in lbs.entries ==> lbs.entries[a].data.arn == a
  }

  ghost predicate ListenersKeyed(listeners: Dict<string, Listener>)
  {
    forall l :: l in listeners.entries ==> listeners.entries[l].data.arn == l
  }

  ghost predicate RulesKeyed(rules: Dict<string, RuleData>)
  {
    forall r :: r in rules.entries ==> rules.entries[r].arn == r
  }

  ghost predicate GroupsKeyed(groups: Dict<string, TargetGroup>)
  {
    forall g :: g in groups.entries ==> groups.entries[g].data.arn == g
  }

  ghost predicate HealthKeyed(health: Dict<string, TargetHealthData>)
  {
    forall h :: h in health.entries ==> health.entries[h].groupArn == h
  }

  ghost predicate InstancesKeyed(instances: Dict<string, Instance>)
  {
    forall i :: i in instances.entries ==> InstanceArn(instances.entries[i].data.instanceId) == i
  }

  ghost predicate DnsKeyed(dns: Dict<string, Dns>)
  {
    forall n :: n in dns.entries ==> dns.entries[n].data.name == n
  }

  /** An index points only at stored objects. */
  ghost predicate Indexes<V>(index: map<string, string>, d: Dict<string, V>)
  {
    forall k :: k in index ==> index[k] in d.entries
  }

  /** What binding attached refers to stored objects. */
  ghost predicate Linked(db: Db)
  {
    && ChildrenStored(db.lbs, db.listeners, db.groups)
    && RulesStored(db.listeners, db.rules)
    && GroupHealthStored(db.groups, db.health)
    && InstanceHealthStored(db.instances, db.health)
    && RefsStored(db.dns, db.lbs, db.instances)
  }

  ghost predicate ChildrenStored(lbs: Dict<string, LoadBalancer>, listeners: Dict<string, Listener>, groups: Dict<string, TargetGroup>)
  {
    && (forall a, l :: a in lbs.entries && l in lbs.entries[a].listeners ==> l in listeners.entries)
    && (forall a, g :: a in lbs.entries && g in lbs.entries[a].targetGroups ==> g in groups.entries)
  }

  ghost predicate RulesStored(listeners: Dict<string, Listener>, rules: Dict<string, RuleData>)
  {
    forall l, r :: l in listeners.entries && r in listeners.entries[l].rules ==> r in rules.entries
  }

  ghost predicate GroupHealthStored(groups: Dict<string, TargetGroup>, health: Dict<string, TargetHealthData>)
  {
    forall g :: g in groups.entries && groups.entries[g].health.Some? ==> groups.entries[g].health.value in health.entries
  }

  ghost predicate InstanceHealthStored(instances: Dict<string, Instance>, health: Dict<string, TargetHealthData>)
  {
    forall i, h :: i in instances.entries && h in instances.entries[i].health ==> h in health.entries
  }

  ghost predicate RefsStored(dns: Dict<string, Dns>, lbs: Dict<string, LoadBalancer>, instances: Dict<string, Instance>)
  {
    forall n :: n in dns.entries && dns.entries[n].ref.Some? ==>
      match dns.entries[n].ref.value
      case ToLoadBalancer(a) => a in lbs.entries
      case ToInstance(i) => i in instances.entries
  }

  ghost predicate WellFormed(db: Db)
  {
    Keyed(db) && Linked(db)
  }

  /** Nothing is attached yet: the state every object is created in. */
  ghost predicate Unbound(db: Db)
  {
    && LoadBalancersUnbound(db.lbs) && ListenersUnbound(db.listeners) && GroupsUnbound(db.groups)
    && InstancesUnbound(db.instances) && DnsUnbound(db.dns)
  }

  ghost predicate LoadBalancersUnbound(lbs: Dict<string, LoadBalancer>)
  {
    forall a :: a in lbs.entries ==>
      lbs.entries[a].listeners == [] && lbs.entries[a].targetGroups == [] && !lbs.entries[a].dnsRef
  }

  ghost predicate ListenersUnbound(listeners: Dict<string, Listener>)
  {
    forall l :: l in listeners.entries ==> listeners.entries[l].rules == []
  }

  ghost predicate GroupsUnbound(groups: Dict<string, TargetGroup>)
  {
    forall g :: g in groups.entries ==> groups.entries[g].health.None?
  }

  ghost predicate InstancesUnbound(instances: Dict<string, Instance>)
  {
    forall i :: i in instances.entries ==> instances.entries[i].health == [] && !instances.entries[i].dnsRef
  }

  ghost predicate DnsUnbound(dns: Dict<string, Dns>)
  {
    forall n :: n in dns.entries ==> dns.entries[n].ref.None?
  }

  function EmptyDb(): (db: Db)
    ensures WellFormed(db) && Unbound(db)
  {
    Db(Empty(), map[], Empty(), Empty(), Empty(), Empty(), Empty(), map[], Empty())
  }

  // ---------------------------------------------------------------------
  // registration: `ItemBase.__init__` and the constructors that extend it

  /** `Load_Balancer(data)`: stored under its ARN, replacing an earlier one,
      and entered in the DNS-name index. */
  function WithLoadBalancer(db: Db, d: LoadBalancerData): (r: Db)
    ensures Get(r.lbs, d.arn) == Some(LoadBalancer(d, [], [], false))
    ensures forall a :: a != d.arn ==> Get(r.lbs, a) == Get(db.lbs, a)
    ensures d.dnsName in r.lbByFqdn && r.lbByFqdn[d.dnsName] == d.arn
    ensures r == db.(lbs := r.lbs, lbByFqdn := r.lbByFqdn)
  {
    db.(lbs := Set(db.lbs, d.arn, LoadBalancer(d, [], [], false)),
        lbByFqdn := db.lbByFqdn[d.dnsName := d.arn])
  }

  /** `Listener(data)`, stored under its ARN. */
  function WithListener(db: Db, d: ListenerData): (r: Db)
    ensures Get(r.listeners, d.arn) == Some(Listener(d, []))
    ensures forall l :: l != d.arn ==> Get(r.listeners, l) == Get(db.listeners, l)
    ensures r == db.(listeners := r.listeners)
  {
    db.(listeners := Set(db.listeners, d.arn, Listener(d, [])))
  }

  /** `Rules(data)`, stored under its ARN. */
  function WithRule(db: Db, d: RuleData): (r: Db)
    ensures Get(r.rules, d.arn) == Some(d)
    ensures forall k :: k != d.arn ==> Get(r.rules, k) == Get(db.rules, k)
    ensures r == db.(rules := r.rules)
  {
    db.(rules := Set(db.rules, d.arn, d))
  }

  /** `Target_Group(data)`, stored under its ARN. */
  function WithTargetGroup(db: Db, d: TargetGroupData): (r: Db)
    ensures Get(r.groups, d.arn) == Some(TargetGroup(d, None))
    ensures forall g :: g != d.arn ==> Get(r.groups, g) == Get(db.groups, g)
    ensures r == db.(groups := r.groups)
  {
    db.(groups := Set(db.groups, d.arn, TargetGroup(d, None)))
  }

  /** `Target_Health(data)`, stored under its group's ARN, so a later
      health record of the same group replaces it. */
  function WithTargetHealth(db: Db, d: TargetHealthData): (r: Db)
    ensures Get(r.health, d.groupArn) == Some(d)
    ensures forall h :: h != d.groupArn ==> Get(r.health, h) == Get(db.health, h)
    ensures r == db.(health := r.health)
  {
    db.(health := Set(db.health, d.groupArn, d))
  }

  /** `Instance(data)`: stored under its synthetic ARN, and entered in the
      address index only when it has a public address. */
  function WithInstance(db: Db, d: InstanceData): (r: Db)
    ensures Get(r.instances, InstanceArn(d.instanceId)) == Some(Instance(d, [], false))
    ensures forall i :: i != InstanceArn(d.instanceId) ==> Get(r.instances, i) == Get(db.instances, i)
    ensures d.publicIp.None? ==> r.instanceByIp == db.instanceByIp
    ensures d.publicIp.Some? ==> r.instanceByIp == db.instanceByIp[d.publicIp.value := InstanceArn(d.instanceId)]
    ensures r == db.(instances := r.instances, instanceByIp := r.instanceByIp)
  {
    var key := InstanceArn(d.instanceId);
    db.(instances := Set(db.instances, key, Instance(d, [], false)),
        instanceByIp := match d.publicIp
          case Some(ip) => db.instanceByIp[ip := key]
          case None => db.instanceByIp)
  }

  /** `DNS(data)`: stored under its name, bound to nothing. */
  function WithDns(db: Db, d: DnsData): (r: Db)
    ensures Get(r.dns, d.name) == Some(Dns(d, None))
    ensures forall n :: n != d.name ==> Get(r.dns, n) == Get(db.dns, n)
    ensures r == db.(dns := r.dns)
  {
    db.(dns := Set(db.dns, d.name, Dns(d, None)))
  }

  /** One record of `load_data`: skipped by the profile and region filters,
      otherwise dispatched on its datatype; other datatypes are ignored. */
  function Ingest(db: Db, rec: Record, profiles: seq<string>, regions: seq<string>): (r: Db)
    ensures Skipped(rec.metadata, profiles, regions) || rec.specifics.OtherRecord? ==> r == db
  {
    if Skipped(rec.metadata, profiles, regions) then db else Register(db, rec.specifics)
  }

  /** A selected record, dispatched on its datatype. */
  function Register(db: Db, s: Specifics): (r: Db)
    ensures s.OtherRecord? ==> r == db
    ensures !s.LoadBalancerRecord? ==> r.lbs == db.lbs
  {
    match s
    case LoadBalancerRecord(d) => WithLoadBalancer(db, d)
    case ListenerRecord(d) => WithListener(db, d)
    case TargetGroupRecord(d) => WithTargetGroup(db, d)
    case TargetHealthRecord(d) => WithTargetHealth(db, d)
    case RuleRecord(d) => WithRule(db, d)
    case InstanceRecord(d) => WithInstance(db, d)
    case OtherRecord(_) => db
  }

  /** Registering a record keeps every object under its own identity and
      every reference pointing at a stored object, and attaches nothing. */
  lemma RegisterPreserves(db: Db, s: Specifics)
    ensures WellFormed(db) ==> WellFormed(Register(db, s))
    ensures Unbound(db) ==> Unbound(Register(db, s))
  {
    match s
    case LoadBalancerRecord(d) => LoadBalancerRegistered(db, d);
    case ListenerRecord(d) => ListenerRegistered(db, d);
    case TargetGroupRecord(d) => TargetGroupRegistered(db, d);
    case TargetHealthRecord(d) => TargetHealthRegistered(db, d);
    case RuleRecord(d) => RuleRegistered(db, d);
    case InstanceRecord(d) => InstanceRegistered(db, d);
    case OtherRecord(_) =>
  }

  lemma LoadBalancerRegistered(db: Db, d: LoadBalancerData)
    ensures WellFormed(db) ==> WellFormed(WithLoadBalancer(db, d))
    ensures Unbound(db) ==> Unbound(WithLoadBalancer(db, d))
  {
  }

  lemma ListenerRegistered(db: Db, d: ListenerData)
    ensures WellFormed(db) ==> WellFormed(WithListener(db, d))
    ensures Unbound(db) ==> Unbound(WithListener(db, d))
  {
  }

  lemma TargetGroupRegistered(db: Db, d: TargetGroupData)
    ensures WellFormed(db) ==> WellFormed(WithTargetGroup(db, d))
    ensures Unbound(db) ==> Unbound(WithTargetGroup(db, d))
  {
  }

  lemma TargetHealthRegistered(db: Db, d: TargetHealthData)
    ensures WellFormed(db) ==> WellFormed(WithTargetHealth(db, d))
    ensures Unbound(db) ==> Unbound(WithTargetHealth(db, d))
  {
  }

  lemma RuleRegistered(db: Db, d: RuleData)
    ensures WellFormed(db) ==> WellFormed(WithRule(db, d))
    ensures Unbound(db) ==> Unbound(WithRule(db, d))
  {
  }

  lemma InstanceRegistered(db: Db, d: InstanceData)
    ensures WellFormed(db) ==> WellFormed(WithInstance(db, d))
    ensures Unbound(db) ==> Unbound(WithInstance(db, d))
  {
  }

  lemma DnsRegistered(db: Db, d: DnsData)
    ensures WellFormed(db) ==> WellFormed(WithDns(db, d))
    ensures Unbound(db) ==> Unbound(WithDns(db, d))
  {
  }

  /** Loading keeps the registry well formed, and binds nothing. */
  lemma {:induction false} IngestAllPreserves(db: Db, recs: seq<Record>, profiles: seq<string>, regions: seq<string>)
    ensures WellFormed(db) ==> WellFormed(IngestAll(db, recs, profiles, regions))
    ensures Unbound(db) ==> Unbound(IngestAll(db, recs, profiles, regions))
    decreases |recs|
  {
    if recs != [] {
      var n := |recs|;
      var before := IngestAll(db, recs[..n - 1], profiles, regions);
      assert IngestAll(db, recs, profiles, regions) == Ingest(before, recs[n - 1], profiles, regions);
      IngestAllPreserves(db, recs[..n - 1], profiles, regions);
      IngestPreserves(before, recs[n - 1], profiles, regions);
    }
  }

  lemma IngestPreserves(db: Db, rec: Record, profiles: seq<string>, regions: seq<string>)
    ensures WellFormed(db) ==> WellFormed(Ingest(db, rec, profiles, regions))
    ensures Unbound(db) ==> Unbound(Ingest(db, rec, profiles, regions))
  {
    if !Skipped(rec.metadata, profiles, regions) {
      RegisterPreserves(db, rec.specifics);
    }
  }

  function IngestAll(db: Db, recs: seq<Record>, profiles: seq<string>, regions: seq<string>): (r: Db)
    decreases |recs|
  {
    if recs == [] then db
    else Ingest(IngestAll(db, recs[..|recs| - 1], profiles, regions), recs[|recs| - 1], profiles, regions)
  }

  /** Whether `rec` is a selected load balancer record with ARN `arn`. */
  predicate LoadsLoadBalancer(rec: Record, profiles: seq<string>, regions: seq<string>, arn: string)
  {
    && !Skipped(rec.metadata, profiles, regions)
    && rec.specifics.LoadBalancerRecord?
    && rec.specifics.lb.arn == arn
  }

  /** Last write wins: after loading, a load balancer ARN holds the last
      selected record with that ARN. */
  lemma {:induction false} IngestLastWins(db: Db, recs: seq<Record>, profiles: seq<string>, regions: seq<string>, i: int)
    requires 0 <= i < |recs| && recs[i].specifics.LoadBalancerRecord?
    requires LoadsLoadBalancer(recs[i], profiles, regions, recs[i].specifics.lb.arn)
    requires forall j :: i < j < |recs| ==> !LoadsLoadBalancer(recs[j], profiles, regions, recs[i].specifics.lb.arn)
    ensures Get(IngestAll(db, recs, profiles, regions).lbs, recs[i].specifics.lb.arn)
         == Some(LoadBalancer(recs[i].specifics.lb, [], [], false))
    decreases |recs|
  {
    var n := |recs|;
    var arn := recs[i].specifics.lb.arn;
    var prefix := recs[..n - 1];
    var before := IngestAll(db, prefix, profiles, regions);
    var after := Ingest(before, recs[n - 1], profiles, regions);
    assert IngestAll(db, recs, profiles, regions) == after;
    if i < n - 1 {
      assert prefix[i] == recs[i];
      IngestLastWins(db, prefix, profiles, regions, i);
      IngestOtherKey(before, recs[n - 1], profiles, regions, arn);
      assert Get(after.lbs, arn) == Get(before.lbs, arn);
    } else {
      assert recs[n - 1] == recs[i];
      IngestLoads(before, recs[i], profiles, regions);
    }
  }

  /** A selected load balancer record stores a fresh load balancer. */
  lemma IngestLoads(db: Db, rec: Record, profiles: seq<string>, regions: seq<string>)
    requires rec.specifics.LoadBalancerRecord? && LoadsLoadBalancer(rec, profiles, regions, rec.specifics.lb.arn)
    ensures Get(Ingest(db, rec, profiles, regions).lbs, rec.specifics.lb.arn) == Some(LoadBalancer(rec.specifics.lb, [], [], false))
  {
  }

  /** A record that does not load a load balancer with ARN `arn` leaves
      that ARN's entry alone. */
  lemma IngestOtherKey(db: Db, rec: Record, profiles: seq<string>, regions: seq<string>, arn: string)
    requires !LoadsLoadBalancer(rec, profiles, regions, arn)
    ensures Get(Ingest(db, rec, profiles, regions).lbs, arn) == Get(db.lbs, arn)
  {
  }

  /** Without any selected record for it, an ARN keeps what it held. */
  lemma {:induction false} IngestUntouched(db: Db, recs: seq<Record>, profiles: seq<string>, regions: seq<string>, arn: string)
    requires forall j :: 0 <= j < |recs| ==> !LoadsLoadBalancer(recs[j], profiles, regions, arn)
    ensures Get(IngestAll(db, recs, profiles, regions).lbs, arn) == Get(db.lbs, arn)
    decreases |recs|
  {
    if recs != [] {
      var n := |recs|;
      var prefix := recs[..n - 1];
      assert forall j :: 0 <= j < |prefix| ==> prefix[j] == recs[j];
      IngestUntouched(db, prefix, profiles, regions, arn);
      IngestOtherKey(IngestAll(db, prefix, profiles, regions), recs[n - 1], profiles, regions, arn);
    }
  }

  // ---------------------------------------------------------------------
  // binding

  /** The keys of `ks`, in order, whose parents include `a`. */
  function Children(ks: seq<string>, parents: map<string, set<string>>, a: string): (r: seq<string>)
    ensures forall x :: x in r <==> x in ks && x in parents && a in parents[x]
    ensures Distinct(ks) ==> Distinct(r)
    decreases |ks|
  {
    if ks == [] then []
    else
      var k := ks[|ks| - 1];
      var rest := Children(ks[..|ks| - 1], parents, a);
      assert Distinct(ks) ==> k !in ks[..|ks| - 1];
      if k in parents && a in parents[k] then rest + [k] else rest
  }

  /** `parent.children[key] = child` on a dict of children kept as its
      keys: a key already present keeps its place. */
  function AddChild(xs: seq<string>, c: string): seq<string>
  {
    if c in xs then xs else xs + [c]
  }

  function AddAll(xs: seq<string>, ys: seq<string>): (r: seq<string>)
    ensures forall x :: x in r <==> x in xs || x in ys
    decreases |ys|
  {
    if ys == [] then xs else AddChild(AddAll(xs, ys[..|ys| - 1]), ys[|ys| - 1])
  }

  /** Children added to an object that had none are exactly those added,
      in the order they were added. */
  lemma {:induction false} AddAllToNone(ys: seq<string>)
    requires Distinct(ys)
    ensures AddAll([], ys) == ys
    decreases |ys|
  {
    if ys != [] {
      var n := |ys|;
      AddAllToNone(ys[..n - 1]);
      assert ys[n - 1] !in ys[..n - 1];
      assert ys[..n - 1] + [ys[n - 1]] == ys;
    }
  }

  /** `Listener.elb_arn()` */
  function ListenerParents(db: Db): map<string, set<string>>
  {
    map l | l in db.listeners.entries :: {db.listeners.entries[l].data.loadBalancerArn}
  }

  /** `Target_Group.elb_arn()` where it returns: the only entry of
      `LoadBalancerArns`. An empty list raises `IndexError`, which
      `elb_bind` swallows, so such a group has no parent. */
  function GroupParents(db: Db): map<string, set<string>>
  {
    map g | g in db.groups.entries ::
      match GroupElbArn(db.groups.entries[g].data)
      case Some(a) => {a}
      case None => {}
  }

  /** The load balancer a target group binds to, when it names exactly
      one. */
  function GroupElbArn(d: TargetGroupData): (r: Option<string>)
    ensures r.Some? <==> |d.loadBalancerArns| == 1
    ensures r.Some? ==> d.loadBalancerArns == [r.value]
  {
    if |d.loadBalancerArns| == 1 then Some(d.loadBalancerArns[0]) else None
  }

  /** `Target_Health.instance_bind` looks up the instance key of every
      target the health record describes. */
  function HealthTargets(db: Db): map<string, set<string>>
  {
    map h | h in db.health.entries :: DescribedInstances(db.health.entries[h])
  }

  function DescribedInstances(th: TargetHealthData): set<string>
  {
    set k | k in th.descriptions.entries :: InstanceArn(th.descriptions.entries[k].id)
  }

  /** `Rules.listener_arn()` */
  function RuleParents(db: Db): map<string, set<string>>
  {
    map r | r in db.rules.entries :: {RuleListenerArn(db.rules.entries[r])}
  }

  /** The first pass of `bind_data`: each listener is added to the load
      balancer with its `LoadBalancerArn`, when that one is loaded. */
  function BindListeners(db: Db): (r: Db)
  {
    db.(lbs := ListenersUpTo(db, db.listeners.keys))
  }

  /** The load balancers once the listeners under the keys `ks` are bound. */
  function ListenersUpTo(db: Db, ks: seq<string>): (r: Dict<string, LoadBalancer>)
    ensures r.keys == db.lbs.keys && r.entries.Keys == db.lbs.entries.Keys
    ensures forall a :: a in r.entries ==> r.entries[a].data == db.lbs.entries[a].data
  {
    RawDict(db.lbs.keys, map a | a in db.lbs.entries ::
      db.lbs.entries[a].(listeners := AddAll(db.lbs.entries[a].listeners, Children(ks, ListenerParents(db), a))))
  }

  /** `elb.add_listener(self)` on the load balancers, when the
      listener's load balancer `a` is loaded. */
  function ListenerAttached(lbs: map<string, LoadBalancer>, a: string, l: string): (r: map<string, LoadBalancer>)
    ensures r.Keys == lbs.Keys
  {
    if a in lbs then lbs[a := lbs[a].(listeners := AddChild(lbs[a].listeners, l))] else lbs
  }

  lemma ListenersStep(db: Db, ks: seq<string>, i: int)
    requires 0 <= i < |ks| && ks[i] in db.listeners.entries
    ensures ListenersUpTo(db, ks[..i + 1]).entries ==
      ListenerAttached(ListenersUpTo(db, ks[..i]).entries, db.listeners.entries[ks[i]].data.loadBalancerArn, ks[i])
  {
    var after := ListenersUpTo(db, ks[..i + 1]).entries;
    var expected := ListenerAttached(ListenersUpTo(db, ks[..i]).entries, db.listeners.entries[ks[i]].data.loadBalancerArn, ks[i]);
    forall b | b in db.lbs.entries ensures after[b] == expected[b] {
      ListenersStepAt(db, ks, i, b);
    }
    assert after.Keys == expected.Keys;
  }

  lemma ListenersStepAt(db: Db, ks: seq<string>, i: int, b: string)
    requires 0 <= i < |ks| && ks[i] in db.listeners.entries && b in db.lbs.entries
    ensures ListenersUpTo(db, ks[..i + 1]).entries[b] ==
      ListenerAttached(ListenersUpTo(db, ks[..i]).entries, db.listeners.entries[ks[i]].data.loadBalancerArn, ks[i])[b]
  {
    var a := db.listeners.entries[ks[i]].data.loadBalancerArn;
    assert ListenerParents(db)[ks[i]] == {a};
    ChildrenStep(ks, i, ListenerParents(db), b, db.lbs.entries[b].listeners);
  }

  lemma BindListenersValid(db: Db)
    requires WellFormed(db)
    ensures WellFormed(BindListeners(db))
  {
    var lbs := BindListeners(db).lbs;
    forall a | a in lbs.entries
      ensures lbs.entries[a].data == db.lbs.entries[a].data
      ensures lbs.entries[a].targetGroups == db.lbs.entries[a].targetGroups
      ensures forall l :: l in lbs.entries[a].listeners ==> l in db.listeners.entries
    {
    }
  }

  /** `Target_Group.elb_arn()` asserts that a group names at most one
      load balancer. */
  predicate GroupsBindable(db: Db)
  {
    forall g :: g in db.groups.entries ==> |db.groups.entries[g].data.loadBalancerArns| <= 1
  }

  /** The second pass: each target group is added to its load balancer. */
  function BindGroups(db: Db): (r: Db)
  {
    db.(lbs := GroupsUpTo(db, db.groups.keys))
  }

  /** The load balancers once the target groups under the keys `ks` are
      bound. */
  function GroupsUpTo(db: Db, ks: seq<string>): (r: Dict<string, LoadBalancer>)
    ensures r.keys == db.lbs.keys && r.entries.Keys == db.lbs.entries.Keys
    ensures forall a :: a in r.entries ==> r.entries[a].data == db.lbs.entries[a].data
  {
    RawDict(db.lbs.keys, map a | a in db.lbs.entries ::
      db.lbs.entries[a].(targetGroups := AddAll(db.lbs.entries[a].targetGroups, Children(ks, GroupParents(db), a))))
  }

  /** `elb.add_target_group(item)` on the load balancers, when the group's
      load balancer `e` is loaded. */
  function GroupAttached(lbs: map<string, LoadBalancer>, e: Option<string>, g: string): (r: map<string, LoadBalancer>)
    ensures r.Keys == lbs.Keys
  {
    if e.Some? && e.value in lbs
    then lbs[e.value := lbs[e.value].(targetGroups := AddChild(lbs[e.value].targetGroups, g))]
    else lbs
  }

  lemma GroupsStep(db: Db, ks: seq<string>, i: int)
    requires 0 <= i < |ks| && ks[i] in db.groups.entries
    ensures GroupsUpTo(db, ks[..i + 1]).entries ==
      GroupAttached(GroupsUpTo(db, ks[..i]).entries, GroupElbArn(db.groups.entries[ks[i]].data), ks[i])
  {
    var after := GroupsUpTo(db, ks[..i + 1]).entries;
    var expected := GroupAttached(GroupsUpTo(db, ks[..i]).entries, GroupElbArn(db.groups.entries[ks[i]].data), ks[i]);
    forall b | b in db.lbs.entries ensures after[b] == expected[b] {
      GroupsStepAt(db, ks, i, b);
    }
    assert after.Keys == expected.Keys;
  }

  lemma GroupsStepAt(db: Db, ks: seq<string>, i: int, b: string)
    requires 0 <= i < |ks| && ks[i] in db.groups.entries && b in db.lbs.entries
    ensures GroupsUpTo(db, ks[..i + 1]).entries[b] ==
      GroupAttached(GroupsUpTo(db, ks[..i]).entries, GroupElbArn(db.groups.entries[ks[i]].data), ks[i])[b]
  {
    var e := GroupElbArn(db.groups.entries[ks[i]].data);
    var lb := db.lbs.entries[b];
    var parents := GroupParents(db);
    assert parents[ks[i]] == if e.Some? then {e.value} else {};
    ChildrenStep(ks, i, parents, b, lb.targetGroups);
    assert GroupsUpTo(db, ks[..i]).entries[b] == lb.(targetGroups := AddAll(lb.targetGroups, Children(ks[..i], parents, b)));
    assert GroupsUpTo(db, ks[..i + 1]).entries[b] == lb.(targetGroups := AddAll(lb.targetGroups, Children(ks[..i + 1], parents, b)));
  }

  lemma BindGroupsValid(db: Db)
    requires WellFormed(db)
    ensures WellFormed(BindGroups(db))
  {
    var lbs := BindGroups(db).lbs;
    forall a | a in lbs.entries
      ensures lbs.entries[a].data == db.lbs.entries[a].data
      ensures lbs.entries[a].listeners == db.lbs.entries[a].listeners
      ensures forall g :: g in lbs.entries[a].targetGroups ==> g in db.groups.entries
    {
    }
  }

  /** The third pass: each health record is bound to its target group,
      and added to every loaded instance it describes. */
  function BindHealth(db: Db): (r: Db)
  {
    db.(groups := HealthGroupsUpTo(db, db.health.keys), instances := HealthInstancesUpTo(db, db.health.keys))
  }

  /** The target groups once the health records under the keys `ks` are
      bound: `add_target_health` replaces what a group held. */
  function HealthGroupsUpTo(db: Db, ks: seq<string>): (r: Dict<string, TargetGroup>)
    ensures r.keys == db.groups.keys && r.entries.Keys == db.groups.entries.Keys
    ensures forall g :: g in r.entries ==> r.entries[g].data == db.groups.entries[g].data
  {
    RawDict(db.groups.keys, map g | g in db.groups.entries ::
      if g in ks then db.groups.entries[g].(health := Some(g)) else db.groups.entries[g])
  }

  /** The instances once the health records under the keys `ks` are
      bound. */
  function HealthInstancesUpTo(db: Db, ks: seq<string>): (r: Dict<string, Instance>)
    ensures r.keys == db.instances.keys && r.entries.Keys == db.instances.entries.Keys
    ensures forall n :: n in r.entries ==> r.entries[n].data == db.instances.entries[n].data
  {
    RawDict(db.instances.keys, map n | n in db.instances.entries ::
      db.instances.entries[n].(health := AddAll(db.instances.entries[n].health, Children(ks, HealthTargets(db), n))))
  }

  /** The instances among `targets` with the health record `h` added. */
  function HealthAdded(instances: map<string, Instance>, h: string, targets: set<string>): map<string, Instance>
  {
    map n | n in instances ::
      if n in targets then instances[n].(health := AddChild(instances[n].health, h)) else instances[n]
  }

  /** `instance.add_target_health(item)`, when an instance is stored under
      `target`. */
  function HealthAttached(instances: map<string, Instance>, target: string, h: string): map<string, Instance>
  {
    if target in instances
    then instances[target := instances[target].(health := AddChild(instances[target].health, h))]
    else instances
  }

  /** The instance keys of the targets under the description keys `ks`. */
  function DescribedBy(th: TargetHealthData, ks: seq<string>): set<string>
  {
    set k | k in ks && k in th.descriptions.entries :: InstanceArn(th.descriptions.entries[k].id)
  }

  lemma HealthGroupsStep(db: Db, ks: seq<string>, i: int)
    requires 0 <= i < |ks|
    ensures var before := HealthGroupsUpTo(db, ks[..i]).entries;
      HealthGroupsUpTo(db, ks[..i + 1]).entries ==
        if ks[i] in before then before[ks[i] := before[ks[i]].(health := Some(ks[i]))] else before
  {
    assert ks[..i + 1] == ks[..i] + [ks[i]];
  }

  lemma HealthInstancesStep(db: Db, ks: seq<string>, i: int)
    requires 0 <= i < |ks| && ks[i] in db.health.entries
    ensures HealthInstancesUpTo(db, ks[..i + 1]).entries ==
      HealthAdded(HealthInstancesUpTo(db, ks[..i]).entries, ks[i], DescribedInstances(db.health.entries[ks[i]]))
  {
    var after := HealthInstancesUpTo(db, ks[..i + 1]).entries;
    var expected := HealthAdded(HealthInstancesUpTo(db, ks[..i]).entries, ks[i], DescribedInstances(db.health.entries[ks[i]]));
    forall n | n in db.instances.entries ensures after[n] == expected[n] {
      HealthInstanceStep(db, ks, i, n);
    }
    assert after.Keys == expected.Keys;
  }

  lemma HealthInstanceStep(db: Db, ks: seq<string>, i: int, n: string)
    requires 0 <= i < |ks| && ks[i] in db.health.entries && n in db.instances.entries
    ensures HealthInstancesUpTo(db, ks[..i + 1]).entries[n] ==
      HealthAdded(HealthInstancesUpTo(db, ks[..i]).entries, ks[i], DescribedInstances(db.health.entries[ks[i]]))[n]
  {
    ChildrenStep(ks, i, HealthTargets(db), n, db.instances.entries[n].health);
  }

  lemma AddChildTwice(xs: seq<string>, c: string)
    ensures AddChild(AddChild(xs, c), c) == AddChild(xs, c)
  {
  }

  /** One more target of a health record. */
  lemma HealthAddedStep(instances: map<string, Instance>, h: string, targets: set<string>, x: string)
    ensures HealthAdded(instances, h, targets + {x}) == HealthAttached(HealthAdded(instances, h, targets), x, h)
  {
    if x in instances {
      AddChildTwice(instances[x].health, h);
    }
  }

  lemma DescribedByStep(th: TargetHealthData, ks: seq<string>, j: int)
    requires 0 <= j < |ks| && ks[j] in th.descriptions.entries
    ensures DescribedBy(th, ks[..j + 1]) == DescribedBy(th, ks[..j]) + {InstanceArn(th.descriptions.entries[ks[j]].id)}
  {
    assert ks[..j + 1] == ks[..j] + [ks[j]];
  }

  lemma DescribedByAll(th: TargetHealthData)
    ensures DescribedBy(th, th.descriptions.keys) == DescribedInstances(th)
  {
  }

  lemma BindHealthValid(db: Db)
    requires WellFormed(db)
    ensures WellFormed(BindHealth(db))
  {
    var r := BindHealth(db);
    forall g | g in r.groups.entries
      ensures r.groups.entries[g].data == db.groups.entries[g].data
      ensures r.groups.entries[g].health.Some? ==> r.groups.entries[g].health.value in db.health.entries
    {
    }
    forall n | n in r.instances.entries
      ensures r.instances.entries[n].data == db.instances.entries[n].data
      ensures r.instances.entries[n].dnsRef == db.instances.entries[n].dnsRef
      ensures forall h :: h in r.instances.entries[n].health ==> h in db.health.entries
    {
    }
  }

  /** The fourth pass: each rule is added to its listener. */
  function BindRules(db: Db): (r: Db)
  {
    db.(listeners := RulesUpTo(db, db.rules.keys))
  }

  /** The listeners once the rules under the keys `ks` are bound. */
  function RulesUpTo(db: Db, ks: seq<string>): (r: Dict<string, Listener>)
    ensures r.keys == db.listeners.keys && r.entries.Keys == db.listeners.entries.Keys
    ensures forall l :: l in r.entries ==> r.entries[l].data == db.listeners.entries[l].data
  {
    RawDict(db.listeners.keys, map l | l in db.listeners.entries ::
      db.listeners.entries[l].(rules := AddAll(db.listeners.entries[l].rules, Children(ks, RuleParents(db), l))))
  }

  /** `listener.add_rule(self)` on the listeners, when the rule's
      listener `l` is loaded. */
  function RuleAttached(listeners: map<string, Listener>, l: string, r: string): (m: map<string, Listener>)
    ensures m.Keys == listeners.Keys
  {
    if l in listeners then listeners[l := listeners[l].(rules := AddChild(listeners[l].rules, r))] else listeners
  }

  lemma RulesStep(db: Db, ks: seq<string>, i: int)
    requires 0 <= i < |ks| && ks[i] in db.rules.entries
    ensures RulesUpTo(db, ks[..i + 1]).entries ==
      RuleAttached(RulesUpTo(db, ks[..i]).entries, RuleListenerArn(db.rules.entries[ks[i]]), ks[i])
  {
    var after := RulesUpTo(db, ks[..i + 1]).entries;
    var expected := RuleAttached(RulesUpTo(db, ks[..i]).entries, RuleListenerArn(db.rules.entries[ks[i]]), ks[i]);
    forall b | b in db.listeners.entries ensures after[b] == expected[b] {
      RulesStepAt(db, ks, i, b);
    }
    assert after.Keys == expected.Keys;
  }

  lemma RulesStepAt(db: Db, ks: seq<string>, i: int, b: string)
    requires 0 <= i < |ks| && ks[i] in db.rules.entries && b in db.listeners.entries
    ensures RulesUpTo(db, ks[..i + 1]).entries[b] ==
      RuleAttached(RulesUpTo(db, ks[..i]).entries, RuleListenerArn(db.rules.entries[ks[i]]), ks[i])[b]
  {
    var l := RuleListenerArn(db.rules.entries[ks[i]]);
    assert RuleParents(db)[ks[i]] == {l};
    ChildrenStep(ks, i, RuleParents(db), b, db.listeners.entries[b].rules);
  }

  lemma BindRulesValid(db: Db)
    requires WellFormed(db)
    ensures WellFormed(BindRules(db))
  {
    var listeners := BindRules(db).listeners;
    forall l | l in listeners.entries
      ensures listeners.entries[l].data == db.listeners.entries[l].data
      ensures forall r :: r in listeners.entries[l].rules ==> r in db.rules.entries
    {
    }
  }

  /** `DNS.ref_bind`'s lookup: a CNAME through the DNS-name index of load
      balancers, an A record through the public address index of
      instances, nothing for other types or a missed lookup. */
  function Resolve(db: Db, d: DnsData): Option<Ref>
  {
    Lookup(db.lbByFqdn, db.instanceByIp, d)
  }

  function Lookup(lbByFqdn: map<string, string>, instanceByIp: map<string, string>, d: DnsData): Option<Ref>
  {
    if d.kind == "CNAME" then
      if d.content in lbByFqdn then Some(ToLoadBalancer(lbByFqdn[d.content])) else None
    else if d.kind == "A" then
      if d.content in instanceByIp then Some(ToInstance(instanceByIp[d.content])) else None
    else None
  }

  /** Each way a DNS record can resolve, and when it does not. */
  lemma ResolveCases(db: Db, d: DnsData)
    ensures forall a :: Resolve(db, d) == Some(ToLoadBalancer(a)) <==>
      d.kind == "CNAME" && d.content in db.lbByFqdn && db.lbByFqdn[d.content] == a
    ensures forall i :: Resolve(db, d) == Some(ToInstance(i)) <==>
      d.kind == "A" && d.content in db.instanceByIp && db.instanceByIp[d.content] == i
    ensures Resolve(db, d).None? <==>
      !(d.kind == "CNAME" && d.content in db.lbByFqdn) && !(d.kind == "A" && d.content in db.instanceByIp)
  {
  }

  /** Whether one of the DNS records under the keys `ks` resolves to
      `ref`. */
  predicate ResolvesIn(db: Db, ks: seq<string>, ref: Ref)
  {
    exists j :: 0 <= j < |ks| && ks[j] in db.dns.entries && Resolve(db, db.dns.entries[ks[j]].data) == Some(ref)
  }

  /** The last pass: each DNS record that resolves refers to its target,
      and the target learns that a DNS record refers to it. A record that
      does not resolve keeps its reference. */
  function BindDns(db: Db): Db
  {
    var ks := db.dns.keys;
    db.(dns := RefsUpTo(db, ks), lbs := LbMarksUpTo(db, ks), instances := InstanceMarksUpTo(db, ks))
  }

  /** The DNS records once those under the keys `ks` are bound. */
  function RefsUpTo(db: Db, ks: seq<string>): (r: Dict<string, Dns>)
    ensures r.keys == db.dns.keys && r.entries.Keys == db.dns.entries.Keys
    ensures forall n :: n in r.entries ==> r.entries[n].data == db.dns.entries[n].data
  {
    RawDict(db.dns.keys, map n | n in db.dns.entries ::
      if n in ks && Resolve(db, db.dns.entries[n].data).Some?
      then db.dns.entries[n].(ref := Resolve(db, db.dns.entries[n].data))
      else db.dns.entries[n])
  }

  function LbMarksUpTo(db: Db, ks: seq<string>): (r: Dict<string, LoadBalancer>)
    ensures r.keys == db.lbs.keys && r.entries.Keys == db.lbs.entries.Keys
    ensures forall a :: a in r.entries ==> r.entries[a].data == db.lbs.entries[a].data
  {
    RawDict(db.lbs.keys, map a | a in db.lbs.entries ::
      db.lbs.entries[a].(dnsRef := db.lbs.entries[a].dnsRef || ResolvesIn(db, ks, ToLoadBalancer(a))))
  }

  function InstanceMarksUpTo(db: Db, ks: seq<string>): (r: Dict<string, Instance>)
    ensures r.keys == db.instances.keys && r.entries.Keys == db.instances.entries.Keys
    ensures forall n :: n in r.entries ==> r.entries[n].data == db.instances.entries[n].data
  {
    RawDict(db.instances.keys, map n | n in db.instances.entries ::
      db.instances.entries[n].(dnsRef := db.instances.entries[n].dnsRef || ResolvesIn(db, ks, ToInstance(n))))
  }

  lemma ResolvesInStep(db: Db, ks: seq<string>, i: int, ref: Ref)
    requires 0 <= i < |ks| && ks[i] in db.dns.entries
    ensures ResolvesIn(db, ks[..i + 1], ref) <==>
      ResolvesIn(db, ks[..i], ref) || Resolve(db, db.dns.entries[ks[i]].data) == Some(ref)
  {
    var p := ks[..i + 1];
    if ResolvesIn(db, p, ref) && Resolve(db, db.dns.entries[ks[i]].data) != Some(ref) {
      var j :| 0 <= j < |p| && p[j] in db.dns.entries && Resolve(db, db.dns.entries[p[j]].data) == Some(ref);
      assert ks[..i][j] == p[j];
    }
    if ResolvesIn(db, ks[..i], ref) {
      var j :| 0 <= j < i && ks[..i][j] in db.dns.entries && Resolve(db, db.dns.entries[ks[..i][j]].data) == Some(ref);
      assert p[j] == ks[..i][j];
    }
    assert p[i] == ks[i];
  }

  /** `self.ref = item` on the DNS records, when the lookup found one. */
  function RefSet(dns: map<string, Dns>, n: string, ref: Option<Ref>): map<string, Dns>
  {
    if ref.Some? && n in dns then dns[n := dns[n].(ref := ref)] else dns
  }

  /** `item.add_dns_ref(self)` on the load balancers. */
  function LbMarked(lbs: map<string, LoadBalancer>, ref: Option<Ref>): map<string, LoadBalancer>
  {
    if ref.Some? && ref.value.ToLoadBalancer? && ref.value.arn in lbs
    then lbs[ref.value.arn := lbs[ref.value.arn].(dnsRef := true)]
    else lbs
  }

  /** `item.add_dns_ref(self)` on the instances. */
  function InstanceMarked(instances: map<string, Instance>, ref: Option<Ref>): map<string, Instance>
  {
    if ref.Some? && ref.value.ToInstance? && ref.value.arn in instances
    then instances[ref.value.arn := instances[ref.value.arn].(dnsRef := true)]
    else instances
  }

  lemma RefsStep(db: Db, ks: seq<string>, i: int)
    requires 0 <= i < |ks| && ks[i] in db.dns.entries
    ensures RefsUpTo(db, ks[..i]).entries[ks[i]].data == db.dns.entries[ks[i]].data
    ensures RefsUpTo(db, ks[..i + 1]).entries ==
      RefSet(RefsUpTo(db, ks[..i]).entries, ks[i], Resolve(db, db.dns.entries[ks[i]].data))
  {
    assert ks[..i + 1] == ks[..i] + [ks[i]];
  }

  lemma LbMarksStep(db: Db, ks: seq<string>, i: int)
    requires 0 <= i < |ks| && ks[i] in db.dns.entries
    ensures LbMarksUpTo(db, ks[..i + 1]).entries ==
      LbMarked(LbMarksUpTo(db, ks[..i]).entries, Resolve(db, db.dns.entries[ks[i]].data))
  {
    forall a | a in db.lbs.entries {
      ResolvesInStep(db, ks, i, ToLoadBalancer(a));
    }
  }

  lemma InstanceMarksStep(db: Db, ks: seq<string>, i: int)
    requires 0 <= i < |ks| && ks[i] in db.dns.entries
    ensures InstanceMarksUpTo(db, ks[..i + 1]).entries ==
      InstanceMarked(InstanceMarksUpTo(db, ks[..i]).entries, Resolve(db, db.dns.entries[ks[i]].data))
  {
    forall n | n in db.instances.entries {
      ResolvesInStep(db, ks, i, ToInstance(n));
    }
  }

  lemma BindDnsValid(db: Db)
    requires WellFormed(db)
    ensures WellFormed(BindDns(db))
  {
    LbMarksValid(db, db.dns.keys);
    InstanceMarksValid(db, db.dns.keys);
    RefsValid(db, db.dns.keys);
  }

  lemma LbMarksValid(db: Db, ks: seq<string>)
    requires LoadBalancersKeyed(db.lbs) && Indexes(db.lbByFqdn, db.lbs) && ChildrenStored(db.lbs, db.listeners, db.groups)
    ensures var lbs := LbMarksUpTo(db, ks);
      LoadBalancersKeyed(lbs) && Indexes(db.lbByFqdn, lbs) && ChildrenStored(lbs, db.listeners, db.groups)
  {
    var lbs := LbMarksUpTo(db, ks);
    forall a | a in lbs.entries
      ensures lbs.entries[a].data == db.lbs.entries[a].data
      ensures lbs.entries[a].listeners == db.lbs.entries[a].listeners
      ensures lbs.entries[a].targetGroups == db.lbs.entries[a].targetGroups
    {
    }
  }

  lemma InstanceMarksValid(db: Db, ks: seq<string>)
    requires InstancesKeyed(db.instances) && Indexes(db.instanceByIp, db.instances) && InstanceHealthStored(db.instances, db.health)
    ensures var instances := InstanceMarksUpTo(db, ks);
      InstancesKeyed(instances) && Indexes(db.instanceByIp, instances) && InstanceHealthStored(instances, db.health)
  {
    var instances := InstanceMarksUpTo(db, ks);
    forall n | n in instances.entries
      ensures instances.entries[n].data == db.instances.entries[n].data
      ensures instances.entries[n].health == db.instances.entries[n].health
    {
    }
  }

  lemma RefsValid(db: Db, ks: seq<string>)
    requires DnsKeyed(db.dns) && RefsStored(db.dns, db.lbs, db.instances)
    requires Indexes(db.lbByFqdn, db.lbs) && Indexes(db.instanceByIp, db.instances)
    ensures DnsKeyed(RefsUpTo(db, ks)) && RefsStored(RefsUpTo(db, ks), LbMarksUpTo(db, ks), InstanceMarksUpTo(db, ks))
  {
    var dns := RefsUpTo(db, ks);
    forall n | n in dns.entries
      ensures dns.entries[n].data == db.dns.entries[n].data
      ensures dns.entries[n].ref == db.dns.entries[n].ref || dns.entries[n].ref == Resolve(db, db.dns.entries[n].data)
    {
    }
  }

  /** `bind_data`, when no target group asserts: each pass works on what
      the one before left. */
  function Bound(db: Db): (r: Db)
  {
    BindDns(BindRules(BindHealth(BindGroups(BindListeners(db)))))
  }

  /** Binding keeps every reference pointing at a stored object. */
  lemma BoundValid(db: Db)
    requires WellFormed(db)
    ensures WellFormed(Bound(db))
  {
    BindListenersValid(db);
    var db1 := BindListeners(db);
    BindGroupsValid(db1);
    var db2 := BindGroups(db1);
    BindHealthValid(db2);
    var db3 := BindHealth(db2);
    BindRulesValid(db3);
    BindDnsValid(BindRules(db3));
  }

  lemma AddAllSnoc(xs: seq<string>, ys: seq<string>, y: string)
    ensures AddAll(xs, ys + [y]) == AddChild(AddAll(xs, ys), y)
  {
    assert (ys + [y])[..|ys|] == ys;
  }

  lemma ChildrenSnoc(ks: seq<string>, i: int, parents: map<string, set<string>>, a: string)
    requires 0 <= i < |ks|
    ensures Children(ks[..i + 1], parents, a) ==
      if ks[i] in parents && a in parents[ks[i]] then Children(ks[..i], parents, a) + [ks[i]]
      else Children(ks[..i], parents, a)
  {
    assert ks[..i + 1][..i] == ks[..i];
  }

  /** One more key in a bind loop: it joins the children of its parents
      and of no other object. */
  lemma ChildrenStep(ks: seq<string>, i: int, parents: map<string, set<string>>, a: string, xs: seq<string>)
    requires 0 <= i < |ks|
    ensures AddAll(xs, Children(ks[..i + 1], parents, a)) ==
      if ks[i] in parents && a in parents[ks[i]] then AddChild(AddAll(xs, Children(ks[..i], parents, a)), ks[i])
      else AddAll(xs, Children(ks[..i], parents, a))
  {
    ChildrenSnoc(ks, i, parents, a);
    if ks[i] in parents && a in parents[ks[i]] {
      AddAllSnoc(xs, Children(ks[..i], parents, a), ks[i]);
    }
  }

  // ---------------------------------------------------------------------
  // the registry object

  /** The class-level registries, as one object whose methods update them
      in place. */
  class Registry {
    var lbs: Dict<string, LoadBalancer>
    var lbByFqdn: map<string, string>
    var listeners: Dict<string, Listener>
    var rules: Dict<string, RuleData>
    var groups: Dict<string, TargetGroup>
    var health: Dict<string, TargetHealthData>
    var instances: Dict<string, Instance>
    var instanceByIp: map<string, string>
    var dns: Dict<string, Dns>

    function Snapshot(): Db
      reads this
    {
      Db(lbs, lbByFqdn, listeners, rules, groups, health, instances, instanceByIp, dns)
    }

    constructor ()
      ensures Snapshot() == EmptyDb()
    {
      lbs, lbByFqdn, listeners, rules := Empty(), map[], Empty(), Empty();
      groups, health, instances, instanceByIp, dns := Empty(), Empty(), Empty(), map[], Empty();
    }

    method AddLoadBalancer(d: LoadBalancerData)
      modifies this
      ensures Snapshot() == WithLoadBalancer(old(Snapshot()), d)
    {
      lbs := Set(lbs, d.arn, LoadBalancer(d, [], [], false));
      lbByFqdn := lbByFqdn[d.dnsName := d.arn];
    }

    method AddListener(d: ListenerData)
      modifies this
      ensures Snapshot() == WithListener(old(Snapshot()), d)
    {
      listeners := Set(listeners, d.arn, Listener(d, []));
    }

    method AddRule(d: RuleData)
      modifies this
      ensures Snapshot() == WithRule(old(Snapshot()), d)
    {
      rules := Set(rules, d.arn, d);
    }

    method AddTargetGroup(d: TargetGroupData)
      modifies this
      ensures Snapshot() == WithTargetGroup(old(Snapshot()), d)
    {
      groups := Set(groups, d.arn, TargetGroup(d, None));
    }

    method AddTargetHealth(d: TargetHealthData)
      modifies this
      ensures Snapshot() == WithTargetHealth(old(Snapshot()), d)
    {
      health := Set(health, d.groupArn, d);
    }

    method AddInstance(d: InstanceData)
      modifies this
      ensures Snapshot() == WithInstance(old(Snapshot()), d)
    {
      var key := InstanceArn(d.instanceId);
      instances := Set(instances, key, Instance(d, [], false));
      if d.publicIp.Some? {
        instanceByIp := instanceByIp[d.publicIp.value := key];
      }
    }

    method AddDns(d: DnsData)
      modifies this
      ensures Snapshot() == WithDns(old(Snapshot()), d)
    {
      dns := Set(dns, d.name, Dns(d, None));
    }

    /** `Listener.elb_bind` of the listener under `l`: it is added to the
        load balancer it names, when that one is loaded. */
    method ListenerElbBind(l: string)
      requires l in listeners.entries
      modifies this
      ensures Snapshot() == old(Snapshot()).(lbs := lbs)
      ensures lbs.keys == old(lbs.keys)
      ensures lbs.entries == ListenerAttached(old(lbs.entries), old(listeners.entries[l]).data.loadBalancerArn, l)
    {
      var a := listeners.entries[l].data.loadBalancerArn;
      if a in lbs.entries {
        var lb := lbs.entries[a];
        lbs := Set(lbs, a, lb.(listeners := AddChild(lb.listeners, l)));
      }
    }

    /** The first loop of `bind_data`: `Listener.elb_bind` for every
        listener, in registry order. */
    method BindListenerPass()
      modifies this
      ensures Snapshot() == BindListeners(old(Snapshot()))
    {
      ghost var db := Snapshot();
      var ks := listeners.keys;
      for i := 0 to |ks|
        invariant Snapshot() == db.(lbs := lbs)
        invariant lbs.keys == db.lbs.keys
        invariant lbs.entries == ListenersUpTo(db, ks[..i]).entries
      {
        ListenersStep(db, ks, i);
        ListenerElbBind(ks[i]);
      }
      assert ks[..|ks|] == ks;
      Extensional(lbs, ListenersUpTo(db, ks));
    }

    /** `Target_Group.elb_bind` of the group under `g`. The assertion in
        `elb_arn` fails for a group naming two or more load balancers,
        and nothing catches it: `ok` is false. A group naming none raises
        `IndexError`, and a load balancer that is not loaded `KeyError`;
        both are swallowed. */
    method GroupElbBind(g: string) returns (ok: bool)
      requires g in groups.entries
      modifies this
      ensures ok <==> |old(groups.entries[g]).data.loadBalancerArns| <= 1
      ensures Snapshot() == old(Snapshot()).(lbs := lbs)
      ensures lbs.keys == old(lbs.keys)
      ensures ok ==> lbs.entries == GroupAttached(old(lbs.entries), GroupElbArn(old(groups.entries[g]).data), g)
      ensures !ok ==> lbs == old(lbs)
    {
      var arns := groups.entries[g].data.loadBalancerArns;
      if |arns| > 1 {
        return false;
      }
      var e := GroupElbArn(groups.entries[g].data);
      if e.Some? && e.value in lbs.entries {
        var lb := lbs.entries[e.value];
        lbs := Set(lbs, e.value, lb.(targetGroups := AddChild(lb.targetGroups, g)));
      }
      return true;
    }

    /** The second loop of `bind_data`: `Target_Group.elb_bind` for every
        target group, stopping at the first failed assertion. */
    method BindGroupPass() returns (ok: bool)
      modifies this
      ensures ok <==> GroupsBindable(old(Snapshot()))
      ensures ok ==> Snapshot() == BindGroups(old(Snapshot()))
    {
      ghost var db := Snapshot();
      var ks := groups.keys;
      for i := 0 to |ks|
        invariant Snapshot() == db.(lbs := lbs)
        invariant lbs.keys == db.lbs.keys
        invariant lbs.entries == GroupsUpTo(db, ks[..i]).entries
        invariant forall j :: 0 <= j < i ==> |groups.entries[ks[j]].data.loadBalancerArns| <= 1
      {
        GroupsStep(db, ks, i);
        ok := GroupElbBind(ks[i]);
        if !ok {
          return;
        }
      }
      assert ks[..|ks|] == ks;
      Extensional(lbs, GroupsUpTo(db, ks));
      return true;
    }

    /** The third loop of `bind_data`: `group_bind` then `instance_bind`
        for every health record. */
    method BindHealthPass()
      requires HealthKeyed(health)
      modifies this
      ensures Snapshot() == BindHealth(old(Snapshot()))
    {
      ghost var db := Snapshot();
      var ks := health.keys;
      for i := 0 to |ks|
        invariant Snapshot() == db.(groups := groups, instances := instances)
        invariant groups.keys == db.groups.keys && instances.keys == db.instances.keys
        invariant groups.entries == HealthGroupsUpTo(db, ks[..i]).entries
        invariant instances.entries == HealthInstancesUpTo(db, ks[..i]).entries
      {
        var th := health.entries[ks[i]];
        HealthGroupsStep(db, ks, i);
        HealthInstancesStep(db, ks, i);
        if th.groupArn in groups.entries {
          var tg := groups.entries[th.groupArn];
          groups := Set(groups, th.groupArn, tg.(health := Some(th.groupArn)));
        }
        InstanceBind(th);
      }
      assert ks[..|ks|] == ks;
      Extensional(groups, HealthGroupsUpTo(db, ks));
      Extensional(instances, HealthInstancesUpTo(db, ks));
    }

    /** `Target_Health.instance_bind`: the record is added, under its
        group's ARN, to each loaded instance it describes. */
    method InstanceBind(th: TargetHealthData)
      modifies this
      ensures Snapshot() == old(Snapshot()).(instances := instances)
      ensures instances.keys == old(instances.keys)
      ensures instances.entries == HealthAdded(old(instances.entries), th.groupArn, DescribedInstances(th))
    {
      ghost var before := instances;
      var ks := th.descriptions.keys;
      for j := 0 to |ks|
        invariant Snapshot() == old(Snapshot()).(instances := instances)
        invariant instances.keys == before.keys
        invariant instances.entries == HealthAdded(before.entries, th.groupArn, DescribedBy(th, ks[..j]))
      {
        var target := InstanceArn(th.descriptions.entries[ks[j]].id);
        DescribedByStep(th, ks, j);
        HealthAddedStep(before.entries, th.groupArn, DescribedBy(th, ks[..j]), target);
        AddTargetHealthTo(target, th.groupArn);
      }
      assert ks[..|ks|] == ks;
      DescribedByAll(th);
    }

    /** `Instance.get(target_arn).add_target_health(self)`: nothing when
        no instance is stored under `target` (the `KeyError` is
        swallowed). */
    method AddTargetHealthTo(target: string, h: string)
      modifies this
      ensures Snapshot() == old(Snapshot()).(instances := instances)
      ensures instances.keys == old(instances.keys)
      ensures instances.entries == HealthAttached(old(instances.entries), target, h)
    {
      if target in instances.entries {
        var inst := instances.entries[target];
        instances := Set(instances, target, inst.(health := AddChild(inst.health, h)));
      }
    }

    /** `Rules.listener_bind` of the rule under `r`: it is added to its
        listener, when that one is loaded. */
    method RuleListenerBind(r: string)
      requires r in rules.entries
      modifies this
      ensures Snapshot() == old(Snapshot()).(listeners := listeners)
      ensures listeners.keys == old(listeners.keys)
      ensures listeners.entries == RuleAttached(old(listeners.entries), RuleListenerArn(old(rules.entries[r])), r)
    {
      var l := RuleListenerArn(rules.entries[r]);
      if l in listeners.entries {
        var li := listeners.entries[l];
        listeners := Set(listeners, l, li.(rules := AddChild(li.rules, r)));
      }
    }

    /** The fourth loop of `bind_data`: `Rules.listener_bind` for every
        rule. */
    method BindRulePass()
      modifies this
      ensures Snapshot() == BindRules(old(Snapshot()))
    {
      ghost var db := Snapshot();
      var ks := rules.keys;
      for i := 0 to |ks|
        invariant Snapshot() == db.(listeners := listeners)
        invariant listeners.keys == db.listeners.keys
        invariant listeners.entries == RulesUpTo(db, ks[..i]).entries
      {
        RulesStep(db, ks, i);
        RuleListenerBind(ks[i]);
      }
      assert ks[..|ks|] == ks;
      Extensional(listeners, RulesUpTo(db, ks));
    }

    /** `DNS.ref_bind` of the record under `n`: the lookup of `Resolve`,
        written out; when it finds an object, the record refers to it and
        the object is marked. */
    method RefBind(n: string)
      requires n in dns.entries
      modifies this
      ensures Snapshot() == old(Snapshot()).(dns := dns, lbs := lbs, instances := instances)
      ensures dns.keys == old(dns.keys) && lbs.keys == old(lbs.keys) && instances.keys == old(instances.keys)
      ensures var ref := Lookup(old(lbByFqdn), old(instanceByIp), old(dns.entries[n]).data);
        && dns.entries == RefSet(old(dns.entries), n, ref)
        && lbs.entries == LbMarked(old(lbs.entries), ref)
        && instances.entries == InstanceMarked(old(instances.entries), ref)
    {
      var e := dns.entries[n];
      var item: Option<Ref> := None;
      if e.data.kind == "CNAME" && e.data.content in lbByFqdn {
        item := Some(ToLoadBalancer(lbByFqdn[e.data.content]));
      }
      if e.data.kind == "A" && e.data.content in instanceByIp {
        item := Some(ToInstance(instanceByIp[e.data.content]));
      }
      if item.Some? {
        dns := Set(dns, n, e.(ref := item));
        match item.value
        case ToLoadBalancer(a) =>
          if a in lbs.entries {
            lbs := Set(lbs, a, lbs.entries[a].(dnsRef := true));
          }
        case ToInstance(i) =>
          if i in instances.entries {
            instances := Set(instances, i, instances.entries[i].(dnsRef := true));
          }
      }
    }

    /** The last loop of `bind_data`: `DNS.ref_bind` for every DNS
        record. */
    method BindDnsPass()
      modifies this
      ensures Snapshot() == BindDns(old(Snapshot()))
    {
      ghost var db := Snapshot();
      var ks := dns.keys;
      for i := 0 to |ks|
        invariant Snapshot() == db.(dns := dns, lbs := lbs, instances := instances)
        invariant dns.keys == db.dns.keys && lbs.keys == db.lbs.keys && instances.keys == db.instances.keys
        invariant dns.entries == RefsUpTo(db, ks[..i]).entries
        invariant lbs.entries == LbMarksUpTo(db, ks[..i]).entries
        invariant instances.entries == InstanceMarksUpTo(db, ks[..i]).entries
      {
        RefsStep(db, ks, i);
        LbMarksStep(db, ks, i);
        InstanceMarksStep(db, ks, i);
        assert lbByFqdn == db.lbByFqdn && instanceByIp == db.instanceByIp;
        RefBind(ks[i]);
      }
      assert ks[..|ks|] == ks;
      Extensional(dns, RefsUpTo(db, ks));
      Extensional(lbs, LbMarksUpTo(db, ks));
      Extensional(instances, InstanceMarksUpTo(db, ks));
    }

    /** `bind_data`: the five passes in order. `ok` is false when a target
        group fails its assertion; the later passes do not run then. */
    method Bind() returns (ok: bool)
      requires WellFormed(Snapshot())
      modifies this
      ensures ok <==> GroupsBindable(old(Snapshot()))
      ensures ok ==> Snapshot() == Bound(old(Snapshot()))
    {
      BindListenerPass();
      ok := BindGroupPass();
      if !ok {
        return;
      }
      BindHealthPass();
      BindRulePass();
      BindDnsPass();
    }

    /** `load_cloudflare_yaml`: every DNS record is registered; these are
        not filtered by profile or region. */
    method LoadDns(items: seq<DnsData>)
      modifies this
      ensures Snapshot() == DnsLoaded(old(Snapshot()), items)
    {
      for i := 0 to |items|
        invariant Snapshot() == DnsLoaded(old(Snapshot()), items[..i])
      {
        assert items[..i + 1][..i] == items[..i];
        AddDns(items[i]);
      }
      assert items[..|items|] == items;
    }

    /** The body of the record loop of `load_data`. */
    method Dispatch(rec: Record, profiles: seq<string>, regions: seq<string>)
      modifies this
      ensures Snapshot() == Ingest(old(Snapshot()), rec, profiles, regions)
    {
      if Skipped(rec.metadata, profiles, regions) {
        return;
      }
      RegisterRecord(rec.specifics);
    }

    /** The `datatype` dispatch of `load_data`. */
    method RegisterRecord(s: Specifics)
      modifies this
      ensures Snapshot() == Register(old(Snapshot()), s)
    {
      match s
      case LoadBalancerRecord(d) => AddLoadBalancer(d);
      case ListenerRecord(d) => AddListener(d);
      case TargetGroupRecord(d) => AddTargetGroup(d);
      case TargetHealthRecord(d) => AddTargetHealth(d);
      case RuleRecord(d) => AddRule(d);
      case InstanceRecord(d) => AddInstance(d);
      case OtherRecord(_) =>
    }

    /** The record loop of `load_data`. */
    method Load(records: seq<Record>, profiles: seq<string>, regions: seq<string>)
      modifies this
      ensures Snapshot() == IngestAll(old(Snapshot()), records, profiles, regions)
    {
      for i := 0 to |records|
        invariant Snapshot() == IngestAll(old(Snapshot()), records[..i], profiles, regions)
      {
        assert records[..i + 1][..i] == records[..i];
        Dispatch(records[i], profiles, regions);
      }
      assert records[..|records|] == records;
    }
  }

  function DnsLoaded(db: Db, items: seq<DnsData>): (r: Db)
    decreases |items|
  {
    if items == [] then db else WithDns(DnsLoaded(db, items[..|items| - 1]), items[|items| - 1])
  }

  lemma {:induction false} DnsLoadedPreserves(db: Db, items: seq<DnsData>)
    ensures WellFormed(db) ==> WellFormed(DnsLoaded(db, items))
    ensures Unbound(db) ==> Unbound(DnsLoaded(db, items))
    decreases |items|
  {
    if items != [] {
      var n := |items|;
      DnsLoadedPreserves(db, items[..n - 1]);
      DnsRegistered(DnsLoaded(db, items[..n - 1]), items[n - 1]);
    }
  }
}
