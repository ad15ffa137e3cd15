/** What `bind_data` attaches, for a registry as `load_data` leaves it:
    each relation the passes build, stated against the loaded records
    alone. */
module ElbBind {
  import opened Wrappers
  import opened Dicts
  import opened Sorting
  import opened Elb

  /** The passes after the second leave the children of load balancers
      alone. */
  lemma LaterPassesKeepChildren(d2: Db, a: string)
    requires a in d2.lbs.entries
    ensures a in Bound2(d2).lbs.entries
    ensures Bound2(d2).lbs.entries[a].listeners == d2.lbs.entries[a].listeners
    ensures Bound2(d2).lbs.entries[a].targetGroups == d2.lbs.entries[a].targetGroups
  {
    var d4 := BindRules(BindHealth(d2));
    assert d4.lbs == d2.lbs;
  }

  /** The passes after the second, on what the first two left. */
  function Bound2(d2: Db): Db
  {
    BindDns(BindRules(BindHealth(d2)))
  }

  /** A load balancer's listeners are the loaded listeners naming it, in
      registry order. */
  lemma BoundListeners(db: Db, a: string)
    requires a in db.lbs.entries && LoadBalancersUnbound(db.lbs)
    ensures a in Bound(db).lbs.entries
    ensures Bound(db).lbs.entries[a].listeners == Children(db.listeners.keys, ListenerParents(db), a)
    ensures forall l :: l in Bound(db).lbs.entries[a].listeners <==>
      l in db.listeners.entries && db.listeners.entries[l].data.loadBalancerArn == a
  {
    var d1 := BindListeners(db);
    var d2 := BindGroups(d1);
    var children := Children(db.listeners.keys, ListenerParents(db), a);
    assert d1.lbs.entries[a].listeners == AddAll([], children);
    AddAllToNone(children);
    assert d2.lbs.entries[a].listeners == d1.lbs.entries[a].listeners;
    LaterPassesKeepChildren(d2, a);
    ListenerChildren(db, a);
  }

  lemma ListenerChildren(db: Db, a: string)
    ensures forall l :: l in Children(db.listeners.keys, ListenerParents(db), a) <==>
      l in db.listeners.entries && db.listeners.entries[l].data.loadBalancerArn == a
  {
    forall l ensures l in Children(db.listeners.keys, ListenerParents(db), a) <==>
      l in db.listeners.entries && db.listeners.entries[l].data.loadBalancerArn == a
    {
      if l in db.listeners.entries {
        assert ListenerParents(db)[l] == {db.listeners.entries[l].data.loadBalancerArn};
      }
    }
  }

  /** A load balancer's target groups are the loaded groups naming it and
      no other load balancer, in registry order. */
  lemma BoundTargetGroups(db: Db, a: string)
    requires a in db.lbs.entries && LoadBalancersUnbound(db.lbs)
    ensures a in Bound(db).lbs.entries
    ensures Bound(db).lbs.entries[a].targetGroups == Children(db.groups.keys, GroupParents(db), a)
    ensures forall g :: g in Bound(db).lbs.entries[a].targetGroups <==>
      g in db.groups.entries && db.groups.entries[g].data.loadBalancerArns == [a]
  {
    var d1 := BindListeners(db);
    var d2 := BindGroups(d1);
    var children := Children(db.groups.keys, GroupParents(db), a);
    assert GroupParents(d1) == GroupParents(db);
    assert d2.lbs.entries[a].targetGroups == AddAll(d1.lbs.entries[a].targetGroups, children);
    assert d1.lbs.entries[a].targetGroups == [];
    AddAllToNone(children);
    LaterPassesKeepChildren(d2, a);
    GroupParentsMeaning(db, a);
  }

  lemma GroupParentsMeaning(db: Db, a: string)
    ensures forall g :: g in db.groups.entries ==>
      g in GroupParents(db) && (a in GroupParents(db)[g] <==> db.groups.entries[g].data.loadBalancerArns == [a])
  {
  }

  /** A target group is bound to the health record describing it, when
      one is loaded, and to nothing otherwise. */
  lemma BoundGroupHealth(db: Db, g: string)
    requires g in db.groups.entries && GroupsUnbound(db.groups) && HealthKeyed(db.health)
    ensures g in Bound(db).groups.entries
    ensures forall h :: Bound(db).groups.entries[g].health == Some(h) <==>
      h in db.health.entries && db.health.entries[h].groupArn == g
    ensures Bound(db).groups.entries[g].health.None? <==> g !in db.health.entries
  {
    var d2 := BindGroups(BindListeners(db));
    var d3 := BindHealth(d2);
    assert d3.groups.entries[g].health == if g in db.health.keys then Some(g) else None;
    assert BindDns(BindRules(d3)).groups == d3.groups;
  }

  /** An instance holds, in registry order, exactly the health records
      with a target whose id is the instance's id. */
  lemma BoundInstanceHealth(db: Db, n: string)
    requires n in db.instances.entries && InstancesUnbound(db.instances) && InstancesKeyed(db.instances)
    ensures n in Bound(db).instances.entries
    ensures Bound(db).instances.entries[n].health == Children(db.health.keys, HealthTargets(db), n)
    ensures forall h :: h in Bound(db).instances.entries[n].health <==>
      h in db.health.entries && Describes(db.health.entries[h], db.instances.entries[n].data.instanceId)
  {
    var d2 := BindGroups(BindListeners(db));
    var d3 := BindHealth(d2);
    var d4 := BindRules(d3);
    var children := Children(db.health.keys, HealthTargets(db), n);
    assert HealthTargets(d2) == HealthTargets(db);
    assert d3.instances.entries[n].health == AddAll([], children);
    AddAllToNone(children);
    assert d4.instances == d3.instances;
    assert Bound(db).instances.entries[n].health == d4.instances.entries[n].health;
    forall h | h in db.health.entries
      ensures n in HealthTargets(db)[h] <==> Describes(db.health.entries[h], db.instances.entries[n].data.instanceId)
    {
      DescribedMeaning(db.health.entries[h], db.instances.entries[n].data.instanceId);
    }
  }

  /** Whether a health record has a target with the instance id `id`. */
  predicate Describes(th: TargetHealthData, id: string)
  {
    exists k :: k in th.descriptions.entries && th.descriptions.entries[k].id == id
  }

  lemma DescribedMeaning(th: TargetHealthData, id: string)
    ensures InstanceArn(id) in DescribedInstances(th) <==> Describes(th, id)
  {
    if InstanceArn(id) in DescribedInstances(th) {
      var k :| k in th.descriptions.entries && InstanceArn(th.descriptions.entries[k].id) == InstanceArn(id);
      InstanceArnInjective(th.descriptions.entries[k].id, id);
    }
  }

  /** A listener's rules are the loaded rules naming it, in registry
      order; a rule without a listener ARN names no loaded listener
      unless one is stored under the placeholder. */
  lemma BoundRules(db: Db, l: string)
    requires l in db.listeners.entries && ListenersUnbound(db.listeners)
    ensures l in Bound(db).listeners.entries
    ensures Bound(db).listeners.entries[l].rules == Children(db.rules.keys, RuleParents(db), l)
    ensures forall r :: r in Bound(db).listeners.entries[l].rules <==>
      r in db.rules.entries && RuleListenerArn(db.rules.entries[r]) == l
  {
    var d3 := BindHealth(BindGroups(BindListeners(db)));
    var d4 := BindRules(d3);
    var children := Children(db.rules.keys, RuleParents(db), l);
    assert RuleParents(d3) == RuleParents(db);
    assert d4.listeners.entries[l].rules == AddAll([], children);
    AddAllToNone(children);
    assert Bound(db).listeners == d4.listeners;
  }

  /** A DNS record refers to what its lookup finds in the loaded indices,
      and to nothing when the lookup fails. */
  lemma BoundRefs(db: Db, n: string)
    requires n in db.dns.entries && DnsUnbound(db.dns)
    ensures n in Bound(db).dns.entries
    ensures Bound(db).dns.entries[n].ref == Resolve(db, db.dns.entries[n].data)
  {
    var d4 := BindRules(BindHealth(BindGroups(BindListeners(db))));
    assert d4.dns == db.dns && d4.lbByFqdn == db.lbByFqdn && d4.instanceByIp == db.instanceByIp;
    assert Resolve(d4, db.dns.entries[n].data) == Resolve(db, db.dns.entries[n].data);
    assert n in d4.dns.keys;
  }

  /** A load balancer is marked exactly when some DNS record resolves to
      it. */
  lemma BoundLoadBalancerMarks(db: Db, a: string)
    requires a in db.lbs.entries && LoadBalancersUnbound(db.lbs)
    ensures a in Bound(db).lbs.entries
    ensures Bound(db).lbs.entries[a].dnsRef <==>
      exists m :: m in db.dns.entries && Resolve(db, db.dns.entries[m].data) == Some(ToLoadBalancer(a))
  {
    var d2 := BindGroups(BindListeners(db));
    var d4 := BindRules(BindHealth(d2));
    assert d4.dns == db.dns && d4.lbByFqdn == db.lbByFqdn && d4.instanceByIp == db.instanceByIp;
    assert !d4.lbs.entries[a].dnsRef;
    ResolvesInKeys(d4, ToLoadBalancer(a));
    ResolvesSame(db, d4, ToLoadBalancer(a));
  }

  /** An instance is marked exactly when some DNS record resolves to it. */
  lemma BoundInstanceMarks(db: Db, n: string)
    requires n in db.instances.entries && InstancesUnbound(db.instances)
    ensures n in Bound(db).instances.entries
    ensures Bound(db).instances.entries[n].dnsRef <==>
      exists m :: m in db.dns.entries && Resolve(db, db.dns.entries[m].data) == Some(ToInstance(n))
  {
    var d3 := BindHealth(BindGroups(BindListeners(db)));
    var d4 := BindRules(d3);
    assert d4.dns == db.dns && d4.lbByFqdn == db.lbByFqdn && d4.instanceByIp == db.instanceByIp;
    assert !d3.instances.entries[n].dnsRef;
    ResolvesInKeys(d4, ToInstance(n));
    ResolvesSame(db, d4, ToInstance(n));
  }

  lemma ResolvesInKeys(db: Db, ref: Ref)
    ensures ResolvesIn(db, db.dns.keys, ref) <==>
      exists m :: m in db.dns.entries && Resolve(db, db.dns.entries[m].data) == Some(ref)
  {
    if exists m :: m in db.dns.entries && Resolve(db, db.dns.entries[m].data) == Some(ref) {
      var m :| m in db.dns.entries && Resolve(db, db.dns.entries[m].data) == Some(ref);
      var j :| 0 <= j < |db.dns.keys| && db.dns.keys[j] == m;
    }
  }

  lemma ResolvesSame(db: Db, e: Db, ref: Ref)
    requires e.dns == db.dns && e.lbByFqdn == db.lbByFqdn && e.instanceByIp == db.instanceByIp
    ensures (exists m :: m in e.dns.entries && Resolve(e, e.dns.entries[m].data) == Some(ref)) <==>
      (exists m :: m in db.dns.entries && Resolve(db, db.dns.entries[m].data) == Some(ref))
  {
  }

  /** Binding only attaches: the records, the registries' keys and order,
      and the indices stay as loaded. */
  lemma BoundKeepsRecords(db: Db)
    ensures Bound(db).lbs.keys == db.lbs.keys && Bound(db).listeners.keys == db.listeners.keys
    ensures Bound(db).groups.keys == db.groups.keys && Bound(db).instances.keys == db.instances.keys
    ensures Bound(db).dns.keys == db.dns.keys
    ensures Bound(db).rules == db.rules && Bound(db).health == db.health
    ensures Bound(db).lbByFqdn == db.lbByFqdn && Bound(db).instanceByIp == db.instanceByIp
    ensures forall a :: a in db.lbs.entries ==> Bound(db).lbs.entries[a].data == db.lbs.entries[a].data
    ensures forall l :: l in db.listeners.entries ==> Bound(db).listeners.entries[l].data == db.listeners.entries[l].data
    ensures forall g :: g in db.groups.entries ==> Bound(db).groups.entries[g].data == db.groups.entries[g].data
    ensures forall n :: n in db.instances.entries ==> Bound(db).instances.entries[n].data == db.instances.entries[n].data
    ensures forall n :: n in db.dns.entries ==> Bound(db).dns.entries[n].data == db.dns.entries[n].data
  {
    var d1 := BindListeners(db);
    var d2 := BindGroups(d1);
    var d3 := BindHealth(d2);
    var d4 := BindRules(d3);
    assert Bound(db) == BindDns(d4);
  }
}
