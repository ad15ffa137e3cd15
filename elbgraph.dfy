/** The ELB topology report, second half: the Graphviz text that
    `dump_all_elb` prints for a bound registry. Each render method of the
    item classes is a function here whose result is either the text or
    the exception the Python raises. */
module ElbGraph {
  import opened Wrappers
  import opened Text
  import opened Dicts
  import opened Sorting
  import opened Tags
  import opened Elb
  import opened ElbBind

  // ---------------------------------------------------------------------
  // node keys and the two statement forms

  function Quote(s: string): string
  {
    "\"" + s + "\""
  }

  /** `ItemBase.graphviz_node`: `"key" [ label="name" ]` */
  function Node(key: string, caption: string): string
  {
    Quote(key) + " [ label=" + Quote(caption) + " ]"
  }

  /** `"src" -> "dest"` */
  function Edge(src: string, dest: string): string
  {
    Quote(src) + " -> " + Quote(dest)
  }

  /** `ItemBase.key()` is the class name, `_` and one field of the item;
      these are the class-name parts of the keys that become nodes. */
  const LoadBalancerKind := "Load_Balancer_"
  const ListenerKind := "Listener_"
  const RulesKind := "Rules_"
  const TargetGroupKind := "Target_Group_"
  const TargetHealthKind := "Target_Health_"
  const InstanceKind := "Instance_"
  const DnsKind := "DNS_"

  const Kinds := [LoadBalancerKind, ListenerKind, RulesKind, TargetGroupKind, TargetHealthKind, InstanceKind, DnsKind]

  function LoadBalancerKey(d: LoadBalancerData): string
  {
    LoadBalancerKind + d.name
  }

  function TargetGroupKey(d: TargetGroupData): string
  {
    TargetGroupKind + d.name
  }

  function InstanceKey(d: InstanceData): string
  {
    InstanceKind + d.instanceId
  }

  function DnsKey(d: DnsData): string
  {
    DnsKind + d.name
  }

  /** The node `Target_Health.graphviz_nodes` draws for one target. */
  function TargetHealthKey(t: Target): string
  {
    TargetHealthKind + t.id + "/" + IntToString(t.port)
  }

  /** Keys of items of different classes never coincide, whatever the
      items' names: the graph cannot merge, say, a load balancer and a
      target group that share a name. */
  lemma KindsDisjoint(i: int, j: int, x: string, y: string)
    requires 0 <= i < |Kinds| && 0 <= j < |Kinds| && i != j
    ensures Kinds[i] + x != Kinds[j] + y
  {
    var p, q := Kinds[i], Kinds[j];
    assert (p + x)[0] == p[0] && (q + y)[0] == q[0];
    assert (p + x)[1] == p[1] && (q + y)[1] == q[1];
    if (i == 3 && j == 4) || (i == 4 && j == 3) {
      assert (p + x)[7] == p[7] && (q + y)[7] == q[7];
    }
  }

  // ---------------------------------------------------------------------
  // listeners and rules

  /** `Listener._elb_name`: the third `/`-separated field of the
      listener's ARN, after asserting that the first field ends in
      `listener`. */
  function ElbName(arn: string): (r: Result<string>)
    ensures r.Success? ==> '/' !in r.value
  {
    var fields := Split(arn, '/');
    if !EndsWith(fields[0], "listener") then Failure(AssertionError)
    else if |fields| < 3 then Failure(IndexError)
    else Success(fields[2])
  }

  /** An ARN made of `/`-free fields names the load balancer in its third
      field; a first field not ending in `listener` fails the assertion,
      and fewer than three fields fail the index. */
  lemma ElbNameOfFields(fields: seq<string>)
    requires |fields| >= 1 && forall i :: 0 <= i < |fields| ==> '/' !in fields[i]
    ensures ElbName(Join(fields, "/")) ==
      if !EndsWith(fields[0], "listener") then Failure(AssertionError)
      else if |fields| < 3 then Failure(IndexError)
      else Success(fields[2])
  {
    SplitJoin(fields, '/');
  }

  /** `Listener.name()`: `Protocol:Port`. */
  function ListenerName(d: ListenerData): string
  {
    d.protocol + ":" + IntToString(d.port)
  }

  /** `Listener.key_fragment()` */
  function KeyFragment(d: ListenerData): Result<string>
  {
    var elb :- ElbName(d.arn);
    Success(elb + "_" + ListenerName(d))
  }

  /** `Listener.key()` */
  function ListenerKey(d: ListenerData): Result<string>
  {
    var fragment :- KeyFragment(d);
    Success(ListenerKind + fragment)
  }

  /** `Rules.key()`: named after the listener the rule names, so every
      rule of one listener has the same key; a `KeyError` when that
      listener is not loaded. */
  function RuleKey(db: Db, rule: RuleData): Result<string>
  {
    var l := RuleListenerArn(rule);
    if l !in db.listeners.entries then Failure(KeyError(l))
    else
      var fragment :- KeyFragment(db.listeners.entries[l].data);
      Success(RulesKind + fragment)
  }

  function FixedResponseKey(ruleKey: string): string
  {
    ruleKey + "_fixed-response"
  }

  predicate HasFixedResponse(actions: seq<Action>)
  {
    exists i :: 0 <= i < |actions| && actions[i].FixedResponse?
  }

  /** The node lines the loop of `Rules.graphviz_node` collects for the
      rule key `key`: one per fixed-response action. */
  function FixedNodes(key: string, actions: seq<Action>): (r: seq<string>)
    ensures |r| == 0 <==> !HasFixedResponse(actions)
    ensures forall x :: x in r ==> x == Node(FixedResponseKey(key), "fixed-response")
    decreases |actions|
  {
    if actions == [] then []
    else
      var n := |actions|;
      var prefix := FixedNodes(key, actions[..n - 1]);
      assert forall i :: 0 <= i < n - 1 ==> actions[..n - 1][i] == actions[i];
      if actions[n - 1].FixedResponse? then prefix + [Node(FixedResponseKey(key), "fixed-response")]
      else prefix
  }

  /** `Rules.graphviz_node`, as its lines: the key is only computed for a
      fixed-response action, so a rule without one never fails. */
  function RuleNodeLines(db: Db, rule: RuleData): (r: Result<seq<string>>)
    ensures !HasFixedResponse(rule.actions) ==> r == Success([])
    ensures HasFixedResponse(rule.actions) ==> r.Success? == RuleKey(db, rule).Success?
  {
    if !HasFixedResponse(rule.actions) then Success([])
    else
      var key :- RuleKey(db, rule);
      Success(FixedNodes(key, rule.actions))
  }

  function RuleNode(db: Db, rule: RuleData): Result<string>
  {
    var lines :- RuleNodeLines(db, rule);
    Success(Join(lines, "\n"))
  }

  /** What a `forward` action points at: the target group's node when the
      group is loaded, its bare ARN otherwise. */
  function ForwardDest(db: Db, arn: string): string
  {
    if arn in db.groups.entries then TargetGroupKey(db.groups.entries[arn].data) else arn
  }

  function RedirectDest(protocol: string, host: string, port: string): string
  {
    protocol + "://" + host + ":" + port
  }

  /** The destination the loop of `Rules.graphviz_edges` assigns for an
      action of the rule with key `ruleKey`; `None` for a type it does
      not handle. */
  function RuleDest(db: Db, ruleKey: string, a: Action): Option<string>
  {
    match a
    case Forward(arn) => Some(ForwardDest(db, arn))
    case Redirect(protocol, host, port) => Some(RedirectDest(protocol, host, port))
    case FixedResponse => Some(FixedResponseKey(ruleKey))
    case OtherAction(_) => None
  }

  /** The destination the default-action loop of
      `Listener.graphviz_edges` assigns: that loop knows no
      fixed-response. */
  function DefaultDest(db: Db, a: Action): Option<string>
  {
    match a
    case Forward(arn) => Some(ForwardDest(db, arn))
    case Redirect(protocol, host, port) => Some(RedirectDest(protocol, host, port))
    case _ => None
  }

  function RuleDests(db: Db, ruleKey: string, actions: seq<Action>): (r: seq<Option<string>>)
    ensures |r| == |actions| && forall i :: 0 <= i < |actions| ==> r[i] == RuleDest(db, ruleKey, actions[i])
  {
    seq(|actions|, i requires 0 <= i < |actions| => RuleDest(db, ruleKey, actions[i]))
  }

  function DefaultDests(db: Db, actions: seq<Action>): (r: seq<Option<string>>)
    ensures |r| == |actions| && forall i :: 0 <= i < |actions| ==> r[i] == DefaultDest(db, actions[i])
  {
    seq(|actions|, i requires 0 <= i < |actions| => DefaultDest(db, actions[i]))
  }

  /** The edges from `src` to each destination in turn. An action whose
      type has no destination raises the `NameError` that the comment at
      report_elb.py:321 describes, whatever came before it. */
  function Edges(src: string, dests: seq<Option<string>>): (r: Result<seq<string>>)
    ensures r.Success? <==> forall i :: 0 <= i < |dests| ==> dests[i].Some?
    ensures r.Success? ==> |r.value| == |dests|
    ensures r.Success? ==> forall i :: 0 <= i < |dests| ==> r.value[i] == Edge(src, dests[i].value)
    ensures r.Failure? ==> r.error == NameError("dest")
    decreases |dests|
  {
    if dests == [] then Success([])
    else
      var n := |dests|;
      var prefix := Edges(src, dests[..n - 1]);
      assert forall i :: 0 <= i < n - 1 ==> dests[..n - 1][i] == dests[i];
      if prefix.Failure? || dests[n - 1].None? then Failure(NameError("dest"))
      else Success(prefix.value + [Edge(src, dests[n - 1].value)])
  }

  /** The same loops as written: `dest` is a local that keeps its value
      from one iteration to the next, so an unhandled action repeats the
      edge of the action before it, and only an unhandled first action
      finds `dest` unassigned (Python's `UnboundLocalError`, a
      `NameError`). `last` is the value `dest` holds on entry. */
  function EdgesAsWritten(src: string, dests: seq<Option<string>>, last: Option<string>): Result<seq<string>>
    decreases |dests|
  {
    if dests == [] then Success([])
    else
      var dest := if dests[0].Some? then dests[0] else last;
      if dest.None? then Failure(NameError("dest"))
      else
        var rest :- EdgesAsWritten(src, dests[1..], dest);
        Success([Edge(src, dest.value)] + rest)
  }

  /** `lines` followed by what `r` holds, or the failure of `r`. */
  function Prepend(lines: seq<string>, r: Result<seq<string>>): Result<seq<string>>
  {
    match r
    case Success(rest) => Success(lines + rest)
    case Failure(e) => Failure(e)
  }

  /** The loop of `Rules.graphviz_edges` with its `dest` local. */
  method EdgeLoop(src: string, dests: seq<Option<string>>) returns (r: Result<seq<string>>)
    ensures r == EdgesAsWritten(src, dests, None)
  {
    var dest: Option<string> := None;
    var lines: seq<string> := [];
    assert dests[0..] == dests;
    assert Prepend(lines, EdgesAsWritten(src, dests, None)) == EdgesAsWritten(src, dests, None) by {
      assert lines == [];
      match EdgesAsWritten(src, dests, None)
      case Success(rest) => assert [] + rest == rest;
      case Failure(_) =>
    }
    for i := 0 to |dests|
      invariant EdgesAsWritten(src, dests, None) == Prepend(lines, EdgesAsWritten(src, dests[i..], dest))
    {
      var here := dests[i..];
      assert here[0] == dests[i] && here[1..] == dests[i + 1..];
      if dests[i].Some? {
        dest := dests[i];
      }
      if dest.None? {
        assert EdgesAsWritten(src, here, None) == Failure(NameError("dest"));
        return Failure(NameError("dest"));
      }
      var after := EdgesAsWritten(src, dests[i + 1..], dest);
      if after.Success? {
        assert lines + ([Edge(src, dest.value)] + after.value) == (lines + [Edge(src, dest.value)]) + after.value;
      }
      lines := lines + [Edge(src, dest.value)];
    }
    assert dests[|dests|..] == [];
    assert lines + [] == lines;
    r := Success(lines);
  }

  /** When every action is handled the loop as written and `Edges` agree. */
  lemma {:induction false} EdgesAsWrittenAgrees(src: string, dests: seq<Option<string>>, last: Option<string>)
    requires forall i :: 0 <= i < |dests| ==> dests[i].Some?
    ensures EdgesAsWritten(src, dests, last) == Edges(src, dests)
    decreases |dests|
  {
    if dests != [] {
      EdgesAsWrittenAgrees(src, dests[1..], dests[0]);
      var r := Edges(src, dests);
      var rest := Edges(src, dests[1..]);
      assert r.value == [Edge(src, dests[0].value)] + rest.value;
    }
  }

  /** The discrepancy: a rule that forwards and then has an action of a
      type the renderer does not know draws the forward edge twice
      instead of failing. */
  lemma StaleDestination(src: string, group: string)
    ensures EdgesAsWritten(src, [Some(group), None], None) == Success([Edge(src, group), Edge(src, group)])
    ensures Edges(src, [Some(group), None]) == Failure(NameError("dest"))
  {
    var dests: seq<Option<string>> := [Some(group), None];
    var tail: seq<Option<string>> := [None];
    assert dests[1..] == tail && tail[1..] == [];
    assert EdgesAsWritten(src, [], Some(group)) == Success([]);
    assert [Edge(src, group)] + [] == [Edge(src, group)];
    assert EdgesAsWritten(src, tail, Some(group)) == Success([Edge(src, group)]);
    assert EdgesAsWritten(src, dests, None) == Success([Edge(src, group)] + [Edge(src, group)]);
    assert [Edge(src, group)] + [Edge(src, group)] == [Edge(src, group), Edge(src, group)];
  }

  /** `Rules.graphviz_edges`, as its lines: every edge leaves the node of
      the listener the rule names. */
  function RuleEdgeLines(db: Db, rule: RuleData): Result<seq<string>>
  {
    var l := RuleListenerArn(rule);
    if l !in db.listeners.entries then Failure(KeyError(l))
    else
      var fragment :- KeyFragment(db.listeners.entries[l].data);
      Edges(ListenerKind + fragment, RuleDests(db, RulesKind + fragment, rule.actions))
  }

  function RuleEdges(db: Db, rule: RuleData): Result<string>
  {
    var lines :- RuleEdgeLines(db, rule);
    Success(Join(lines, "\n"))
  }

  /** A fixed-response action draws an edge to a node its rule declares:
      the edge for action `i` ends at the rule's fixed-response node, and
      the rule's node lines declare that node. */
  lemma FixedResponseDeclared(db: Db, rule: RuleData, i: int)
    requires RuleEdgeLines(db, rule).Success?
    requires 0 <= i < |rule.actions| && rule.actions[i].FixedResponse?
    ensures RuleKey(db, rule).Success? && RuleNodeLines(db, rule).Success?
    ensures RuleListenerArn(rule) in db.listeners.entries
    ensures ListenerKey(db.listeners.entries[RuleListenerArn(rule)].data).Success?
    ensures var dest := FixedResponseKey(RuleKey(db, rule).value);
      && RuleEdgeLines(db, rule).value[i] == Edge(ListenerKey(db.listeners.entries[RuleListenerArn(rule)].data).value, dest)
      && Node(dest, "fixed-response") in RuleNodeLines(db, rule).value
  {
    assert HasFixedResponse(rule.actions);
    var key := RuleKey(db, rule).value;
    assert |FixedNodes(key, rule.actions)| > 0;
    var x := FixedNodes(key, rule.actions)[0];
    assert x in FixedNodes(key, rule.actions);
  }

  // ---------------------------------------------------------------------
  // listeners

  /** `Listener.graphviz_node`: the listener's own node, then one entry
      per rule, in the order the rules were attached. A rule without a
      fixed-response action contributes an empty line. */
  function ListenerNode(db: Db, l: string): Result<string>
    requires l in db.listeners.entries && RulesStored(db.listeners, db.rules)
  {
    var listener := db.listeners.entries[l];
    var key :- ListenerKey(listener.data);
    var rules :- AllValues(seq(|listener.rules|, i requires 0 <= i < |listener.rules| =>
      RuleNode(db, db.rules.entries[listener.rules[i]])));
    Success(Join([Node(key, ListenerName(listener.data))] + rules, "\n"))
  }

  /** `Listener.graphviz_edges`: the edges of its rules, one entry per
      rule; a listener without rules draws its default actions instead,
      from its own node. */
  function ListenerEdgeLines(db: Db, l: string): (r: Result<seq<string>>)
    requires l in db.listeners.entries && RulesStored(db.listeners, db.rules)
  {
    var listener := db.listeners.entries[l];
    if listener.rules != [] then
      AllValues(seq(|listener.rules|, i requires 0 <= i < |listener.rules| =>
        RuleEdges(db, db.rules.entries[listener.rules[i]])))
    else
      var key :- ListenerKey(listener.data);
      Edges(key, DefaultDests(db, listener.data.defaultActions))
  }

  function ListenerEdges(db: Db, l: string): Result<string>
    requires l in db.listeners.entries && RulesStored(db.listeners, db.rules)
  {
    var lines :- ListenerEdgeLines(db, l);
    Success(Join(lines, "\n"))
  }

  /** A listener without rules draws one edge per default action, from
      its own node to where the action sends traffic. */
  lemma DefaultEdges(db: Db, l: string)
    requires l in db.listeners.entries && RulesStored(db.listeners, db.rules)
    requires db.listeners.entries[l].rules == []
    ensures var d := db.listeners.entries[l].data;
      ListenerEdgeLines(db, l).Success? <==>
        ListenerKey(d).Success? && forall i :: 0 <= i < |d.defaultActions| ==> !d.defaultActions[i].FixedResponse? && !d.defaultActions[i].OtherAction?
    ensures var d := db.listeners.entries[l].data;
      ListenerEdgeLines(db, l).Success? ==>
        |ListenerEdgeLines(db, l).value| == |d.defaultActions| &&
        forall i :: 0 <= i < |d.defaultActions| ==>
          ListenerEdgeLines(db, l).value[i] == Edge(ListenerKey(d).value, DefaultDest(db, d.defaultActions[i]).value)
  {
  }

  // ---------------------------------------------------------------------
  // load balancers

  /** The line that opens the cluster of the item with key `key`. */
  function ClusterOpen(key: string): string
  {
    "subgraph " + Quote("cluster_" + key) + " {"
  }

  /** The node a DNS edge attaches to, drawn inside the cluster of an item
      that some DNS record refers to. */
  function DnsHandle(key: string): string
  {
    "  " + Node(key, "dns")
  }

  function LabelLine(caption: string): string
  {
    "  label=" + Quote(caption)
  }

  /** A target group as `ItemBase.graphviz_node` draws it. */
  function GroupNode(d: TargetGroupData): string
  {
    Node(TargetGroupKey(d), d.name)
  }

  /** The node lines of the listeners `ls`, in order; the first failure
      stops them. */
  function ListenerNodes(db: Db, ls: seq<string>): (r: Result<seq<string>>)
    requires forall l :: l in ls ==> l in db.listeners.entries
    requires RulesStored(db.listeners, db.rules)
    ensures r.Success? <==> forall l :: l in ls ==> ListenerNode(db, l).Success?
  {
    var nodes := seq(|ls|, i requires 0 <= i < |ls| => ListenerNode(db, ls[i]));
    assert forall l :: l in ls ==> exists i :: 0 <= i < |ls| && ls[i] == l && nodes[i] == ListenerNode(db, l);
    AllValues(nodes)
  }

  /** The target group nodes of the groups `gs`, in order. */
  function GroupNodes(db: Db, gs: seq<string>): (r: seq<string>)
    requires forall g :: g in gs ==> g in db.groups.entries
    ensures forall g :: g in gs ==> GroupNode(db.groups.entries[g].data) in r
  {
    var nodes := seq(|gs|, i requires 0 <= i < |gs| => GroupNode(db.groups.entries[gs[i]].data));
    assert forall i :: 0 <= i < |gs| ==> nodes[i] == GroupNode(db.groups.entries[gs[i]].data);
    nodes
  }

  /** The lines of a cluster around `inner`, under the label line and the
      DNS handle. */
  function Cluster(head: seq<string>, key: string, dnsRef: bool, inner: seq<string>): (r: seq<string>)
    requires |head| >= 1
    ensures |r| >= 2 && r[0] == head[0] && r[|r| - 1] == "}"
    ensures forall x :: x in head || x in inner ==> x in r
    ensures dnsRef ==> DnsHandle(key) in r
  {
    head + (if dnsRef then [DnsHandle(key)] else []) + [""] + inner + ["}"]
  }

  /** `Load_Balancer.graphviz_node`, as its lines: the cluster holds the
      nodes of its listeners and target groups, each in ARN order, and
      the DNS handle when a DNS record refers to it. */
  function LbClusterLines(db: Db, a: string): (r: Result<seq<string>>)
    requires a in db.lbs.entries && ChildrenStored(db.lbs, db.listeners, db.groups)
    requires RulesStored(db.listeners, db.rules)
    ensures var lb := db.lbs.entries[a];
      r.Success? <==> forall l :: l in lb.listeners ==> ListenerNode(db, l).Success?
    ensures var lb := db.lbs.entries[a];
      r.Success? ==>
        && |r.value| >= 2
        && r.value[0] == ClusterOpen(LoadBalancerKey(lb.data))
        && r.value[|r.value| - 1] == "}"
        && (lb.dnsRef ==> DnsHandle(LoadBalancerKey(lb.data)) in r.value)
        && forall g :: g in lb.targetGroups ==> GroupNode(db.groups.entries[g].data) in r.value
  {
    var lb := db.lbs.entries[a];
    var key := LoadBalancerKey(lb.data);
    SortStringsMembers(lb.listeners);
    SortStringsMembers(lb.targetGroups);
    var listenerNodes :- ListenerNodes(db, SortStrings(lb.listeners));
    var groupNodes := GroupNodes(db, SortStrings(lb.targetGroups));
    Success(Cluster([ClusterOpen(key), LabelLine(lb.data.name)], key, lb.dnsRef, listenerNodes + [""] + groupNodes))
  }

  function LbCluster(db: Db, a: string): Result<string>
    requires a in db.lbs.entries && ChildrenStored(db.lbs, db.listeners, db.groups)
    requires RulesStored(db.listeners, db.rules)
  {
    var lines :- LbClusterLines(db, a);
    Success(Join(lines, "\n"))
  }

  // ---------------------------------------------------------------------
  // target groups and health

  /** The node `Target_Health.graphviz_nodes` draws for one target. */
  function TargetNode(t: Target): string
  {
    Node(TargetHealthKey(t), "TCP/" + IntToString(t.port))
  }

  /** `Target_Health.graphviz_nodes(id)` over the targets `ts` of one
      health record: a node for exactly the targets whose id is `id`. */
  function TargetNodes(ts: seq<Target>, id: string): (r: seq<string>)
    ensures forall t :: t in ts && t.id == id ==> TargetNode(t) in r
    ensures forall x :: x in r ==> exists t :: t in ts && t.id == id && x == TargetNode(t)
    decreases |ts|
  {
    if ts == [] then []
    else
      var n := |ts|;
      var prefix := TargetNodes(ts[..n - 1], id);
      assert forall t :: t in ts ==> t in ts[..n - 1] || t == ts[n - 1];
      if ts[n - 1].id == id then prefix + [TargetNode(ts[n - 1])] else prefix
  }

  /** The nodes the health loop of `Instance.graphviz_node` collects for
      the health records `hs` of the instance with id `id`. */
  function HealthNodes(db: Db, hs: seq<string>, id: string): (r: seq<string>)
    requires forall h :: h in hs ==> h in db.health.entries
    ensures forall h, t :: h in hs && t in Values(db.health.entries[h].descriptions) && t.id == id ==> TargetNode(t) in r
    ensures forall x :: x in r ==> exists h, t :: h in hs && t in Values(db.health.entries[h].descriptions) && t.id == id && x == TargetNode(t)
    decreases |hs|
  {
    if hs == [] then []
    else
      var n := |hs|;
      var prefix := HealthNodes(db, hs[..n - 1], id);
      assert forall h :: h in hs ==> h in hs[..n - 1] || h == hs[n - 1];
      prefix + TargetNodes(Values(db.health.entries[hs[n - 1]].descriptions), id)
  }

  /** An edge from `src` to each target, in the sorted order of their
      keys. */
  function SortedEdges(src: string, descriptions: Dict<string, Target>): (r: seq<string>)
    ensures var ks := SortStrings(descriptions.keys);
      && |ks| == |r|
      && forall i :: 0 <= i < |ks| ==>
        (ks[i] in descriptions.entries && r[i] == Edge(src, TargetHealthKey(descriptions.entries[ks[i]])))
  {
    var ks := SortStrings(descriptions.keys);
    SortStringsMembers(descriptions.keys);
    seq(|ks|, i requires 0 <= i < |ks| => Edge(src, TargetHealthKey(descriptions.entries[ks[i]])))
  }

  /** Every target gets its edge. */
  lemma SortedEdgesHas(src: string, descriptions: Dict<string, Target>)
    ensures forall k :: k in descriptions.entries ==> Edge(src, TargetHealthKey(descriptions.entries[k])) in SortedEdges(src, descriptions)
  {
    var ks := SortStrings(descriptions.keys);
    var r := SortedEdges(src, descriptions);
    SortStringsMembers(descriptions.keys);
    forall k | k in descriptions.entries
      ensures Edge(src, TargetHealthKey(descriptions.entries[k])) in r
    {
      assert k in ks;
      var i :| 0 <= i < |ks| && ks[i] == k;
      assert r[i] == Edge(src, TargetHealthKey(descriptions.entries[k]));
    }
  }

  /** `Target_Group.graphviz_edges`, as its lines: an edge from the group
      to each of its targets, in key order. A group no health record was
      bound to still holds the `{}` it was created with, which has no
      `.data`: an `AttributeError`. */
  function GroupEdgeLines(db: Db, g: string): (r: Result<seq<string>>)
    requires g in db.groups.entries && GroupHealthStored(db.groups, db.health)
    ensures r.Failure? <==> db.groups.entries[g].health.None?
    ensures r.Failure? ==> r.error == AttributeError("data")
    ensures r.Success? ==>
      var src := TargetGroupKey(db.groups.entries[g].data);
      var descriptions := db.health.entries[db.groups.entries[g].health.value].descriptions;
      var ks := SortStrings(descriptions.keys);
      && (forall k :: k in descriptions.entries ==> Edge(src, TargetHealthKey(descriptions.entries[k])) in r.value)
      && |r.value| == |ks|
      && forall i :: 0 <= i < |ks| ==>
        (ks[i] in descriptions.entries && r.value[i] == Edge(src, TargetHealthKey(descriptions.entries[ks[i]])))
  {
    var group := db.groups.entries[g];
    match group.health
    case None => Failure(AttributeError("data"))
    case Some(h) =>
      SortedEdgesHas(TargetGroupKey(group.data), db.health.entries[h].descriptions);
      Success(SortedEdges(TargetGroupKey(group.data), db.health.entries[h].descriptions))
  }

  function GroupEdges(db: Db, g: string): Result<string>
    requires g in db.groups.entries && GroupHealthStored(db.groups, db.health)
  {
    var lines :- GroupEdgeLines(db, g);
    Success(Join(lines, "\n"))
  }

  // ---------------------------------------------------------------------
  // instances

  /** `Instance.name()`: the value of the `Name` tag, not lowered. The
      `ValueError` of `_tags_to_sane` comes first when a tag key repeats,
      and a `KeyError` when there is no Name tag. */
  function InstanceName(d: InstanceData): (r: Result<string>)
    ensures r.Success? <==> !HasDuplicateKey(d.tags) && NameTag(d.tags).Some?
    ensures r.Success? ==> r.value == NameTag(d.tags).value
    ensures HasDuplicateKey(d.tags) ==> r == Failure(ValueError("Duplicate tag name"))
    ensures !HasDuplicateKey(d.tags) && NameTag(d.tags).None? ==> r == Failure(KeyError("Name"))
  {
    SaneName(d.tags);
    var tags :- SaneTags(d.tags);
    if "Name" in tags.entries then Success(tags.entries["Name"]) else Failure(KeyError("Name"))
  }

  /** Without repeated keys, the sane dict has a Name entry exactly when
      a tag is named Name, holding that tag's value. */
  lemma SaneName(tags: seq<Tag>)
    ensures SaneTags(tags).Success? ==>
      ("Name" in SaneTags(tags).value.entries <==> NameTag(tags).Some?) &&
      ("Name" in SaneTags(tags).value.entries ==> SaneTags(tags).value.entries["Name"] == NameTag(tags).value)
  {
    SaneTagsContents(tags);
    NameTagAbsent(tags);
    if SaneTags(tags).Success? && "Name" in SaneTags(tags).value.entries {
      var i :| 0 <= i < |tags| && tags[i].key == "Name";
      NameTagIsLast(tags, i);
    }
  }

  /** The label line and the lines before it: a stopped instance is
      drawn red and says so under its name. */
  function InstanceHead(key: string, name: string, stopped: bool): (r: seq<string>)
    ensures |r| >= 1 && r[0] == ClusterOpen(key)
    ensures LabelLine(if stopped then name + "\nSTOPPED" else name) in r
  {
    [ClusterOpen(key)]
      + (if stopped then ["  color=red"] else [])
      + [LabelLine(if stopped then name + "\nSTOPPED" else name)]
  }

  /** `Instance.graphviz_node(show_all_hosts)`, as its lines. */
  function InstanceClusterLines(db: Db, n: string, showAll: bool): (r: Result<seq<string>>)
    requires n in db.instances.entries && InstanceHealthStored(db.instances, db.health)
    ensures var d := db.instances.entries[n].data;
      r.Success? <==> InstanceName(d).Success?
    ensures var inst := db.instances.entries[n];
      var key := InstanceKey(inst.data);
      var stopped := inst.data.state == "stopped";
      r.Success? ==>
        && |r.value| >= 2
        && r.value[0] == ClusterOpen(key)
        && r.value[|r.value| - 1] == "}"
        && (stopped ==> "  color=red" in r.value)
        && LabelLine(if stopped then NameTag(inst.data.tags).value + "\nSTOPPED" else NameTag(inst.data.tags).value) in r.value
        && (inst.dnsRef ==> DnsHandle(key) in r.value)
        && (showAll && inst.health == [] ==> Quote(key) in r.value)
        && forall h, t :: h in inst.health && t in Values(db.health.entries[h].descriptions) && t.id == inst.data.instanceId ==>
          TargetNode(t) in r.value
  {
    var inst := db.instances.entries[n];
    var key := InstanceKey(inst.data);
    var name :- InstanceName(inst.data);
    var health := SortStrings(inst.health);
    SortStringsMembers(inst.health);
    var stopped := inst.data.state == "stopped";
    var head := InstanceHead(key, name, stopped);
    assert stopped ==> "  color=red" in head;
    var nodes := HealthNodes(db, health, inst.data.instanceId);
    var inner := nodes + (if health == [] && showAll then [Quote(key)] else []);
    assert forall x :: x in nodes ==> x in inner;
    Success(Cluster(head, key, inst.dnsRef, inner))
  }

  function InstanceCluster(db: Db, n: string, showAll: bool): Result<string>
    requires n in db.instances.entries && InstanceHealthStored(db.instances, db.health)
  {
    var lines :- InstanceClusterLines(db, n, showAll);
    Success(Join(lines, "\n"))
  }

  // ---------------------------------------------------------------------
  // DNS records

  /** `DNS.graphviz_node`: only address and alias records are drawn. */
  function DnsNode(d: DnsData): (r: string)
    ensures r == "" <==> d.kind != "A" && d.kind != "CNAME"
  {
    if d.kind != "A" && d.kind != "CNAME" then ""
    else Quote(DnsKey(d)) + " [ shape=cds label=" + Quote(d.name) + " ]"
  }

  /** The key of the item a DNS record refers to. */
  function RefKey(db: Db, ref: Ref): string
    requires ref.ToLoadBalancer? ==> ref.arn in db.lbs.entries
    requires ref.ToInstance? ==> ref.arn in db.instances.entries
  {
    match ref
    case ToLoadBalancer(a) => LoadBalancerKey(db.lbs.entries[a].data)
    case ToInstance(i) => InstanceKey(db.instances.entries[i].data)
  }

  /** `DNS.graphviz_edges`: one edge to what the record refers to, or
      nothing. */
  function DnsEdges(db: Db, n: string): (r: string)
    requires n in db.dns.entries && RefsStored(db.dns, db.lbs, db.instances)
    ensures r == "" <==> db.dns.entries[n].ref.None?
  {
    var dns := db.dns.entries[n];
    match dns.ref
    case None => ""
    case Some(ref) => Edge(DnsKey(dns.data), RefKey(db, ref))
  }
  // ---------------------------------------------------------------------
  // dump_all_elb

  /** The four lines printed before the clusters. */
  const Header := ["digraph G {", "  rankdir=LR", "  node[shape=rectangle]", ""]

  function LbClusters(db: Db, ks: seq<string>): (r: seq<Result<string>>)
    requires forall k :: k in ks ==> k in db.lbs.entries
    requires ChildrenStored(db.lbs, db.listeners, db.groups) && RulesStored(db.listeners, db.rules)
    ensures |r| == |ks| && forall i :: 0 <= i < |ks| ==> r[i] == LbCluster(db, ks[i])
  {
    seq(|ks|, i requires 0 <= i < |ks| => LbCluster(db, ks[i]))
  }

  function InstanceClusters(db: Db, ks: seq<string>, showAll: bool): (r: seq<Result<string>>)
    requires forall k :: k in ks ==> k in db.instances.entries
    requires InstanceHealthStored(db.instances, db.health)
    ensures |r| == |ks| && forall i :: 0 <= i < |ks| ==> r[i] == InstanceCluster(db, ks[i], showAll)
  {
    seq(|ks|, i requires 0 <= i < |ks| => InstanceCluster(db, ks[i], showAll))
  }

  function ListenerEdgeList(db: Db, ks: seq<string>): (r: seq<Result<string>>)
    requires forall k :: k in ks ==> k in db.listeners.entries
    requires RulesStored(db.listeners, db.rules)
    ensures |r| == |ks| && forall i :: 0 <= i < |ks| ==> r[i] == ListenerEdges(db, ks[i])
  {
    seq(|ks|, i requires 0 <= i < |ks| => ListenerEdges(db, ks[i]))
  }

  function GroupEdgeList(db: Db, ks: seq<string>): (r: seq<Result<string>>)
    requires forall k :: k in ks ==> k in db.groups.entries
    requires GroupHealthStored(db.groups, db.health)
    ensures |r| == |ks| && forall i :: 0 <= i < |ks| ==> r[i] == GroupEdges(db, ks[i])
  {
    seq(|ks|, i requires 0 <= i < |ks| => GroupEdges(db, ks[i]))
  }

  /** The DNS part: for each record, its node line and then its edge
      line, both printed even when empty. */
  function DnsLines(db: Db, ks: seq<string>): (r: seq<string>)
    requires forall k :: k in ks ==> k in db.dns.entries
    requires RefsStored(db.dns, db.lbs, db.instances)
    ensures |r| == 2 * |ks|
    decreases |ks|
  {
    if ks == [] then []
    else
      var n := |ks|;
      DnsLines(db, ks[..n - 1]) + [DnsNode(db.dns.entries[ks[n - 1]].data), DnsEdges(db, ks[n - 1])]
  }

  /** The lines at `2 * i` and `2 * i + 1` are those of the `i`-th record. */
  lemma {:induction false} DnsLinesPair(db: Db, ks: seq<string>, i: int)
    requires forall k :: k in ks ==> k in db.dns.entries
    requires RefsStored(db.dns, db.lbs, db.instances)
    requires 0 <= i < |ks|
    ensures DnsLines(db, ks)[2 * i] == DnsNode(db.dns.entries[ks[i]].data)
    ensures DnsLines(db, ks)[2 * i + 1] == DnsEdges(db, ks[i])
    decreases |ks|
  {
    var n := |ks|;
    var prefix := ks[..n - 1];
    var before := DnsLines(db, prefix);
    var last := [DnsNode(db.dns.entries[ks[n - 1]].data), DnsEdges(db, ks[n - 1])];
    assert DnsLines(db, ks) == before + last;
    if i < n - 1 {
      assert prefix[i] == ks[i];
      DnsLinesPair(db, prefix, i);
    }
  }

  /** A dict's keys are its entries. */
  lemma SortedKeys<V>(d: Dict<string, V>)
    ensures |SortStrings(d.keys)| == |d.keys|
    ensures forall k :: k in SortStrings(d.keys) <==> k in d.entries
  {
    SortStringsMembers(d.keys);
  }

  /** What `dump_all_elb` prints, one entry per `print` call: the
      header, the load balancer clusters, the instance clusters, the
      listener edges, the target group edges and the DNS lines, each part
      in key order and after an empty line, then the closing brace; or
      the first exception a render method raises. */
  function Dump(db: Db, showAll: bool): Result<seq<string>>
    requires WellFormed(db)
  {
    SortedKeys(db.lbs);
    SortedKeys(db.instances);
    SortedKeys(db.listeners);
    SortedKeys(db.groups);
    SortedKeys(db.dns);
    var lbs :- AllValues(LbClusters(db, SortStrings(db.lbs.keys)));
    var instances :- AllValues(InstanceClusters(db, SortStrings(db.instances.keys), showAll));
    var listeners :- AllValues(ListenerEdgeList(db, SortStrings(db.listeners.keys)));
    var groups :- AllValues(GroupEdgeList(db, SortStrings(db.groups.keys)));
    Success(Assemble(lbs, instances, listeners, groups, DnsLines(db, SortStrings(db.dns.keys))))
  }

  /** The parts of the report in print order, each after an empty line. */
  function Assemble(lbs: seq<string>, instances: seq<string>, listeners: seq<string>, groups: seq<string>, dns: seq<string>): (r: seq<string>)
    ensures |r| == 9 + |lbs| + |instances| + |listeners| + |groups| + |dns|
    ensures r[..4] == Header && r[|r| - 1] == "}"
  {
    assert |Header| == 4;
    var r := Header + lbs + [""] + instances + [""] + listeners + [""] + groups + [""] + dns + ["}"];
    assert r[..4] == Header;
    r
  }

  /** The report fails exactly when one item's render method does, and
      fails for every target group no health record was bound to. */
  lemma DumpFails(db: Db, showAll: bool)
    requires WellFormed(db)
    ensures Dump(db, showAll).Success? <==>
      && (forall a :: a in db.lbs.entries ==> LbCluster(db, a).Success?)
      && (forall n :: n in db.instances.entries ==> InstanceCluster(db, n, showAll).Success?)
      && (forall l :: l in db.listeners.entries ==> ListenerEdges(db, l).Success?)
      && (forall g :: g in db.groups.entries ==> db.groups.entries[g].health.Some?)
  {
    LbSectionOk(db);
    InstanceSectionOk(db, showAll);
    ListenerSectionOk(db);
    GroupSectionOk(db);
  }

  /** A report holds the four header lines, one entry per load balancer,
      instance, listener and target group, two per DNS record, four
      separating empty lines and the closing brace. */
  lemma DumpLength(db: Db, showAll: bool)
    requires WellFormed(db) && Dump(db, showAll).Success?
    ensures var out := Dump(db, showAll).value;
      && |out| == 9 + |db.lbs.keys| + |db.instances.keys| + |db.listeners.keys| + |db.groups.keys| + 2 * |db.dns.keys|
      && out[..4] == Header && out[|out| - 1] == "}"
  {
    SortedKeys(db.lbs);
    SortedKeys(db.instances);
    SortedKeys(db.listeners);
    SortedKeys(db.groups);
    SortedKeys(db.dns);
    var lbs := AllValues(LbClusters(db, SortStrings(db.lbs.keys))).value;
    var instances := AllValues(InstanceClusters(db, SortStrings(db.instances.keys), showAll)).value;
    var listeners := AllValues(ListenerEdgeList(db, SortStrings(db.listeners.keys))).value;
    var groups := AllValues(GroupEdgeList(db, SortStrings(db.groups.keys))).value;
    var dns := DnsLines(db, SortStrings(db.dns.keys));
    assert Dump(db, showAll).value == Assemble(lbs, instances, listeners, groups, dns);
  }

  lemma LbSectionOk(db: Db)
    requires WellFormed(db)
    ensures forall k :: k in SortStrings(db.lbs.keys) ==> k in db.lbs.entries
    ensures AllValues(LbClusters(db, SortStrings(db.lbs.keys))).Success? <==>
      forall a :: a in db.lbs.entries ==> LbCluster(db, a).Success?
  {
    SortedKeys(db.lbs);
    var ks := SortStrings(db.lbs.keys);
    assert forall a :: a in db.lbs.entries ==> exists i :: 0 <= i < |ks| && ks[i] == a;
  }

  lemma InstanceSectionOk(db: Db, showAll: bool)
    requires WellFormed(db)
    ensures forall k :: k in SortStrings(db.instances.keys) ==> k in db.instances.entries
    ensures AllValues(InstanceClusters(db, SortStrings(db.instances.keys), showAll)).Success? <==>
      forall n :: n in db.instances.entries ==> InstanceCluster(db, n, showAll).Success?
  {
    SortedKeys(db.instances);
    var ks := SortStrings(db.instances.keys);
    assert forall n :: n in db.instances.entries ==> exists i :: 0 <= i < |ks| && ks[i] == n;
  }

  lemma ListenerSectionOk(db: Db)
    requires WellFormed(db)
    ensures forall k :: k in SortStrings(db.listeners.keys) ==> k in db.listeners.entries
    ensures AllValues(ListenerEdgeList(db, SortStrings(db.listeners.keys))).Success? <==>
      forall l :: l in db.listeners.entries ==> ListenerEdges(db, l).Success?
  {
    SortedKeys(db.listeners);
    var ks := SortStrings(db.listeners.keys);
    assert forall l :: l in db.listeners.entries ==> exists i :: 0 <= i < |ks| && ks[i] == l;
  }

  lemma GroupSectionOk(db: Db)
    requires WellFormed(db)
    ensures forall k :: k in SortStrings(db.groups.keys) ==> k in db.groups.entries
    ensures AllValues(GroupEdgeList(db, SortStrings(db.groups.keys))).Success? <==>
      forall g :: g in db.groups.entries ==> db.groups.entries[g].health.Some?
  {
    SortedKeys(db.groups);
    var ks := SortStrings(db.groups.keys);
    assert forall g :: g in db.groups.entries ==> exists i :: 0 <= i < |ks| && ks[i] == g;
  }

  /** `dump_all_elb(show_all_hosts)`: the lines it prints, or the
      exception that stops it. */
  method DumpAllElb(db: Db, showAll: bool) returns (r: Result<seq<string>>)
    requires WellFormed(db)
    ensures r == Dump(db, showAll)
  {
    var lbs := PrintLbs(db);
    if lbs.Failure? {
      return Failure(lbs.error);
    }
    var instances := PrintInstances(db, showAll);
    if instances.Failure? {
      return Failure(instances.error);
    }
    var listeners := PrintListenerEdges(db);
    if listeners.Failure? {
      return Failure(listeners.error);
    }
    var groups := PrintGroupEdges(db);
    if groups.Failure? {
      return Failure(groups.error);
    }
    var dns := PrintDns(db);
    r := Success(Assemble(lbs.value, instances.value, listeners.value, groups.value, dns));
  }

  /** The load balancer loop of `dump_all_elb`. */
  method PrintLbs(db: Db) returns (r: Result<seq<string>>)
    requires WellFormed(db)
    ensures forall k :: k in SortStrings(db.lbs.keys) ==> k in db.lbs.entries
    ensures r == AllValues(LbClusters(db, SortStrings(db.lbs.keys)))
  {
    SortedKeys(db.lbs);
    var ks := SortStrings(db.lbs.keys);
    ghost var rs := LbClusters(db, ks);
    var lines: seq<string> := [];
    for i := 0 to |ks|
      invariant AllValues(rs[..i]) == Success(lines)
    {
      var cluster := LbCluster(db, ks[i]);
      AllValuesStep(rs, i, lines);
      if cluster.Failure? {
        return Failure(cluster.error);
      }
      lines := lines + [cluster.value];
    }
    assert rs[..|rs|] == rs;
    r := Success(lines);
  }

  /** The instance loop of `dump_all_elb`. */
  method PrintInstances(db: Db, showAll: bool) returns (r: Result<seq<string>>)
    requires WellFormed(db)
    ensures forall k :: k in SortStrings(db.instances.keys) ==> k in db.instances.entries
    ensures r == AllValues(InstanceClusters(db, SortStrings(db.instances.keys), showAll))
  {
    SortedKeys(db.instances);
    var ks := SortStrings(db.instances.keys);
    ghost var rs := InstanceClusters(db, ks, showAll);
    var lines: seq<string> := [];
    for i := 0 to |ks|
      invariant AllValues(rs[..i]) == Success(lines)
    {
      var cluster := InstanceCluster(db, ks[i], showAll);
      AllValuesStep(rs, i, lines);
      if cluster.Failure? {
        return Failure(cluster.error);
      }
      lines := lines + [cluster.value];
    }
    assert rs[..|rs|] == rs;
    r := Success(lines);
  }

  /** The listener loop of `dump_all_elb`. */
  method PrintListenerEdges(db: Db) returns (r: Result<seq<string>>)
    requires WellFormed(db)
    ensures forall k :: k in SortStrings(db.listeners.keys) ==> k in db.listeners.entries
    ensures r == AllValues(ListenerEdgeList(db, SortStrings(db.listeners.keys)))
  {
    SortedKeys(db.listeners);
    var ks := SortStrings(db.listeners.keys);
    ghost var rs := ListenerEdgeList(db, ks);
    var lines: seq<string> := [];
    for i := 0 to |ks|
      invariant AllValues(rs[..i]) == Success(lines)
    {
      var edges := ListenerEdges(db, ks[i]);
      AllValuesStep(rs, i, lines);
      if edges.Failure? {
        return Failure(edges.error);
      }
      lines := lines + [edges.value];
    }
    assert rs[..|rs|] == rs;
    r := Success(lines);
  }

  /** The target group loop of `dump_all_elb`. */
  method PrintGroupEdges(db: Db) returns (r: Result<seq<string>>)
    requires WellFormed(db)
    ensures forall k :: k in SortStrings(db.groups.keys) ==> k in db.groups.entries
    ensures r == AllValues(GroupEdgeList(db, SortStrings(db.groups.keys)))
  {
    SortedKeys(db.groups);
    var ks := SortStrings(db.groups.keys);
    ghost var rs := GroupEdgeList(db, ks);
    var lines: seq<string> := [];
    for i := 0 to |ks|
      invariant AllValues(rs[..i]) == Success(lines)
    {
      var edges := GroupEdges(db, ks[i]);
      AllValuesStep(rs, i, lines);
      if edges.Failure? {
        return Failure(edges.error);
      }
      lines := lines + [edges.value];
    }
    assert rs[..|rs|] == rs;
    r := Success(lines);
  }

  /** The DNS loop of `dump_all_elb`. */
  method PrintDns(db: Db) returns (lines: seq<string>)
    requires WellFormed(db)
    ensures forall k :: k in SortStrings(db.dns.keys) ==> k in db.dns.entries
    ensures lines == DnsLines(db, SortStrings(db.dns.keys))
  {
    SortedKeys(db.dns);
    var ks := SortStrings(db.dns.keys);
    lines := [];
    for i := 0 to |ks|
      invariant lines == DnsLines(db, ks[..i])
    {
      assert ks[..i + 1][..i] == ks[..i];
      lines := lines + [DnsNode(db.dns.entries[ks[i]].data), DnsEdges(db, ks[i])];
    }
    assert ks[..|ks|] == ks;
  }

  // ---------------------------------------------------------------------
  // main

  /** The registry `main` builds: the Cloudflare records first, then the
      dumped records that pass the profile and region filters. */
  function Loaded(dnsItems: seq<DnsData>, records: seq<Record>, profiles: seq<string>, regions: seq<string>): (db: Db)
    ensures WellFormed(db) && Unbound(db)
  {
    DnsLoadedPreserves(EmptyDb(), dnsItems);
    IngestAllPreserves(DnsLoaded(EmptyDb(), dnsItems), records, profiles, regions);
    IngestAll(DnsLoaded(EmptyDb(), dnsItems), records, profiles, regions)
  }

  /** What `main` prints: the report of the bound registry, or the
      `AssertionError` of a target group that names several load
      balancers, raised while binding and before anything is printed. */
  function Report(dnsItems: seq<DnsData>, records: seq<Record>, profiles: seq<string>, regions: seq<string>, showAll: bool): Result<seq<string>>
  {
    var db := Loaded(dnsItems, records, profiles, regions);
    if !GroupsBindable(db) then Failure(AssertionError)
    else
      BoundValid(db);
      Dump(Bound(db), showAll)
  }

  /** `main`, after the arguments are parsed and the files read. */
  method ReportElb(dnsItems: seq<DnsData>, records: seq<Record>, profiles: seq<string>, regions: seq<string>, showAll: bool)
    returns (r: Result<seq<string>>)
    ensures r == Report(dnsItems, records, profiles, regions, showAll)
  {
    var registry := new Registry();
    registry.LoadDns(dnsItems);
    registry.Load(records, profiles, regions);
    assert registry.Snapshot() == Loaded(dnsItems, records, profiles, regions);
    var ok := registry.Bind();
    if !ok {
      return Failure(AssertionError);
    }
    BoundValid(Loaded(dnsItems, records, profiles, regions));
    r := DumpAllElb(registry.Snapshot(), showAll);
  }

  // ---------------------------------------------------------------------
  // what the edges reach, once bound

  /** A target group's edge to a target ends at a node drawn inside the
      cluster of the instance with that target's id: binding gives the
      group its health record and the instance the same record, and both
      render the target under the same key. */
  lemma TargetEdgesLand(db: Db, g: string, k: string, n: string, showAll: bool)
    requires WellFormed(db) && Unbound(db)
    requires g in db.groups.entries && g in db.health.entries
    requires k in db.health.entries[g].descriptions.entries
    requires n in db.instances.entries
    requires db.instances.entries[n].data.instanceId == db.health.entries[g].descriptions.entries[k].id
    ensures WellFormed(Bound(db))
    ensures var b := Bound(db);
      var t := db.health.entries[g].descriptions.entries[k];
      && GroupEdgeLines(b, g).Success?
      && Edge(TargetGroupKey(db.groups.entries[g].data), TargetHealthKey(t)) in GroupEdgeLines(b, g).value
      && (InstanceClusterLines(b, n, showAll).Success? ==> TargetNode(t) in InstanceClusterLines(b, n, showAll).value)
  {
    BoundValid(db);
    BoundKeepsRecords(db);
    BoundGroupHealth(db, g);
    BoundInstanceHealth(db, n);
    var b := Bound(db);
    var th := db.health.entries[g];
    var t := th.descriptions.entries[k];
    assert b.groups.entries[g].health == Some(g);
    assert Describes(th, t.id);
    assert g in b.instances.entries[n].health;
    var j :| 0 <= j < |th.descriptions.keys| && th.descriptions.keys[j] == k;
    assert Values(th.descriptions)[j] == t;
    assert t in Values(b.health.entries[g].descriptions);
  }

  /** A DNS edge ends at the handle drawn inside the cluster of what the
      record resolves to: binding both points the record at the item and
      marks the item. */
  lemma DnsEdgesLand(db: Db, m: string)
    requires WellFormed(db) && Unbound(db) && m in db.dns.entries
    ensures WellFormed(Bound(db))
    ensures var b := Bound(db);
      var d := db.dns.entries[m].data;
      match Resolve(db, d)
      case None => DnsEdges(b, m) == ""
      case Some(ToLoadBalancer(a)) =>
        && a in b.lbs.entries
        && DnsEdges(b, m) == Edge(DnsKey(d), LoadBalancerKey(b.lbs.entries[a].data))
        && (LbClusterLines(b, a).Success? ==>
          DnsHandle(LoadBalancerKey(b.lbs.entries[a].data)) in LbClusterLines(b, a).value)
      case Some(ToInstance(i)) =>
        && i in b.instances.entries
        && DnsEdges(b, m) == Edge(DnsKey(d), InstanceKey(b.instances.entries[i].data))
        && (InstanceClusterLines(b, i, false).Success? ==>
          DnsHandle(InstanceKey(b.instances.entries[i].data)) in InstanceClusterLines(b, i, false).value)
  {
    BoundValid(db);
    BoundKeepsRecords(db);
    BoundRefs(db, m);
    var d := db.dns.entries[m].data;
    ResolveCases(db, d);
    match Resolve(db, d)
    case None =>
    case Some(ToLoadBalancer(a)) =>
      BoundLoadBalancerMarks(db, a);
    case Some(ToInstance(i)) =>
      BoundInstanceMarks(db, i);
  }
}
