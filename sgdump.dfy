/** What `dump_all_sg` prints: the rules of `db["sgr"]` gathered by the
    group they belong to, each group under its printed name, the groups in
    ascending order of those names. */
module GroupDump {
  import opened Wrappers
  import opened Text
  import opened Dicts
  import opened Sorting
  import opened Tables
  import opened Security
  import opened SecurityReport
  import opened GroupReport

  // ---------------------------------------------------------------------
  // gathering the rules by group

  /** The rules of `rules` that belong to the group `id`, in order. */
  function RulesOf(rules: seq<GroupRuleData>, id: string): (r: seq<GroupRuleData>)
    ensures forall e :: e in r ==> e in rules && e.groupId == id
    decreases |rules|
  {
    if rules == [] then []
    else
      var e := rules[|rules| - 1];
      RulesOf(rules[..|rules| - 1], id) + (if e.groupId == id then [e] else [])
  }

  /** The group ids of `rules`, one per rule. */
  function GroupIds(rules: seq<GroupRuleData>): (ids: seq<string>)
    ensures |ids| == |rules| && forall i :: 0 <= i < |rules| ==> ids[i] == rules[i].groupId
  {
    seq(|rules|, i requires 0 <= i < |rules| => rules[i].groupId)
  }

  /** `groups`: `setdefault` on each rule's group id, then `append`. */
  function Grouped(rules: seq<GroupRuleData>): Dict<string, seq<GroupRuleData>>
    decreases |rules|
  {
    if rules == [] then Empty()
    else
      var groups := Grouped(rules[..|rules| - 1]);
      var e := rules[|rules| - 1];
      var group := if e.groupId in groups.entries then groups.entries[e.groupId] else [];
      Set(groups, e.groupId, group + [e])
  }

  /** The groups list each group id once, where its first rule is, and
      each group holds exactly its own rules in their order. */
  lemma {:induction false} GroupedContents(rules: seq<GroupRuleData>)
    ensures Grouped(rules).keys == Dedup(GroupIds(rules))
    ensures forall id :: id in Grouped(rules).entries ==> Grouped(rules).entries[id] == RulesOf(rules, id)
    decreases |rules|
  {
    if rules != [] {
      var n := |rules|;
      var p, e := rules[..n - 1], rules[n - 1];
      GroupedContents(p);
      assert GroupIds(rules)[..n - 1] == GroupIds(p);
      if e.groupId !in Grouped(p).entries {
        RulesOfNone(p, e.groupId);
      }
    }
  }

  /** A group id no rule has gathers no rules. */
  lemma RulesOfNone(rules: seq<GroupRuleData>, id: string)
    requires id !in GroupIds(rules)
    ensures RulesOf(rules, id) == []
  {
  }

  /** Every group holds at least one rule. */
  lemma GroupsNotEmpty(rules: seq<GroupRuleData>, id: string)
    requires id in Grouped(rules).entries
    ensures Grouped(rules).entries[id] != []
  {
    GroupedContents(rules);
    var ids := GroupIds(rules);
    assert id in Dedup(ids);
    var i :| 0 <= i < |ids| && ids[i] == id;
    RulesOfHas(rules, id, i);
  }

  lemma {:induction false} RulesOfHas(rules: seq<GroupRuleData>, id: string, i: int)
    requires 0 <= i < |rules| && rules[i].groupId == id
    ensures rules[i] in RulesOf(rules, id)
    decreases |rules|
  {
    if i < |rules| - 1 {
      RulesOfHas(rules[..|rules| - 1], id, i);
    }
  }

  // ---------------------------------------------------------------------
  // the printed names

  /** `group_names`: each group's printed name, mapped to its id; of two
      groups with one name the later one wins. */
  function GroupNames(sg: map<string, GroupData>, ids: seq<string>): Dict<string, string>
    decreases |ids|
  {
    if ids == [] then Empty()
    else
      var id := ids[|ids| - 1];
      Set(GroupNames(sg, ids[..|ids| - 1]), GroupName(sg, id), id)
  }

  /** Some group of `ids` prints under `name`. */
  ghost predicate NamedIn(sg: map<string, GroupData>, ids: seq<string>, name: string)
  {
    exists i :: 0 <= i < |ids| && GroupName(sg, ids[i]) == name
  }

  /** `ids[i]` is the last group of `ids` that prints under `name`. */
  ghost predicate LastNamed(sg: map<string, GroupData>, ids: seq<string>, i: int, name: string)
  {
    && 0 <= i < |ids| && GroupName(sg, ids[i]) == name
    && forall j :: i < j < |ids| ==> GroupName(sg, ids[j]) != name
  }

  /** The names are exactly the groups' printed names. */
  lemma {:induction false} GroupNamesKeys(sg: map<string, GroupData>, ids: seq<string>)
    ensures forall name :: name in GroupNames(sg, ids).entries <==> NamedIn(sg, ids, name)
    decreases |ids|
  {
    if ids != [] {
      var n := |ids|;
      var p := ids[..n - 1];
      GroupNamesKeys(sg, p);
      forall name ensures NamedIn(sg, p, name) ==> NamedIn(sg, ids, name) {
        if NamedIn(sg, p, name) {
          var i :| 0 <= i < n - 1 && GroupName(sg, p[i]) == name;
          assert ids[i] == p[i];
        }
      }
      forall name ensures NamedIn(sg, ids, name) ==> name == GroupName(sg, ids[n - 1]) || NamedIn(sg, p, name) {
        if NamedIn(sg, ids, name) && name != GroupName(sg, ids[n - 1]) {
          var i :| 0 <= i < n && GroupName(sg, ids[i]) == name;
          assert p[i] == ids[i];
        }
      }
    }
  }

  /** Each name maps to the last group that prints under it. */
  lemma GroupNamesLast(sg: map<string, GroupData>, ids: seq<string>)
    ensures forall name :: name in GroupNames(sg, ids).entries ==>
      exists i :: LastNamed(sg, ids, i, name) && ids[i] == GroupNames(sg, ids).entries[name]
  {
    forall name | name in GroupNames(sg, ids).entries
      ensures exists i :: LastNamed(sg, ids, i, name) && ids[i] == GroupNames(sg, ids).entries[name]
    {
      GroupNameLast(sg, ids, name);
    }
  }

  lemma {:induction false} GroupNameLast(sg: map<string, GroupData>, ids: seq<string>, name: string)
    requires name in GroupNames(sg, ids).entries
    ensures exists i :: LastNamed(sg, ids, i, name) && ids[i] == GroupNames(sg, ids).entries[name]
    decreases |ids|
  {
    var n := |ids|;
    var p := ids[..n - 1];
    var before := GroupNames(sg, p);
    assert GroupNames(sg, ids) == Set(before, GroupName(sg, ids[n - 1]), ids[n - 1]);
    if name == GroupName(sg, ids[n - 1]) {
      assert LastNamed(sg, ids, n - 1, name);
    } else {
      GroupNameLast(sg, p, name);
      var i :| LastNamed(sg, p, i, name) && p[i] == before.entries[name];
      LastNamedSnoc(sg, ids, i, name);
    }
  }

  /** A later group under another name leaves the last one under `name`
      in place. */
  lemma LastNamedSnoc(sg: map<string, GroupData>, ids: seq<string>, i: int, name: string)
    requires ids != [] && LastNamed(sg, ids[..|ids| - 1], i, name)
    requires GroupName(sg, ids[|ids| - 1]) != name
    ensures LastNamed(sg, ids, i, name) && ids[i] == ids[..|ids| - 1][i]
  {
    var p := ids[..|ids| - 1];
    forall j | i < j < |ids| ensures GroupName(sg, ids[j]) != name {
      if j < |ids| - 1 {
        assert ids[j] == p[j];
      }
    }
  }

  // ---------------------------------------------------------------------
  // one group

  const GroupColumns: seq<string> :=
    ["RuleNumber", "SrcAddr", "DstAddr", "Protocol", "SrcPort", "DstPort", "RuleAction", "Description", "Tags"]

  /** The ids listed for `id` in an index, or none. */
  function Listed(index: map<string, seq<string>>, id: string): seq<string>
  {
    if id in index then index[id] else []
  }

  /** The load balancers of a group, each once, in ascending order. */
  function GroupElbs(db: Db, id: string): (r: seq<string>)
    ensures forall x :: x in r <==> x in Listed(db.sgElb, id)
    ensures forall i, j :: 0 <= i < j < |r| ==> Less(r[i], r[j])
  {
    SortedSet(Listed(db.sgElb, id))
  }

  /** The printed names of the instances of a group, each once, in
      ascending order. */
  function GroupInstances(db: Db, id: string): (r: seq<string>)
    ensures forall x :: x in r <==> exists k :: k in Listed(db.sgInstances, id) && x == InstanceName(db.instance, k)
    ensures forall i, j :: 0 <= i < j < |r| ==> Less(r[i], r[j])
  {
    var ks := Listed(db.sgInstances, id);
    var names := seq(|ks|, i requires 0 <= i < |ks| => InstanceName(db.instance, ks[i]));
    assert forall x :: x in names <==> exists k :: k in ks && x == InstanceName(db.instance, k) by {
      forall x | x in names ensures exists k :: k in ks && x == InstanceName(db.instance, k) {
        var i :| 0 <= i < |ks| && names[i] == x;
        assert ks[i] in ks;
      }
      forall x | exists k :: k in ks && x == InstanceName(db.instance, k) ensures x in names {
        var k :| k in ks && x == InstanceName(db.instance, k);
        var i :| 0 <= i < |ks| && ks[i] == k;
        assert names[i] == x;
      }
    }
    SortedSet(names)
  }

  /** Each of `xs` on a line after `word`. */
  function Labelled(word: string, xs: seq<string>): (r: seq<string>)
    ensures |r| == |xs| && forall i :: 0 <= i < |xs| ==> r[i] == word + " " + xs[i]
  {
    seq(|xs|, i requires 0 <= i < |xs| => word + " " + xs[i])
  }

  /** The `Description` line of a group, if it has one. */
  function DescriptionLines(sg: map<string, GroupData>, id: string): seq<string>
  {
    if id in sg && sg[id].description.Some? then ["Description: " + sg[id].description.value] else []
  }

  /** What `dump_all_sg` prints for one group: an empty line, the
      heading, the description, the load balancers, the instances and the
      table of its rows sorted by `_order`. */
  function GroupBlock(db: Db, name: string, id: string, rows: seq<RuleRow>): seq<string>
  {
    ["", "Group: " + name] + DescriptionLines(db.sg, id)
    + Labelled("ELB", GroupElbs(db, id)) + Labelled("Instance", GroupInstances(db, id))
    + [Table(RowsOf(rows), GroupColumns, Some("_order"))]
  }

  // ---------------------------------------------------------------------
  // the report

  /** How the rows of a group are made: `GroupRows` in the report. */
  type RowMaker = seq<GroupRuleData> -> Result<seq<RuleRow>>

  /** The blocks of the groups named in `order`, one after the other, or
      the failure of the first group whose rows fail. */
  function GroupBlocks(db: Db, groups: Dict<string, seq<GroupRuleData>>, names: Dict<string, string>, order: seq<string>, rowsOf: RowMaker)
    : Result<seq<string>>
    requires forall n :: n in order ==> n in names.entries && names.entries[n] in groups.entries
    decreases |order|
  {
    if order == [] then Success([])
    else
      var before :- GroupBlocks(db, groups, names, order[..|order| - 1], rowsOf);
      var name := order[|order| - 1];
      var id := names.entries[name];
      var rows :- rowsOf(groups.entries[id]);
      Success(before + GroupBlock(db, name, id, rows))
  }

  /** The printed name of each group and the group it names, in the order
      `dump_all_sg` prints them. */
  function Printed(db: Db): (r: (Dict<string, seq<GroupRuleData>>, Dict<string, string>, seq<string>))
    ensures forall n :: n in r.2 ==> n in r.1.entries && r.1.entries[n] in r.0.entries
  {
    var groups := Grouped(Values(db.sgr));
    var names := GroupNames(db.sg, groups.keys);
    var order := SortStrings(names.keys);
    SortStringsMembers(names.keys);
    GroupNamesLast(db.sg, groups.keys);
    assert forall n :: n in order ==> n in names.entries && names.entries[n] in groups.entries by {
      forall n | n in order ensures names.entries[n] in groups.entries {
        var i :| LastNamed(db.sg, groups.keys, i, n) && groups.keys[i] == names.entries[n];
      }
    }
    (groups, names, order)
  }

  /** `dump_all_sg`. */
  function SgReport(db: Db): Result<seq<string>>
  {
    var (groups, names, order) := Printed(db);
    GroupBlocks(db, groups, names, order, GroupRows)
  }

  /** Every group in `order` has rows. */
  ghost predicate AllRowsOk(groups: Dict<string, seq<GroupRuleData>>, names: Dict<string, string>, order: seq<string>, rowsOf: RowMaker)
    requires forall n :: n in order ==> n in names.entries && names.entries[n] in groups.entries
  {
    forall k :: 0 <= k < |order| ==> rowsOf(groups.entries[names.entries[order[k]]]).Success?
  }

  /** The block of each group in `order`. */
  function Blocks(db: Db, groups: Dict<string, seq<GroupRuleData>>, names: Dict<string, string>, order: seq<string>, rowsOf: RowMaker)
    : (bs: seq<seq<string>>)
    requires forall n :: n in order ==> n in names.entries && names.entries[n] in groups.entries
    requires AllRowsOk(groups, names, order, rowsOf)
    ensures |bs| == |order|
  {
    seq(|order|, k requires 0 <= k < |order| =>
      var id := names.entries[order[k]];
      GroupBlock(db, order[k], id, rowsOf(groups.entries[id]).value))
  }

  /** The blocks succeed exactly when the rows of every group do. */
  lemma {:induction false} GroupBlocksSucceed(db: Db, groups: Dict<string, seq<GroupRuleData>>, names: Dict<string, string>, order: seq<string>, rowsOf: RowMaker)
    requires forall n :: n in order ==> n in names.entries && names.entries[n] in groups.entries
    ensures GroupBlocks(db, groups, names, order, rowsOf).Success? <==> AllRowsOk(groups, names, order, rowsOf)
    decreases |order|
  {
    if order != [] {
      var n := |order|;
      var p := order[..n - 1];
      var rows := rowsOf(groups.entries[names.entries[order[n - 1]]]);
      GroupBlocksSucceed(db, groups, names, p, rowsOf);
      assert GroupBlocks(db, groups, names, order, rowsOf).Success? <==> GroupBlocks(db, groups, names, p, rowsOf).Success? && rows.Success? by {
        GroupBlocksSnoc(db, groups, names, order, rowsOf, n - 1);
        assert order[..n] == order;
      }
      AllRowsOkSnoc(groups, names, order, rowsOf);
    }
  }

  lemma AllRowsOkSnoc(groups: Dict<string, seq<GroupRuleData>>, names: Dict<string, string>, order: seq<string>, rowsOf: RowMaker)
    requires forall n :: n in order ==> n in names.entries && names.entries[n] in groups.entries
    requires order != []
    ensures var n := |order|;
      AllRowsOk(groups, names, order, rowsOf) <==>
        AllRowsOk(groups, names, order[..n - 1], rowsOf) && rowsOf(groups.entries[names.entries[order[n - 1]]]).Success?
  {
    var n := |order|;
    var p := order[..n - 1];
    if AllRowsOk(groups, names, order, rowsOf) {
      forall k | 0 <= k < n - 1 ensures rowsOf(groups.entries[names.entries[p[k]]]).Success? {
        assert p[k] == order[k];
      }
    }
    if AllRowsOk(groups, names, p, rowsOf) && rowsOf(groups.entries[names.entries[order[n - 1]]]).Success? {
      forall k | 0 <= k < n ensures rowsOf(groups.entries[names.entries[order[k]]]).Success? {
        if k < n - 1 {
          assert p[k] == order[k];
        }
      }
    }
  }

  /** When they succeed, the blocks are the groups' blocks, one after the
      other. */
  lemma {:induction false} GroupBlocksValue(db: Db, groups: Dict<string, seq<GroupRuleData>>, names: Dict<string, string>, order: seq<string>, rowsOf: RowMaker)
    requires forall n :: n in order ==> n in names.entries && names.entries[n] in groups.entries
    requires AllRowsOk(groups, names, order, rowsOf)
    ensures GroupBlocks(db, groups, names, order, rowsOf) == Success(Concat(Blocks(db, groups, names, order, rowsOf)))
    decreases |order|
  {
    if order != [] {
      var n := |order|;
      var p := order[..n - 1];
      AllRowsOkSnoc(groups, names, order, rowsOf);
      GroupBlocksValue(db, groups, names, p, rowsOf);
      var bs, cs := Blocks(db, groups, names, order, rowsOf), Blocks(db, groups, names, p, rowsOf);
      BlocksPrefix(db, groups, names, order, rowsOf);
      assert Concat(bs) == Concat(cs) + bs[n - 1];
      GroupBlocksSnoc(db, groups, names, order, rowsOf, n - 1);
      assert order[..n] == order;
    }
  }

  /** The blocks of all but the last group are the first blocks. */
  lemma BlocksPrefix(db: Db, groups: Dict<string, seq<GroupRuleData>>, names: Dict<string, string>, order: seq<string>, rowsOf: RowMaker)
    requires forall n :: n in order ==> n in names.entries && names.entries[n] in groups.entries
    requires order != [] && AllRowsOk(groups, names, order, rowsOf)
    requires AllRowsOk(groups, names, order[..|order| - 1], rowsOf)
    ensures Blocks(db, groups, names, order, rowsOf)[..|order| - 1] == Blocks(db, groups, names, order[..|order| - 1], rowsOf)
  {
    var p := order[..|order| - 1];
    assert forall k :: 0 <= k < |p| ==> p[k] == order[k];
  }

  /** Once a group has failed, the groups after it change nothing. */
  lemma {:induction false} GroupBlocksFailed(db: Db, groups: Dict<string, seq<GroupRuleData>>, names: Dict<string, string>, order: seq<string>, rowsOf: RowMaker, j: int)
    requires forall n :: n in order ==> n in names.entries && names.entries[n] in groups.entries
    requires 0 <= j <= |order| && GroupBlocks(db, groups, names, order[..j], rowsOf).Failure?
    ensures GroupBlocks(db, groups, names, order, rowsOf) == GroupBlocks(db, groups, names, order[..j], rowsOf)
    decreases |order| - j
  {
    if j < |order| {
      assert order[..j + 1][..j] == order[..j];
      GroupBlocksFailed(db, groups, names, order, rowsOf, j + 1);
    } else {
      assert order[..j] == order;
    }
  }

  /** Printing one more group appends its block. */
  lemma GroupBlocksSnoc(db: Db, groups: Dict<string, seq<GroupRuleData>>, names: Dict<string, string>, order: seq<string>, rowsOf: RowMaker, j: int)
    requires forall n :: n in order ==> n in names.entries && names.entries[n] in groups.entries
    requires 0 <= j < |order|
    ensures var id := names.entries[order[j]];
      var before, rows, after := GroupBlocks(db, groups, names, order[..j], rowsOf), rowsOf(groups.entries[id]),
        GroupBlocks(db, groups, names, order[..j + 1], rowsOf);
      && (before.Failure? ==> after == Failure(before.error))
      && (before.Success? && rows.Failure? ==> after == Failure(rows.error))
      && (before.Success? && rows.Success? ==> after == Success(before.value + GroupBlock(db, order[j], id, rows.value)))
  {
    assert order[..j + 1][..j] == order[..j];
  }

  // ---------------------------------------------------------------------
  // what the report promises

  /** The group `id` is printed: it has rules, and it is the last group
      printing under its name. */
  ghost predicate Shown(db: Db, id: string)
  {
    var (groups, names, order) := Printed(db);
    && id in groups.entries
    && GroupName(db.sg, id) in names.entries
    && names.entries[GroupName(db.sg, id)] == id
  }

  /** `SgReport`, built from the corrected rows, fails exactly when the
      tags of some rule of a printed group cannot be converted. (As
      written, `dump_all_sg` also raises `UnboundLocalError` when the first
      rule it converts names neither an IPv4 block nor a group; see
      `GroupReport.UnboundAddress`.) The model then returns only the
      exception, not the blocks printed before it. */
  lemma SgReportSucceeds(db: Db)
    ensures SgReport(db).Success? <==>
      forall id :: Shown(db, id) ==> GroupRows(RulesOf(Values(db.sgr), id)).Success?
  {
    var (groups, names, order) := Printed(db);
    GroupBlocksSucceed(db, groups, names, order, GroupRows);
    GroupedContents(Values(db.sgr));
    GroupNamesLast(db.sg, groups.keys);
    SortStringsMembers(names.keys);
    if AllRowsOk(groups, names, order, GroupRows) {
      forall id | Shown(db, id) ensures GroupRows(RulesOf(Values(db.sgr), id)).Success? {
        var k :| 0 <= k < |order| && order[k] == GroupName(db.sg, id);
      }
    } else {
      var k :| 0 <= k < |order| && GroupRows(groups.entries[names.entries[order[k]]]).Failure?;
      var id := names.entries[order[k]];
      var i :| LastNamed(db.sg, groups.keys, i, order[k]) && groups.keys[i] == id;
      assert Shown(db, id);
    }
  }

  /** When it prints, `dump_all_sg` prints each group's block in strictly
      ascending order of the printed names, and every group of every rule
      has its name among them. */
  lemma SgReportShape(db: Db)
    requires SgReport(db).Success?
    ensures var (groups, names, order) := Printed(db);
      && (forall i, j :: 0 <= i < j < |order| ==> Less(order[i], order[j]))
      && (forall e :: e in Values(db.sgr) ==> GroupName(db.sg, e.groupId) in order)
      && AllRowsOk(groups, names, order, GroupRows)
      && SgReport(db).value == Concat(Blocks(db, groups, names, order, GroupRows))
  {
    var (groups, names, order) := Printed(db);
    var rules := Values(db.sgr);
    GroupBlocksSucceed(db, groups, names, order, GroupRows);
    GroupBlocksValue(db, groups, names, order, GroupRows);
    SortStringsAscending(names.keys);
    SortStringsMembers(names.keys);
    GroupedContents(rules);
    GroupNamesKeys(db.sg, groups.keys);
    forall e | e in rules ensures GroupName(db.sg, e.groupId) in order {
      var i :| 0 <= i < |rules| && rules[i] == e;
      assert GroupIds(rules)[i] == e.groupId;
      assert e.groupId in groups.keys;
      var j :| 0 <= j < |groups.keys| && groups.keys[j] == e.groupId;
      assert NamedIn(db.sg, groups.keys, GroupName(db.sg, e.groupId));
    }
  }

  /** The `k`-th block printed is that of a group printing under the
      `k`-th name, and it lists that group's rules. */
  lemma SgReportBlock(db: Db, k: int)
    requires SgReport(db).Success?
    requires 0 <= k < |Printed(db).2|
    ensures var (groups, names, order) := Printed(db);
      var id := names.entries[order[k]];
      && Shown(db, id) && GroupName(db.sg, id) == order[k]
      && groups.entries[id] == RulesOf(Values(db.sgr), id)
      && GroupRows(RulesOf(Values(db.sgr), id)).Success?
  {
    var (groups, names, order) := Printed(db);
    GroupBlocksSucceed(db, groups, names, order, GroupRows);
    GroupedContents(Values(db.sgr));
    GroupNamesLast(db.sg, groups.keys);
    var id := names.entries[order[k]];
    var i :| LastNamed(db.sg, groups.keys, i, order[k]) && groups.keys[i] == id;
  }

  // ---------------------------------------------------------------------
  // the loops

  /** The rule loop of `dump_all_sg` for one group. */
  method GroupRowLoop(entries: seq<GroupRuleData>) returns (r: Result<seq<RuleRow>>)
    ensures r == GroupRows(entries)
  {
    var own := e => GroupRule(e, Peer(e));
    var rows, failed := RuleLoop(entries, own);
    if failed < |entries| {
      RowsFailAt(entries, failed);
      return Failure(own(entries[failed]).error);
    }
    RowsAll(entries, rows);
    return Success(rows);
  }

  /** The rows `row` makes of the rules one by one, up to the first rule
      it fails on, if any: `failed` is its index, or the number of rules. */
  method RuleLoop(entries: seq<GroupRuleData>, row: GroupRuleData -> Result<RuleRow>)
    returns (rows: seq<RuleRow>, failed: nat)
    ensures failed <= |entries|
    ensures failed < |entries| ==> row(entries[failed]).Failure?
    ensures forall k :: 0 <= k < failed ==> row(entries[k]).Success?
    ensures failed == |entries| ==>
      |rows| == |entries| && forall k :: 0 <= k < |entries| ==> row(entries[k]) == Success(rows[k])
  {
    rows := [];
    for i := 0 to |entries|
      invariant |rows| == i
      invariant forall k :: 0 <= k < i ==> row(entries[k]) == Success(rows[k])
    {
      var rule := row(entries[i]);
      if rule.Failure? {
        return rows, i;
      }
      rows := rows + [rule.value];
    }
    failed := |entries|;
  }

  /** Rows made one by one are the rows of the group. */
  lemma RowsAll(entries: seq<GroupRuleData>, rows: seq<RuleRow>)
    requires |rows| == |entries|
    requires forall k :: 0 <= k < |entries| ==> GroupRule(entries[k], Peer(entries[k])) == Success(rows[k])
    ensures GroupRows(entries) == Success(rows)
  {
    AllValuesOf(GroupResults(entries), rows);
  }

  /** The first rule that fails fails the group. */
  lemma RowsFailAt(entries: seq<GroupRuleData>, i: int)
    requires 0 <= i < |entries| && GroupRule(entries[i], Peer(entries[i])).Failure?
    requires forall k :: 0 <= k < i ==> GroupRule(entries[k], Peer(entries[k])).Success?
    ensures GroupRows(entries) == Failure(GroupRule(entries[i], Peer(entries[i])).error)
  {
    AllValuesFailAt(GroupResults(entries), i);
  }

  /** The loop of `dump_all_sg` that gathers the rules by group. */
  method GatherLoop(rules: seq<GroupRuleData>) returns (groups: Dict<string, seq<GroupRuleData>>)
    ensures groups == Grouped(rules)
  {
    groups := Empty();
    for i := 0 to |rules|
      invariant groups == Grouped(rules[..i])
    {
      assert rules[..i + 1][..i] == rules[..i];
      var rule := rules[i];
      var group := if rule.groupId in groups.entries then groups.entries[rule.groupId] else [];
      groups := Set(groups, rule.groupId, group + [rule]);
    }
    assert rules[..|rules|] == rules;
  }

  /** The loop of `dump_all_sg` that names the groups. */
  method NameLoop(sg: map<string, GroupData>, ids: seq<string>) returns (names: Dict<string, string>)
    ensures names == GroupNames(sg, ids)
  {
    names := Empty();
    for i := 0 to |ids|
      invariant names == GroupNames(sg, ids[..i])
    {
      assert ids[..i + 1][..i] == ids[..i];
      names := Set(names, GroupName(sg, ids[i]), ids[i]);
    }
    assert ids[..|ids|] == ids;
  }

  /** The loop of `dump_all_sg` that prints the groups named in `order`. */
  method PrintLoop(db: Db, groups: Dict<string, seq<GroupRuleData>>, names: Dict<string, string>, order: seq<string>)
    returns (r: Result<seq<string>>)
    requires forall n :: n in order ==> n in names.entries && names.entries[n] in groups.entries
    ensures r == GroupBlocks(db, groups, names, order, GroupRows)
  {
    var out: seq<string> := [];
    for j := 0 to |order|
      invariant GroupBlocks(db, groups, names, order[..j], GroupRows) == Success(out)
    {
      var name := order[j];
      var id := names.entries[name];
      GroupBlocksSnoc(db, groups, names, order, GroupRows, j);
      var rows := GroupRowLoop(groups.entries[id]);
      if rows.Failure? {
        GroupBlocksFailed(db, groups, names, order, GroupRows, j + 1);
        return Failure(rows.error);
      }
      var table := StrTable(RowsOf(rows.value), GroupColumns, Some("_order"));
      out := out + (["", "Group: " + name] + DescriptionLines(db.sg, id)
        + Labelled("ELB", GroupElbs(db, id)) + Labelled("Instance", GroupInstances(db, id)) + [table]);
    }
    assert order[..|order|] == order;
    return Success(out);
  }

  /** `dump_all_sg`, loop by loop. */
  method DumpAllSg(db: Db) returns (r: Result<seq<string>>)
    ensures r == SgReport(db)
  {
    var groups := GatherLoop(Values(db.sgr));
    var names := NameLoop(db.sg, groups.keys);
    var order := SortStrings(names.keys);
    assert Printed(db) == (groups, names, order);
    r := PrintLoop(db, groups, names, order);
  }
}
