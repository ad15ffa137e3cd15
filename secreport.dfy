/** What `report_security.py` prints: for every network ACL and for every
    security group with rules, a heading and a table of rule rows, each row
    carrying an `_order` value the table is sorted by. */
module SecurityReport {
  import opened Wrappers
  import opened Text
  import opened Dicts
  import opened Sorting
  import opened Tags
  import opened Tables
  import opened SortKeys
  import opened Security

  // ---------------------------------------------------------------------
  // port ranges

  /** A port range as the reports show it: the port itself when the range
      holds one port, otherwise `From-To`. */
  function RangeCell(from: int, to: int): Cell
  {
    if from == to then Int(from) else Str(IntToString(from) + "-" + IntToString(to))
  }

  lemma NoDashInDigits(s: string)
    requires AllDigits(s, 10)
    ensures '-' !in s
  {
    forall i | 0 <= i < |s| ensures s[i] != '-' {
      assert IsHexDigit(s[i]);
    }
  }

  /** A printed single port reads back as that port. */
  lemma PortCellReadBack(port: nat)
    ensures ParseInt(Show(RangeCell(port, port))) == Some(port)
  {
    ParseIntToString(port);
  }

  /** A printed range of ports gives its ends back: two numbers either
      side of the only dash. */
  lemma RangeCellReadBack(from: nat, to: nat)
    requires from != to
    ensures var parts := Split(Show(RangeCell(from, to)), '-');
      |parts| == 2 && ParseInt(parts[0]) == Some(from) && ParseInt(parts[1]) == Some(to)
  {
    var a, b := NatToString(from), NatToString(to);
    assert Show(RangeCell(from, to)) == a + "-" + b;
    NoDashInDigits(a);
    NoDashInDigits(b);
    SplitAround(a, '-', b);
    ParseIntToString(from);
    ParseIntToString(to);
  }

  lemma SplitAround(a: string, c: char, b: string)
    requires c !in a && c !in b
    ensures Split(a + [c] + b, c) == [a, b]
  {
    var s := a + [c] + b;
    IndexOfAfterPrefix(a, c, b);
    assert s[..|a|] == a && s[|a| + 1..] == b;
    assert Split(b, c) == [b];
  }

  // ---------------------------------------------------------------------
  // ACL rules

  /** `getprotobynumber(proto)`, a call into the C library: the name of a
      protocol number, or `None` where the library has no entry and
      reading its null result raises `ValueError`. */
  type ProtocolNames = int -> Option<string>

  /** The `PortRange` an ACL entry shows: its range, or `*` when the entry
      has none. */
  function AclPorts(p: Option<PortRange>): Cell
  {
    match p
    case Some(r) => RangeCell(r.from, r.to)
    case None => Str("*")
  }

  /** The `Protocol` an ACL rule shows: `*` for `-1`, otherwise the name
      of the protocol number. */
  function AclProtocol(protocol: string, names: ProtocolNames): (r: Result<string>)
    ensures r.Failure? ==> r.error.ValueError?
    ensures r.Success? <==> ParseInt(protocol).Some? && (ParseInt(protocol).value == -1 || names(ParseInt(protocol).value).Some?)
    ensures ParseInt(protocol) == Some(-1) ==> r == Success("*")
  {
    match ParseInt(protocol)
    case None => Failure(ValueError("invalid literal for int()"))
    case Some(n) =>
      if n == -1 then Success("*")
      else
        match names(n)
        case None => Failure(ValueError("NULL pointer access"))
        case Some(name) => Success(name)
  }

  /** A rule row of either table: ACL rows carry a rule number, group
      rows may carry a description and tags. */
  datatype RuleRow = RuleRow(
    ruleNumber: Option<int>, protocol: string, ruleAction: string,
    description: Option<string>, tags: Option<Dict<string, string>>,
    srcAddr: Cell, dstAddr: Cell, srcPort: Cell, dstPort: Cell, order: Cell)

  /** The row as the dict the table printer reads. */
  function Cells(r: RuleRow): (row: Row)
    ensures "_order" in row && row["_order"] == r.order
    ensures "RuleNumber" in row <==> r.ruleNumber.Some?
    ensures "Description" in row <==> r.description.Some?
    ensures "Tags" in row <==> r.tags.Some?
  {
    var base := map[
      "Protocol" := Str(r.protocol), "RuleAction" := Str(r.ruleAction),
      "SrcAddr" := r.srcAddr, "DstAddr" := r.dstAddr, "SrcPort" := r.srcPort, "DstPort" := r.dstPort,
      "_order" := r.order];
    var numbered := if r.ruleNumber.Some? then base["RuleNumber" := Int(r.ruleNumber.value)] else base;
    var described := if r.description.Some? then numbered["Description" := Str(r.description.value)] else numbered;
    if r.tags.Some? then described["Tags" := Mapping(r.tags.value)] else described
  }

  /** The row `dump_all_acl` derives from one entry. Converting the
      protocol fails first; an entry without an IPv4 block then fails
      with `KeyError`. A row holds the entry's number, protocol and
      action; for an outbound entry the block is the destination and the
      range the source port, for an inbound one the other way round, with
      `*` in the two remaining places; its order is the rule number plus
      one tenth for an outbound rule. */
  function AclRule(e: AclEntry, names: ProtocolNames): (r: Result<RuleRow>)
    ensures r.Success? <==> AclProtocol(e.protocol, names).Success? && e.cidrBlock.Some?
    ensures AclProtocol(e.protocol, names).Failure? ==> r == Failure(AclProtocol(e.protocol, names).error)
    ensures AclProtocol(e.protocol, names).Success? && e.cidrBlock.None? ==> r == Failure(KeyError("CidrBlock"))
    ensures r.Success? ==>
      && r.value.ruleNumber == Some(e.ruleNumber)
      && r.value.protocol == AclProtocol(e.protocol, names).value
      && r.value.ruleAction == e.ruleAction
      && r.value.description.None? && r.value.tags.None?
      && (e.egress ==>
            && r.value.srcAddr == Str("*") && r.value.dstAddr == Str(e.cidrBlock.value)
            && r.value.srcPort == AclPorts(e.portRange) && r.value.dstPort == Str("*"))
      && (!e.egress ==>
            && r.value.srcAddr == Str(e.cidrBlock.value) && r.value.dstAddr == Str("*")
            && r.value.srcPort == Str("*") && r.value.dstPort == AclPorts(e.portRange))
      && r.value.order == Decimal(10 * e.ruleNumber + if e.egress then 1 else 0)
  {
    var protocol :- AclProtocol(e.protocol, names);
    if e.cidrBlock.None? then Failure(KeyError("CidrBlock"))
    else
      var cidr, ports := Str(e.cidrBlock.value), AclPorts(e.portRange);
      Success(RuleRow(
        Some(e.ruleNumber), protocol, e.ruleAction, None, None,
        if e.egress then Str("*") else cidr,
        if e.egress then cidr else Str("*"),
        if e.egress then ports else Str("*"),
        if e.egress then Str("*") else ports,
        Decimal(10 * e.ruleNumber + if e.egress then 1 else 0)))
  }

  /** Rows sort by rule number, and for one number the inbound rule comes
      before the outbound one. */
  lemma AclRuleOrder(e: AclEntry, f: AclEntry, names: ProtocolNames)
    requires AclRule(e, names).Success? && AclRule(f, names).Success?
    ensures Before(OrderKey("_order")(Cells(AclRule(e, names).value)), OrderKey("_order")(Cells(AclRule(f, names).value))) <==>
      e.ruleNumber < f.ruleNumber || (e.ruleNumber == f.ruleNumber && !e.egress && f.egress)
  {
  }

  /** Turning an entry from inbound to outbound swaps the two ends of its
      row and keeps everything else but the order. */
  lemma AclRuleMirror(e: AclEntry, names: ProtocolNames)
    requires AclRule(e, names).Success?
    ensures AclRule(e.(egress := !e.egress), names).Success?
    ensures var r, m := AclRule(e, names).value, AclRule(e.(egress := !e.egress), names).value;
      && r.srcAddr == m.dstAddr && r.dstAddr == m.srcAddr && r.srcPort == m.dstPort && r.dstPort == m.srcPort
      && r.ruleNumber == m.ruleNumber && r.protocol == m.protocol && r.ruleAction == m.ruleAction
  {
  }

  function AclResults(entries: seq<AclEntry>, names: ProtocolNames): (rs: seq<Result<RuleRow>>)
    ensures |rs| == |entries| && forall i :: 0 <= i < |entries| ==> rs[i] == AclRule(entries[i], names)
  {
    seq(|entries|, i requires 0 <= i < |entries| => AclRule(entries[i], names))
  }

  /** The rules of one ACL: a row per entry, in entry order, or the first
      entry's failure. */
  function AclRules(entries: seq<AclEntry>, names: ProtocolNames): (r: Result<seq<RuleRow>>)
    ensures r.Success? <==> forall i :: 0 <= i < |entries| ==> AclRule(entries[i], names).Success?
    ensures r.Success? ==> (|r.value| == |entries| &&
      forall i :: 0 <= i < |entries| ==> r.value[i] == AclRule(entries[i], names).value)
    ensures r.Failure? ==> exists i :: (0 <= i < |entries| && AclRule(entries[i], names) == Failure(r.error) &&
      forall j :: 0 <= j < i ==> AclRule(entries[j], names).Success?)
  {
    AllValues(AclResults(entries, names))
  }

  /** The entry loop of `dump_all_acl` for one ACL: each entry's port
      range and protocol made printable, then its rule row appended. */
  method AclRuleLoop(entries: seq<AclEntry>, names: ProtocolNames) returns (r: Result<seq<RuleRow>>)
    ensures r == AclRules(entries, names)
  {
    ghost var rs := AclResults(entries, names);
    var rules: seq<RuleRow> := [];
    for i := 0 to |entries|
      invariant AllValues(rs[..i]) == Success(rules)
    {
      AllValuesStep(rs, i, rules);
      var rule := AclRuleOf(entries[i], names);
      if rule.Failure? {
        return Failure(rule.error);
      }
      rules := rules + [rule.value];
    }
    assert rs[..|entries|] == rs;
    r := Success(rules);
  }

  /** The body of the entry loop: the entry's port range and protocol made
      printable, then its rule row. */
  method AclRuleOf(entry: AclEntry, names: ProtocolNames) returns (r: Result<RuleRow>)
    ensures r == AclRule(entry, names)
  {
    var ports := if entry.portRange.Some? then RangeCell(entry.portRange.value.from, entry.portRange.value.to) else Str("*");
    var protocol := AclProtocol(entry.protocol, names);
    if protocol.Failure? {
      return Failure(protocol.error);
    }
    if entry.cidrBlock.None? {
      return Failure(KeyError("CidrBlock"));
    }
    var rule := RuleRow(Some(entry.ruleNumber), protocol.value, entry.ruleAction, None, None, Str("*"), Str("*"), Str("*"), Str("*"), Decimal(0));
    if entry.egress {
      rule := rule.(dstAddr := Str(entry.cidrBlock.value), srcPort := ports, order := Decimal(10 * entry.ruleNumber + 1));
    } else {
      rule := rule.(srcAddr := Str(entry.cidrBlock.value), dstPort := ports, order := Decimal(10 * entry.ruleNumber));
    }
    return Success(rule);
  }


  // ---------------------------------------------------------------------
  // dump_all_acl

  /** An ACL as `dump_all_acl` keeps it under its printed name. */
  datatype AclSection = AclSection(vpcId: string, rules: seq<RuleRow>)

  const AclColumns: seq<string> := ["RuleNumber", "SrcAddr", "DstAddr", "Protocol", "SrcPort", "DstPort", "RuleAction"]

  /** How the entries of one ACL become its rows: `AclRules` with the
      protocol names at hand. */
  type Converter = seq<AclEntry> -> Result<seq<RuleRow>>

  function RulesWith(names: ProtocolNames): Converter
  {
    entries => AclRules(entries, names)
  }

  /** The first loop of `dump_all_acl` over the ACL ids `ks`, in load
      order: each ACL under its printed name, a later ACL replacing an
      earlier one of the same name; the first entry that fails stops it. */
  function NamedAcls(acl: Dict<string, AclData>, ks: seq<string>, convert: Converter): Result<Dict<string, AclSection>>
    requires forall k :: k in ks ==> k in acl.entries
    decreases |ks|
  {
    if ks == [] then Success(Empty())
    else
      var n := |ks|;
      var acls :- NamedAcls(acl, ks[..n - 1], convert);
      var id := ks[n - 1];
      var rules :- convert(acl.entries[id].entries);
      Success(Set(acls, AclName(acl, id), AclSection(acl.entries[id].vpcId, rules)))
  }

  /** Whether the ACL `id` is kept under `name` with the rows of its
      entries. */
  predicate KeptAs(acl: Dict<string, AclData>, id: string, convert: Converter, name: string, sec: AclSection)
    requires id in acl.entries
  {
    && AclName(acl, id) == name
    && sec.vpcId == acl.entries[id].vpcId
    && convert(acl.entries[id].entries) == Success(sec.rules)
  }

  /** The loop fails exactly when some ACL has an entry that cannot be
      converted; otherwise every ACL's name is kept, and what each name
      holds is an ACL of that name with its rows. */
  lemma NamedAclsContents(acl: Dict<string, AclData>, ks: seq<string>, convert: Converter)
    requires forall k :: k in ks ==> k in acl.entries
    ensures NamedAcls(acl, ks, convert).Success? <==>
      forall i :: 0 <= i < |ks| ==> convert(acl.entries[ks[i]].entries).Success?
    ensures NamedAcls(acl, ks, convert).Success? ==>
      var acls := NamedAcls(acl, ks, convert).value;
      && (forall i :: 0 <= i < |ks| ==> AclName(acl, ks[i]) in acls.entries)
      && (forall n :: n in acls.entries ==> exists i :: 0 <= i < |ks| && KeptAs(acl, ks[i], convert, n, acls.entries[n]))
  {
    NamedAclsSucceed(acl, ks, convert);
    if NamedAcls(acl, ks, convert).Success? {
      NamedAclsNames(acl, ks, convert);
      NamedAclsKept(acl, ks, convert);
    }
  }

  /** Every ACL of `ks` converts. */
  ghost predicate AllConvert(acl: Dict<string, AclData>, ks: seq<string>, convert: Converter)
    requires forall k :: k in ks ==> k in acl.entries
  {
    forall i :: 0 <= i < |ks| ==> convert(acl.entries[ks[i]].entries).Success?
  }

  /** The loop succeeds exactly when every ACL converts. */
  lemma {:induction false} NamedAclsSucceed(acl: Dict<string, AclData>, ks: seq<string>, convert: Converter)
    requires forall k :: k in ks ==> k in acl.entries
    ensures NamedAcls(acl, ks, convert).Success? <==> AllConvert(acl, ks, convert)
    decreases |ks|
  {
    if ks != [] {
      var n := |ks|;
      var prefix := ks[..n - 1];
      NamedAclsSucceed(acl, prefix, convert);
      AllConvertSnoc(acl, ks, convert);
    }
  }

  lemma AllConvertSnoc(acl: Dict<string, AclData>, ks: seq<string>, convert: Converter)
    requires forall k :: k in ks ==> k in acl.entries
    requires ks != []
    ensures AllConvert(acl, ks, convert) <==>
      AllConvert(acl, ks[..|ks| - 1], convert) && convert(acl.entries[ks[|ks| - 1]].entries).Success?
  {
    var prefix := ks[..|ks| - 1];
    assert forall i :: 0 <= i < |prefix| ==> prefix[i] == ks[i];
  }

  /** When the loop succeeds, every ACL's printed name is kept. */
  lemma {:induction false} NamedAclsNames(acl: Dict<string, AclData>, ks: seq<string>, convert: Converter)
    requires forall k :: k in ks ==> k in acl.entries
    requires NamedAcls(acl, ks, convert).Success?
    ensures forall i :: 0 <= i < |ks| ==> AclName(acl, ks[i]) in NamedAcls(acl, ks, convert).value.entries
    decreases |ks|
  {
    if ks != [] {
      var n := |ks|;
      var prefix := ks[..n - 1];
      NamedAclsNames(acl, prefix, convert);
      var before := NamedAcls(acl, prefix, convert).value;
      var after := NamedAcls(acl, ks, convert).value;
      assert after.entries.Keys == before.entries.Keys + {AclName(acl, ks[n - 1])};
      NamesSnoc(acl, ks, prefix, after.entries.Keys);
    }
  }

  /** The names of all ACLs are in `names` when those of all but the last
      are and the last one's is. */
  lemma NamesSnoc(acl: Dict<string, AclData>, ks: seq<string>, prefix: seq<string>, names: set<string>)
    requires ks != [] && prefix == ks[..|ks| - 1] && forall k :: k in ks ==> k in acl.entries
    requires forall i :: 0 <= i < |prefix| ==> AclName(acl, prefix[i]) in names
    requires AclName(acl, ks[|ks| - 1]) in names
    ensures forall i :: 0 <= i < |ks| ==> AclName(acl, ks[i]) in names
  {
    forall i | 0 <= i < |ks| ensures AclName(acl, ks[i]) in names {
      if i < |prefix| {
        assert ks[i] == prefix[i];
      }
    }
  }

  /** When the loop succeeds, each kept name holds an ACL of that name
      with its rows. */
  lemma {:induction false} NamedAclsKept(acl: Dict<string, AclData>, ks: seq<string>, convert: Converter)
    requires forall k :: k in ks ==> k in acl.entries
    requires NamedAcls(acl, ks, convert).Success?
    ensures var acls := NamedAcls(acl, ks, convert).value;
      forall m :: m in acls.entries ==> exists i :: 0 <= i < |ks| && KeptAs(acl, ks[i], convert, m, acls.entries[m])
    decreases |ks|
  {
    if ks != [] {
      var n := |ks|;
      var prefix := ks[..n - 1];
      NamedAclsKept(acl, prefix, convert);
      var before := NamedAcls(acl, prefix, convert).value;
      var acls := NamedAcls(acl, ks, convert).value;
      var name := AclName(acl, ks[n - 1]);
      assert acls.entries == before.entries[name := AclSection(acl.entries[ks[n - 1]].vpcId, convert(acl.entries[ks[n - 1]].entries).value)];
      forall m | m in acls.entries
        ensures exists i :: 0 <= i < n && KeptAs(acl, ks[i], convert, m, acls.entries[m])
      {
        if m == name {
          assert KeptAs(acl, ks[n - 1], convert, m, acls.entries[m]);
        } else {
          var i :| 0 <= i < n - 1 && KeptAs(acl, prefix[i], convert, m, before.entries[m]);
          assert prefix[i] == ks[i];
          assert KeptAs(acl, ks[i], convert, m, acls.entries[m]);
        }
      }
    }
  }

  /** Once the loop has failed, the ACLs after it change nothing. */
  lemma {:induction false} NamedAclsFailed(acl: Dict<string, AclData>, ks: seq<string>, convert: Converter, j: int)
    requires forall k :: k in ks ==> k in acl.entries
    requires 0 <= j <= |ks| && NamedAcls(acl, ks[..j], convert).Failure?
    ensures NamedAcls(acl, ks, convert) == NamedAcls(acl, ks[..j], convert)
    decreases |ks| - j
  {
    if j < |ks| {
      assert ks[..j + 1][..j] == ks[..j];
      NamedAclsFailed(acl, ks, convert, j + 1);
    } else {
      assert ks[..j] == ks;
    }
  }

  /** One more ACL converted: the loop of `dump_all_acl` keeps it. */
  lemma NamedAclsSnoc(acl: Dict<string, AclData>, ks: seq<string>, convert: Converter, i: int,
                      acls: Dict<string, AclSection>, rules: seq<RuleRow>)
    requires forall k :: k in ks ==> k in acl.entries
    requires 0 <= i < |ks| && convert(acl.entries[ks[i]].entries) == Success(rules)
    requires NamedAcls(acl, ks[..i], convert) == Success(acls)
    ensures NamedAcls(acl, ks[..i + 1], convert) ==
      Success(Set(acls, AclName(acl, ks[i]), AclSection(acl.entries[ks[i]].vpcId, rules)))
  {
    assert ks[..i + 1][..i] == ks[..i];
  }

  /** Once an ACL's rules fail, the loop ends with that failure. */
  lemma NamedAclsFailure(acl: Dict<string, AclData>, ks: seq<string>, convert: Converter, i: int)
    requires forall k :: k in ks ==> k in acl.entries
    requires 0 <= i < |ks| && convert(acl.entries[ks[i]].entries).Failure?
    requires NamedAcls(acl, ks[..i], convert).Success?
    ensures NamedAcls(acl, ks, convert) == Failure(convert(acl.entries[ks[i]].entries).error)
  {
    var upTo := ks[..i + 1];
    assert upTo[..i] == ks[..i];
    assert NamedAcls(acl, upTo, convert) == Failure(convert(acl.entries[ks[i]].entries).error);
    NamedAclsFailed(acl, ks, convert, i + 1);
  }

  /** The rows of a table, as the dicts the printer reads. */
  function RowsOf(rules: seq<RuleRow>): (rows: seq<Row>)
    ensures |rows| == |rules| && forall i :: 0 <= i < |rules| ==> rows[i] == Cells(rules[i])
  {
    seq(|rules|, i requires 0 <= i < |rules| => Cells(rules[i]))
  }

  /** The `vpc` printed after an ACL's name: the VPC's printed name, or
      nothing for an ACL without a VPC. */
  function VpcPart(vpc: map<string, VpcData>, vpcId: string): string
  {
    if vpcId == "" then "" else "(Vpc: " + VpcName(vpc, vpcId) + ")"
  }

  /** What `dump_all_acl` prints for one ACL: an empty line, the heading,
      and the table of its rules sorted by `_order`. */
  function AclBlock(vpc: map<string, VpcData>, name: string, sec: AclSection): seq<string>
  {
    ["", "Acl: " + name + " " + VpcPart(vpc, sec.vpcId), Table(RowsOf(sec.rules), AclColumns, Some("_order"))]
  }

  /** The block of each ACL named in `order`. */
  function AclBlockList(vpc: map<string, VpcData>, acls: Dict<string, AclSection>, order: seq<string>): (bs: seq<seq<string>>)
    requires forall n :: n in order ==> n in acls.entries
    ensures |bs| == |order|
    ensures forall k :: 0 <= k < |order| ==> bs[k] == AclBlock(vpc, order[k], acls.entries[order[k]]) && |bs[k]| == 3
  {
    seq(|order|, k requires 0 <= k < |order| => AclBlock(vpc, order[k], acls.entries[order[k]]))
  }

  /** The blocks of the ACLs named in `order`, one after the other. */
  function AclBlocks(vpc: map<string, VpcData>, acls: Dict<string, AclSection>, order: seq<string>): (r: seq<string>)
    requires forall n :: n in order ==> n in acls.entries
    ensures |r| == 3 * |order|
  {
    ConcatLength(AclBlockList(vpc, acls, order));
    Concat(AclBlockList(vpc, acls, order))
  }

  lemma AclBlocksAt(vpc: map<string, VpcData>, acls: Dict<string, AclSection>, order: seq<string>, i: int)
    requires forall n :: n in order ==> n in acls.entries
    requires 0 <= i < |order|
    ensures AclBlocks(vpc, acls, order)[3 * i..3 * i + 3] == AclBlock(vpc, order[i], acls.entries[order[i]])
  {
    var bs := AclBlockList(vpc, acls, order);
    ConcatAt(bs, i);
  }

  /** Printing one more ACL appends its block. */
  lemma AclBlocksSnoc(vpc: map<string, VpcData>, acls: Dict<string, AclSection>, order: seq<string>, j: int)
    requires forall n :: n in order ==> n in acls.entries
    requires 0 <= j < |order|
    ensures AclBlocks(vpc, acls, order[..j + 1]) == AclBlocks(vpc, acls, order[..j]) + AclBlock(vpc, order[j], acls.entries[order[j]])
  {
    var bs, cs := AclBlockList(vpc, acls, order[..j + 1]), AclBlockList(vpc, acls, order[..j]);
    assert bs[..j] == cs;
    assert Concat(bs) == Concat(cs) + bs[j];
  }

  /** The lines of several blocks, in order. */
  function Concat<T>(blocks: seq<seq<T>>): seq<T>
    decreases |blocks|
  {
    if blocks == [] then [] else Concat(blocks[..|blocks| - 1]) + blocks[|blocks| - 1]
  }

  lemma {:induction false} ConcatLength<T>(blocks: seq<seq<T>>)
    requires forall k :: 0 <= k < |blocks| ==> |blocks[k]| == 3
    ensures |Concat(blocks)| == 3 * |blocks|
    decreases |blocks|
  {
    if blocks != [] {
      ConcatLength(blocks[..|blocks| - 1]);
    }
  }

  /** Blocks of three lines each: the `i`-th occupies lines `3 * i` up to
      `3 * i + 3`. */
  lemma {:induction false} ConcatAt<T>(blocks: seq<seq<T>>, i: int)
    requires forall k :: 0 <= k < |blocks| ==> |blocks[k]| == 3
    requires 0 <= i < |blocks|
    ensures 3 * i + 3 <= |Concat(blocks)|
    ensures Concat(blocks)[3 * i..3 * i + 3] == blocks[i]
    decreases |blocks|
  {
    var n := |blocks|;
    var prefix := blocks[..n - 1];
    var a := Concat(prefix);
    var whole := Concat(blocks);
    assert whole == a + blocks[n - 1];
    ConcatLength(prefix);
    if i < n - 1 {
      ConcatAt(prefix, i);
      assert prefix[i] == blocks[i];
      assert whole[3 * i..3 * i + 3] == a[3 * i..3 * i + 3];
    } else {
      assert whole[|a|..|a| + 3] == blocks[i];
    }
  }

  /** `dump_all_acl`, loop by loop: the first loop converts each ACL's
      entries and keeps them under the ACL's printed name, the second
      prints the ACLs in order of those names. */
  method DumpAllAcl(db: Db, names: ProtocolNames) returns (r: Result<seq<string>>)
    ensures r == AclReport(db, names)
  {
    var acls := KeepAcls(db.acl, names);
    if acls.Failure? {
      return Failure(acls.error);
    }
    var out := PrintAcls(db.vpc, acls.value);
    return Success(out);
  }

  /** The first loop of `dump_all_acl`. */
  method KeepAcls(acl: Dict<string, AclData>, names: ProtocolNames) returns (r: Result<Dict<string, AclSection>>)
    ensures r == NamedAcls(acl, acl.keys, RulesWith(names))
  {
    var ks := acl.keys;
    var acls: Dict<string, AclSection> := Empty();
    var i := 0;
    while i < |ks|
      invariant 0 <= i <= |ks|
      invariant NamedAcls(acl, ks[..i], RulesWith(names)) == Success(acls)
    {
      var id := ks[i];
      var rules := AclRuleLoop(acl.entries[id].entries, names);
      if rules.Failure? {
        NamedAclsFailure(acl, ks, RulesWith(names), i);
        return Failure(rules.error);
      }
      NamedAclsSnoc(acl, ks, RulesWith(names), i, acls, rules.value);
      acls := Set(acls, AclName(acl, id), AclSection(acl.entries[id].vpcId, rules.value));
      i := i + 1;
    }
    assert ks[..i] == ks;
    return Success(acls);
  }

  /** The second loop of `dump_all_acl`: the ACLs in order of their
      printed names. */
  method PrintAcls(vpc: map<string, VpcData>, acls: Dict<string, AclSection>) returns (out: seq<string>)
    ensures (SortStringsMembers(acls.keys); out == AclBlocks(vpc, acls, SortStrings(acls.keys)))
  {
    var order := SortStrings(acls.keys);
    SortStringsMembers(acls.keys);
    out := [];
    for j := 0 to |order|
      invariant out == AclBlocks(vpc, acls, order[..j])
    {
      var sec := acls.entries[order[j]];
      var table := StrTable(RowsOf(sec.rules), AclColumns, Some("_order"));
      var shown := if sec.vpcId == "" then "" else "(Vpc: " + VpcName(vpc, sec.vpcId) + ")";
      AclBlocksSnoc(vpc, acls, order, j);
      out := out + ["", "Acl: " + order[j] + " " + shown, table];
    }
    assert order[..|order|] == order;
  }

  /** `dump_all_acl`: the ACLs in ascending order of their printed names. */
  function AclReport(db: Db, names: ProtocolNames): Result<seq<string>>
  {
    var acls :- NamedAcls(db.acl, db.acl.keys, RulesWith(names));
    SortStringsMembers(acls.keys);
    Success(AclBlocks(db.vpc, acls, SortStrings(acls.keys)))
  }

  /** The printed names of the ACLs, in the order `dump_all_acl` prints
      them. */
  function AclOrder(db: Db, names: ProtocolNames): seq<string>
    requires NamedAcls(db.acl, db.acl.keys, RulesWith(names)).Success?
  {
    SortStrings(NamedAcls(db.acl, db.acl.keys, RulesWith(names)).value.keys)
  }

  /** `dump_all_acl` prints nothing but an exception exactly when some
      entry of some ACL cannot be converted. */
  lemma AclReportSucceeds(db: Db, names: ProtocolNames)
    ensures AclReport(db, names).Success? <==>
      forall k :: k in db.acl.entries ==> AclRules(db.acl.entries[k].entries, names).Success?
  {
    var ks := db.acl.keys;
    NamedAclsSucceed(db.acl, ks, RulesWith(names));
    if AllConvert(db.acl, ks, RulesWith(names)) {
      forall k | k in db.acl.entries ensures AclRules(db.acl.entries[k].entries, names).Success? {
        var i :| 0 <= i < |ks| && ks[i] == k;
        assert RulesWith(names)(db.acl.entries[ks[i]].entries).Success?;
      }
    } else {
      var i :| 0 <= i < |ks| && RulesWith(names)(db.acl.entries[ks[i]].entries).Failure?;
      assert AclRules(db.acl.entries[ks[i]].entries, names).Failure?;
    }
  }

  /** When it prints, `dump_all_acl` prints three lines per printed name,
      the names in strictly ascending order and every ACL's name among
      them. */
  lemma AclReportShape(db: Db, names: ProtocolNames)
    requires AclReport(db, names).Success?
    ensures var out, order := AclReport(db, names).value, AclOrder(db, names);
      && |out| == 3 * |order|
      && (forall i, j :: 0 <= i < j < |order| ==> Less(order[i], order[j]))
      && (forall k :: k in db.acl.entries ==> AclName(db.acl, k) in order)
  {
    var ks := db.acl.keys;
    NamedAclsContents(db.acl, ks, RulesWith(names));
    var acls := NamedAcls(db.acl, ks, RulesWith(names)).value;
    SortStringsAscending(acls.keys);
    SortStringsMembers(acls.keys);
    forall k | k in db.acl.entries ensures AclName(db.acl, k) in AclOrder(db, names) {
      var i :| 0 <= i < |ks| && ks[i] == k;
    }
  }

  /** The `i`-th ACL printed: its heading and its table are those of an
      ACL with that printed name, the table listing that ACL's rows. */
  lemma AclReportBlock(db: Db, names: ProtocolNames, i: int)
    requires NamedAcls(db.acl, db.acl.keys, RulesWith(names)).Success?
    requires 0 <= i < |AclOrder(db, names)|
    ensures var out, name := AclReport(db, names).value, AclOrder(db, names)[i];
      exists k :: k in db.acl.entries && AclName(db.acl, k) == name
        && AclRules(db.acl.entries[k].entries, names).Success?
        && out[3 * i..3 * i + 3] == [
             "", "Acl: " + name + " " + VpcPart(db.vpc, db.acl.entries[k].vpcId),
             Table(RowsOf(AclRules(db.acl.entries[k].entries, names).value), AclColumns, Some("_order"))]
  {
    var ks := db.acl.keys;
    var acls := NamedAcls(db.acl, ks, RulesWith(names)).value;
    var order := AclOrder(db, names);
    var name := order[i];
    assert name in acls.entries by {
      SortStringsMembers(acls.keys);
    }
    NamedAclsKept(db.acl, ks, RulesWith(names));
    var j :| 0 <= j < |ks| && KeptAs(db.acl, ks[j], RulesWith(names), name, acls.entries[name]);
    var k := ks[j];
    assert AclRules(db.acl.entries[k].entries, names) == Success(acls.entries[name].rules);
    assert AclReport(db, names).value[3 * i..3 * i + 3] == AclBlock(db.vpc, name, acls.entries[name]) by {
      SortStringsMembers(acls.keys);
      AclBlocksAt(db.vpc, acls, order, i);
    }
  }
}
