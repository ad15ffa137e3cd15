/** What `report_security.py` prints for its security groups
    (`dump_all_sg`): the rules grouped by the group they belong to, one
    block per printed group name with the group's description, its load
    balancers and instances, and a table of its rules sorted by ports
    and addresses. */
module GroupReport {
  import opened Wrappers
  import opened Text
  import opened Dicts
  import opened Sorting
  import opened Tags
  import opened Tables
  import opened SortKeys
  import opened Security
  import opened SecurityReport

  // ---------------------------------------------------------------------
  // one rule

  /** The `PortRange` a group rule shows: `*` for a rule over all ports
      (both ends `-1`), otherwise the port or the range. */
  function GroupPorts(from: int, to: int): Cell
  {
    if from == to && from == -1 then Str("*") else RangeCell(from, to)
  }

  /** The `Protocol` a group rule shows: `*` for `-1`, otherwise the
      protocol as recorded. */
  function GroupProtocol(p: string): string
  {
    if p == "-1" then "*" else p
  }

  /** The `Tags` of a group row: `KeyError` for a record without `Tags`,
      no column for an empty list, otherwise `tags_to_sane` of the list,
      which fails on a repeated key. */
  function GroupTags(tags: Option<seq<Tag>>): (r: Result<Option<Dict<string, string>>>)
    ensures r.Failure? <==> tags.None? || (tags.value != [] && HasDuplicateKey(tags.value))
    ensures tags.None? ==> r == Failure(KeyError("Tags"))
    ensures r.Success? && r.value.Some? ==> tags.Some? && forall i :: 0 <= i < |tags.value| ==>
      tags.value[i].key in r.value.value.entries && r.value.value.entries[tags.value[i].key] == tags.value[i].value
  {
    match tags
    case None => Failure(KeyError("Tags"))
    case Some(ts) =>
      if ts == [] then Success(None)
      else
        SaneTagsContents(ts);
        var d :- SaneTags(ts);
        Success(Some(d))
  }

  /** The `_order` of a group row: the sortable forms of its source and
      destination ports and of its source and destination addresses,
      joined with dots. */
  function GroupOrder(srcPort: Cell, dstPort: Cell, srcAddr: string, dstAddr: string): string
    requires !srcPort.Mapping? && !dstPort.Mapping?
  {
    Join([PortSortable(srcPort), PortSortable(dstPort), IpSortable(srcAddr), IpSortable(dstAddr)], ".")
  }

  /** The row `dump_all_sg` builds from a rule whose peer (the address
      block or group it names) is `peer`. Only the tags can fail. The row
      allows the rule's protocol; an outbound rule goes from `$this` to
      the peer with the rule's ports as source ports, an inbound one from
      the peer to `$this` with them as destination ports, `*` standing for
      the other ports. */
  function GroupRule(e: GroupRuleData, peer: string): (r: Result<RuleRow>)
    ensures r.Success? <==> GroupTags(e.tags).Success?
    ensures r.Failure? ==> r.error == GroupTags(e.tags).error
    ensures r.Success? ==>
      && r.value.ruleNumber.None?
      && r.value.protocol == GroupProtocol(e.ipProtocol)
      && r.value.ruleAction == "ALLOW"
      && r.value.description == e.description
      && r.value.tags == GroupTags(e.tags).value
      && (e.isEgress ==>
            r.value.srcAddr == Str("$this") && r.value.dstAddr == Str(peer)
            && r.value.srcPort == GroupPorts(e.fromPort, e.toPort) && r.value.dstPort == Str("*"))
      && (!e.isEgress ==>
            r.value.srcAddr == Str(peer) && r.value.dstAddr == Str("$this")
            && r.value.srcPort == Str("*") && r.value.dstPort == GroupPorts(e.fromPort, e.toPort))
  {
    var tags :- GroupTags(e.tags);
    var ports := GroupPorts(e.fromPort, e.toPort);
    var src, dst := if e.isEgress then "$this" else peer, if e.isEgress then peer else "$this";
    var srcPort, dstPort := if e.isEgress then ports else Str("*"), if e.isEgress then Str("*") else ports;
    Success(RuleRow(
      None, GroupProtocol(e.ipProtocol), "ALLOW", e.description, tags,
      Str(src), Str(dst), srcPort, dstPort, Str(GroupOrder(srcPort, dstPort, src, dst))))
  }

  /** The peer a rule names: the group it references, else its IPv4
      block, else nothing. */
  function Peer(e: GroupRuleData): string
  {
    if e.referencedGroup.Some? then e.referencedGroup.value
    else if e.cidrIpv4.Some? then e.cidrIpv4.value
    else ""
  }

  /** Whether the rule names its peer by one of the two fields the report
      reads. */
  predicate NamesPeer(e: GroupRuleData)
  {
    e.referencedGroup.Some? || e.cidrIpv4.Some?
  }

  /** The row of each rule of one group, each showing the rule's own peer. */
  function GroupResults(entries: seq<GroupRuleData>): (rs: seq<Result<RuleRow>>)
    ensures |rs| == |entries| && forall i :: 0 <= i < |entries| ==> rs[i] == GroupRule(entries[i], Peer(entries[i]))
  {
    seq(|entries|, i requires 0 <= i < |entries| => GroupRule(entries[i], Peer(entries[i])))
  }

  /** The rows of one group: a row per rule, in the group's order, each
      showing the rule's own peer, or the first rule's failure. */
  function GroupRows(entries: seq<GroupRuleData>): (r: Result<seq<RuleRow>>)
    ensures r.Success? <==> forall i :: 0 <= i < |entries| ==> GroupTags(entries[i].tags).Success?
    ensures r.Success? ==> (
      && |r.value| == |entries|
      && forall i :: 0 <= i < |entries| ==> GroupRule(entries[i], Peer(entries[i])) == Success(r.value[i]))
  {
    AllValues(GroupResults(entries))
  }

  /** Flipping a rule's direction swaps the ends of its row: the
      addresses change places, and the ports move between source and
      destination. */
  lemma GroupRuleMirror(e: GroupRuleData, peer: string)
    requires GroupTags(e.tags).Success?
    ensures var a, b := GroupRule(e, peer).value, GroupRule(e.(isEgress := !e.isEgress), peer).value;
      && a.srcAddr == b.dstAddr && a.dstAddr == b.srcAddr
      && a.srcPort == b.dstPort && a.dstPort == b.srcPort
      && a.protocol == b.protocol && a.tags == b.tags && a.description == b.description
  {
  }

  // ---------------------------------------------------------------------
  // the address as written

  /** The `addr` a rule leaves in `dump_all_sg`: the group it references
      if any, else its IPv4 block if any, else what the rules before it
      left. */
  function NextAddr(e: GroupRuleData, addr: Option<string>): Option<string>
  {
    if e.referencedGroup.Some? then e.referencedGroup
    else if e.cidrIpv4.Some? then e.cidrIpv4
    else addr
  }

  /** The rows of one group as `dump_all_sg` builds them: `addr` is one
      local variable shared by every rule of every group, so a rule that
      names no peer shows the peer of the rule before it, and raises
      `UnboundLocalError` (a `NameError`) when no rule has set it yet.
      The tags are converted before the address is read. Also returns the
      `addr` left for the next group. */
  function GroupRowsAsWritten(entries: seq<GroupRuleData>, addr: Option<string>): Result<(seq<RuleRow>, Option<string>)>
    decreases |entries|
  {
    if entries == [] then Success(([], addr))
    else
      var e := entries[0];
      var tags :- GroupTags(e.tags);
      var a := NextAddr(e, addr);
      if a.None? then Failure(NameError("addr"))
      else
        var row :- GroupRule(e, a.value);
        var rest :- GroupRowsAsWritten(entries[1..], a);
        Success(([row] + rest.0, rest.1))
  }

  /** As long as every rule names its peer, the shared variable is always
      fresh, and the rows as written are the rows of `GroupRows`. */
  lemma {:induction false} AsWrittenAgrees(entries: seq<GroupRuleData>, addr: Option<string>)
    requires forall i :: 0 <= i < |entries| ==> NamesPeer(entries[i])
    ensures GroupRowsAsWritten(entries, addr).Success? <==> GroupRows(entries).Success?
    ensures GroupRowsAsWritten(entries, addr).Success? ==>
      GroupRowsAsWritten(entries, addr).value.0 == GroupRows(entries).value
    decreases |entries|
  {
    if entries != [] {
      var e, later := entries[0], entries[1..];
      assert entries == [e] + later;
      assert NamesPeer(e) && NextAddr(e, addr) == Some(Peer(e));
      assert forall i :: 0 <= i < |later| ==> later[i] == entries[i + 1];
      AsWrittenAgrees(later, NextAddr(e, addr));
      RowsStep(e, later);
    }
  }

  /** A rule whose peer is an IPv4 block followed by one that names no
      peer (an IPv6 block, say), both inbound: as written, the second row
      claims the first rule's block as its source, where `GroupRows`
      shows no IPv4 peer. */
  lemma StaleAddressShown(first: GroupRuleData, second: GroupRuleData, block: string)
    requires first.cidrIpv4 == Some(block) && first.referencedGroup.None? && !NamesPeer(second)
    requires first.tags == Some([]) && second.tags == Some([])
    requires !first.isEgress && !second.isEgress
    ensures GroupRowsAsWritten([first, second], None).Success?
    ensures |GroupRowsAsWritten([first, second], None).value.0| == 2
    ensures GroupRowsAsWritten([first, second], None).value.0[1].srcAddr == Str(block)
  {
    assert GroupTags(first.tags) == Success(None) && GroupTags(second.tags) == Success(None);
    var r2 := GroupRule(second, block).value;
    assert r2.srcAddr == Str(block);
    StaleRows(first, second, block);
  }

  /** The rows of those two rules as written: both show the first
      rule's block. */
  lemma StaleRows(first: GroupRuleData, second: GroupRuleData, block: string)
    requires first.cidrIpv4 == Some(block) && first.referencedGroup.None? && !NamesPeer(second)
    requires GroupTags(first.tags).Success? && GroupTags(second.tags).Success?
    ensures GroupRowsAsWritten([first, second], None)
      == Success(([GroupRule(first, block).value, GroupRule(second, block).value], Some(block)))
  {
    var x := Some(block);
    assert NextAddr(first, None) == x && NextAddr(second, x) == x;
    var r1, r2 := GroupRule(first, block).value, GroupRule(second, block).value;
    AsWrittenOne(second, x);
    AsWrittenCons(first, [second], None);
    Pair(first, second);
    Pair(r1, r2);
  }

  /** Two singletons make a pair. */
  lemma Pair<T>(a: T, b: T)
    ensures [a] + [b] == [a, b]
  {
  }

  /** One rule, as written. */
  lemma AsWrittenOne(e: GroupRuleData, addr: Option<string>)
    requires GroupTags(e.tags).Success? && NextAddr(e, addr).Some?
    ensures GroupRowsAsWritten([e], addr) == Success(([GroupRule(e, NextAddr(e, addr).value).value], NextAddr(e, addr)))
  {
    var none: seq<GroupRuleData> := [];
    AsWrittenStep(e, none, addr);
    assert [e] + none == [e];
    var row := GroupRule(e, NextAddr(e, addr).value).value;
    assert [row] + [] == [row];
  }

  /** A rule in front of rows that succeed, as written. */
  lemma AsWrittenCons(e: GroupRuleData, rest: seq<GroupRuleData>, addr: Option<string>)
    requires GroupTags(e.tags).Success? && NextAddr(e, addr).Some?
    requires GroupRowsAsWritten(rest, NextAddr(e, addr)).Success?
    ensures var later := GroupRowsAsWritten(rest, NextAddr(e, addr)).value;
      GroupRowsAsWritten([e] + rest, addr) == Success(([GroupRule(e, NextAddr(e, addr).value).value] + later.0, later.1))
  {
    AsWrittenStep(e, rest, addr);
  }

  /** The same two rules in `GroupRows`: the second row shows no IPv4
      peer. */
  lemma OwnPeerShown(first: GroupRuleData, second: GroupRuleData, block: string)
    requires first.cidrIpv4 == Some(block) && first.referencedGroup.None? && !NamesPeer(second)
    requires first.tags == Some([]) && second.tags == Some([])
    requires !first.isEgress && !second.isEgress
    ensures GroupRows([first, second]).Success? && |GroupRows([first, second]).value| == 2
    ensures GroupRows([first, second]).value[0].srcAddr == Str(block)
    ensures GroupRows([first, second]).value[1].srcAddr == Str("")
  {
    assert GroupTags(first.tags) == Success(None) && GroupTags(second.tags) == Success(None);
  }

  /** One rule, then the rest, as written. */
  lemma AsWrittenStep(e: GroupRuleData, rest: seq<GroupRuleData>, addr: Option<string>)
    requires GroupTags(e.tags).Success? && NextAddr(e, addr).Some?
    ensures var later := GroupRowsAsWritten(rest, NextAddr(e, addr));
      later.Success? ==> (
        GroupRowsAsWritten([e] + rest, addr) ==
        Success(([GroupRule(e, NextAddr(e, addr).value).value] + later.value.0, later.value.1)))
  {
    assert ([e] + rest)[0] == e && ([e] + rest)[1..] == rest;
  }

  /** One rule, then the rest: the group's rows are the first rule's row
      followed by the rows of the others, or a failure. */
  lemma RowsStep(e: GroupRuleData, rest: seq<GroupRuleData>)
    ensures GroupRows([e] + rest).Success? <==> GroupTags(e.tags).Success? && GroupRows(rest).Success?
    ensures GroupRows([e] + rest).Success? ==>
      GroupRows([e] + rest).value == [GroupRule(e, Peer(e)).value] + GroupRows(rest).value
  {
    assert GroupResults([e] + rest) == [GroupRule(e, Peer(e))] + GroupResults(rest);
    AllValuesCons(GroupRule(e, Peer(e)), GroupResults(rest));
  }

  /** A group whose first rule names no peer, printed before any rule has
      set the variable, ends the report with `NameError`. */
  lemma UnboundAddress(e: GroupRuleData, rest: seq<GroupRuleData>)
    requires !NamesPeer(e) && e.tags == Some([])
    ensures GroupRowsAsWritten([e] + rest, None) == Failure(NameError("addr"))
  {
    assert ([e] + rest)[0] == e;
  }

  // ---------------------------------------------------------------------
  // the order of the rows

  /** The sort key of a row in its table. */
  function RowKey(r: RuleRow): SortKey
  {
    OrderKey("_order")(Cells(r))
  }

  /** An inbound rule over one port from the block `a.b.c.d/n`. */
  predicate InboundFrom(e: GroupRuleData, q: seq<nat>, n: nat)
  {
    && !e.isEgress && e.fromPort == e.toPort && 0 <= e.toPort <= 999999
    && IsQuad(q) && n <= 999999
    && Peer(e) == Dotted(q) + "/" + NatToString(n)
    && GroupTags(e.tags).Success?
  }

  /** `*` is no number: it sorts as port 0. */
  lemma StarSortable()
    ensures PortSortable(Str("*")) == "000000"
  {
    NotANumber("*");
  }

  /** A single character that is no digit, sign or space is no number. */
  lemma NotANumber(s: string)
    requires |s| == 1 && !IsDecimalDigit(s[0]) && !IsSpace(s[0]) && s[0] != '-' && s[0] != '+'
    ensures ParseInt(s) == None
  {
    StripUnchanged(s);
  }

  /** `$this` is no address: it sorts as 0.0.0.0. */
  lemma ThisSortable()
    ensures IpSortable("$this") == "00000000"
  {
    var self := "$this";
    assert '.' !in self && '/' !in self;
    assert Split(self, '.') == [self];
    assert Aton(self).None?;
  }

  /** The `_order` of an inbound rule over one port from a block: "all
      ports", the port, the block, and `$this`, each in its sortable
      form. */
  lemma InboundOrder(e: GroupRuleData, q: seq<nat>, n: nat)
    requires InboundFrom(e, q, n)
    ensures GroupRule(e, Peer(e)).Success?
    ensures RowKey(GroupRule(e, Peer(e)).value) ==
      Textual(Join(["000000", PortSortable(Int(e.toPort)), HexAddress(q) + "/" + PortSortable(Int(n)), "00000000"], "."))
  {
    var peer := Peer(e);
    var ports := GroupPorts(e.fromPort, e.toPort);
    assert ports == Int(e.toPort);
    var r := GroupRule(e, peer).value;
    assert r.order == Str(GroupOrder(Str("*"), ports, peer, "$this"));
    InboundOrderText(e.toPort, q, n);
    assert Cells(r)["_order"] == r.order;
  }

  /** The `_order` text of an inbound rule over port `p` from the block
      `a.b.c.d/n`. */
  lemma InboundOrderText(p: int, q: seq<nat>, n: nat)
    requires IsQuad(q)
    ensures GroupOrder(Str("*"), Int(p), Dotted(q) + "/" + NatToString(n), "$this") ==
      Join(["000000", PortSortable(Int(p)), HexAddress(q) + "/" + PortSortable(Int(n)), "00000000"], ".")
  {
    StarSortable();
    ThisSortable();
    IpSortableOfCidr(q, n);
  }

  /** The sortable form of a block, followed by the rest of a key,
      orders blocks by address, then by prefix length. */
  lemma CidrKeyOrder(p: seq<nat>, n: nat, q: seq<nat>, m: nat, t: string)
    requires IsQuad(p) && IsQuad(q) && n <= 999999 && m <= 999999
    ensures var c, d := HexAddress(p) + "/" + PortSortable(Int(n)), HexAddress(q) + "/" + PortSortable(Int(m));
      Less(c + t, d + t) <==> Address(p) < Address(q) || (Address(p) == Address(q) && n < m)
  {
    var he, hf := HexAddress(p), HexAddress(q);
    var ne, nf := PortSortable(Int(n)), PortSortable(Int(m));
    HexAddressValue(p);
    HexAddressValue(q);
    IpSortableOrder(p, q);
    IpSortableOrder(q, p);
    assert he == hf <==> Address(p) == Address(q) by {
      if he != hf {
        LessTotal(he, hf);
      }
    }
    PortSortableDigits(n);
    PortSortableDigits(m);
    PortSortableOrder(n, m);
    Regroup(he, "/", ne, t);
    Regroup(hf, "/", nf, t);
    LessByParts(he, "/" + (ne + t), hf, "/" + (nf + t));
    if he == hf {
      LessPrefix("/", ne + t, nf + t);
      LessByParts(ne, t, nf, t);
      LessIrreflexive(t);
    }
  }

  /** An inbound table lists its rules by destination port, then by the
      address of the source block, then by its prefix length. */
  lemma InboundRowOrder(e: GroupRuleData, p: seq<nat>, n: nat, f: GroupRuleData, q: seq<nat>, m: nat)
    requires InboundFrom(e, p, n) && InboundFrom(f, q, m)
    ensures GroupRule(e, Peer(e)).Success? && GroupRule(f, Peer(f)).Success?
    ensures Before(RowKey(GroupRule(e, Peer(e)).value), RowKey(GroupRule(f, Peer(f)).value)) <==>
      || e.toPort < f.toPort
      || (e.toPort == f.toPort && Address(p) < Address(q))
      || (e.toPort == f.toPort && Address(p) == Address(q) && n < m)
  {
    InboundOrder(e, p, n);
    InboundOrder(f, q, m);
    var ke := Join(["000000", PortSortable(Int(e.toPort)), HexAddress(p) + "/" + PortSortable(Int(n)), "00000000"], ".");
    var kf := Join(["000000", PortSortable(Int(f.toPort)), HexAddress(q) + "/" + PortSortable(Int(m)), "00000000"], ".");
    assert RowKey(GroupRule(e, Peer(e)).value) == Textual(ke);
    assert RowKey(GroupRule(f, Peer(f)).value) == Textual(kf);
    assert Before(Textual(ke), Textual(kf)) == Less(ke, kf);
    InboundKeyOrder(e.toPort, p, n, f.toPort, q, m);
  }

  /** The `_order` texts of two inbound rules compare by port, then by the
      address of the block, then by its prefix length. */
  lemma InboundKeyOrder(a: int, p: seq<nat>, n: nat, b: int, q: seq<nat>, m: nat)
    requires 0 <= a <= 999999 && 0 <= b <= 999999 && IsQuad(p) && IsQuad(q) && n <= 999999 && m <= 999999
    ensures var se, sf := PortSortable(Int(a)), PortSortable(Int(b));
      var ce, cf := HexAddress(p) + "/" + PortSortable(Int(n)), HexAddress(q) + "/" + PortSortable(Int(m));
      Less(Join(["000000", se, ce, "00000000"], "."), Join(["000000", sf, cf, "00000000"], ".")) <==>
        || a < b
        || (a == b && Address(p) < Address(q))
        || (a == b && Address(p) == Address(q) && n < m)
  {
    var se, sf := PortSortable(Int(a)), PortSortable(Int(b));
    var ce, cf := HexAddress(p) + "/" + PortSortable(Int(n)), HexAddress(q) + "/" + PortSortable(Int(m));
    var t := "." + "00000000";
    Join4("000000", se, ce, "00000000", ".");
    Join4("000000", sf, cf, "00000000", ".");
    PortSortableDigits(a);
    PortSortableDigits(b);
    PortSortableOrder(a, b);
    LessPrefix("000000", "." + (se + ("." + (ce + t))), "." + (sf + ("." + (cf + t))));
    LessPrefix(".", se + ("." + (ce + t)), sf + ("." + (cf + t)));
    LessByParts(se, "." + (ce + t), sf, "." + (cf + t));
    LessPrefix(".", ce + t, cf + t);
    CidrKeyOrder(p, n, q, m, t);
  }
}
