/** `report_ipaddrs.py`: every IPv4 address the dump knows of, the private
    and public addresses of the network interfaces and the blocks of the
    subnets, printed as one table ordered by address. */
module IpAddrs {
  import opened Wrappers
  import opened Dicts
  import opened Records
  import opened Tags
  import opened Tables
  import opened Sorting
  import opened SortKeys
  import Security

  // ---------------------------------------------------------------------
  // the records

  /** An instance; only its tags are read, for its name. */
  datatype InstanceData = InstanceData(tags: seq<Tag>)

  /** A network interface. `attachedInstance` is the `InstanceId` of its
      `Attachment` when it has one, `tags` is `None` when the record has
      no `Tags`, and `publicIp` is the `PublicIp` of its `Association`
      when it has one. */
  datatype InterfaceData = InterfaceData(
    attachedInstance: Option<string>, tags: Option<seq<Tag>>, description: string,
    subnetId: string, vpcId: string, publicIp: Option<string>, privateIp: string)

  datatype SubnetData = SubnetData(
    cidrBlock: string, subnetId: string, vpcId: string,
    availableIpAddressCount: int, tags: Option<seq<Tag>>)

  /** The `specifics` of a record, by its `datatype` string. */
  datatype Specifics =
    | InstanceRecord(instance: InstanceData)    // aws.ec2.instances
    | InterfaceRecord(iface: InterfaceData)     // aws.ec2.network_interfaces
    | SubnetRecord(subnet: SubnetData)          // aws.ec2.subnets
    | OtherRecord(kind: string)

  datatype Record = Record(metadata: Metadata, specifics: Specifics)

  /** The global `db`. Interfaces and subnets are printed in the order of
      their dicts, so those keep their insertion order. */
  datatype Db = Db(
    instance: map<string, InstanceData>,
    networkInterface: Dict<string, InterfaceData>,
    subnet: Dict<string, SubnetData>)

  function EmptyDb(): Db
  {
    Db(map[], Empty(), Empty())
  }

  // ---------------------------------------------------------------------
  // load_data

  /** `data_add_instance`, `data_add_network_interface` and
      `data_add_subnet` behind the datatype dispatch of `load_data`. */
  function Register(db: Db, id: string, s: Specifics): Db
  {
    match s
    case InstanceRecord(d) => db.(instance := db.instance[id := d])
    case InterfaceRecord(d) => db.(networkInterface := Set(db.networkInterface, id, d))
    case SubnetRecord(d) => db.(subnet := Set(db.subnet, id, d))
    case OtherRecord(_) => db
  }

  /** One record of `load_data`: skipped by the profile and region
      filters, otherwise stored by its datatype under its resource id. */
  function Ingest(db: Db, rec: Record, profiles: seq<string>, regions: seq<string>): (r: Db)
    ensures Skipped(rec.metadata, profiles, regions) || rec.specifics.OtherRecord? ==> r == db
  {
    if Skipped(rec.metadata, profiles, regions) then db else Register(db, rec.metadata.resourceid, rec.specifics)
  }

  function IngestAll(db: Db, recs: seq<Record>, profiles: seq<string>, regions: seq<string>): Db
    decreases |recs|
  {
    if recs == [] then db
    else Ingest(IngestAll(db, recs[..|recs| - 1], profiles, regions), recs[|recs| - 1], profiles, regions)
  }

  /** Whether two records go to the same store. */
  predicate SameKind(s: Specifics, t: Specifics)
  {
    && (s.InstanceRecord? <==> t.InstanceRecord?)
    && (s.InterfaceRecord? <==> t.InterfaceRecord?)
    && (s.SubnetRecord? <==> t.SubnetRecord?)
  }

  /** What `db` holds under `id` in the store that records of kind `s`
      go to; nothing for the datatypes that are not stored. */
  function Stored(db: Db, s: Specifics, id: string): Option<Specifics>
  {
    match s
    case InstanceRecord(_) => if id in db.instance then Some(InstanceRecord(db.instance[id])) else None
    case InterfaceRecord(_) =>
      if id in db.networkInterface.entries then Some(InterfaceRecord(db.networkInterface.entries[id])) else None
    case SubnetRecord(_) => if id in db.subnet.entries then Some(SubnetRecord(db.subnet.entries[id])) else None
    case OtherRecord(_) => None
  }

  /** Whether `rec` is a selected record of kind `s` for `id`. */
  predicate Loads(rec: Record, profiles: seq<string>, regions: seq<string>, s: Specifics, id: string)
  {
    && !Skipped(rec.metadata, profiles, regions)
    && SameKind(rec.specifics, s)
    && rec.metadata.resourceid == id
  }

  /** A record replaces what its own store holds under its own id, and
      touches nothing else. */
  lemma IngestStored(db: Db, rec: Record, profiles: seq<string>, regions: seq<string>, s: Specifics, id: string)
    requires !s.OtherRecord?
    ensures Loads(rec, profiles, regions, s, id) ==> Stored(Ingest(db, rec, profiles, regions), s, id) == Some(rec.specifics)
    ensures !Loads(rec, profiles, regions, s, id) ==> Stored(Ingest(db, rec, profiles, regions), s, id) == Stored(db, s, id)
  {
  }

  /** Last write wins: after loading, an id holds the last selected record
      of its kind with that id. */
  lemma {:induction false} LoadedLast(db: Db, recs: seq<Record>, profiles: seq<string>, regions: seq<string>, i: int)
    requires 0 <= i < |recs| && !Skipped(recs[i].metadata, profiles, regions) && !recs[i].specifics.OtherRecord?
    requires forall j :: i < j < |recs| ==> !Loads(recs[j], profiles, regions, recs[i].specifics, recs[i].metadata.resourceid)
    ensures Stored(IngestAll(db, recs, profiles, regions), recs[i].specifics, recs[i].metadata.resourceid) == Some(recs[i].specifics)
    decreases |recs|
  {
    var n := |recs|;
    var prefix := recs[..n - 1];
    var s, id := recs[i].specifics, recs[i].metadata.resourceid;
    IngestStored(IngestAll(db, prefix, profiles, regions), recs[n - 1], profiles, regions, s, id);
    if i < n - 1 {
      assert prefix[i] == recs[i];
      assert forall j :: i < j < n - 1 ==> prefix[j] == recs[j];
      LoadedLast(db, prefix, profiles, regions, i);
    }
  }

  /** Without a selected record of its kind, an id keeps what it held. */
  lemma {:induction false} NotLoaded(db: Db, recs: seq<Record>, profiles: seq<string>, regions: seq<string>, s: Specifics, id: string)
    requires !s.OtherRecord?
    requires forall j :: 0 <= j < |recs| ==> !Loads(recs[j], profiles, regions, s, id)
    ensures Stored(IngestAll(db, recs, profiles, regions), s, id) == Stored(db, s, id)
    decreases |recs|
  {
    if recs != [] {
      var n := |recs|;
      var prefix := recs[..n - 1];
      assert forall j :: 0 <= j < n - 1 ==> prefix[j] == recs[j];
      NotLoaded(db, prefix, profiles, regions, s, id);
      IngestStored(IngestAll(db, prefix, profiles, regions), recs[n - 1], profiles, regions, s, id);
    }
  }

  // ---------------------------------------------------------------------
  // the rows of one interface

  /** `instance_name(_id)`: `? (<id>)` for an instance that is not
      loaded, otherwise its last Name tag in lower case (or `?`) and its
      id in parentheses. */
  function InstanceName(instance: map<string, InstanceData>, id: string): (r: string)
    ensures id !in instance ==> r == "? (" + id + ")"
    ensures id in instance ==> r == Security.TaggedName(instance[id].tags) + " (" + id + ")"
  {
    if id !in instance then "? (" + id + ")"
    else Security.TaggedName(instance[id].tags) + " (" + id + ")"
  }

  /** The `Description` an interface is listed under: the name of the
      instance it is attached to, and its own description only when it
      is not attached. */
  function Description(instance: map<string, InstanceData>, iface: InterfaceData): string
  {
    match iface.attachedInstance
    case Some(id) => InstanceName(instance, id)
    case None => iface.description
  }

  /** A tag list `tags_to_sane` accepts, or no tag list at all. */
  predicate TagsSane(tags: Option<seq<Tag>>)
  {
    tags.None? || !HasDuplicateKey(tags.value)
  }

  /** The column names a row has for its tags. */
  function TagColumn(tags: Option<seq<Tag>>): set<string>
  {
    if tags.Some? then {"Tags"} else {}
  }

  /** A row's `Tags` cell, when it has one, is the sane form of `tags`. */
  predicate TagsShown(row: Row, tags: Option<seq<Tag>>)
  {
    tags.Some? && !HasDuplicateKey(tags.value) ==> "Tags" in row && row["Tags"] == Mapping(SaneTags(tags.value).value)
  }

  /** A row carries its address and, as `_order`, its sortable form. */
  predicate Ordered(row: Row)
  {
    && "IPv4" in row && row["IPv4"].Str?
    && "_order" in row && row["_order"] == Str(IpSortable(row["IPv4"].s))
  }

  /** Everything a row of `iface` holds apart from the address: the same
      description, subnet, VPC and tags for its public and private row. */
  predicate InterfaceShape(row: Row, instance: map<string, InstanceData>, iface: InterfaceData)
  {
    && row.Keys == {"IPv4", "_order", "Description", "SubnetId", "VpcId"} + TagColumn(iface.tags)
    && row["Description"] == Str(Description(instance, iface))
    && row["SubnetId"] == Str(iface.subnetId)
    && row["VpcId"] == Str(iface.vpcId)
    && TagsShown(row, iface.tags)
    && Ordered(row)
  }

  /** `meta["Tags"] = tags_to_sane(...)` when the record has tags. */
  function WithTags(row: Row, tags: Option<seq<Tag>>): (r: Result<Row>)
    ensures r.Success? <==> TagsSane(tags)
    ensures r.Failure? ==> r.error == ValueError("Duplicate tag name")
    ensures r.Success? ==> r.value.Keys == row.Keys + TagColumn(tags) && TagsShown(r.value, tags)
    ensures r.Success? ==> forall c :: c in row && c != "Tags" ==> r.value[c] == row[c]
  {
    match tags
    case None => Success(row)
    case Some(t) =>
      var sane :- SaneTags(t);
      Success(row["Tags" := Mapping(sane)])
  }

  /** The fields the rows of one interface share (`meta`). */
  function InterfaceMeta(instance: map<string, InstanceData>, iface: InterfaceData): Result<Row>
  {
    var named: Row :=
      if iface.attachedInstance.Some? then map["Description" := Str(InstanceName(instance, iface.attachedInstance.value))]
      else map[];
    var tagged :- WithTags(named, iface.tags);
    var described := if "Description" in tagged then tagged else tagged["Description" := Str(iface.description)];
    Success(described["SubnetId" := Str(iface.subnetId)]["VpcId" := Str(iface.vpcId)])
  }

  /** What `meta` holds: the description, the ids and the tags. */
  predicate MetaShape(meta: Row, instance: map<string, InstanceData>, iface: InterfaceData)
  {
    && meta.Keys == {"Description", "SubnetId", "VpcId"} + TagColumn(iface.tags)
    && meta["Description"] == Str(Description(instance, iface))
    && meta["SubnetId"] == Str(iface.subnetId)
    && meta["VpcId"] == Str(iface.vpcId)
    && TagsShown(meta, iface.tags)
  }

  lemma InterfaceMetaShape(instance: map<string, InstanceData>, iface: InterfaceData)
    ensures InterfaceMeta(instance, iface).Success? <==> TagsSane(iface.tags)
    ensures InterfaceMeta(instance, iface).Failure? ==> InterfaceMeta(instance, iface).error == ValueError("Duplicate tag name")
    ensures InterfaceMeta(instance, iface).Success? ==> MetaShape(InterfaceMeta(instance, iface).value, instance, iface)
  {
  }

  /** `meta.copy()` with an address and its sort key. */
  function AddressRow(meta: Row, ip: string): (row: Row)
    ensures row.Keys == meta.Keys + {"IPv4", "_order"}
    ensures row["IPv4"] == Str(ip) && Ordered(row)
    ensures forall c :: c in meta && c != "IPv4" && c != "_order" ==> row[c] == meta[c]
  {
    meta["IPv4" := Str(ip)]["_order" := Str(IpSortable(ip))]
  }

  /** The addresses of rows that carry one, in order. */
  function Addresses(rows: seq<Row>): seq<string>
    requires forall k :: 0 <= k < |rows| ==> Ordered(rows[k])
  {
    seq(|rows|, k requires 0 <= k < |rows| => assert Ordered(rows[k]); rows[k]["IPv4"].s)
  }

  lemma AddressRowShape(meta: Row, ip: string, instance: map<string, InstanceData>, iface: InterfaceData)
    requires MetaShape(meta, instance, iface)
    ensures InterfaceShape(AddressRow(meta, ip), instance, iface)
  {
    var row := AddressRow(meta, ip);
    assert "Tags" in meta ==> row["Tags"] == meta["Tags"];
  }

  /** The rows of one interface: its public address first when it has
      one, then always its private address. A tag list with a repeated
      key is a `ValueError`. */
  function InterfaceRows(instance: map<string, InstanceData>, iface: InterfaceData): (r: Result<seq<Row>>)
    ensures r.Success? <==> TagsSane(iface.tags)
    ensures r.Failure? ==> r.error == ValueError("Duplicate tag name")
    ensures r.Success? ==> |r.value| == if iface.publicIp.Some? then 2 else 1
  {
    InterfaceMetaShape(instance, iface);
    var meta :- InterfaceMeta(instance, iface);
    var private := AddressRow(meta, iface.privateIp);
    if iface.publicIp.Some? then Success([AddressRow(meta, iface.publicIp.value), private]) else Success([private])
  }

  /** Exactly one row per address of the interface, the public one
      first; the rows differ only in the address. */
  lemma InterfaceRowsShape(instance: map<string, InstanceData>, iface: InterfaceData)
    requires InterfaceRows(instance, iface).Success?
    ensures var rows := InterfaceRows(instance, iface).value;
      && (forall k :: 0 <= k < |rows| ==> Ordered(rows[k]) && InterfaceShape(rows[k], instance, iface))
      && Addresses(rows) == (if iface.publicIp.Some? then [iface.publicIp.value] else []) + [iface.privateIp]
  {
    InterfaceMetaShape(instance, iface);
    var meta := InterfaceMeta(instance, iface).value;
    AddressRowShape(meta, iface.privateIp, instance, iface);
    if iface.publicIp.Some? {
      AddressRowShape(meta, iface.publicIp.value, instance, iface);
    }
  }

  // ---------------------------------------------------------------------
  // the row of one subnet

  /** Whether a tag list has a tag named `Name`. */
  predicate Named(tags: Option<seq<Tag>>)
  {
    tags.Some? && exists i :: 0 <= i < |tags.value| && tags.value[i].key == "Name"
  }

  /** Everything the row of `subnet` holds. */
  predicate SubnetShape(row: Row, subnet: SubnetData)
  {
    && row.Keys == SubnetBase(subnet).Keys + {"_order"} + TagColumn(subnet.tags) + (if Named(subnet.tags) then {"Description"} else {})
    && row["IPv4"] == Str(subnet.cidrBlock)
    && row["SubnetId"] == Str(subnet.subnetId)
    && row["VpcId"] == Str(subnet.vpcId)
    && row["AvailableIpAddressCount"] == Int(subnet.availableIpAddressCount)
    && TagsShown(row, subnet.tags)
  }

  /** The row of one subnet, or the `ValueError` of a tag list with a
      repeated key. */
  function SubnetRow(subnet: SubnetData): (r: Result<Row>)
    ensures r.Success? <==> TagsSane(subnet.tags)
    ensures r.Failure? ==> r.error == ValueError("Duplicate tag name")
  {
    var tagged :- WithTags(SubnetBase(subnet), subnet.tags);
    Success(WithName(tagged)["_order" := Str(IpSortable(subnet.cidrBlock))])
  }

  /** The fields every subnet row has. */
  function SubnetBase(subnet: SubnetData): Row
  {
    map[
      "IPv4" := Str(subnet.cidrBlock), "SubnetId" := Str(subnet.subnetId), "VpcId" := Str(subnet.vpcId),
      "AvailableIpAddressCount" := Int(subnet.availableIpAddressCount)]
  }

  /** `this["Description"] = this["Tags"]["Name"]` when there is such a
      tag. */
  function WithName(row: Row): Row
  {
    if "Tags" in row && row["Tags"].Mapping? && "Name" in row["Tags"].d.entries
    then row["Description" := Str(row["Tags"].d.entries["Name"])]
    else row
  }

  /** The sane form of a tag list has a `Name` key exactly when some tag
      is named `Name`, and holds that tag's value. */
  lemma SaneName(tags: seq<Tag>)
    requires !HasDuplicateKey(tags)
    ensures "Name" in SaneTags(tags).value.entries <==> Named(Some(tags))
    ensures forall i :: 0 <= i < |tags| && tags[i].key == "Name" ==> SaneTags(tags).value.entries["Name"] == tags[i].value
  {
    SaneTagsContents(tags);
  }

  /** The row of a subnet: its block as the address, its ids, its count
      of free addresses, its tags, and as `Description` the value of its
      `Name` tag, as it is (not in lower case) and only when there is
      one. */
  lemma SubnetRowShape(subnet: SubnetData)
    requires SubnetRow(subnet).Success?
    ensures SubnetShape(SubnetRow(subnet).value, subnet) && Ordered(SubnetRow(subnet).value)
    ensures subnet.tags.Some? ==> forall i :: 0 <= i < |subnet.tags.value| && subnet.tags.value[i].key == "Name" ==>
      SubnetRow(subnet).value["Description"] == Str(subnet.tags.value[i].value)
  {
    var tagged := WithTags(SubnetBase(subnet), subnet.tags).value;
    SubnetTagged(subnet);
    WithNameShown(tagged, subnet.tags);
    assert SubnetRow(subnet).value == WithName(tagged)["_order" := Str(IpSortable(subnet.cidrBlock))];
  }

  /** The subnet's fields with its tags added. */
  lemma SubnetTagged(subnet: SubnetData)
    requires TagsSane(subnet.tags)
    ensures SubnetBase(subnet).Keys == {"IPv4", "SubnetId", "VpcId", "AvailableIpAddressCount"}
    ensures var tagged := WithTags(SubnetBase(subnet), subnet.tags).value;
      && tagged.Keys == SubnetBase(subnet).Keys + TagColumn(subnet.tags)
      && "Description" !in tagged
      && tagged["IPv4"] == Str(subnet.cidrBlock)
      && tagged["SubnetId"] == Str(subnet.subnetId)
      && tagged["VpcId"] == Str(subnet.vpcId)
      && tagged["AvailableIpAddressCount"] == Int(subnet.availableIpAddressCount)
      && TagsShown(tagged, subnet.tags)
  {
  }

  /** `WithName` on a row showing sane tags: `Description` is added
      exactly when some tag is named `Name`, with that tag's value, and
      nothing else changes. */
  lemma WithNameShown(tagged: Row, tags: Option<seq<Tag>>)
    requires TagsSane(tags) && TagsShown(tagged, tags) && "Description" !in tagged
    requires "Tags" in tagged <==> tags.Some?
    ensures WithName(tagged).Keys == tagged.Keys + (if Named(tags) then {"Description"} else {})
    ensures forall c :: c in tagged ==> WithName(tagged)[c] == tagged[c]
    ensures tags.Some? ==> forall i :: 0 <= i < |tags.value| && tags.value[i].key == "Name" ==>
      WithName(tagged)["Description"] == Str(tags.value[i].value)
  {
    if tags.Some? {
      SaneName(tags.value);
    }
  }

  /** A subnet's row as a list of rows. */
  function SubnetRows(subnet: SubnetData): (r: Result<seq<Row>>)
    ensures r.Success? <==> SubnetRow(subnet).Success?
    ensures r.Success? ==> r.value == [SubnetRow(subnet).value]
  {
    var row :- SubnetRow(subnet);
    Success([row])
  }

  // ---------------------------------------------------------------------
  // dump_all_ipaddrs

  /** The rows of an interface, given the loaded instances. */
  function RowsWith(instance: map<string, InstanceData>): InterfaceData -> Result<seq<Row>>
  {
    iface => InterfaceRows(instance, iface)
  }

  /** The rows of the interfaces and of the subnets, in dict order. */
  function IpRows(db: Db): Result<seq<Row>>
  {
    var ifaces :- Gather(Values(db.networkInterface), RowsWith(db.instance));
    var subnets :- Gather(Values(db.subnet), SubnetRows);
    Success(ifaces + subnets)
  }

  const IpColumns := ["IPv4", "Description", "SubnetId", "VpcId", "Tags"]

  /** What `dump_all_ipaddrs` prints: one table of all rows ordered by
      `_order`. */
  function IpReport(db: Db): Result<seq<string>>
  {
    var rows :- IpRows(db);
    Success([Table(rows, IpColumns, Some("_order"))])
  }

  /** Gathering over a dict's values succeeds exactly when the rows of
      every value do, and otherwise fails with the error of some value. */
  lemma GatherValues<V, U>(d: Dict<string, V>, rowsOf: V -> Result<seq<U>>)
    ensures Gather(Values(d), rowsOf).Success? <==> forall k :: k in d.entries ==> rowsOf(d.entries[k]).Success?
    ensures Gather(Values(d), rowsOf).Failure? ==>
      exists k :: k in d.entries && rowsOf(d.entries[k]).Failure? && rowsOf(d.entries[k]).error == Gather(Values(d), rowsOf).error
  {
    var items := Values(d);
    GatherContents(items, rowsOf);
    forall k | k in d.entries ensures exists i :: 0 <= i < |items| && items[i] == d.entries[k] {
      var i :| 0 <= i < |d.keys| && d.keys[i] == k;
      assert items[i] == d.entries[k];
    }
    if Gather(items, rowsOf).Failure? {
      GatherFirstError(items, rowsOf);
      var i :| 0 <= i < |items| && rowsOf(items[i]).Failure? && rowsOf(items[i]).error == Gather(items, rowsOf).error;
      assert d.keys[i] in d.entries;
    }
  }

  /** The report fails, with a `ValueError`, exactly when some interface
      or subnet has a tag list with a repeated key. */
  lemma IpReportSucceeds(db: Db)
    ensures IpReport(db).Success? <==>
      && (forall k :: k in db.networkInterface.entries ==> TagsSane(db.networkInterface.entries[k].tags))
      && (forall k :: k in db.subnet.entries ==> TagsSane(db.subnet.entries[k].tags))
    ensures IpReport(db).Failure? ==> IpReport(db).error == ValueError("Duplicate tag name")
  {
    GatherValues(db.networkInterface, RowsWith(db.instance));
    forall k | k in db.networkInterface.entries
      ensures RowsWith(db.instance)(db.networkInterface.entries[k]) == InterfaceRows(db.instance, db.networkInterface.entries[k])
    {
    }
    GatherValues(db.subnet, SubnetRows);
  }

  /** Every row of an interface or a subnet carries its address and that
      address's sortable form as `_order`. */
  lemma IpRowsOrdered(db: Db)
    requires IpRows(db).Success?
    ensures forall row :: row in IpRows(db).value ==> Ordered(row)
  {
    var ifaces, subnets := Values(db.networkInterface), Values(db.subnet);
    InterfaceRowsOrdered(db.instance, ifaces);
    SubnetRowsOrdered(subnets);
    assert IpRows(db).value == Gather(ifaces, RowsWith(db.instance)).value + Gather(subnets, SubnetRows).value;
  }

  lemma InterfaceRowsOrdered(instances: map<string, InstanceData>, ifaces: seq<InterfaceData>)
    requires Gather(ifaces, RowsWith(instances)).Success?
    ensures forall row :: row in Gather(ifaces, RowsWith(instances)).value ==> Ordered(row)
  {
    var own := RowsWith(instances);
    forall row | row in Gather(ifaces, own).value ensures Ordered(row) {
      GatherFrom(ifaces, own, row);
      var i :| 0 <= i < |ifaces| && own(ifaces[i]).Success? && row in own(ifaces[i]).value;
      InterfaceRowsShape(instances, ifaces[i]);
    }
  }

  lemma SubnetRowsOrdered(subnets: seq<SubnetData>)
    requires Gather(subnets, SubnetRows).Success?
    ensures forall row :: row in Gather(subnets, SubnetRows).value ==> Ordered(row)
  {
    forall row | row in Gather(subnets, SubnetRows).value ensures Ordered(row) {
      GatherFrom(subnets, SubnetRows, row);
      var i :| 0 <= i < |subnets| && SubnetRows(subnets[i]).Success? && row in SubnetRows(subnets[i]).value;
      SubnetRowShape(subnets[i]);
    }
  }

  /** Rows sorted by `_order` that carry their sortable address there are
      sorted by address: of two such rows whose addresses are
      dotted-decimal IPv4 addresses, the earlier one's address is not the
      greater number. */
  lemma SortedByAddress(printed: seq<Row>, i: int, j: int, p: seq<nat>, q: seq<nat>)
    requires SortedBy(printed, OrderKey("_order"))
    requires 0 <= i < j < |printed| && Ordered(printed[i]) && Ordered(printed[j])
    requires IsQuad(p) && IsQuad(q)
    requires printed[i]["IPv4"] == Str(Dotted(p)) && printed[j]["IPv4"] == Str(Dotted(q))
    ensures Address(p) <= Address(q)
  {
    assert NotAfter(OrderKey("_order")(printed[i]), OrderKey("_order")(printed[j]));
    IpSortableOrder(q, p);
  }

  /** The table lists every row of the report once, ordered by address. */
  lemma IpReportByAddress(db: Db, i: int, j: int, p: seq<nat>, q: seq<nat>)
    requires IpRows(db).Success?
    requires 0 <= i < j < |OrderRows(IpRows(db).value, Some("_order"))|
    requires IsQuad(p) && IsQuad(q)
    requires Lookup(OrderRows(IpRows(db).value, Some("_order"))[i], "IPv4") == Str(Dotted(p))
    requires Lookup(OrderRows(IpRows(db).value, Some("_order"))[j], "IPv4") == Str(Dotted(q))
    ensures multiset(OrderRows(IpRows(db).value, Some("_order"))) == multiset(IpRows(db).value)
    ensures Address(p) <= Address(q)
  {
    var rows := IpRows(db).value;
    var printed := OrderRows(rows, Some("_order"));
    IpRowsOrdered(db);
    TableShape(rows, IpColumns, Some("_order"));
    assert printed[i] in multiset(rows) && printed[j] in multiset(rows);
    SortedByAddress(printed, i, j, p, q);
  }

  // ---------------------------------------------------------------------
  // the loops of dump_all_ipaddrs

  /** The first half of the body of the interface loop: `meta` filled
      field by field. */
  method MetaBody(instance: map<string, InstanceData>, iface: InterfaceData) returns (r: Result<Row>)
    ensures r == InterfaceMeta(instance, iface)
  {
    var meta: Row := map[];
    if iface.attachedInstance.Some? {
      meta := meta["Description" := Str(InstanceName(instance, iface.attachedInstance.value))];
    }
    var named := meta;
    if iface.tags.Some? {
      var sane := TagsToSane(iface.tags.value);
      if sane.Failure? {
        return Failure(sane.error);
      }
      meta := meta["Tags" := Mapping(sane.value)];
    }
    assert WithTags(named, iface.tags) == Success(meta);
    if "Description" !in meta {
      meta := meta["Description" := Str(iface.description)];
    }
    meta := meta["SubnetId" := Str(iface.subnetId)]["VpcId" := Str(iface.vpcId)];
    r := Success(meta);
  }

  /** The body of the interface loop: a copy of `meta` per address. */
  method InterfaceBody(instance: map<string, InstanceData>, iface: InterfaceData) returns (r: Result<seq<Row>>)
    ensures r == InterfaceRows(instance, iface)
  {
    var m := MetaBody(instance, iface);
    if m.Failure? {
      return Failure(m.error);
    }
    var meta := m.value;
    var rows: seq<Row> := [];
    if iface.publicIp.Some? {
      var row := meta["IPv4" := Str(iface.publicIp.value)];
      row := row["_order" := Str(IpSortable(iface.publicIp.value))];
      assert row == AddressRow(meta, iface.publicIp.value);
      rows := rows + [row];
    }
    var row := meta["IPv4" := Str(iface.privateIp)];
    row := row["_order" := Str(IpSortable(iface.privateIp))];
    assert row == AddressRow(meta, iface.privateIp);
    rows := rows + [row];
    assert rows == if iface.publicIp.Some? then [AddressRow(meta, iface.publicIp.value), row] else [row];
    r := Success(rows);
  }

  /** The body of the subnet loop. */
  method SubnetBody(subnet: SubnetData) returns (r: Result<seq<Row>>)
    ensures r == SubnetRows(subnet)
  {
    var row: Row := SubnetBase(subnet);
    if subnet.tags.Some? {
      var sane := TagsToSane(subnet.tags.value);
      if sane.Failure? {
        return Failure(sane.error);
      }
      row := row["Tags" := Mapping(sane.value)];
    }
    assert WithTags(SubnetBase(subnet), subnet.tags) == Success(row);
    if "Tags" in row && row["Tags"].Mapping? && "Name" in row["Tags"].d.entries {
      row := row["Description" := Str(row["Tags"].d.entries["Name"])];
    }
    row := row["_order" := Str(IpSortable(subnet.cidrBlock))];
    r := Success([row]);
  }

  /** The interface loop of `dump_all_ipaddrs`. */
  method InterfaceLoop(instance: map<string, InstanceData>, ifaces: Dict<string, InterfaceData>) returns (r: Result<seq<Row>>)
    ensures r == Gather(Values(ifaces), RowsWith(instance))
  {
    var items := Values(ifaces);
    var rows: seq<Row> := [];
    for i := 0 to |ifaces.keys|
      invariant Gather(items[..i], RowsWith(instance)) == Success(rows)
    {
      var iface := ifaces.entries[ifaces.keys[i]];
      GatherStep(items, RowsWith(instance), i, rows);
      var more := InterfaceBody(instance, iface);
      if more.Failure? {
        return Failure(more.error);
      }
      rows := rows + more.value;
    }
    assert items[..|items|] == items;
    r := Success(rows);
  }

  /** The subnet loop of `dump_all_ipaddrs`. */
  method SubnetLoop(subnets: Dict<string, SubnetData>) returns (r: Result<seq<Row>>)
    ensures r == Gather(Values(subnets), SubnetRows)
  {
    var items := Values(subnets);
    var rows: seq<Row> := [];
    for i := 0 to |subnets.keys|
      invariant Gather(items[..i], SubnetRows) == Success(rows)
    {
      var subnet := subnets.entries[subnets.keys[i]];
      GatherStep(items, SubnetRows, i, rows);
      var more := SubnetBody(subnet);
      if more.Failure? {
        return Failure(more.error);
      }
      rows := rows + more.value;
    }
    assert items[..|items|] == items;
    r := Success(rows);
  }

  /** `dump_all_ipaddrs` as the source writes it: rows appended
      interface by interface, then subnet by subnet, and printed as one
      table; the first `ValueError` ends it with nothing printed. */
  method DumpAllIpaddrs(db: Db) returns (r: Result<seq<string>>)
    ensures r == IpReport(db)
  {
    var ifaces := InterfaceLoop(db.instance, db.networkInterface);
    if ifaces.Failure? {
      return Failure(ifaces.error);
    }
    var subnets := SubnetLoop(db.subnet);
    if subnets.Failure? {
      return Failure(subnets.error);
    }
    var table := StrTable(ifaces.value + subnets.value, IpColumns, Some("_order"));
    r := Success([table]);
  }

  // ---------------------------------------------------------------------
  // the global db as an object

  /** The global `db`, as one object whose methods update it in place. */
  class Store {
    var instance: map<string, InstanceData>
    var networkInterface: Dict<string, InterfaceData>
    var subnet: Dict<string, SubnetData>

    function Snapshot(): Db
      reads this
    {
      Db(instance, networkInterface, subnet)
    }

    constructor ()
      ensures Snapshot() == EmptyDb()
    {
      instance, networkInterface, subnet := map[], Empty(), Empty();
    }

    /** `data_add_instance` */
    method AddInstance(id: string, item: InstanceData)
      modifies this
      ensures Snapshot() == Register(old(Snapshot()), id, InstanceRecord(item))
    {
      instance := instance[id := item];
    }

    /** `data_add_network_interface` */
    method AddInterface(id: string, item: InterfaceData)
      modifies this
      ensures Snapshot() == Register(old(Snapshot()), id, InterfaceRecord(item))
    {
      networkInterface := Set(networkInterface, id, item);
    }

    /** `data_add_subnet` */
    method AddSubnet(id: string, item: SubnetData)
      modifies this
      ensures Snapshot() == Register(old(Snapshot()), id, SubnetRecord(item))
    {
      subnet := Set(subnet, id, item);
    }

    /** The body of the record loop of `load_data`. */
    method Dispatch(rec: Record, profiles: seq<string>, regions: seq<string>)
      modifies this
      ensures Snapshot() == Ingest(old(Snapshot()), rec, profiles, regions)
    {
      if Skipped(rec.metadata, profiles, regions) {
        return;
      }
      var id := rec.metadata.resourceid;
      match rec.specifics
      case InstanceRecord(d) => AddInstance(id, d);
      case InterfaceRecord(d) => AddInterface(id, d);
      case SubnetRecord(d) => AddSubnet(id, d);
      case OtherRecord(_) =>
    }

    /** The record loop of `load_data`. */
    method Load(records: seq<Record>, profiles: seq<string>, regions: seq<string>)
      modifies this
      ensures Snapshot() == IngestAll(old(Snapshot()), records, profiles, regions)
    {
      for i := 0 to |records|
        invariant Snapshot() == IngestAll(old(Snapshot()), records[..i], profiles, regions)
      {
        assert records[..i + 1][..i] == records[..i];
        Dispatch(records[i], profiles, regions);
      }
      assert records[..|records|] == records;
    }
  }

  /** `main`: a fresh store filled from the selected records, then the
      table. */
  method ReportIpaddrs(records: seq<Record>, profiles: seq<string>, regions: seq<string>) returns (r: Result<seq<string>>)
    ensures r == IpReport(IngestAll(EmptyDb(), records, profiles, regions))
  {
    var store := new Store();
    store.Load(records, profiles, regions);
    r := DumpAllIpaddrs(store.Snapshot());
  }
}
