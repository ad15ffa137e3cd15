# A verified model of the AWS inventory reports

This project models the reporting core of a small collection of AWS
inventory scripts. Each script loads the JSON that the AWS command line
tools saved, indexes it by resource id, and prints a report:

- `report_elb.py` builds a registry of DNS names, load balancers,
  listeners, listener rules, target groups, target health and instances,
  binds the objects to each other, and prints a graphviz graph of how
  traffic reaches the instances (modules `Elb`, `ElbBind`, `ElbGraph`).
- `report_security.py` indexes network ACLs, security groups, instances
  and load balancers, and prints one table per ACL and per security group,
  sorted, with the instances and load balancers that use each group
  (modules `Security`, `SecurityReport`, `GroupReport`, `GroupDump`,
  `SecurityMain`).
- `report_ipaddrs.py` lists the public and private IPv4 address of every
  network interface, with the name of the instance it is attached to, and
  the address block of every subnet, in one table ordered by address
  (module `IpAddrs`).
- `report_graphviz2.py` draws VPCs, subnets and instances as nested
  graphviz clusters (module `Topology`).
- `report_graphviz.py` scans each saved YAML description for the
  resource's own id and the ids it mentions, and draws an edge from the
  resource to each of them (module `Scraper`).
- `lib/definitionset.py` holds the containers the collectors fill: a
  `Definition` of one type of object from one profile and region, and a
  `DefinitionSet` of them rendered as CSV rows or canonical records
  (module `DefinitionSets`).
- `lib/aws/__init__.py` holds the collector helpers: `fetch` over the
  sessions, `_data_two_deep` that indexes a paged reply by id, and
  `_mutate_sortarray` that sorts lists inside every object (module
  `Collector`); `lib/aws/route53.py` stores record sets under a key built
  from the reversed labels of the name and the record type (module
  `Route53`).

Shared modules model what the scripts take from Python: strings,
`split`/`join`, `strip`, `lower`, `int` and `str`, the string order
(`Text`); the stable `sorted` (`Sorting`); insertion-ordered dictionaries
(`Dicts`); typed views of the JSON records (`Records`); the text tables
and their cells (`Tables`); the sort keys for ports and addresses
(`SortKeys`); the name tags (`Tags`); and a `Result`/`Option` pair for the
exceptions (`Wrappers`).

A Python exception is a `Failure` carrying the exception's class and, where
it matters, its message; a report is the sequence of strings its `print`
calls write. Objects whose fields the scripts update in place (the ELB
registry, the stores of the security, address and topology reports, the
`DefinitionSet`) are classes whose methods are proved against functions on
the stored values; loops in the source are loops here, with the
invariants that tie them to those functions.

## Model

| member | source | states |
|---|---|---|
| Tables.FormatCell | report_ipaddrs.py:101 | a cell is padded to its column width and never cut: its length is the larger of the width and the printed value's length |
| Tables.FormatHeader | report_ipaddrs.py:86 | a heading is cut to the column width and padded on the right to exactly that width |
| Tables.MaxLenIsMax | report_ipaddrs.py:78-81 | no present value of a column is longer than the width found, and a nonzero width is attained by some row |
| Tables.WidthIsMax | report_ipaddrs.py:73-85 | a column is at least 1 wide; with no rows it is as wide as its heading (1 when empty); otherwise no value is longer and a width above 1 is attained |
| Tables.HeaderWidth | report_ipaddrs.py:83-87 | the heading line is exactly the common line width (the column widths plus one space each) |
| Tables.RowWidth | report_ipaddrs.py:92-102 | every printed row of the input has the common line width |
| Tables.TableShape | report_ipaddrs.py:68-104 | the table is rectangular; the printed rows are a permutation of the input, sorted by `orderby` when given, rows with equal keys in input order |
| Tables.StrTable | report_ipaddrs.py:68-104 | the width pass, heading pass and row pass produce exactly the specified table text |
| Tables.ComputeWidths | report_ipaddrs.py:73-81 | after the first loop each column's width is its heading length when there are no rows, otherwise its longest present value |
| Tables.WidenRow | report_ipaddrs.py:79-81 | one row raises each column it has to the length of its printed value and leaves the others alone |
| Tables.HeaderPass | report_ipaddrs.py:83-87 | a zero width becomes 1 and the heading line is produced with the final widths |
| Tables.BodyPass | report_ipaddrs.py:92-102 | the row loop produces one line per row in print order |
| Tables.FormatRow | report_ipaddrs.py:93-102 | one row's line: each column formatted with its width, a missing field as the empty string |
| Tables.TableColumns | report_ipaddrs.py:107-114 | a name is a column exactly when some row has that field |
| Tables.ShowSingleton | report_ipaddrs.py:98-99 | a one-entry dict cell prints as `{`, its key's `repr`, `: `, its value's `repr` and `}` |
| Tables.ShowApostropheTag | report_ipaddrs.py:98-99 | a tag value with an apostrophe and no double quote, such as `bob's`, prints between double quotes and its key between single quotes |
| SortKeys.PortSortable | report_ipaddrs.py:14-20 | a value that is not an integer becomes "000000" |
| SortKeys.PortSortableDigits | report_ipaddrs.py:14-20 | a port from 0 to 999999 becomes exactly six decimal digits denoting it |
| SortKeys.PortSortableOrder | report_ipaddrs.py:14-20 | for ports from 0 to 999999 the encodings compare as strings as the ports compare as numbers |
| SortKeys.PortSortableOfText | report_ipaddrs.py:16-17 | a port given as decimal text encodes like the same port given as a number |
| SortKeys.ParseOctet | report_ipaddrs.py:30 | a parsed dotted-decimal part is below 256 |
| SortKeys.Aton | report_ipaddrs.py:30-32 | a parsed dotted-decimal address has exactly four bytes |
| SortKeys.HexAddressValue | report_ipaddrs.py:30 | the hex form of an address is eight hex digits denoting its 32-bit value |
| SortKeys.AtonDotted | report_ipaddrs.py:30 | every address written in dotted-decimal form parses back to its four bytes |
| SortKeys.IpSortable | report_ipaddrs.py:23-38 | text without a slash that is not a dotted-decimal IPv4 address becomes "00000000" |
| SortKeys.IpSortableOfAddress | report_ipaddrs.py:23-38 | a dotted-decimal address becomes its eight-hex-digit form |
| SortKeys.IpSortableOrder | report_ipaddrs.py:23-38 | two addresses' sortable forms compare as strings as the addresses compare as 32-bit numbers |
| SortKeys.IpSortableOfCidr | report_ipaddrs.py:34-36 | a CIDR block becomes the address's hex form, a slash and the prefix length as six digits |
| Tags.CollectKeys | report_ipaddrs.py:124-128 | the first loop's dict holds exactly the tags' keys, in tag order when no key repeats |
| Tags.CollectValues | report_ipaddrs.py:128 | without repeated keys each tag's key maps to that tag's value |
| Tags.SortedByKey | report_ipaddrs.py:130-132 | the copy has the same entries with keys in strictly ascending order |
| Tags.SaneTagsContents | report_ipaddrs.py:123-133 | the conversion fails with ValueError("Duplicate tag name") exactly when a key repeats; otherwise every tag's key maps to its value, no other key is present, and keys ascend |
| Tags.TagsToSane | report_ipaddrs.py:123-133 | the two loops compute exactly the specified conversion, stopping at the first repeated key |
| Tags.CopySorted | report_ipaddrs.py:130-133 | the second loop inserts the entries in ascending key order |
| Tags.NameTag | report_ipaddrs.py:141-144 | a found name comes from a tag keyed `Name` |
| Tags.NameTagIsLast | report_ipaddrs.py:141-144 | when several tags are named `Name`, the last one wins |
| Tags.NameTagAbsent | report_ipaddrs.py:140-144 | no name is found exactly when no tag is keyed `Name` |
| Tags.FindName | report_ipaddrs.py:140-146 | the tag loop yields the last `Name` tag's value in lower case, or the default |
| Records.Skipped | report_ipaddrs.py:223-226 | a record is skipped exactly when its profile or region fails a non-empty filter; with no filters nothing is skipped |
| Sorting.SortByPermutation | report_ipaddrs.py:89-90 | `sorted` returns the rows it was given, each as often as given |
| Sorting.SortBySorted | report_ipaddrs.py:89-90 | `sorted` orders its result by the key |
| Sorting.SortByStable | report_ipaddrs.py:89-90 | `sorted` is stable: rows with the same key keep their input order |
| Sorting.SortedStableUnique | report_ipaddrs.py:89-90 | only one arrangement is both ordered by the key and stable, so the model's sort returns what Python's does |
| Sorting.SortStringsAscending | report_elb.py:486 | sorting distinct keys lists each of them once, in strictly ascending order |
| Sorting.SortStringsDeterminate | report_elb.py:486 | the sorted order of distinct keys depends only on which keys they are, not on the order they were inserted in |
| Sorting.Dedup | report_graphviz.py:36 | a set filled by `add` holds each added string once and nothing else |
| Sorting.SortedSet | report_security.py:339-342 | `sorted` over a set lists each member once, in strictly ascending order |
| Sorting.SortedSetDeterminate | report_security.py:339-342 | `sorted` over a set depends only on its members, not on the order they were added in |
| Text.Split | lib/aws/route53.py:47 | `split` on one character gives at least one piece, none holding the separator |
| Text.JoinSplit | lib/aws/route53.py:47-53 | joining the pieces of a split with the separator gives the string back |
| Text.SplitJoin | lib/aws/route53.py:47-53 | splitting a join of separator-free pieces gives the pieces back |
| Text.Strip | report_graphviz.py:21 | a stripped line neither starts nor ends with whitespace |
| Text.StripUnchanged | report_graphviz.py:21 | a line that neither starts nor ends with whitespace is its own strip |
| Text.Lower | report_security.py:148 | lowering keeps the length and leaves no upper-case ASCII letter |
| Text.ParseIntToString | report_ipaddrs.py:17 | `int(str(i)) == i` for every integer |
| Text.ZeroPad | report_ipaddrs.py:20 | a number padded with zeros to a width has at least that many digits and denotes the same number |
| Text.LessTransitive | report_elb.py:486 | the string order is transitive |
| Text.LessTotal | report_elb.py:486 | of two different strings one comes first |
| Text.Repr | report_ipaddrs.py:98-99 | `repr` of a string opens and closes with the same quote: a double quote exactly when the string holds a single quote and no double quote |
| Text.ReprPlain | report_ipaddrs.py:98-99 | a string without quotes, backslashes or unprintable characters shows between single quotes unchanged |
| Text.ReprApostrophe | report_ipaddrs.py:98-99 | a string with a single quote, no double quote and no other escaped character shows between double quotes unchanged |
| Text.ReprRoundTrip | report_ipaddrs.py:98-99 | the text between the quotes of `repr(s)`, read back escape by escape, is `s` |
| Text.ReprInjective | report_ipaddrs.py:98-99 | different strings have different `repr`s |
| Elb.InstanceArnInjective | report_elb.py:430-431 | two instances share a registry key exactly when they share an instance id |
| Elb.WithLoadBalancer | report_elb.py:141-146 | a load balancer is stored under its ARN with no children and no DNS mark, replacing an earlier one, and its DNS name indexes that ARN; nothing else changes |
| Elb.WithListener | report_elb.py:187-189 | a listener is stored under its ARN with no rules; nothing else changes |
| Elb.WithRule | report_elb.py:60-63 | a rule is stored under its ARN; nothing else changes |
| Elb.WithTargetGroup | report_elb.py:334-336 | a target group is stored under its ARN with no health record; nothing else changes |
| Elb.WithTargetHealth | report_elb.py:366-368 | a health record is stored under its group's ARN, so a later record of the same group replaces it |
| Elb.WithInstance | report_elb.py:419-425 | an instance is stored under its synthetic key, and its public address, when present, indexes that key |
| Elb.WithDns | report_elb.py:89-92 | a DNS record is stored under its name, bound to nothing |
| Elb.Ingest | report_elb.py:547-577 | a record the profile or region filter rejects, or of another datatype, leaves the registry as it was |
| Elb.Register | report_elb.py:552-577 | a record of another datatype changes nothing, and only a load balancer record touches the load balancers |
| Elb.RegisterPreserves | report_elb.py:552-577 | registering any record keeps every object under its own key and every index and child pointing at stored objects, and attaches nothing |
| Elb.IngestAllPreserves | report_elb.py:544-577 | loading any records keeps the registry well formed and binds nothing |
| Elb.IngestLastWins | report_elb.py:547-557 | after loading, a load balancer ARN holds the last selected record with that ARN, freshly created |
| Elb.IngestUntouched | report_elb.py:547-557 | an ARN that no selected record loads keeps what it held before loading |
| Elb.AddAllToNone | report_elb.py:151-157 | children added to an object that had none are exactly those added, in the order added |
| Elb.AddChildTwice | report_elb.py:153 | adding the same child twice is the same as adding it once |
| Elb.GroupElbArn | report_elb.py:338-340 | a group binds to a load balancer exactly when it names exactly one, and then to that one |
| Elb.ListenersStep | report_elb.py:198-204 | binding one more listener adds it to its named load balancer when loaded, and changes no other load balancer |
| Elb.BindListenersValid | report_elb.py:517-518 | the listener pass keeps the registry well formed |
| Elb.GroupsStep | report_elb.py:342-348 | binding one more target group adds it to its only load balancer when loaded; a group naming none is skipped |
| Elb.BindGroupsValid | report_elb.py:520-521 | the target group pass keeps the registry well formed |
| Elb.HealthGroupsStep | report_elb.py:373-379 | binding one more health record sets the health of the group under its ARN, when that group is loaded |
| Elb.HealthInstancesStep | report_elb.py:381-390 | binding one more health record adds it to every loaded instance it describes, and to no other |
| Elb.BindHealthValid | report_elb.py:523-525 | the health pass keeps the registry well formed |
| Elb.RulesStep | report_elb.py:282-289 | binding one more rule adds it to its listener when loaded, and changes no other listener |
| Elb.BindRulesValid | report_elb.py:527-528 | the rule pass keeps the registry well formed |
| Elb.ResolveCases | report_elb.py:94-115 | a CNAME resolves to the load balancer its content names in the DNS-name index, an A record to the instance in the address index, anything else to nothing |
| Elb.RefsStep | report_elb.py:113-114 | binding one more DNS record sets its reference to what it resolves to, when anything |
| Elb.LbMarksStep | report_elb.py:113-115 | a DNS record that resolves to a load balancer marks that load balancer and no other |
| Elb.InstanceMarksStep | report_elb.py:113-115 | a DNS record that resolves to an instance marks that instance and no other |
| Elb.BindDnsValid | report_elb.py:530-531 | the DNS pass keeps the registry well formed |
| Elb.BoundValid | report_elb.py:514-531 | all five passes of binding keep every reference pointing at a stored object |
| Elb.ChildrenStep | report_elb.py:517-528 | one more key in a bind loop joins the children of its parent and of no other object |
| Elb.DnsLoadedPreserves | report_elb.py:534-539 | loading DNS records keeps the registry well formed and binds nothing |
| Elb.Registry.constructor | report_elb.py:85 | the class-level dicts start empty |
| Elb.Registry.AddLoadBalancer | report_elb.py:141-146 | creating a load balancer updates the registries as WithLoadBalancer says |
| Elb.Registry.AddListener | report_elb.py:187-189 | creating a listener updates the registries as WithListener says |
| Elb.Registry.AddRule | report_elb.py:60-63 | creating a rule updates the registries as WithRule says |
| Elb.Registry.AddTargetGroup | report_elb.py:334-336 | creating a target group updates the registries as WithTargetGroup says |
| Elb.Registry.AddTargetHealth | report_elb.py:366-368 | creating a health record updates the registries as WithTargetHealth says |
| Elb.Registry.AddInstance | report_elb.py:419-425 | creating an instance updates the registries as WithInstance says |
| Elb.Registry.AddDns | report_elb.py:89-92 | creating a DNS record updates the registries as WithDns says |
| Elb.Registry.ListenerElbBind | report_elb.py:198-204 | one listener is added to the load balancer it names, when loaded; only the load balancers change |
| Elb.Registry.BindListenerPass | report_elb.py:517-518 | the first loop of bind_data computes the listener pass |
| Elb.Registry.GroupElbBind | report_elb.py:338-348 | the assertion fails exactly for a group naming two or more load balancers; otherwise the group is added to its only load balancer, if loaded; when it fails no load balancer changes |
| Elb.Registry.BindGroupPass | report_elb.py:520-521 | the second loop succeeds exactly when no group names two or more load balancers, and then computes the group pass |
| Elb.Registry.BindHealthPass | report_elb.py:523-525 | the third loop computes the health pass |
| Elb.Registry.InstanceBind | report_elb.py:381-390 | a health record is added to each loaded instance it describes |
| Elb.Registry.AddTargetHealthTo | report_elb.py:385-390 | the record is added to the instance under the target's key, and a missing instance is skipped |
| Elb.Registry.RuleListenerBind | report_elb.py:282-289 | one rule is added to its listener, when loaded; only the listeners change |
| Elb.Registry.BindRulePass | report_elb.py:527-528 | the fourth loop computes the rule pass |
| Elb.Registry.RefBind | report_elb.py:94-115 | one DNS record refers to what its lookup finds, and that object is marked |
| Elb.Registry.BindDnsPass | report_elb.py:530-531 | the last loop computes the DNS pass |
| Elb.Registry.Bind | report_elb.py:514-531 | binding succeeds exactly when every target group names at most one load balancer, and then yields the bound registry |
| Elb.Registry.LoadDns | report_elb.py:534-539 | every DNS record of the files is registered, without filtering |
| Elb.Registry.Dispatch | report_elb.py:547-577 | one dumped record is filtered and dispatched as Ingest says |
| Elb.Registry.RegisterRecord | report_elb.py:552-577 | the datatype dispatch registers a record as Register says |
| Elb.Registry.Load | report_elb.py:544-577 | the record loop of load_data loads the records in order |
| ElbBind.BoundListeners | report_elb.py:198-204 | after binding, a load balancer's listeners are exactly the loaded listeners naming it, in registry order |
| ElbBind.BoundTargetGroups | report_elb.py:338-348 | after binding, a load balancer's target groups are exactly the loaded groups naming it and no other load balancer, in registry order |
| ElbBind.BoundGroupHealth | report_elb.py:373-379 | after binding, a target group holds the health record stored under its ARN when one is loaded, and nothing otherwise |
| ElbBind.BoundInstanceHealth | report_elb.py:381-390 | after binding, an instance holds exactly the health records with a target of its id, in registry order |
| ElbBind.DescribedMeaning | report_elb.py:382-384 | a health record reaches an instance key exactly when one of its targets has that instance's id |
| ElbBind.BoundRules | report_elb.py:276-289 | after binding, a listener's rules are exactly the loaded rules naming it, in registry order |
| ElbBind.BoundRefs | report_elb.py:94-115 | after binding, a DNS record refers to what its lookup finds in the loaded indices, and to nothing when the lookup fails |
| ElbBind.BoundLoadBalancerMarks | report_elb.py:148-149 | after binding, a load balancer is marked exactly when some DNS record resolves to it |
| ElbBind.BoundInstanceMarks | report_elb.py:427-428 | after binding, an instance is marked exactly when some DNS record resolves to it |
| ElbBind.BoundKeepsRecords | report_elb.py:514-531 | binding only attaches: the records, the registries' keys and order, and the indices stay as loaded |
| ElbGraph.KindsDisjoint | report_elb.py:72-74 | keys of items of different classes never coincide, whatever the items' own names |
| ElbGraph.ElbName | report_elb.py:206-211 | the load balancer name taken from a listener ARN never contains a `/` |
| ElbGraph.ElbNameOfFields | report_elb.py:206-211 | for an ARN of `/`-free fields: the assertion fails unless the first field ends in `listener`, fewer than three fields fail the index, otherwise the third field is the name |
| ElbGraph.FixedNodes | report_elb.py:295-298 | a rule declares nodes exactly when it has a fixed-response action, and every node it declares is its fixed-response node |
| ElbGraph.RuleNodeLines | report_elb.py:291-300 | a rule without a fixed-response action renders no node and cannot fail; with one it fails exactly when its key does |
| ElbGraph.Edges | report_elb.py:307-323 | reference: one edge per action from the listener's node to the action's destination, in order, and the `NameError` exactly when some action has no destination |
| ElbGraph.EdgeLoop | report_elb.py:302-325 | the action loop with its `dest` local computes the as-written edges, where an unhandled action reuses the previous destination |
| ElbGraph.EdgesAsWrittenAgrees | report_elb.py:307-323 | when every action is handled, the loop as written and the reference give the same edges |
| ElbGraph.StaleDestination | report_elb.py:307-323 | a forward followed by an unhandled action draws the forward edge twice instead of failing |
| ElbGraph.FixedResponseDeclared | report_elb.py:291-325 | each fixed-response edge of a rule ends at a node that the rule's own node lines declare |
| ElbGraph.DefaultEdges | report_elb.py:240-263 | a listener without rules succeeds exactly when its key does and it has no fixed-response or unknown default action, and then draws one edge per default action, from its own node |
| ElbGraph.ListenerNodes | report_elb.py:171-173 | a load balancer's listener nodes render exactly when every listener's node does |
| ElbGraph.GroupNodes | report_elb.py:175-177 | every target group of a load balancer has its node in the cluster |
| ElbGraph.Cluster | report_elb.py:162-180 | a cluster opens with its head line, closes with `}`, keeps every head and inner line, and holds the DNS handle when marked |
| ElbGraph.LbClusterLines | report_elb.py:162-180 | a load balancer cluster renders exactly when all its listener nodes do; it opens with the balancer's key, closes, holds every target group node and holds the DNS handle when marked |
| ElbGraph.TargetNodes | report_elb.py:392-407 | a health record draws a node for exactly the targets with the given instance id |
| ElbGraph.HealthNodes | report_elb.py:461-464 | an instance's health loop draws exactly the targets with its id from all of its health records |
| ElbGraph.GroupEdgeLines | report_elb.py:353-363 | a target group fails with `AttributeError` exactly when no health record was bound to it; otherwise it draws one edge to each of its targets, in the sorted order of the targets' keys |
| ElbGraph.InstanceName | report_elb.py:433-446 | an instance's name is its `Name` tag; a repeated tag key raises `ValueError` first, and a missing `Name` tag raises `KeyError` |
| ElbGraph.SaneName | report_elb.py:433-443 | without repeated keys, the sane tag dict has a `Name` entry exactly when a tag is named `Name`, holding that tag's value |
| ElbGraph.InstanceHead | report_elb.py:450-455 | the instance cluster opens with its key, and a stopped instance's label says so |
| ElbGraph.InstanceClusterLines | report_elb.py:448-473 | an instance cluster renders exactly when its name does; it is red and labelled when stopped, holds the DNS handle when marked, shows the bare node when asked and there is no health, and holds every target node with its id |
| ElbGraph.DnsNode | report_elb.py:117-121 | a DNS record draws a node exactly when it is an address or alias record |
| ElbGraph.DnsEdges | report_elb.py:123-127 | a DNS record draws an edge exactly when it refers to something |
| ElbGraph.DnsLines | report_elb.py:505-509 | the DNS part has two lines per record |
| ElbGraph.DnsLinesPair | report_elb.py:505-509 | the two lines of the `i`-th record are its node line and then its edge line |
| ElbGraph.Assemble | report_elb.py:480-511 | the report opens with the four header lines and closes with `}`, around the parts and the four separating empty lines |
| ElbGraph.DumpFails | report_elb.py:480-511 | the report fails exactly when a load balancer, instance or listener render fails or a target group has no bound health record |
| ElbGraph.DumpLength | report_elb.py:480-511 | a report holds one entry per load balancer, instance, listener and target group, two per DNS record, and the header, separators and closing brace |
| ElbGraph.LbSectionOk | report_elb.py:486-488 | the load balancer section succeeds exactly when every load balancer renders |
| ElbGraph.InstanceSectionOk | report_elb.py:491-493 | the instance section succeeds exactly when every instance renders |
| ElbGraph.ListenerSectionOk | report_elb.py:496-498 | the listener section succeeds exactly when every listener's edges render |
| ElbGraph.GroupSectionOk | report_elb.py:501-503 | the target group section succeeds exactly when every group has a bound health record |
| ElbGraph.DumpAllElb | report_elb.py:480-511 | the print loops produce the report `Dump` describes, or its first exception; `Dump` draws rule and default-action edges with the corrected `Edges` (see Findings) |
| ElbGraph.PrintLbs | report_elb.py:486-488 | the loop renders the load balancers in sorted ARN order, stopping at the first failure |
| ElbGraph.PrintInstances | report_elb.py:491-493 | the loop renders the instances in sorted key order, stopping at the first failure |
| ElbGraph.PrintListenerEdges | report_elb.py:496-498 | the loop renders the listeners' edges in sorted ARN order, stopping at the first failure |
| ElbGraph.PrintGroupEdges | report_elb.py:501-503 | the loop renders the target groups' edges in sorted ARN order, stopping at the first failure |
| ElbGraph.PrintDns | report_elb.py:506-509 | the loop prints each DNS record's node and edge line in sorted name order |
| ElbGraph.Loaded | report_elb.py:583-586 | the loaded registry is well formed and nothing in it is bound yet |
| ElbGraph.ReportElb | report_elb.py:580-589 | `main` loads, binds and dumps: its output is the report of the bound registry, or the `AssertionError` of a target group naming several load balancers, raised before anything is printed |
| ElbGraph.TargetEdgesLand | report_elb.py:353-464 | a target group's edge to a target ends at a node drawn inside the cluster of the instance with that target's id |
| ElbGraph.DnsEdgesLand | report_elb.py:94-169 | a DNS edge ends at the DNS handle drawn inside the cluster of the item the record resolves to, and a record that resolves to nothing draws no edge |
| Security.AddMember | report_security.py:211 | the index gains the group, and the members are the old ones plus the id in that group |
| Security.JoinAll | report_security.py:207-211 | after the id joins each listed group, a group is in the index exactly when it was or is listed, and its members are the old ones plus the id for each listed group |
| Security.JoinLoop | report_security.py:209-211 | the loop over the security groups builds the index `JoinAll` describes |
| Security.Ingest | report_security.py:404-434 | a record that fails the profile or region filter, or has another datatype, leaves the database as it was |
| Security.Register | report_security.py:414-434 | a record of a datatype the loader does not know changes nothing |
| Security.RegisterTouches | report_security.py:203-229 | only an instance record touches the instance index, only a load balancer record the load balancer index, and only an ACL record the ACLs |
| Security.IngestInstanceMembers | report_security.py:207-211 | after one record, an id is an instance member of a group exactly when it was before or the record is a selected instance record for that id listing the group |
| Security.IngestElbMembers | report_security.py:226-229 | after one record, an id is a load balancer member of a group exactly when it was before or the record is a selected load balancer record for that id listing the group |
| Security.IngestAclStep | report_security.py:203-204 | a selected ACL record for an id stores that ACL under it; any other record leaves that id's ACL as it was |
| Security.LoadedInstanceMembers | report_security.py:404-434 | the instance index never forgets: an id is a member of a group exactly when it was before or some selected instance record with that id lists the group, even one a later record replaced |
| Security.LoadedElbMembers | report_security.py:404-434 | the load balancer index never forgets, in the same way |
| Security.LoadedAcl | report_security.py:404-434 | last write wins: an ACL id holds the last selected record for it |
| Security.UnloadedAcl | report_security.py:404-434 | an ACL id without a selected record keeps what it held |
| Security.TaggedName | report_security.py:144-150 | the name is the last `Name` tag's value in lower case, or `?` when there is none |
| Security.AclName | report_security.py:140-150 | an unloaded ACL prints as `? (id)`; a loaded one as its tagged name and its id in parentheses |
| Security.InstanceName | report_security.py:166-176 | an unloaded instance prints as `? (id)`; a loaded one as its tagged name and its id in parentheses |
| Security.VpcName | report_security.py:190-200 | an unloaded VPC prints as `? (id)`; a loaded one as its tagged name and its id in parentheses |
| Security.GroupName | report_security.py:179-187 | a group that is not loaded or has no `GroupName` prints as `? (id)`; otherwise its `GroupName` in lower case and its id in parentheses |
| Security.NamesEndWithId | report_security.py:140-200 | two printed names are equal only for the same id, when no name part or id contains an opening parenthesis |
| Security.Store.constructor | report_security.py:129-137 | the global database starts with every table and index empty |
| Security.Store.AddAcl | report_security.py:203-204 | `data_add_acl` stores the ACL under its id; nothing else changes |
| Security.Store.AddInstance | report_security.py:207-211 | `data_add_instance` stores the instance and adds its id to the member set of each of its groups |
| Security.Store.AddGroup | report_security.py:214-215 | `data_add_sg` stores the group under its id; nothing else changes |
| Security.Store.AddGroupRule | report_security.py:218-219 | `data_add_sgr` stores the rule under its id; nothing else changes |
| Security.Store.AddVpc | report_security.py:222-223 | `data_add_vpc` stores the VPC under its id; nothing else changes |
| Security.Store.AddElb | report_security.py:226-229 | `data_add_elb` stores the load balancer and adds its id to the member set of each of its groups |
| Security.Store.Dispatch | report_security.py:409-434 | one pass of the loader's body changes the database as `Ingest` describes |
| Security.Store.Load | report_security.py:404-434 | the loader's record loop changes the database as `IngestAll` describes |
| SecurityReport.PortCellReadBack | report_security.py:243-244 | a single port printed as a range cell reads back as that port |
| SecurityReport.RangeCellReadBack | report_security.py:245-246 | a printed range of two ports splits at its only dash into the two ends |
| SecurityReport.AclProtocol | report_security.py:250-254 | the protocol shows `*` for `-1`; it fails (with `ValueError`) exactly when the text is no number or the library has no name for it |
| SecurityReport.Cells | report_security.py:256-273 | the table row always carries the order, and carries the rule number, description and tags exactly when the rule has them |
| SecurityReport.AclRule | report_security.py:240-275 | an entry converts exactly when its protocol does and it has an IPv4 block; the row holds its number, protocol and action, puts the block and the ports on the side its direction says, and orders by rule number plus a tenth for outbound |
| SecurityReport.AclRuleOrder | report_security.py:266-273 | ACL rows sort by rule number, and for one number the inbound rule comes first |
| SecurityReport.AclRuleMirror | report_security.py:261-273 | flipping an entry's direction swaps the two ends of its row and keeps the rest |
| SecurityReport.AclRules | report_security.py:238-277 | an ACL's rules convert exactly when every entry does, giving one row per entry in entry order, and otherwise fail with the first failing entry's error |
| SecurityReport.AclRuleLoop | report_security.py:239-275 | the entry loop computes `AclRules` |
| SecurityReport.AclRuleOf | report_security.py:240-273 | the body of the entry loop computes the entry's row |
| SecurityReport.NamedAclsContents | report_security.py:233-277 | the first loop fails exactly when some ACL has an entry that cannot be converted; otherwise every ACL's printed name is kept, each holding an ACL of that name with its rows |
| SecurityReport.NamedAclsSucceed | report_security.py:233-277 | the first loop succeeds exactly when every ACL converts |
| SecurityReport.NamedAclsNames | report_security.py:234-236 | when the loop succeeds, every ACL's printed name is a key of the result |
| SecurityReport.NamedAclsKept | report_security.py:234-277 | when the loop succeeds, each kept name holds an ACL with that name, its VPC and its rows |
| SecurityReport.NamedAclsFailed | report_security.py:233-277 | once the loop has failed, the ACLs after it change nothing |
| SecurityReport.NamedAclsSnoc | report_security.py:234-277 | one more converted ACL is stored under its printed name, replacing an earlier ACL of the same name |
| SecurityReport.NamedAclsFailure | report_security.py:238-277 | when an ACL's rules fail, the loop ends with that failure |
| SecurityReport.AclBlocks | report_security.py:289-296 | the second loop prints three lines per ACL |
| SecurityReport.AclBlocksAt | report_security.py:289-296 | the `i`-th three lines are the block of the `i`-th ACL |
| SecurityReport.DumpAllAcl | report_security.py:232-296 | the two loops of `dump_all_acl` print the report `AclReport` describes, or its first exception |
| SecurityReport.KeepAcls | report_security.py:233-277 | the first loop keeps each ACL under its printed name, in load order |
| SecurityReport.PrintAcls | report_security.py:289-296 | the second loop prints the ACL blocks in sorted name order |
| SecurityReport.AclReportSucceeds | report_security.py:232-296 | `dump_all_acl` raises exactly when some entry of some ACL cannot be converted |
| SecurityReport.AclReportShape | report_security.py:289-296 | when it prints, it prints three lines per name, the names strictly ascending and every ACL's name among them |
| SecurityReport.AclReportBlock | report_security.py:289-296 | the `i`-th ACL printed has an empty line, the heading with its name and VPC, and the table of the rows of an ACL with that name, sorted by `_order` |
| GroupReport.GroupTags | report_security.py:359-360 | the tags fail exactly when the record has no `Tags` (`KeyError`) or a non-empty list repeats a key; a present column maps every tag's key to its value |
| GroupReport.GroupRule | report_security.py:344-378 | only the tags can fail; the row allows the rule's protocol, carries its description and tags, and puts the peer and the ports on the side its direction says, `$this` and `*` on the other |
| GroupReport.GroupRows | report_security.py:344-387 | a group's rows convert exactly when every rule's tags do, giving one row per rule in order, each showing the rule's own peer |
| GroupReport.GroupRuleMirror | report_security.py:368-378 | flipping a rule's direction swaps the addresses and moves the ports between source and destination |
| GroupReport.AsWrittenAgrees | report_security.py:362-366 | while every rule names its peer, the rows as written are the reference rows |
| GroupReport.StaleAddressShown | report_security.py:362-375 | as written, an inbound rule without an IPv4 or group peer after one with a block shows that block as its source |
| GroupReport.StaleRows | report_security.py:362-378 | as written, both of those rules show the first rule's block |
| GroupReport.OwnPeerShown | report_security.py:362-375 | in the reference rows, the second rule shows no IPv4 peer |
| GroupReport.UnboundAddress | report_security.py:362-370 | a first rule that names no peer, before any rule set the variable, raises `NameError` |
| GroupReport.StarSortable | report_security.py:26-32 | `*` is no number and sorts as port 0 |
| GroupReport.NotANumber | report_security.py:28-31 | a lone character that is no digit, sign or space is no number |
| GroupReport.ThisSortable | report_security.py:35-50 | `$this` is no address and sorts as 0.0.0.0 |
| GroupReport.InboundOrder | report_security.py:380-385 | an inbound single-port rule from a block orders by "all ports", its port, its block and `$this`, each in sortable form |
| GroupReport.CidrKeyOrder | report_security.py:35-50 | the sortable form of a block orders blocks by address, then by prefix length |
| GroupReport.InboundRowOrder | report_security.py:380-401 | an inbound table lists its rules by destination port, then by the source block's address, then by its prefix length |
| GroupDump.RulesOf | report_security.py:301-313 | the rules gathered for a group all come from the loaded rules and belong to that group |
| GroupDump.GroupedContents | report_security.py:300-313 | the groups list each group id once, in the order of its first rule, and each holds exactly its own rules in load order |
| GroupDump.RulesOfNone | report_security.py:301-313 | a group id no rule names gathers no rules |
| GroupDump.GroupsNotEmpty | report_security.py:301-313 | every gathered group holds at least one rule |
| GroupDump.RulesOfHas | report_security.py:301-313 | every rule is among the rules gathered for its own group |
| GroupDump.GroupNamesKeys | report_security.py:315-318 | the printed names are exactly the groups' printed names |
| GroupDump.GroupNamesLast | report_security.py:315-318 | each printed name maps to the last group printing under it |
| GroupDump.GroupElbs | report_security.py:334-340 | a group's load balancers are exactly those listed for it, each once, in ascending order |
| GroupDump.GroupInstances | report_security.py:329-342 | a group's instances are exactly the printed names of those listed for it, each once, in ascending order |
| GroupDump.Labelled | report_security.py:339-342 | one line per item, the word and then the item |
| GroupDump.Printed | report_security.py:315-322 | every printed name names a gathered group |
| GroupDump.GroupBlocksSucceed | report_security.py:320-401 | the groups print exactly when the rows of every group convert |
| GroupDump.GroupBlocksValue | report_security.py:320-401 | when they print, the output is the groups' blocks one after the other |
| GroupDump.GroupBlocksFailed | report_security.py:320-401 | once a group has failed, the groups after it change nothing |
| GroupDump.GroupBlocksSnoc | report_security.py:320-401 | printing one more group appends its block, or ends with the first failure |
| GroupDump.SgReportSucceeds | report_security.py:299-401 | `SgReport` (with the corrected rows) fails exactly when some rule of a printed group has tags that cannot be converted |
| GroupDump.SgReportShape | report_security.py:315-401 | when it prints, the group names come in strictly ascending order, every rule's group name is among them, and the output is their blocks in that order |
| GroupDump.SgReportBlock | report_security.py:320-401 | the `k`-th block is that of the last group printing under the `k`-th name, listing exactly that group's rules |
| GroupDump.GroupRowLoop | report_security.py:344-387 | the rule loop of one group computes `GroupRows` |
| GroupDump.RuleLoop | report_security.py:344-387 | the loop converts rules one by one and stops at the first failure, reporting its index |
| GroupDump.RowsAll | report_security.py:344-387 | rows made one by one are the group's rows |
| GroupDump.RowsFailAt | report_security.py:344-387 | the first rule that fails fails the group with its error |
| GroupDump.GatherLoop | report_security.py:300-313 | the gathering loop builds the grouping `Grouped` describes |
| GroupDump.NameLoop | report_security.py:315-318 | the naming loop builds the name map `GroupNames` describes |
| GroupDump.PrintLoop | report_security.py:320-401 | the printing loop prints the blocks `GroupBlocks` describes |
| GroupDump.DumpAllSg | report_security.py:299-401 | `dump_all_sg` prints the report `SgReport` describes, or its first exception; `SgReport` shows each rule's own peer through the corrected `GroupRows` (see Findings) |
| SecurityMain.SecurityOutput | report_security.py:437-443 | the output succeeds exactly when both reports do, is the ACL report followed by the group report, and otherwise carries the first report's failure |
| SecurityMain.ReportSecurity | report_security.py:404-443 | `main` fills a fresh database from the selected records and prints both reports from it |
| IpAddrs.Ingest | report_ipaddrs.py:218-239 | a record that fails the profile or region filter, or has another datatype, leaves the database as it was |
| IpAddrs.IngestStored | report_ipaddrs.py:149-158 | a selected record replaces what its own table holds under its own id and touches nothing else |
| IpAddrs.LoadedLast | report_ipaddrs.py:218-239 | last write wins: an id holds the last selected record of its kind with that id |
| IpAddrs.NotLoaded | report_ipaddrs.py:218-239 | without a selected record of its kind, an id keeps what it held |
| IpAddrs.InstanceName | report_ipaddrs.py:136-146 | an unloaded instance prints as `? (id)`; a loaded one as its last `Name` tag in lower case (or `?`) and its id in parentheses |
| IpAddrs.WithTags | report_ipaddrs.py:171-172 | adding the tags fails with `ValueError` exactly when a tag key repeats; otherwise only the `Tags` column is added, holding the sane tags |
| IpAddrs.InterfaceMetaShape | report_ipaddrs.py:165-178 | the shared fields fail exactly on a repeated tag key; otherwise they hold the description, the subnet and VPC ids and the tags |
| IpAddrs.AddressRow | report_ipaddrs.py:181-189 | a copy of the shared fields gains the address and its sortable form, and keeps the rest |
| IpAddrs.AddressRowShape | report_ipaddrs.py:181-189 | an address row keeps every shared field of its interface |
| IpAddrs.InterfaceRows | report_ipaddrs.py:164-189 | an interface gives two rows when it has a public address and one otherwise, or the `ValueError` of a repeated tag key |
| IpAddrs.InterfaceRowsShape | report_ipaddrs.py:180-189 | one row per address of the interface, the public one first, differing only in the address |
| IpAddrs.SubnetRow | report_ipaddrs.py:191-205 | a subnet's row fails with `ValueError` exactly when a tag key repeats |
| IpAddrs.SaneName | report_ipaddrs.py:123-133 | the sane form of a repeat-free tag list has a `Name` key exactly when some tag is named `Name`, holding that tag's value |
| IpAddrs.SubnetRowShape | report_ipaddrs.py:191-205 | a subnet's row holds its block, ids, free address count, tags and order, and as description its `Name` tag's value, not lowered |
| IpAddrs.SubnetTagged | report_ipaddrs.py:192-199 | before the name is copied, the row holds exactly the block, the ids, the count and the tags |
| IpAddrs.WithNameShown | report_ipaddrs.py:201-202 | the description is added exactly when some tag is named `Name`, with that tag's value, and nothing else changes |
| IpAddrs.SubnetRows | report_ipaddrs.py:191-205 | a subnet contributes exactly its one row |
| IpAddrs.GatherValues | report_ipaddrs.py:164-205 | gathering a table's rows succeeds exactly when every entry's rows do, and otherwise fails with some entry's error |
| IpAddrs.IpReportSucceeds | report_ipaddrs.py:161-215 | the report fails, with `ValueError`, exactly when some interface or subnet repeats a tag key |
| IpAddrs.IpRowsOrdered | report_ipaddrs.py:183-204 | every row carries its address and that address's sortable form as `_order` |
| IpAddrs.InterfaceRowsOrdered | report_ipaddrs.py:183-188 | every interface row carries its sortable address as `_order` |
| IpAddrs.SubnetRowsOrdered | report_ipaddrs.py:204 | every subnet row carries its sortable address as `_order` |
| IpAddrs.SortedByAddress | report_ipaddrs.py:215 | in rows sorted by `_order`, an earlier dotted-decimal address is never the greater number |
| IpAddrs.IpReportByAddress | report_ipaddrs.py:207-215 | the table lists every row once, ordered by address |
| IpAddrs.MetaBody | report_ipaddrs.py:165-178 | the first half of the interface loop body computes the shared fields |
| IpAddrs.InterfaceBody | report_ipaddrs.py:165-189 | the interface loop body computes the interface's rows |
| IpAddrs.SubnetBody | report_ipaddrs.py:192-205 | the subnet loop body computes the subnet's row |
| IpAddrs.InterfaceLoop | report_ipaddrs.py:164-189 | the interface loop gathers the rows of every interface in dict order, stopping at the first failure |
| IpAddrs.SubnetLoop | report_ipaddrs.py:191-205 | the subnet loop gathers the rows of every subnet in dict order, stopping at the first failure |
| IpAddrs.DumpAllIpaddrs | report_ipaddrs.py:161-215 | `dump_all_ipaddrs` prints the table `IpReport` describes, or its `ValueError` |
| IpAddrs.Store.constructor | report_ipaddrs.py:117-120 | the global database starts with every table empty |
| IpAddrs.Store.AddInstance | report_ipaddrs.py:149-150 | `data_add_instance` stores the instance under its id |
| IpAddrs.Store.AddInterface | report_ipaddrs.py:153-154 | `data_add_network_interface` stores the interface under its id |
| IpAddrs.Store.AddSubnet | report_ipaddrs.py:157-158 | `data_add_subnet` stores the subnet under its id |
| IpAddrs.Store.Dispatch | report_ipaddrs.py:222-239 | one pass of the loader's body changes the database as `Ingest` describes |
| IpAddrs.Store.Load | report_ipaddrs.py:218-239 | the loader's record loop changes the database as `IngestAll` describes |
| IpAddrs.ReportIpaddrs | report_ipaddrs.py:242-247 | `main` fills a fresh database from the selected records and prints the table from it |
| Topology.Appended | report_graphviz2.py:90-91 | the id goes at the end of the list under the key, even when the list holds it already, and every other list stays as it was |
| Topology.Defaulted | report_graphviz2.py:100 | the key gets an empty list unless it has one, and no list changes |
| Topology.Ingest | report_graphviz2.py:111-135 | a record that fails the profile or region filter, or has a datatype without a loader, leaves the database as it was |
| Topology.RegisterIndexed | report_graphviz2.py:87-108 | every `data_add_*` keeps the indices consistent: listed instances and subnets are loaded, and every loaded subnet has an instance list |
| Topology.LoadIndexed | report_graphviz2.py:111-135 | loading keeps the indices consistent, so every database the loader builds is consistent |
| Topology.IngestInstances | report_graphviz2.py:87-91 | one record adds an instance to a subnet's list exactly when it places the instance there, and takes none away |
| Topology.IngestSubnets | report_graphviz2.py:98-104 | one record adds a subnet to a VPC's list exactly when it is that subnet's record naming the VPC, and creates the VPC's list exactly then |
| Topology.SubnetInstancesLoaded | report_graphviz2.py:87-135 | after loading, a subnet lists an instance exactly when some selected record placed it there, so an instance loaded twice with two subnets is listed under both |
| Topology.VpcSubnetsLoaded | report_graphviz2.py:98-135 | after loading, a VPC lists a subnet exactly when some selected subnet record with that id names the VPC |
| Topology.VpcKeyLoaded | report_graphviz2.py:98-135 | after loading, the VPC index has an entry for a VPC exactly when some selected subnet record names it |
| Topology.TaggedName | report_graphviz2.py:62-72 | an unloaded resource raises `ValueError`; a loaded one is named by its last `Name` tag in lower case, or by its id when it has none |
| Topology.InstanceName | report_graphviz2.py:75-76 | an instance name exists exactly for a loaded instance |
| Topology.SubnetName | report_graphviz2.py:79-80 | a subnet name exists exactly for a loaded subnet |
| Topology.VpcName | report_graphviz2.py:83-84 | a VPC name exists exactly for a loaded VPC |
| Topology.InstanceLine | report_graphviz2.py:156-178 | a listed instance draws its node exactly when it is loaded, and otherwise raises `KeyError` with its id |
| Topology.SubnetBlockSucceeds | report_graphviz2.py:150-180 | in a consistent database, a subnet's cluster is drawn exactly when the subnet is loaded |
| Topology.VpcBlockSucceeds | report_graphviz2.py:145-182 | in a consistent database, a loaded VPC's cluster is drawn exactly when some subnet names it, and otherwise raises `KeyError` with its id |
| Topology.GraphSucceeds | report_graphviz2.py:138-184 | in a consistent database the graph is drawn exactly when every loaded VPC has a subnet, and otherwise fails with `KeyError` for such a VPC |
| Topology.LoadedGraphSucceeds | report_graphviz2.py:187-192 | the graph of the loaded records is drawn exactly when every loaded VPC is named by some selected subnet record |
| Topology.NodeInside | report_graphviz2.py:138-184 | a node line among frame lines is found in the middle part |
| Topology.FramesAreNotNodes | report_graphviz2.py:139-184 | no header, cluster opening or closing line is an instance node |
| Topology.SubnetNodes | report_graphviz2.py:150-180 | a node in a subnet's cluster belongs to an instance the subnet lists |
| Topology.VpcNodes | report_graphviz2.py:145-182 | a node in a VPC's cluster belongs to an instance listed by a loaded subnet the VPC lists |
| Topology.GraphNodesPlaced | report_graphviz2.py:138-184 | every node of the graph is an instance drawn inside its subnet's cluster, inside its VPC's cluster |
| Topology.PlacedNodesDrawn | report_graphviz2.py:138-184 | every placed instance is drawn whenever the graph is drawn |
| Topology.NameOf | report_graphviz2.py:62-72 | `_tagged_name` with its tag loop computes `TaggedName` |
| Topology.NodeBody | report_graphviz2.py:157-178 | the instance loop body computes the instance's node line |
| Topology.SubnetBody | report_graphviz2.py:151-180 | the subnet loop body computes the subnet's cluster |
| Topology.VpcBody | report_graphviz2.py:146-182 | the VPC loop body computes the VPC's cluster |
| Topology.DumpGraphviz | report_graphviz2.py:138-184 | `dump_graphviz` prints the graph `Graph` describes, or its first exception |
| Topology.Store.constructor | report_graphviz2.py:39-46 | the global database starts with every table and index empty |
| Topology.Store.AddInstance | report_graphviz2.py:87-91 | `data_add_instance` stores the instance and appends it to its subnet's list |
| Topology.Store.AddInterface | report_graphviz2.py:94-95 | `data_add_network_interface` stores the interface |
| Topology.Store.AddSubnet | report_graphviz2.py:98-104 | `data_add_subnet` stores the subnet, gives it an instance list, and appends it to its VPC's list |
| Topology.Store.AddVpc | report_graphviz2.py:107-108 | `data_add_vpc` stores the VPC |
| Topology.Store.Dispatch | report_graphviz2.py:124-135 | one pass of the loader's body changes the database as `Ingest` describes |
| Topology.Store.Load | report_graphviz2.py:111-135 | the loader's record loop changes the database as `IngestAll` describes |
| Topology.ReportGraphviz | report_graphviz2.py:187-192 | `main` fills a fresh database from the selected records and prints the graph |
| Scraper.TokenHasNoSpace | report_graphviz.py:14 | an id the pattern accepts holds no space |
| Scraper.LastSpace | report_graphviz.py:14 | the position found is a space with no space after it, and none is found only when the text has no space |
| Scraper.Match | report_graphviz.py:14 | a match found splits the line into some text, a space and an id |
| Scraper.MatchIsOnlySplit | report_graphviz.py:14 | whenever the line splits into text, a space and an id, the match is found and it is that split |
| Scraper.ResourceWords | report_graphviz.py:23-24 | a stripped `resourceid:` line always has a second word, so `split()[1]` cannot fail |
| Scraper.ClassifyNames | report_graphviz.py:21-25 | a line names the file's resource exactly when, stripped, it starts with `resourceid: `, and the id is its second word |
| Scraper.ClassifyRefers | report_graphviz.py:21-36 | a line refers to an id exactly when it names no resource and, stripped, is some text other than `Description:`, a space and that id |
| Scraper.Added | report_graphviz.py:36 | adding to the id set keeps it free of repeats and adds exactly the new id |
| Scraper.Step | report_graphviz.py:23-36 | one line keeps the gathered ids free of repeats |
| Scraper.ScanAll | report_graphviz.py:16-36 | the line loop keeps the gathered ids free of repeats |
| Scraper.Kinds | report_graphviz.py:16-36 | each line is classified on its own |
| Scraper.OwnUnknown | report_graphviz.py:11-25 | the file's resource is unknown exactly when no line names one |
| Scraper.OwnIsLast | report_graphviz.py:23-25 | the file's resource is the one its last `resourceid:` line names |
| Scraper.RefsGathered | report_graphviz.py:27-36 | the gathered ids are exactly the ids the lines refer to |
| Scraper.EdgeInjective | report_graphviz.py:45 | two edges from one resource are the same line only when they go to the same id |
| Scraper.Edges | report_graphviz.py:42-45 | an edge is printed for exactly the gathered ids other than the file's own |
| Scraper.EdgesDistinct | report_graphviz.py:42-45 | distinct ids give distinct edges |
| Scraper.ReadIdsOutput | report_graphviz.py:38-45 | a file that names no resource prints only the comment; otherwise no edge is printed twice |
| Scraper.ReadIdsEdges | report_graphviz.py:10-45 | the edges go from the resource the last `resourceid:` line names to exactly the ids the other lines refer to, never to the resource itself |
| Scraper.DiagramLines | report_graphviz.py:48-59 | the diagram holds every file's output and, between its header and closing brace, nothing that no file printed |
| Scraper.LineBody | report_graphviz.py:17-36 | the body of the `readline` loop performs one step of the scan |
| Scraper.EdgeLoop | report_graphviz.py:42-45 | the loop over the gathered ids prints the edges `Edges` describes |
| Scraper.ReadIdsLoop | report_graphviz.py:10-45 | `read_ids` with its `readline` loop prints what `ReadIds` describes |
| Scraper.ReportGraphviz | report_graphviz.py:48-59 | `main` prints the header, each file's output in listing order, and the closing brace |
| DefinitionSets.FieldsMembers | lib/definitionset.py:20-30 | a field is a column exactly when it is one of the three metadata columns or some object has it |
| DefinitionSets.Lift | lib/definitionset.py:40 | an object's fields become cells of the same names, in the object's order, each holding the field's value |
| DefinitionSets.MetaColumns | lib/definitionset.py:36-39 | a row starts with the type, metadata and id columns, in that order |
| DefinitionSets.MakeRow | lib/definitionset.py:36-40 | a CSV row starts with the three metadata columns, has exactly those and the object's fields, and every object field keeps its value, overriding a metadata column of the same name |
| DefinitionSets.MakeRowMeta | lib/definitionset.py:37-39 | a metadata column the object does not override holds the type, the source's metadata and the object's id |
| DefinitionSets.MakeCanonical | lib/definitionset.py:47-52 | a canonical record keeps the type and the object unchanged, and its metadata is the source's with the id added under `resourceid` |
| DefinitionSets.RenderingsAgree | lib/definitionset.py:32-53 | both renderings fail, with `AttributeError`, exactly when there are objects but no data source; otherwise they give one entry per object in the same order, the CSV row made from the canonical record's id and object |
| DefinitionSets.SetFieldsMembers | lib/definitionset.py:67-72 | a column of a set is a column of one of its members |
| DefinitionSets.SetRowsContents | lib/definitionset.py:74-78 | a set renders exactly when every member with objects has a data source, and its rows are then exactly its members' rows |
| DefinitionSets.SetCanonicalContents | lib/definitionset.py:80-84 | the canonical records of a set succeed together with its rows and are exactly its members' records |
| DefinitionSets.SetRowsAppend | lib/definitionset.py:64-78 | appending a member adds its rows after the rows already there |
| DefinitionSets.DefinitionSet.constructor | lib/definitionset.py:58-59 | a new set has no members |
| DefinitionSets.DefinitionSet.Append | lib/definitionset.py:64-65 | the member goes last |
| DefinitionSets.DefinitionSet.CsvFields | lib/definitionset.py:67-72 | the loop computes the union of the members' columns: a field is a column exactly when some member has it as a column |
| DefinitionSets.DefinitionSet.CsvRows | lib/definitionset.py:74-78 | the loop yields each member's rows in turn, stopping at the first member that fails |
| DefinitionSets.DefinitionSet.CanonicalData | lib/definitionset.py:80-84 | the loop yields each member's records in turn, stopping at the first member that fails |
| Collector.IdOf | lib/aws/__init__.py:154 | an object's id is its field's text; a missing field is a `KeyError`, and a list field cannot be an id |
| Collector.IndexIntoSucceeds | lib/aws/__init__.py:153-155 | indexing a page's objects succeeds exactly when every object has an id |
| Collector.IndexIntoKeys | lib/aws/__init__.py:153-155 | an id is indexed exactly when it was there before or some object has it; the ids already there keep their places at the front |
| Collector.IndexIntoLastWins | lib/aws/__init__.py:153-155 | a later object with the same id overwrites an earlier one |
| Collector.IndexIntoKeeps | lib/aws/__init__.py:153-155 | an id no object has keeps the entry it had |
| Collector.IndexIntoAppend | lib/aws/__init__.py:152-155 | indexing two lists one after the other is indexing their concatenation |
| Collector.IndexIntoFailed | lib/aws/__init__.py:153-155 | once a prefix of the objects fails, indexing all of them fails the same way |
| Collector.IndexLoop | lib/aws/__init__.py:153-155 | the loop over one page's objects indexes them as `IndexInto` describes |
| Collector.IndexPagesFlat | lib/aws/__init__.py:152-155 | when every page has its list, the pages are indexed as one list in page order, so a later duplicate overwrites an earlier one across pages too |
| Collector.TwoDeepLastWins | lib/aws/__init__.py:145-157 | `_data_two_deep` keeps, for each id, the last object listed with it on any page |
| Collector.TwoDeepKeys | lib/aws/__init__.py:145-157 | the ids `_data_two_deep` keeps are exactly those of the listed objects |
| Collector.IndexPagesMissing | lib/aws/__init__.py:152-153 | a page without the list makes the whole reply fail |
| Collector.IndexPagesFailed | lib/aws/__init__.py:152-155 | once a prefix of the pages fails, the whole reply fails the same way |
| Collector.IndexPagesLoop | lib/aws/__init__.py:152-155 | the loop over pages around the loop over objects indexes the reply as `IndexPages` describes |
| Collector.FetchTwoDeep | lib/aws/__init__.py:147-157 | `_fetch_one_client` of a two-level collector computes `TwoDeep` |
| Collector.DoSort | lib/aws/__init__.py:167-171 | a successful sort always gives a list |
| Collector.DoSortSorts | lib/aws/__init__.py:167-171 | a list sorts exactly when it has at most one element or all elements have the field; the result is a permutation, ordered by the field, and stable |
| Collector.MissingField | lib/aws/__init__.py:168-169 | some sub-object lacks the field exactly when not all of them have it |
| Collector.SortField | lib/aws/__init__.py:175 | one field sorts exactly when the object has it and its value sorts, replacing that field in place; a missing field is a `KeyError` |
| Collector.SortFieldsEffect | lib/aws/__init__.py:174-175 | an object's configured fields sort exactly when it has each of them and each sorts; then each holds its sorted value, every other field is untouched, and the fields keep their order |
| Collector.RewriteSucceeds | lib/aws/__init__.py:173-175 | rewriting the objects succeeds exactly when each object's rewrite does |
| Collector.RewriteUpToEffect | lib/aws/__init__.py:173-175 | after rewriting, the rewritten objects are replaced by their rewrites, the others are untouched, and the ids keep their order |
| Collector.SortAllEffect | lib/aws/__init__.py:163-175 | sorting the arrays succeeds exactly when every object's configured fields sort; then every object is its sorted self, under the same id and in the same order |
| Collector.SortItemLoop | lib/aws/__init__.py:174-175 | the loop over one object's configured fields computes `SortItem` |
| Collector.SortFieldsFailed | lib/aws/__init__.py:174-175 | once a field fails to sort, the whole object fails the same way |
| Collector.RewriteStep | lib/aws/__init__.py:173-175 | one more object is stored back under its id, or its failure ends the rewrite |
| Collector.RewriteFailed | lib/aws/__init__.py:173-175 | once an object fails, the whole rewrite fails the same way |
| Collector.SortArrays | lib/aws/__init__.py:163-175 | `_mutate_sortarray._mutate` computes `SortAll` |
| Collector.SortOne | lib/aws/__init__.py:174-175 | one object's configured fields sorted and the object stored back, or the failure of the whole rewrite |
| Collector.FetchedMembers | lib/aws/__init__.py:63-105 | the set holds exactly one Definition per session that was attempted and answered, built from its rewritten answer |
| Collector.FetchedFails | lib/aws/__init__.py:90-100 | `fetch` fails exactly when the rewrite of some attempted, answered session fails; the session's own exceptions are swallowed |
| Collector.FetchedOnePerProfile | lib/aws/__init__.py:70-76 | a single-region collector keeps at most one Definition per profile, each under the placeholder region, each for a profile some session had |
| Collector.AllRegionsAttempted | lib/aws/__init__.py:66-80 | without single-region, every session is asked, and its Definition records its own region |
| Collector.FetchedCannotRender | lib/aws/__init__.py:78-103 | `fetch` attaches no data source, so once a fetched Definition holds objects, rendering the set's rows or records fails |
| Collector.FetchedFailed | lib/aws/__init__.py:66-103 | once a prefix of the sessions fails, `fetch` fails the same way |
| Collector.FetchStep | lib/aws/__init__.py:66-103 | one more session adds its Definition, adds nothing, or ends `fetch` with its failure |
| Collector.Fetch | lib/aws/__init__.py:63-105 | `fetch` returns a new set whose members are those `Fetched` describes, or the rewrite's failure |
| Route53.Labels | lib/aws/route53.py:47-51 | no label of a name holds a dot |
| Route53.Reversed | lib/aws/route53.py:52 | the labels in the opposite order |
| Route53.ThreeLabels | lib/aws/route53.py:47-53 | a fully qualified `a.b.c.` is stored under `c.b.a/type` |
| Route53.TypesDistinguish | lib/aws/route53.py:53 | different types for one name get different keys |
| Route53.LabelsOfQualified | lib/aws/route53.py:47-51 | the labels of a name with a final dot are the pieces of the name without it |
| Route53.ReversedTwice | lib/aws/route53.py:52 | reversing twice gives the labels back |
| Route53.QualifiedKeysInjective | lib/aws/route53.py:47-53 | fully qualified names with slash-free types get distinct keys unless both names and types are the same |
| Route53.FinalDotIgnored | lib/aws/route53.py:47-51 | a relative name and the same name with a final dot share their key |
| Route53.KeyOfRecord | lib/aws/route53.py:47-53 | a record has a key exactly when its `Name` and `Type` are present strings, and the key is its name, labels reversed, then `/` and its type |
| Route53.FillZonesFlat | lib/aws/route53.py:34-55 | when every zone is listed, the records of all zones are gathered as one list in zone order |
| Route53.RecordSetsLastWins | lib/aws/route53.py:27-57 | records from all zones share one dict: a key holds the last record listed with it in any zone |
| Route53.RecordSetsKeys | lib/aws/route53.py:27-57 | the keys gathered are exactly the keys of the listed records |
| Route53.FillZonesFailed | lib/aws/route53.py:34-55 | once a prefix of the zones fails, the whole fill fails the same way |
| Route53.FillZone | lib/aws/route53.py:35-55 | one zone's records gathered into the dict, or the failure of the whole fill |
| Route53.ResourceRecordSets | lib/aws/route53.py:27-57 | `_fetch_one_client` of the record sets computes `RecordSets` |

## Left out

- Reading files: the JSON and YAML files, `glob`, `os.chdir` and the command-line parsing of each script are left out; the parsed records are the model's inputs, and each record's fields are given as typed values (`Records`). A record that lacks a field the source reads unconditionally is outside the model, except where the model gives that `KeyError` its own path.
- The Cloudflare YAML parsing in `load_cloudflare_yaml` is left out; the model takes the parsed DNS records.
- Output: `print` is modelled as the sequence of strings written. When a report fails part way, the lines printed before the exception are not modelled; the model returns only the exception.
- `getprotobynumber` reads the system's protocol table, which is not part of this model; it is a parameter (`SecurityReport.ProtocolNames`).
- The in-place rewrite of a rule's `PortRange` and `Protocol` fields inside the loaded objects in `dump_all_acl` is modelled on the values it produces, not as an update of the shared objects.
- SortKeys.Aton: reads only dotted-decimal addresses. The shorthand (`10.1`), octal (`010.0.0.1`) and hexadecimal (`0xa.0.0.1`) forms that `inet_aton` also accepts give `None`, and so does an address followed by whitespace and further text (`10.0.0.1 x`), which glibc's `inet_aton` reads as the address, because AWS reports addresses in dotted-decimal form.
- SortKeys.IpSortable: for those shorthand, octal, hexadecimal and trailing-text forms it gives `"00000000"`, where `ipaddr2sortable` encodes the address `inet_aton` reads.
- ElbGraph.Dump, ElbGraph.DumpAllElb, ElbGraph.DefaultEdges, ElbGraph.DumpFails, ElbGraph.ListenerSectionOk and ElbGraph.ReportElb: they compose the corrected `ElbGraph.Edges`. On a rule or listener whose actions include one of an unhandled type after a handled one, they raise `NameError` where `report_elb.py` repeats the previous edge. The code as written is modelled by `ElbGraph.EdgeLoop` (see Findings).
- GroupDump.SgReport, GroupDump.SgReportSucceeds, GroupDump.SgReportShape, GroupDump.SgReportBlock, GroupDump.PrintLoop, GroupDump.DumpAllSg, GroupDump.GroupRowLoop, SecurityMain.SecurityOutput and SecurityMain.ReportSecurity: they compose the corrected `GroupReport.GroupRows`. A rule that names neither an IPv4 block nor a group shows an empty peer, where `dump_all_sg` shows the previous rule's peer or raises `UnboundLocalError`. The code as written is modelled by `GroupReport.GroupRowsAsWritten` (see Findings).
- IPv6 blocks and prefix lists are not carried. An ACL entry records only its IPv4 block, if any, and a security group rule only its IPv4 block and referenced group, if any.
- Python sets are modelled as sequences of distinct members in first-insertion order. Set iteration order in `report_graphviz.py` is not modelled; the edges come out in first-seen order, and the properties about them do not depend on order.
- `strip` and `lower` are modelled over the six characters of `string.whitespace` and the ASCII letters only; Python's `strip` and `split` also treat U+001C to U+001F and the Unicode spaces as whitespace.
- Tables.Show: a dict cell's keys and values are written with Python's `repr` rules for quotes, backslashes, tab, newline, carriage return and the unprintable characters up to U+00FF; a character above U+00FF is kept as it is, where Python writes the unprintable ones as `\uXXXX` or `\UXXXXXXXX`.
- Python's string order is modelled on code points. In sort keys a number sorts before any string; the source never compares a number with a string.
- Lines read by `readline` are taken without their terminators.
- Object identity in the ELB registry is modelled by registry keys. An index object that is re-registered under the same key with different contents is not modelled.
- The ELB model follows the code where all rules of one listener share the key built by `Rules.key`, so their fixed-response nodes share one name.
- The AWS SDK is left out: sessions, clients, paged operations, `_paged_op`, `_log_fetch_op`, and the verbose and dump flags. The pages of a reply and each session's answer are inputs, and creating a client is assumed to succeed.
- `fetch` never attaches a data source to the Definitions it creates; the model keeps that behaviour, so rendering those Definitions fails (`Collector.FetchedCannotRender`).
- `metadata()` of a Definition is assumed to return a fresh dict each time. The aliasing between the dicts it returns is not modelled.
- A Definition's `data` is always a dict in the model; the `None` the constructor accepts is left out.
- `Definition.__repr__` is left out, because it only formats a debugging string.
- When `_mutate_sortarray` fails part way, the objects it already rewrote in place are not modelled; the model returns only the failure.
- Sub-objects inside the lists that `_mutate_sortarray` sorts are modelled as string-valued dicts; nested values of other kinds are left out.
- Route 53 hosted zones that share a `Name` (split-horizon zones) collapse onto one entry, as in the source; the model keeps that behaviour.

## Findings

| source | as written | input that shows it | evidently intended | confidence | as-written member | corrected member |
|---|---|---|---|---|---|---|
| report_elb.py:307-323 | `dest` keeps its value from one action to the next. An action whose type has no handler repeats the previous action's edge; the comment says such an action should fail. The default-action loop at report_elb.py:248-263 does the same. | a rule whose actions are a forward to a target group, then an action of another type | the second action raises `NameError` instead of repeating the forward edge | high, not executed | ElbGraph.StaleDestination | ElbGraph.Edges |
| report_security.py:362-375 | `addr` is set only when a rule references a group or has an IPv4 block. A rule with neither shows the previous rule's peer, or raises `UnboundLocalError` when it comes first. | an inbound rule with `CidrIpv4`, then an inbound rule with only an IPv6 block or a prefix list | each row shows its own rule's peer, which is empty for the second rule | medium, not executed | GroupReport.StaleAddressShown | GroupReport.GroupRows |
