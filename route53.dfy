/** The DNS collectors (lib/aws/route53.py): the hosted zones are a plain
    two-deep listing keyed by zone name; the record sets of every zone are
    gathered into one dict keyed by the record's name, labels reversed, and
    its type. */
module Route53 {
  import opened Wrappers
  import opened Dicts
  import opened Text
  import opened Collector

  const KindPrefix: string := "aws.route53."
  const ZonesKey: string := "HostedZones"
  const ZoneName: string := "Name"
  const RecordsKey: string := "ResourceRecordSets"

  // ---------------------------------------------------------------------
  // The record key

  /** The labels of a DNS name: its pieces between dots, without the empty
      piece a final dot leaves. */
  function Labels(name: string): (r: seq<string>)
    ensures forall i :: 0 <= i < |r| ==> '.' !in r[i]
  {
    var parts := Split(name, '.');
    if parts[|parts| - 1] == "" then parts[..|parts| - 1] else parts
  }

  /** `list.reverse()` */
  function Reversed(xs: seq<string>): (r: seq<string>)
    ensures |r| == |xs|
    ensures forall i :: 0 <= i < |xs| ==> r[i] == xs[|xs| - 1 - i]
  {
    seq(|xs|, i requires 0 <= i < |xs| => xs[|xs| - 1 - i])
  }

  /** The key a record is stored under: its labels from the top of the
      name down, joined with dots, then `/` and the record type. */
  function RecordKey(name: string, rtype: string): string
  {
    Join(Reversed(Labels(name)), ".") + "/" + rtype
  }

  /** The usual case: a fully qualified name `a.b.c.` reads from the top
      of the name down, `c.b.a/type`. */
  lemma ThreeLabels(a: string, b: string, c: string, rtype: string)
    requires '.' !in a && '.' !in b && '.' !in c
    ensures RecordKey(a + "." + b + "." + c + ".", rtype) == c + "." + b + "." + a + "/" + rtype
  {
    var name := a + "." + b + "." + c + ".";
    var parts := [a, b, c, ""];
    Join4(a, b, c, "", ".");
    assert Join(parts, ".") == name;
    assert "." == ['.'];
    SplitJoin(parts, '.');
    assert parts[..3] == [a, b, c];
    var reversed := Reversed(Labels(name));
    assert reversed == [c, b, a];
    Join3(c, b, a, ".");
  }

  /** Two strings that end in a slash-free word after a slash are equal
      only if both parts are. */
  lemma SlashSuffix(a: string, s: string, b: string, t: string)
    requires '/' !in s && '/' !in t && a + "/" + s == b + "/" + t
    ensures a == b && s == t
  {
    var k := a + "/" + s;
    assert k[|a|] == '/' && k[..|a|] == a && k[|a| + 1..] == s;
    assert forall j :: |a| < j < |k| ==> k[j] == s[j - |a| - 1];
    assert k[|b|] == '/' && k[..|b|] == b && k[|b| + 1..] == t;
    assert forall j :: |b| < j < |k| ==> k[j] == t[j - |b| - 1];
  }

  /** Different types for one name get different keys. */
  lemma TypesDistinguish(name: string, t1: string, t2: string)
    requires t1 != t2
    ensures RecordKey(name, t1) != RecordKey(name, t2)
  {
    var p := Join(Reversed(Labels(name)), ".") + "/";
    assert (p + t1)[|p|..] == t1 && (p + t2)[|p|..] == t2;
  }

  /** The labels of a name with a final dot are the pieces of the name
      without it. */
  lemma LabelsOfQualified(m: string)
    ensures Labels(m + ".") == Split(m, '.')
  {
    SplitTrailing(m, '.');
    assert m + "." == m + ['.'];
    var parts := Split(m, '.') + [""];
    assert parts[..|parts| - 1] == Split(m, '.');
  }

  lemma ReversedTwice(xs: seq<string>)
    ensures Reversed(Reversed(xs)) == xs
  {
  }

  /** Fully qualified names with slash-free types get distinct keys unless
      both the names and the types are the same. */
  lemma QualifiedKeysInjective(m1: string, t1: string, m2: string, t2: string)
    requires '/' !in t1 && '/' !in t2
    requires RecordKey(m1 + ".", t1) == RecordKey(m2 + ".", t2)
    ensures m1 == m2 && t1 == t2
  {
    var r1, r2 := Reversed(Labels(m1 + ".")), Reversed(Labels(m2 + "."));
    SlashSuffix(Join(r1, "."), t1, Join(r2, "."), t2);
    LabelsOfQualified(m1);
    LabelsOfQualified(m2);
    assert "." == ['.'];
    SplitJoin(r1, '.');
    SplitJoin(r2, '.');
    ReversedTwice(Split(m1, '.'));
    ReversedTwice(Split(m2, '.'));
    SplitInjective(m1, m2, '.');
  }

  /** The last piece of a split is empty only when the string ends with
      the separator or is empty. */
  lemma {:induction false} SplitLastNonEmpty(s: string, c: char)
    requires s != [] && s[|s| - 1] != c
    ensures Split(s, c)[|Split(s, c)| - 1] != ""
    decreases |s|
  {
    if c in s {
      var i := IndexOf(s, c);
      SplitLastNonEmpty(s[i + 1..], c);
    }
  }

  /** A relative name and the same name with a final dot share their key:
      the final dot is dropped before anything else. */
  lemma FinalDotIgnored(m: string, rtype: string)
    requires m != [] && m[|m| - 1] != '.'
    ensures RecordKey(m, rtype) == RecordKey(m + ".", rtype)
  {
    SplitLastNonEmpty(m, '.');
    LabelsOfQualified(m);
  }

  // ---------------------------------------------------------------------
  // Gathering the records of every zone

  /** The key of a listed record: a missing `Name` or `Type` is a
      `KeyError`, a list has no `split`, and a list cannot be appended to
      a string. */
  function KeyOfRecord(record: Item): (r: Result<string>)
    ensures r.Success? <==>
      && "Name" in record.entries && record.entries["Name"].Scalar?
      && "Type" in record.entries && record.entries["Type"].Scalar?
    ensures r.Success? ==> r.value == RecordKey(record.entries["Name"].text, record.entries["Type"].text)
  {
    if "Name" !in record.entries then Failure(KeyError("Name"))
    else if record.entries["Name"].Array? then Failure(AttributeError("split"))
    else if "Type" !in record.entries then Failure(KeyError("Type"))
    else if record.entries["Type"].Array? then Failure(TypeError("can only concatenate str (not \"list\") to str"))
    else Success(RecordKey(record.entries["Name"].text, record.entries["Type"].text))
  }

  /** The records of each zone in turn gathered into `data`, given the
      pages of each zone's record listing (or the error the listing
      raises). A zone without an `Id` is a `KeyError`. */
  function FillZones(data: Specifics, zones: seq<Item>, pagesOf: Field -> Result<seq<Page>>): Result<Specifics>
    decreases |zones|
  {
    if zones == [] then Success(data)
    else
      var before :- FillZones(data, zones[..|zones| - 1], pagesOf);
      var zone := zones[|zones| - 1];
      if "Id" !in zone.entries then Failure(KeyError("Id"))
      else
        var pages :- pagesOf(zone.entries["Id"]);
        IndexPages(before, pages, RecordsKey, KeyOfRecord)
  }

  /** `resource_record_sets._fetch_one_client`: the hosted zones, keyed by
      name, then their records in one dict. */
  function RecordSets(zonePages: seq<Page>, pagesOf: Field -> Result<seq<Page>>): Result<Specifics>
  {
    var zones :- TwoDeep(zonePages, ZonesKey, ZoneName);
    FillZones(Empty(), Values(zones), pagesOf)
  }

  /** Every zone has an `Id` whose listing succeeds with the record list
      on every page. */
  predicate ZonesListed(zones: seq<Item>, pagesOf: Field -> Result<seq<Page>>)
  {
    forall z :: 0 <= z < |zones| ==>
      && "Id" in zones[z].entries
      && pagesOf(zones[z].entries["Id"]).Success?
      && AllListed(pagesOf(zones[z].entries["Id"]).value, RecordsKey)
  }

  /** The records of all zones, zone after zone. */
  function AllRecords(zones: seq<Item>, pagesOf: Field -> Result<seq<Page>>): seq<Item>
    requires ZonesListed(zones, pagesOf)
  {
    if zones == [] then []
    else
      var zone := zones[|zones| - 1];
      AllRecords(zones[..|zones| - 1], pagesOf) + Listed(pagesOf(zone.entries["Id"]).value, RecordsKey)
  }

  /** When every zone is listed, the records of all zones are gathered as
      one list, in zone order. */
  lemma {:induction false} FillZonesFlat(data: Specifics, zones: seq<Item>, pagesOf: Field -> Result<seq<Page>>)
    requires ZonesListed(zones, pagesOf)
    ensures FillZones(data, zones, pagesOf) == IndexInto(data, AllRecords(zones, pagesOf), KeyOfRecord)
    decreases |zones|
  {
    if zones != [] {
      var prefix := zones[..|zones| - 1];
      assert ZonesListed(prefix, pagesOf) by {
        assert forall z :: 0 <= z < |prefix| ==> prefix[z] == zones[z];
      }
      FillZonesFlat(data, prefix, pagesOf);
      var zone := zones[|zones| - 1];
      var pages := pagesOf(zone.entries["Id"]).value;
      var before := AllRecords(prefix, pagesOf);
      var last := Listed(pages, RecordsKey);
      if IndexInto(data, before, KeyOfRecord).Success? {
        IndexPagesFlat(IndexInto(data, before, KeyOfRecord).value, pages, RecordsKey, KeyOfRecord);
        IndexIntoAppend(data, before, last, KeyOfRecord);
      } else {
        IndexIntoFailed(data, before + last, KeyOfRecord, |before|);
        assert (before + last)[..|before|] == before;
      }
    }
  }

  /** Records from all zones share one dict: a key holds the last record
      listed with it in any zone. */
  lemma RecordSetsLastWins(zonePages: seq<Page>, pagesOf: Field -> Result<seq<Page>>, key: string, i: int)
    requires TwoDeep(zonePages, ZonesKey, ZoneName).Success?
    requires ZonesListed(Values(TwoDeep(zonePages, ZonesKey, ZoneName).value), pagesOf)
    requires RecordSets(zonePages, pagesOf).Success?
    requires LastKeyed(AllRecords(Values(TwoDeep(zonePages, ZonesKey, ZoneName).value), pagesOf), KeyOfRecord, key, i)
    ensures key in RecordSets(zonePages, pagesOf).value.entries
    ensures RecordSets(zonePages, pagesOf).value.entries[key] ==
      AllRecords(Values(TwoDeep(zonePages, ZonesKey, ZoneName).value), pagesOf)[i]
  {
    var zones := Values(TwoDeep(zonePages, ZonesKey, ZoneName).value);
    FillZonesFlat(Empty(), zones, pagesOf);
    IndexIntoLastWins(Empty(), AllRecords(zones, pagesOf), KeyOfRecord, key, i);
  }

  /** The keys gathered are exactly the keys of the listed records. */
  lemma RecordSetsKeys(zonePages: seq<Page>, pagesOf: Field -> Result<seq<Page>>, key: string)
    requires TwoDeep(zonePages, ZonesKey, ZoneName).Success?
    requires ZonesListed(Values(TwoDeep(zonePages, ZonesKey, ZoneName).value), pagesOf)
    requires RecordSets(zonePages, pagesOf).Success?
    ensures var records := AllRecords(Values(TwoDeep(zonePages, ZonesKey, ZoneName).value), pagesOf);
      key in RecordSets(zonePages, pagesOf).value.entries <==>
      exists i :: 0 <= i < |records| && KeyOfRecord(records[i]) == Success(key)
  {
    var zones := Values(TwoDeep(zonePages, ZonesKey, ZoneName).value);
    FillZonesFlat(Empty(), zones, pagesOf);
    IndexIntoKeys(Empty(), AllRecords(zones, pagesOf), KeyOfRecord, key);
  }

  /** Once a prefix of the zones fails, the whole fill fails the same way. */
  lemma {:induction false} FillZonesFailed(data: Specifics, zones: seq<Item>, pagesOf: Field -> Result<seq<Page>>, j: int)
    requires 0 <= j <= |zones| && FillZones(data, zones[..j], pagesOf).Failure?
    ensures FillZones(data, zones, pagesOf) == FillZones(data, zones[..j], pagesOf)
    decreases |zones|
  {
    if j < |zones| {
      var prefix := zones[..|zones| - 1];
      assert prefix[..j] == zones[..j];
      FillZonesFailed(data, prefix, pagesOf, j);
    } else {
      assert zones[..j] == zones;
    }
  }

  /** One zone of the fill loop. */
  method FillZone(zones: seq<Item>, pagesOf: Field -> Result<seq<Page>>, z: nat, acc: Specifics) returns (next: Result<Specifics>)
    requires z < |zones| && FillZones(Empty(), zones[..z], pagesOf) == Success(acc)
    ensures next.Success? ==> FillZones(Empty(), zones[..z + 1], pagesOf) == next
    ensures next.Failure? ==> FillZones(Empty(), zones, pagesOf) == next
  {
    assert zones[..z + 1][..z] == zones[..z];
    var zone := zones[z];
    if "Id" !in zone.entries {
      FillZonesFailed(Empty(), zones, pagesOf, z + 1);
      return Failure(KeyError("Id"));
    }
    var pages := pagesOf(zone.entries["Id"]);
    if pages.Failure? {
      FillZonesFailed(Empty(), zones, pagesOf, z + 1);
      return Failure(pages.error);
    }
    next := IndexPagesLoop(acc, pages.value, RecordsKey, KeyOfRecord);
    if next.Failure? {
      FillZonesFailed(Empty(), zones, pagesOf, z + 1);
    }
  }

  /** `resource_record_sets._fetch_one_client`: the zone listing, then the
      loop over zones around the loops over each zone's pages and
      records. */
  method ResourceRecordSets(zonePages: seq<Page>, pagesOf: Field -> Result<seq<Page>>) returns (r: Result<Specifics>)
    ensures r == RecordSets(zonePages, pagesOf)
  {
    var zones := FetchTwoDeep(zonePages, ZonesKey, ZoneName);
    if zones.Failure? {
      return Failure(zones.error);
    }
    var list := Values(zones.value);
    var data := Empty();
    var z := 0;
    while z < |list|
      invariant 0 <= z <= |list|
      invariant FillZones(Empty(), list[..z], pagesOf) == Success(data)
    {
      var next := FillZone(list, pagesOf, z, data);
      if next.Failure? {
        return next;
      }
      data := next.value;
      z := z + 1;
    }
    assert list[..z] == list;
    return Success(data);
  }

  // ---------------------------------------------------------------------
  // The two collectors as `fetch` runs them

  /** `hosted_zones`, given the pages each session's zone listing returns
      or the error it raises. */
  function HostedZones(zonePagesOf: Session -> Result<seq<Page>>): Source
  {
    Source(KindPrefix + "hosted_zones", false, Caught(TwoDeepFetcher(zonePagesOf, ZonesKey, ZoneName)), Unchanged())
  }

  /** `resource_record_sets`, given each session's zone listing and record
      listings. */
  function ResourceRecordSetsSource(zonePagesOf: Session -> Result<seq<Page>>, pagesOf: Session -> Field -> Result<seq<Page>>): Source
  {
    Source(
      KindPrefix + "resource_record_sets", false,
      Caught((s: Session) => if zonePagesOf(s).Success? then RecordSets(zonePagesOf(s).value, pagesOf(s)) else Failure(zonePagesOf(s).error)),
      Unchanged())
  }
}
