/** The containers the collectors store what they fetch in: a Definition
    holds the objects of one kind fetched with one profile in one region,
    keyed by id, and renders them either as CSV rows or as canonical
    records; a DefinitionSet is a list of Definitions kept in the order they
    were appended, rendered one after another. */
module DefinitionSets {
  import opened Wrappers
  import opened Dicts

  /** What a data source's `metadata()` reports about itself. */
  type Metadata = Dict<string, string>

  /** One fetched object: its fields by name. */
  type Row<V> = Dict<string, V>

  /** `datasource` is the metadata of the attached data source, or `None`
      when no data source is attached (the attribute stays `None`, and
      asking it for its metadata raises `AttributeError`). `profile` stands
      for the session object `fetch` stores in the `session` attribute,
      kept here as the session's profile name; `region` is the attribute
      `fetch` sets. */
  datatype Definition<V> = Definition(
    kind: string,
    datasource: Option<Metadata>,
    profile: string,
    region: string,
    data: Dict<string, Row<V>>)

  /** The three field names every CSV row carries besides the object's own. */
  const MetaFields: set<string> := {"@DataType", "@MetaData", "@ResourceId"}

  /** A CSV cell: one of the three metadata columns or an object field. */
  datatype Cell<V> =
    | TypeCell(kind: string)
    | MetaCell(metadata: Metadata)
    | IdCell(id: string)
    | FieldCell(value: V)

  type CsvRow<V> = Dict<string, Cell<V>>

  /** `csv_fields`: the metadata columns and every field of every object. */
  function Fields<V>(d: Definition<V>): set<string>
  {
    MetaFields + set id, f | id in d.data.entries && f in d.data.entries[id].entries :: f
  }

  /** A field is a column exactly when it is a metadata column or some
      object has it. */
  lemma FieldsMembers<V>(d: Definition<V>, f: string)
    ensures f in Fields(d) <==> f in MetaFields || exists id :: id in d.data.entries && f in d.data.entries[id].entries
  {
  }

  /** An object's fields as CSV cells, in the object's order. */
  function Lift<V>(row: Row<V>): (r: CsvRow<V>)
    ensures r.keys == row.keys
    ensures forall f :: f in r.entries <==> f in row.entries
    ensures forall f :: f in row.entries ==> r.entries[f] == FieldCell(row.entries[f])
  {
    RawDict(row.keys, map f | f in row.entries :: FieldCell(row.entries[f]))
  }

  /** The three metadata columns of a row, before the object's fields. */
  function MetaColumns<V>(kind: string, metadata: Metadata, id: string): (r: CsvRow<V>)
    ensures r.keys == ["@DataType", "@MetaData", "@ResourceId"]
    ensures r.entries == map["@DataType" := TypeCell(kind), "@MetaData" := MetaCell(metadata), "@ResourceId" := IdCell(id)]
  {
    Set(Set(Set(Empty(), "@DataType", TypeCell(kind)), "@MetaData", MetaCell(metadata)), "@ResourceId", IdCell(id))
  }

  /** The row `csv_rows` yields for one object: the three metadata columns
      first, then the object's fields, an object field overriding a
      metadata column of the same name. */
  function MakeRow<V>(kind: string, metadata: Metadata, id: string, row: Row<V>): (r: CsvRow<V>)
    ensures 3 <= |r.keys| && r.keys[..3] == ["@DataType", "@MetaData", "@ResourceId"]
    ensures forall f :: f in r.entries <==> f in MetaFields || f in row.entries
    ensures forall f :: f in row.entries ==> r.entries[f] == FieldCell(row.entries[f])
  {
    var base: CsvRow<V> := MetaColumns(kind, metadata, id);
    assert forall f :: f in base.entries <==> f in MetaFields;
    Update(base, Lift(row))
  }

  /** A metadata column the object does not override holds the type, the
      source's metadata and the object's id. */
  lemma MakeRowMeta<V>(kind: string, metadata: Metadata, id: string, row: Row<V>)
    ensures "@DataType" !in row.entries ==> MakeRow(kind, metadata, id, row).entries["@DataType"] == TypeCell(kind)
    ensures "@MetaData" !in row.entries ==> MakeRow(kind, metadata, id, row).entries["@MetaData"] == MetaCell(metadata)
    ensures "@ResourceId" !in row.entries ==> MakeRow(kind, metadata, id, row).entries["@ResourceId"] == IdCell(id)
  {
    var base: CsvRow<V> := MetaColumns(kind, metadata, id);
    assert "@DataType" in base.entries && "@MetaData" in base.entries && "@ResourceId" in base.entries;
  }

  /** `csv_rows`: one row per object, in the objects' order. Asking a
      missing data source for its metadata fails on the first object, so
      a Definition without objects yields nothing and never fails. */
  function Rows<V>(d: Definition<V>): (r: Result<seq<CsvRow<V>>>)
  {
    if d.data.keys == [] then Success([])
    else if d.datasource.None? then Failure(AttributeError("metadata"))
    else
      var keys := d.data.keys;
      Success(seq(|keys|, i requires 0 <= i < |keys| => MakeRow(d.kind, d.datasource.value, keys[i], d.data.entries[keys[i]])))
  }

  /** A record in the canonical storage format. */
  datatype Canonical<V> = Canonical(kind: string, metadata: Metadata, specifics: Row<V>)

  /** The record `canonical_data` yields for one object: the source's
      metadata with the object's id added under "resourceid", and the
      object itself unchanged. */
  function MakeCanonical<V>(kind: string, metadata: Metadata, id: string, row: Row<V>): (c: Canonical<V>)
    ensures c.kind == kind && c.specifics == row
    ensures "resourceid" in c.metadata.entries && c.metadata.entries["resourceid"] == id
    ensures forall k :: k in c.metadata.entries <==> k in metadata.entries || k == "resourceid"
    ensures forall k :: k in metadata.entries && k != "resourceid" ==> c.metadata.entries[k] == metadata.entries[k]
  {
    Canonical(kind, Set(metadata, "resourceid", id), row)
  }

  /** `canonical_data`: one record per object, in the objects' order,
      failing like `csv_rows` when there is no data source. */
  function Records<V>(d: Definition<V>): (r: Result<seq<Canonical<V>>>)
  {
    if d.data.keys == [] then Success([])
    else if d.datasource.None? then Failure(AttributeError("metadata"))
    else
      var keys := d.data.keys;
      Success(seq(|keys|, i requires 0 <= i < |keys| => MakeCanonical(d.kind, d.datasource.value, keys[i], d.data.entries[keys[i]])))
  }

  /** Both renderings fail exactly when there are objects but no data
      source; otherwise they have one entry per object, in the same order,
      and the CSV row of each canonical record is made from the record's
      own id and specifics. */
  lemma RenderingsAgree<V>(d: Definition<V>)
    ensures Rows(d).Success? <==> Records(d).Success?
    ensures Rows(d).Failure? <==> d.data.keys != [] && d.datasource.None?
    ensures Rows(d).Failure? ==> Rows(d).error == AttributeError("metadata") == Records(d).error
    ensures Rows(d).Success? ==>
      && |Rows(d).value| == |Records(d).value| == |d.data.keys|
      && forall i :: 0 <= i < |d.data.keys| ==>
        var c := Records(d).value[i];
        && c.metadata.entries["resourceid"] == d.data.keys[i]
        && c.specifics == d.data.entries[d.data.keys[i]]
        && Rows(d).value[i] == MakeRow(d.kind, d.datasource.value, c.metadata.entries["resourceid"], c.specifics)
  {
  }

  /** `DefinitionSet.csv_fields` over the given members: the union of their
      fields (so no columns at all for an empty set). */
  function SetFields<V>(ds: seq<Definition<V>>): set<string>
  {
    if ds == [] then {} else SetFields(ds[..|ds| - 1]) + Fields(ds[|ds| - 1])
  }

  /** A column of a set is a column of one of its members. */
  lemma {:induction false} SetFieldsMembers<V>(ds: seq<Definition<V>>, f: string)
    ensures f in SetFields(ds) <==> exists i :: 0 <= i < |ds| && f in Fields(ds[i])
    decreases |ds|
  {
    if ds != [] {
      var prefix := ds[..|ds| - 1];
      SetFieldsMembers(prefix, f);
      assert forall i :: 0 <= i < |prefix| ==> prefix[i] == ds[i];
    }
  }

  /** `DefinitionSet.csv_rows`: the members' rows one member after another. */
  function SetRows<V>(ds: seq<Definition<V>>): Result<seq<CsvRow<V>>>
  {
    Gather(ds, Rows)
  }

  /** `DefinitionSet.canonical_data`: the members' records one member after
      another. */
  function SetCanonical<V>(ds: seq<Definition<V>>): Result<seq<Canonical<V>>>
  {
    Gather(ds, Records)
  }

  /** A set renders exactly when every member with objects has a data
      source, and then its rows are exactly its members' rows. */
  lemma SetRowsContents<V>(ds: seq<Definition<V>>)
    ensures SetRows(ds).Success? <==> forall i :: 0 <= i < |ds| ==> ds[i].data.keys == [] || ds[i].datasource.Some?
    ensures SetRows(ds).Success? ==> forall row :: row in SetRows(ds).value <==>
      exists i :: 0 <= i < |ds| && Rows(ds[i]).Success? && row in Rows(ds[i]).value
  {
    GatherContents(ds, Rows);
  }

  /** The canonical records of a set succeed together with its rows, and are
      exactly its members' records. */
  lemma SetCanonicalContents<V>(ds: seq<Definition<V>>)
    ensures SetCanonical(ds).Success? <==> SetRows(ds).Success?
    ensures SetCanonical(ds).Success? ==> forall c :: c in SetCanonical(ds).value <==>
      exists i :: 0 <= i < |ds| && Records(ds[i]).Success? && c in Records(ds[i]).value
  {
    GatherContents(ds, Records);
    GatherSucceeds(ds, Rows);
  }

  /** Appending a member adds its rows after the rows already there. */
  lemma SetRowsAppend<V>(ds: seq<Definition<V>>, d: Definition<V>)
    requires SetRows(ds).Success? && Rows(d).Success?
    ensures SetRows(ds + [d]) == Success(SetRows(ds).value + Rows(d).value)
  {
    assert (ds + [d])[..|ds|] == ds;
  }

  /** `DefinitionSet`: a list of Definitions. */
  class DefinitionSet<V> {
    var members: seq<Definition<V>>

    constructor()
      ensures members == []
    {
      members := [];
    }

    /** `append`: `d` goes last. */
    method Append(d: Definition<V>)
      modifies this
      ensures members == old(members) + [d]
    {
      members := members + [d];
    }

    /** `csv_fields`: the union, one member at a time. */
    method CsvFields() returns (r: set<string>)
      ensures r == SetFields(members)
      ensures forall f :: f in r <==> exists i :: 0 <= i < |members| && f in Fields(members[i])
    {
      r := {};
      var i := 0;
      while i < |members|
        invariant 0 <= i <= |members|
        invariant r == SetFields(members[..i])
      {
        assert members[..i + 1][..i] == members[..i];
        r := r + Fields(members[i]);
        i := i + 1;
      }
      assert members[..i] == members;
      forall f ensures f in r <==> exists i :: 0 <= i < |members| && f in Fields(members[i]) {
        SetFieldsMembers(members, f);
      }
    }

    /** `csv_rows`: each member's rows in turn, stopping at the first
        member that fails. */
    method CsvRows() returns (r: Result<seq<CsvRow<V>>>)
      ensures r == SetRows(members)
    {
      var acc := [];
      var i := 0;
      while i < |members|
        invariant 0 <= i <= |members|
        invariant Gather(members[..i], Rows) == Success(acc)
      {
        GatherStep(members, Rows, i, acc);
        var rows := Rows(members[i]);
        if rows.Failure? {
          return Failure(rows.error);
        }
        acc := acc + rows.value;
        i := i + 1;
      }
      assert members[..i] == members;
      r := Success(acc);
    }

    /** `canonical_data`: each member's records in turn, stopping at the
        first member that fails. */
    method CanonicalData() returns (r: Result<seq<Canonical<V>>>)
      ensures r == SetCanonical(members)
    {
      var acc := [];
      var i := 0;
      while i < |members|
        invariant 0 <= i <= |members|
        invariant Gather(members[..i], Records) == Success(acc)
      {
        GatherStep(members, Records, i, acc);
        var records := Records(members[i]);
        if records.Failure? {
          return Failure(records.error);
        }
        acc := acc + records.value;
        i := i + 1;
      }
      assert members[..i] == members;
      r := Success(acc);
    }
  }
}
