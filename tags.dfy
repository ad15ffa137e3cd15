/** Resource tags: the `tags_to_sane` conversion of a tag list into a
    dict with sorted keys, and the lookup of the `Name` tag that every
    `*_name` helper performs. */
module Tags {
  import opened Wrappers
  import opened Text
  import opened Sorting
  import opened Dicts

  datatype Tag = Tag(key: string, value: string)

  predicate HasDuplicateKey(tags: seq<Tag>)
  {
    exists i, j :: 0 <= i < j < |tags| && tags[i].key == tags[j].key
  }

  function KeysOf(tags: seq<Tag>): (keys: seq<string>)
    ensures |keys| == |tags|
    ensures forall i :: 0 <= i < |tags| ==> keys[i] == tags[i].key
  {
    seq(|tags|, i requires 0 <= i < |tags| => tags[i].key)
  }

  /** The dict the first loop of `tags_to_sane` fills: each key with the
      value of its last tag. */
  function Collect(tags: seq<Tag>): (d: Dict<string, string>)
    decreases |tags|
  {
    if tags == [] then Empty()
    else
      var last := tags[|tags| - 1];
      Set(Collect(tags[..|tags| - 1]), last.key, last.value)
  }

  lemma {:induction false} CollectKeys(tags: seq<Tag>)
    ensures forall k :: k in Collect(tags).entries <==> k in KeysOf(tags)
    ensures !HasDuplicateKey(tags) ==> Collect(tags).keys == KeysOf(tags)
    decreases |tags|
  {
    if tags != [] {
      var n := |tags|;
      CollectKeys(tags[..n - 1]);
      KeysOfSnoc(tags);
      if !HasDuplicateKey(tags) {
        NoDuplicatePrefix(tags, n - 1);
        LastKeyFresh(tags);
      }
    }
  }

  lemma KeysOfSnoc(tags: seq<Tag>)
    requires tags != []
    ensures KeysOf(tags) == KeysOf(tags[..|tags| - 1]) + [tags[|tags| - 1].key]
  {
    assert KeysOf(tags) == KeysOf(tags[..|tags| - 1]) + [tags[|tags| - 1].key];
  }

  lemma LastKeyFresh(tags: seq<Tag>)
    requires tags != [] && !HasDuplicateKey(tags)
    ensures tags[|tags| - 1].key !in KeysOf(tags[..|tags| - 1])
  {
    var n := |tags|;
    var ks := KeysOf(tags[..n - 1]);
    forall i | 0 <= i < n - 1 ensures ks[i] != tags[n - 1].key {
      assert tags[..n - 1][i] == tags[i];
    }
  }

  lemma NoDuplicatePrefix(tags: seq<Tag>, m: int)
    requires !HasDuplicateKey(tags) && 0 <= m <= |tags|
    ensures !HasDuplicateKey(tags[..m])
  {
    forall i, j | 0 <= i < j < m ensures tags[..m][i].key != tags[..m][j].key {
      assert tags[..m][i] == tags[i] && tags[..m][j] == tags[j];
    }
  }

  /** Without duplicate keys, each tag's value is the one collected. */
  lemma {:induction false} CollectValues(tags: seq<Tag>, i: int)
    requires !HasDuplicateKey(tags) && 0 <= i < |tags|
    ensures tags[i].key in Collect(tags).entries
    ensures Collect(tags).entries[tags[i].key] == tags[i].value
    decreases |tags|
  {
    var n := |tags|;
    if i < n - 1 {
      NoDuplicatePrefix(tags, n - 1);
      assert tags[..n - 1][i] == tags[i];
      CollectValues(tags[..n - 1], i);
      assert tags[n - 1].key != tags[i].key;
    }
  }

  /** The dict `d` with its keys re-inserted in ascending order, as
      `for k, v in sorted(d.items())` does. */
  function SortedByKey(d: Dict<string, string>): (r: Dict<string, string>)
    ensures r.entries == d.entries
    ensures forall i, j :: 0 <= i < j < |r.keys| ==> Less(r.keys[i], r.keys[j])
  {
    SortedByKeyValid(d);
    RawDict(SortStrings(d.keys), d.entries)
  }

  lemma SortedByKeyValid(d: Dict<string, string>)
    ensures Valid(RawDict(SortStrings(d.keys), d.entries))
    ensures forall i, j :: 0 <= i < j < |SortStrings(d.keys)| ==> Less(SortStrings(d.keys)[i], SortStrings(d.keys)[j])
  {
    var keys := SortStrings(d.keys);
    SortStringsAscending(d.keys);
    assert forall k :: k in keys <==> k in multiset(keys);
    assert forall k :: k in d.keys <==> k in multiset(d.keys);
    forall i, j | 0 <= i < j < |keys| ensures keys[i] != keys[j] {
      LessIrreflexive(keys[i]);
    }
  }

  /** `tags_to_sane(data)`: a `ValueError` when two tags share a key;
      otherwise the tags as a dict whose keys were inserted in ascending
      order. */
  function SaneTags(tags: seq<Tag>): (r: Result<Dict<string, string>>)
  {
    if HasDuplicateKey(tags) then Failure(ValueError("Duplicate tag name"))
    else Success(SortedByKey(Collect(tags)))
  }

  /** What `tags_to_sane` promises: it fails exactly when a key repeats;
      otherwise every tag's key maps to that tag's value, no other key is
      present, and the keys are in strictly ascending order. */
  lemma SaneTagsContents(tags: seq<Tag>)
    ensures SaneTags(tags).Failure? <==> HasDuplicateKey(tags)
    ensures SaneTags(tags).Failure? ==> SaneTags(tags).error == ValueError("Duplicate tag name")
    ensures SaneTags(tags).Success? ==>
      var d := SaneTags(tags).value;
      && (forall i :: 0 <= i < |tags| ==> tags[i].key in d.entries && d.entries[tags[i].key] == tags[i].value)
      && (forall k :: k in d.entries ==> exists i :: 0 <= i < |tags| && tags[i].key == k)
      && (forall i, j :: 0 <= i < j < |d.keys| ==> Less(d.keys[i], d.keys[j]))
  {
    if !HasDuplicateKey(tags) {
      var d := SaneTags(tags).value;
      CollectKeys(tags);
      forall i | 0 <= i < |tags|
        ensures tags[i].key in d.entries && d.entries[tags[i].key] == tags[i].value
      {
        CollectValues(tags, i);
      }
      forall k | k in d.entries ensures exists i :: 0 <= i < |tags| && tags[i].key == k {
        assert k in KeysOf(tags);
      }
    }
  }

  /** `tags_to_sane` as the source writes it: one loop that fills a dict
      and stops at the first repeated key, then a second loop that copies
      the entries in sorted key order into a fresh dict. */
  method TagsToSane(data: seq<Tag>) returns (r: Result<Dict<string, string>>)
    ensures r == SaneTags(data)
  {
    var tags: Dict<string, string> := Empty();
    for i := 0 to |data|
      invariant tags == Collect(data[..i])
      invariant !HasDuplicateKey(data[..i])
    {
      CollectKeys(data[..i]);
      if data[i].key in tags.entries {
        assert HasDuplicateKey(data) by {
          var j :| 0 <= j < i && KeysOf(data[..i])[j] == data[i].key;
          assert data[j].key == data[i].key;
        }
        return Failure(ValueError("Duplicate tag name"));
      }
      assert data[..i + 1][..i] == data[..i];
      var next := data[..i + 1];
      assert !HasDuplicateKey(next) by {
        forall a, b | 0 <= a < b < i + 1 ensures next[a].key != next[b].key {
          if b == i {
            assert KeysOf(data[..i])[a] == data[a].key;
          } else {
            assert data[..i][a] == data[a] && data[..i][b] == data[b];
          }
        }
      }
      tags := Set(tags, data[i].key, data[i].value);
    }
    assert data[..|data|] == data;
    var stags := CopySorted(tags);
    r := Success(stags);
  }

  /** The second loop of `tags_to_sane`. */
  method CopySorted(tags: Dict<string, string>) returns (stags: Dict<string, string>)
    ensures stags == SortedByKey(tags)
  {
    var target := SortedByKey(tags);
    var sorted := target.keys;
    stags := Empty();
    for i := 0 to |sorted|
      invariant stags.keys == sorted[..i]
      invariant forall k :: k in stags.entries ==> k in tags.entries && stags.entries[k] == tags.entries[k]
    {
      assert sorted[i] !in sorted[..i];
      stags := Set(stags, sorted[i], tags.entries[sorted[i]]);
    }
    assert stags.keys == sorted;
    Extensional(stags, target);
  }

  // ---------------------------------------------------------------------
  // the Name tag

  /** The value of the last tag whose key is `Name`. */
  function NameTag(tags: seq<Tag>): (r: Option<string>)
    ensures r.Some? ==> Tag("Name", r.value) in tags
    decreases |tags|
  {
    if tags == [] then None
    else if tags[|tags| - 1].key == "Name" then Some(tags[|tags| - 1].value)
    else NameTag(tags[..|tags| - 1])
  }

  /** The Name tag found is the last one. */
  lemma {:induction false} NameTagIsLast(tags: seq<Tag>, i: int)
    requires 0 <= i < |tags| && tags[i].key == "Name"
    requires forall j :: i < j < |tags| ==> tags[j].key != "Name"
    ensures NameTag(tags) == Some(tags[i].value)
    decreases |tags|
  {
    if i < |tags| - 1 {
      var n := |tags|;
      assert tags[..n - 1][i] == tags[i];
      NameTagIsLast(tags[..n - 1], i);
    }
  }

  /** No Name tag is found exactly when no tag is named `Name`. */
  lemma {:induction false} NameTagAbsent(tags: seq<Tag>)
    ensures NameTag(tags).None? <==> forall i :: 0 <= i < |tags| ==> tags[i].key != "Name"
    decreases |tags|
  {
    if tags != [] {
      var n := |tags|;
      NameTagAbsent(tags[..n - 1]);
      assert forall i :: 0 <= i < n - 1 ==> tags[..n - 1][i] == tags[i];
    }
  }

  /** The name the `*_name` helpers compute: the last Name tag in lower
      case, or `default` when there is none. */
  function NameOr(tags: seq<Tag>, default: string): string
  {
    match NameTag(tags)
    case Some(v) => Lower(v)
    case None => default
  }

  /** The tag loop of the `*_name` helpers: every `Name` tag overwrites
      the name with its lowered value. */
  method FindName(tags: seq<Tag>, default: string) returns (name: string)
    ensures name == NameOr(tags, default)
  {
    name := default;
    for i := 0 to |tags|
      invariant name == NameOr(tags[..i], default)
    {
      assert tags[..i + 1][..i] == tags[..i];
      if tags[i].key != "Name" {
        continue;
      }
      name := Lower(tags[i].value);
    }
    assert tags[..|tags|] == tags;
  }
}
