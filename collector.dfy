/** The generic collector (lib/aws/__init__.py): `fetch` asks each session
    for the objects of one kind, lets the collector rewrite them, and keeps
    every non-empty answer as a Definition; `_data_two_deep` indexes the
    objects listed on the pages of a reply by an id field; and
    `_mutate_sortarray` puts configured list fields into a stable order.
    The cloud API is not modelled: the pages of a reply, and the answer a
    session gives, are inputs. */
module Collector {
  import opened Wrappers
  import opened Dicts
  import opened Sorting
  import opened DefinitionSets

  /** A field of a fetched object: a string, or a list of sub-objects. */
  datatype Field = Scalar(text: string) | Array(elems: seq<Dict<string, string>>)

  /** A fetched object, field by field. */
  type Item = Dict<string, Field>

  /** One page of a reply: the lists it carries, by key. */
  type Page = map<string, seq<Item>>

  /** What one session yields: objects by id. */
  type Specifics = Dict<string, Item>

  // ---------------------------------------------------------------------
  // Indexing objects by an id field

  /** `item[key]` used as a dict key: missing is a `KeyError`, and a list
      cannot be a key. */
  function IdOf(item: Item, key: string): (r: Result<string>)
    ensures r.Success? <==> key in item.entries && item.entries[key].Scalar?
    ensures r.Success? ==> r.value == item.entries[key].text
    ensures key !in item.entries ==> r == Failure(KeyError(key))
  {
    if key !in item.entries then Failure(KeyError(key))
    else match item.entries[key]
      case Scalar(text) => Success(text)
      case Array(_) => Failure(TypeError("unhashable type: 'list'"))
  }

  /** The id function of a collector that keys objects by field `key`. */
  function ById(key: string): Item -> Result<string>
  {
    (item: Item) => IdOf(item, key)
  }

  /** `data[keyOf(item)] = item` for each item in turn, stopping at the first
      item whose key cannot be computed. */
  function IndexInto(data: Specifics, items: seq<Item>, keyOf: Item -> Result<string>): Result<Specifics>
    decreases |items|
  {
    if items == [] then Success(data)
    else
      var before :- IndexInto(data, items[..|items| - 1], keyOf);
      var item := items[|items| - 1];
      var id :- keyOf(item);
      Success(Set(before, id, item))
  }

  predicate AllKeyed(items: seq<Item>, keyOf: Item -> Result<string>)
  {
    forall i :: 0 <= i < |items| ==> keyOf(items[i]).Success?
  }

  /** Indexing succeeds exactly when every item has a key. */
  lemma {:induction false} IndexIntoSucceeds(data: Specifics, items: seq<Item>, keyOf: Item -> Result<string>)
    ensures IndexInto(data, items, keyOf).Success? <==> AllKeyed(items, keyOf)
    decreases |items|
  {
    if items != [] {
      var prefix := items[..|items| - 1];
      IndexIntoSucceeds(data, prefix, keyOf);
      assert forall i :: 0 <= i < |prefix| ==> prefix[i] == items[i];
    }
  }

  /** An id is indexed exactly when it was there before or some item has
      it; the ids already there keep their places at the front. */
  lemma {:induction false} IndexIntoKeys(data: Specifics, items: seq<Item>, keyOf: Item -> Result<string>, id: string)
    requires IndexInto(data, items, keyOf).Success?
    ensures id in IndexInto(data, items, keyOf).value.entries <==>
      id in data.entries || exists i :: 0 <= i < |items| && keyOf(items[i]) == Success(id)
    ensures |data.keys| <= |IndexInto(data, items, keyOf).value.keys|
    ensures IndexInto(data, items, keyOf).value.keys[..|data.keys|] == data.keys
    decreases |items|
  {
    if items != [] {
      var prefix := items[..|items| - 1];
      IndexIntoKeys(data, prefix, keyOf, id);
      assert forall i :: 0 <= i < |prefix| ==> prefix[i] == items[i];
      var before := IndexInto(data, prefix, keyOf).value;
      assert before.keys[..|data.keys|] == data.keys;
    }
  }

  /** Item `i` is the last one keyed by `id`. */
  predicate LastKeyed(items: seq<Item>, keyOf: Item -> Result<string>, id: string, i: int)
  {
    && 0 <= i < |items|
    && keyOf(items[i]) == Success(id)
    && forall j :: i < j < |items| ==> keyOf(items[j]) != Success(id)
  }

  /** A later object with the same id overwrites an earlier one: the id
      ends up holding the last item keyed by it. */
  lemma {:induction false} IndexIntoLastWins(data: Specifics, items: seq<Item>, keyOf: Item -> Result<string>, id: string, i: int)
    requires IndexInto(data, items, keyOf).Success? && LastKeyed(items, keyOf, id, i)
    ensures id in IndexInto(data, items, keyOf).value.entries
    ensures IndexInto(data, items, keyOf).value.entries[id] == items[i]
    decreases |items|
  {
    var n := |items|;
    if i < n - 1 {
      var prefix := items[..n - 1];
      assert LastKeyed(prefix, keyOf, id, i);
      IndexIntoLastWins(data, prefix, keyOf, id, i);
      IndexIntoSucceeds(data, items, keyOf);
      assert keyOf(items[n - 1]) != Success(id);
    }
  }

  /** An id no item has keeps the entry it had. */
  lemma {:induction false} IndexIntoKeeps(data: Specifics, items: seq<Item>, keyOf: Item -> Result<string>, id: string)
    requires IndexInto(data, items, keyOf).Success? && id in data.entries
    requires forall i :: 0 <= i < |items| ==> keyOf(items[i]) != Success(id)
    ensures id in IndexInto(data, items, keyOf).value.entries
    ensures IndexInto(data, items, keyOf).value.entries[id] == data.entries[id]
    decreases |items|
  {
    if items != [] {
      var prefix := items[..|items| - 1];
      assert forall i :: 0 <= i < |prefix| ==> prefix[i] == items[i];
      IndexIntoKeeps(data, prefix, keyOf, id);
      IndexIntoKeys(data, prefix, keyOf, id);
    }
  }

  /** Indexing two lists one after the other is indexing their
      concatenation. */
  lemma {:induction false} IndexIntoAppend(data: Specifics, a: seq<Item>, b: seq<Item>, keyOf: Item -> Result<string>)
    requires IndexInto(data, a, keyOf).Success?
    ensures IndexInto(data, a + b, keyOf) == IndexInto(IndexInto(data, a, keyOf).value, b, keyOf)
    decreases |b|
  {
    if b == [] {
      assert a + b == a;
    } else {
      var prefix := b[..|b| - 1];
      IndexIntoAppend(data, a, prefix, keyOf);
      assert (a + b)[..|a + b| - 1] == a + prefix;
      assert (a + b)[|a + b| - 1] == b[|b| - 1];
    }
  }

  /** Once a prefix of the items fails, indexing all of them fails the same
      way. */
  lemma {:induction false} IndexIntoFailed(data: Specifics, items: seq<Item>, keyOf: Item -> Result<string>, j: int)
    requires 0 <= j <= |items| && IndexInto(data, items[..j], keyOf).Failure?
    ensures IndexInto(data, items, keyOf) == IndexInto(data, items[..j], keyOf)
    decreases |items|
  {
    if j < |items| {
      var prefix := items[..|items| - 1];
      assert prefix[..j] == items[..j];
      IndexIntoFailed(data, prefix, keyOf, j);
    } else {
      assert items[..j] == items;
    }
  }

  /** The loop that indexes the items of one page. */
  method IndexLoop(data: Specifics, items: seq<Item>, keyOf: Item -> Result<string>) returns (r: Result<Specifics>)
    ensures r == IndexInto(data, items, keyOf)
  {
    var acc := data;
    var j := 0;
    while j < |items|
      invariant 0 <= j <= |items|
      invariant IndexInto(data, items[..j], keyOf) == Success(acc)
    {
      assert items[..j + 1][..j] == items[..j];
      var id := keyOf(items[j]);
      if id.Failure? {
        IndexIntoFailed(data, items, keyOf, j + 1);
        return Failure(id.error);
      }
      acc := Set(acc, id.value, items[j]);
      j := j + 1;
    }
    assert items[..j] == items;
    return Success(acc);
  }

  // ---------------------------------------------------------------------
  // _data_two_deep

  /** The objects listed under `r1Key` on each page in turn, indexed into
      `data` by `keyOf`. A page without `r1Key` is a `KeyError`. */
  function IndexPages(data: Specifics, pages: seq<Page>, r1Key: string, keyOf: Item -> Result<string>): Result<Specifics>
    decreases |pages|
  {
    if pages == [] then Success(data)
    else
      var before :- IndexPages(data, pages[..|pages| - 1], r1Key, keyOf);
      var page := pages[|pages| - 1];
      if r1Key !in page then Failure(KeyError(r1Key))
      else IndexInto(before, page[r1Key], keyOf)
  }

  /** `_data_two_deep._fetch_one_client` over the pages of a reply: every
      object listed under `r1Key` on every page, keyed by its `r2Id` field. */
  function TwoDeep(pages: seq<Page>, r1Key: string, r2Id: string): Result<Specifics>
  {
    IndexPages(Empty(), pages, r1Key, ById(r2Id))
  }

  predicate AllListed(pages: seq<Page>, r1Key: string)
  {
    forall p :: 0 <= p < |pages| ==> r1Key in pages[p]
  }

  /** The objects of all pages in order. */
  function Listed(pages: seq<Page>, r1Key: string): seq<Item>
    requires AllListed(pages, r1Key)
  {
    if pages == [] then [] else Listed(pages[..|pages| - 1], r1Key) + pages[|pages| - 1][r1Key]
  }

  /** When every page has its list, the pages are indexed as one list of
      objects in page order, so a later duplicate overwrites an earlier one
      across pages too. */
  lemma {:induction false} IndexPagesFlat(data: Specifics, pages: seq<Page>, r1Key: string, keyOf: Item -> Result<string>)
    requires AllListed(pages, r1Key)
    ensures IndexPages(data, pages, r1Key, keyOf) == IndexInto(data, Listed(pages, r1Key), keyOf)
    decreases |pages|
  {
    if pages != [] {
      var prefix := pages[..|pages| - 1];
      IndexPagesFlat(data, prefix, r1Key, keyOf);
      var before := Listed(prefix, r1Key);
      var last := pages[|pages| - 1][r1Key];
      if IndexInto(data, before, keyOf).Success? {
        IndexIntoAppend(data, before, last, keyOf);
      } else {
        IndexIntoFailed(data, before + last, keyOf, |before|);
        assert (before + last)[..|before|] == before;
      }
    }
  }

  /** `_data_two_deep` keeps, for each id, the last object listed with it
      on any page, and nothing else. */
  lemma TwoDeepLastWins(pages: seq<Page>, r1Key: string, r2Id: string, id: string, i: int)
    requires AllListed(pages, r1Key) && TwoDeep(pages, r1Key, r2Id).Success?
    requires LastKeyed(Listed(pages, r1Key), ById(r2Id), id, i)
    ensures id in TwoDeep(pages, r1Key, r2Id).value.entries
    ensures TwoDeep(pages, r1Key, r2Id).value.entries[id] == Listed(pages, r1Key)[i]
  {
    IndexPagesFlat(Empty(), pages, r1Key, ById(r2Id));
    IndexIntoLastWins(Empty(), Listed(pages, r1Key), ById(r2Id), id, i);
  }

  /** The ids `_data_two_deep` keeps are exactly those of the listed
      objects. */
  lemma TwoDeepKeys(pages: seq<Page>, r1Key: string, r2Id: string, id: string)
    requires AllListed(pages, r1Key) && TwoDeep(pages, r1Key, r2Id).Success?
    ensures id in TwoDeep(pages, r1Key, r2Id).value.entries <==>
      exists i :: 0 <= i < |Listed(pages, r1Key)| && IdOf(Listed(pages, r1Key)[i], r2Id) == Success(id)
  {
    IndexPagesFlat(Empty(), pages, r1Key, ById(r2Id));
    IndexIntoKeys(Empty(), Listed(pages, r1Key), ById(r2Id), id);
  }

  /** A page without the list makes the whole reply fail. */
  lemma {:induction false} IndexPagesMissing(data: Specifics, pages: seq<Page>, r1Key: string, keyOf: Item -> Result<string>, p: int)
    requires 0 <= p < |pages| && r1Key !in pages[p]
    ensures IndexPages(data, pages, r1Key, keyOf).Failure?
    decreases |pages|
  {
    if p < |pages| - 1 {
      var prefix := pages[..|pages| - 1];
      IndexPagesMissing(data, prefix, r1Key, keyOf, p);
    }
  }

  /** Once a prefix of the pages fails, the whole reply fails the same way. */
  lemma {:induction false} IndexPagesFailed(data: Specifics, pages: seq<Page>, r1Key: string, keyOf: Item -> Result<string>, j: int)
    requires 0 <= j <= |pages| && IndexPages(data, pages[..j], r1Key, keyOf).Failure?
    ensures IndexPages(data, pages, r1Key, keyOf) == IndexPages(data, pages[..j], r1Key, keyOf)
    decreases |pages|
  {
    if j < |pages| {
      var prefix := pages[..|pages| - 1];
      assert prefix[..j] == pages[..j];
      IndexPagesFailed(data, prefix, r1Key, keyOf, j);
    } else {
      assert pages[..j] == pages;
    }
  }

  /** The loop over pages around the loop over one page's objects. */
  method IndexPagesLoop(data: Specifics, pages: seq<Page>, r1Key: string, keyOf: Item -> Result<string>) returns (r: Result<Specifics>)
    ensures r == IndexPages(data, pages, r1Key, keyOf)
  {
    var acc := data;
    var p := 0;
    while p < |pages|
      invariant 0 <= p <= |pages|
      invariant IndexPages(data, pages[..p], r1Key, keyOf) == Success(acc)
    {
      assert pages[..p + 1][..p] == pages[..p];
      var page := pages[p];
      if r1Key !in page {
        IndexPagesFailed(data, pages, r1Key, keyOf, p + 1);
        return Failure(KeyError(r1Key));
      }
      var next := IndexLoop(acc, page[r1Key], keyOf);
      if next.Failure? {
        IndexPagesFailed(data, pages, r1Key, keyOf, p + 1);
        return next;
      }
      acc := next.value;
      p := p + 1;
    }
    assert pages[..p] == pages;
    return Success(acc);
  }

  /** `_data_two_deep._fetch_one_client`. */
  method FetchTwoDeep(pages: seq<Page>, r1Key: string, r2Id: string) returns (r: Result<Specifics>)
    ensures r == TwoDeep(pages, r1Key, r2Id)
  {
    r := IndexPagesLoop(Empty(), pages, r1Key, ById(r2Id));
  }

  // ---------------------------------------------------------------------
  // _mutate_sortarray

  /** The sort key of a sub-object: its `orderby` field. The empty string
      stands in for a missing field, which only matters where nothing is
      compared. */
  function OrderKey(orderby: string): Dict<string, string> -> SortKey
  {
    (e: Dict<string, string>) => StringKey(Get(e, orderby).GetOr(""))
  }

  /** `do_sort(field, orderby)`: `sorted` with key `item.get(orderby)`.
      Sorting a string sorts its characters, whose `get` is an
      `AttributeError` (an empty string gives an empty list); a missing
      field is `None`, which Python cannot compare, so two or more
      sub-objects sort only when all of them have the field. The
      `TypeError` message stands for whichever pair Python compares first
      (`'NoneType' and 'str'`, `'str' and 'NoneType'` or `'NoneType' and
      'NoneType'`); the model fixes one of them. */
  function DoSort(field: Field, orderby: string): (r: Result<Field>)
    ensures r.Success? ==> r.value.Array?
  {
    match field
    case Scalar(text) =>
      if text == "" then Success(Array([])) else Failure(AttributeError("get"))
    case Array(elems) =>
      if 2 <= |elems| && exists i :: 0 <= i < |elems| && orderby !in elems[i].entries then
        Failure(TypeError("'<' not supported between instances of 'NoneType' and 'str'"))
      else Success(Array(SortBy(elems, OrderKey(orderby))))
  }

  /** A list sorts exactly when it has at most one element or all of them
      have the field; the result holds the same sub-objects, each as often,
      ordered by the field, with sub-objects of equal field in their
      original order. */
  lemma DoSortSorts(elems: seq<Dict<string, string>>, orderby: string)
    ensures DoSort(Array(elems), orderby).Success? <==>
      |elems| <= 1 || forall e :: e in elems ==> orderby in e.entries
    ensures DoSort(Array(elems), orderby).Success? ==>
      var out := DoSort(Array(elems), orderby).value.elems;
      && multiset(out) == multiset(elems)
      && SortedBy(out, OrderKey(orderby))
      && forall k :: Filter(out, OrderKey(orderby), k) == Filter(elems, OrderKey(orderby), k)
  {
    var key := OrderKey(orderby);
    MissingField(elems, orderby);
    SortedPermutation(elems, key);
    if DoSort(Array(elems), orderby).Success? {
      assert DoSort(Array(elems), orderby).value.elems == SortBy(elems, key);
    }
  }

  /** Some sub-object lacks the field exactly when not all have it. */
  lemma MissingField(elems: seq<Dict<string, string>>, orderby: string)
    ensures (exists i :: 0 <= i < |elems| && orderby !in elems[i].entries) <==>
      !(forall e :: e in elems ==> orderby in e.entries)
  {
    if exists i :: 0 <= i < |elems| && orderby !in elems[i].entries {
      var i :| 0 <= i < |elems| && orderby !in elems[i].entries;
      assert elems[i] in elems;
    }
    if exists e :: e in elems && orderby !in e.entries {
      var e :| e in elems && orderby !in e.entries;
      var i :| 0 <= i < |elems| && elems[i] == e;
      assert orderby !in elems[i].entries;
    }
  }

  /** `SortBy` in one place: a permutation, ordered, and stable. */
  lemma SortedPermutation<T>(s: seq<T>, key: T -> SortKey)
    ensures multiset(SortBy(s, key)) == multiset(s)
    ensures SortedBy(SortBy(s, key), key)
    ensures forall k :: Filter(SortBy(s, key), key, k) == Filter(s, key, k)
  {
    SortByPermutation(s, key);
    SortBySorted(s, key);
    forall k ensures Filter(SortBy(s, key), key, k) == Filter(s, key, k) {
      SortByStable(s, key, k);
    }
  }

  /** The first `n` configured fields of `item` sorted, each by its own
      field name; a configured field the object lacks is a `KeyError`. */
  function SortFields(item: Item, sortarray: Dict<string, string>, n: nat): Result<Item>
    requires n <= |sortarray.keys|
  {
    if n == 0 then Success(item)
    else
      var before :- SortFields(item, sortarray, n - 1);
      var keyname := sortarray.keys[n - 1];
      SortField(before, keyname, sortarray.entries[keyname])
  }

  /** `item[keyname] = do_sort(item[keyname], orderby)` */
  function SortField(item: Item, keyname: string, orderby: string): (r: Result<Item>)
    ensures r.Success? <==> keyname in item.entries && DoSort(item.entries[keyname], orderby).Success?
    ensures r.Success? ==> r.value == Set(item, keyname, DoSort(item.entries[keyname], orderby).value)
    ensures keyname !in item.entries ==> r == Failure(KeyError(keyname))
  {
    if keyname !in item.entries then Failure(KeyError(keyname))
    else
      var sorted :- DoSort(item.entries[keyname], orderby);
      Success(Set(item, keyname, sorted))
  }

  /** The configured fields of one object sorted. */
  function SortItem(item: Item, sortarray: Dict<string, string>): Result<Item>
  {
    SortFields(item, sortarray, |sortarray.keys|)
  }

  /** Sorting an object's fields succeeds exactly when it has every
      configured field and each of them sorts; then every configured field
      holds its sorted value, every other field is untouched, and the
      fields keep their order. */
  lemma {:induction false} SortFieldsEffect(item: Item, sortarray: Dict<string, string>, n: nat)
    requires n <= |sortarray.keys|
    ensures SortFields(item, sortarray, n).Success? <==>
      forall k :: k in sortarray.keys[..n] ==> k in item.entries && DoSort(item.entries[k], sortarray.entries[k]).Success?
    ensures SortFields(item, sortarray, n).Success? ==>
      var r := SortFields(item, sortarray, n).value;
      && r.keys == item.keys
      && (forall k :: k in sortarray.keys[..n] ==> r.entries[k] == DoSort(item.entries[k], sortarray.entries[k]).value)
      && (forall k :: k in item.entries && k !in sortarray.keys[..n] ==> r.entries[k] == item.entries[k])
  {
    if n > 0 {
      SortFieldsEffect(item, sortarray, n - 1);
      var keyname := sortarray.keys[n - 1];
      assert sortarray.keys[..n] == sortarray.keys[..n - 1] + [keyname];
      assert keyname !in sortarray.keys[..n - 1] by {
        forall i | 0 <= i < n - 1 ensures sortarray.keys[i] != keyname {
        }
      }
    }
  }

  /** The first `n` objects of `data`, in order, each replaced by its
      rewrite; the first object whose rewrite fails makes everything fail. */
  function RewriteUpTo<V>(data: Dict<string, V>, rewrite: V -> Result<V>, n: nat): Result<Dict<string, V>>
    requires n <= |data.keys|
  {
    if n == 0 then Success(data)
    else
      var before :- RewriteUpTo(data, rewrite, n - 1);
      var id := data.keys[n - 1];
      var item :- rewrite(data.entries[id]);
      Success(Set(before, id, item))
  }

  /** The per-object rewrite of `_mutate_sortarray`. */
  function ItemSorter(sortarray: Dict<string, string>): Item -> Result<Item>
  {
    (item: Item) => SortItem(item, sortarray)
  }

  /** The first `n` objects with their configured fields sorted. */
  function SortedUpTo(data: Specifics, sortarray: Dict<string, string>, n: nat): Result<Specifics>
    requires n <= |data.keys|
  {
    RewriteUpTo(data, ItemSorter(sortarray), n)
  }

  /** `_mutate_sortarray._mutate`. */
  function SortAll(data: Specifics, sortarray: Dict<string, string>): Result<Specifics>
  {
    SortedUpTo(data, sortarray, |data.keys|)
  }

  /** Rewriting the first `n` objects succeeds exactly when each of their
      rewrites does. */
  lemma {:induction false} RewriteSucceeds<V>(data: Dict<string, V>, rewrite: V -> Result<V>, n: nat)
    requires n <= |data.keys|
    ensures RewriteUpTo(data, rewrite, n).Success? <==>
      forall i :: 0 <= i < n ==> rewrite(data.entries[data.keys[i]]).Success?
  {
    if n > 0 {
      RewriteSucceeds(data, rewrite, n - 1);
    }
  }

  /** After rewriting the first `n` objects, they are replaced by their
      rewrites, the other objects are untouched, and the ids keep their
      order. */
  lemma {:induction false} RewriteUpToEffect<V>(data: Dict<string, V>, rewrite: V -> Result<V>, n: nat)
    requires n <= |data.keys| && RewriteUpTo(data, rewrite, n).Success?
    ensures RewriteUpTo(data, rewrite, n).value.keys == data.keys
    ensures forall i :: 0 <= i < n ==>
      rewrite(data.entries[data.keys[i]]) == Success(RewriteUpTo(data, rewrite, n).value.entries[data.keys[i]])
    ensures forall i :: n <= i < |data.keys| ==>
      RewriteUpTo(data, rewrite, n).value.entries[data.keys[i]] == data.entries[data.keys[i]]
  {
    if n > 0 {
      var before := RewriteUpTo(data, rewrite, n - 1).value;
      RewriteUpToEffect(data, rewrite, n - 1);
      var id := data.keys[n - 1];
      var item := rewrite(data.entries[id]).value;
      assert id in before.entries by {
        assert before.keys[n - 1] == id;
      }
      var r := Set(before, id, item);
      assert RewriteUpTo(data, rewrite, n) == Success(r);
      assert r.keys == data.keys;
      forall i | 0 <= i < |data.keys| && i != n - 1
        ensures r.entries[data.keys[i]] == before.entries[data.keys[i]]
      {
        assert data.keys[i] != id;
      }
    }
  }

  /** Sorting the arrays succeeds exactly when every object's configured
      fields sort; then every object is its sorted self, under the same id
      and in the same order. */
  lemma SortAllEffect(data: Specifics, sortarray: Dict<string, string>)
    ensures SortAll(data, sortarray).Success? <==>
      forall id :: id in data.entries ==> SortItem(data.entries[id], sortarray).Success?
    ensures SortAll(data, sortarray).Success? ==>
      var r := SortAll(data, sortarray).value;
      && r.keys == data.keys
      && forall id :: id in data.entries ==> r.entries[id] == SortItem(data.entries[id], sortarray).value
  {
    RewriteSucceeds(data, ItemSorter(sortarray), |data.keys|);
    if SortAll(data, sortarray).Success? {
      RewriteUpToEffect(data, ItemSorter(sortarray), |data.keys|);
    }
    forall id | id in data.entries ensures exists i :: 0 <= i < |data.keys| && data.keys[i] == id {
      assert id in data.keys;
    }
  }

  /** The loop over one object's configured fields. */
  method SortItemLoop(item: Item, sortarray: Dict<string, string>) returns (r: Result<Item>)
    ensures r == SortItem(item, sortarray)
  {
    var acc := item;
    var n := 0;
    while n < |sortarray.keys|
      invariant 0 <= n <= |sortarray.keys|
      invariant SortFields(item, sortarray, n) == Success(acc)
    {
      var keyname := sortarray.keys[n];
      var next := SortField(acc, keyname, sortarray.entries[keyname]);
      SortFieldsSnoc(item, sortarray, n, acc);
      if next.Failure? {
        SortFieldsFailed(item, sortarray, n + 1);
        return next;
      }
      acc := next.value;
      n := n + 1;
    }
    return Success(acc);
  }

  lemma SortFieldsSnoc(item: Item, sortarray: Dict<string, string>, n: nat, acc: Item)
    requires n < |sortarray.keys| && SortFields(item, sortarray, n) == Success(acc)
    ensures SortFields(item, sortarray, n + 1) == SortField(acc, sortarray.keys[n], sortarray.entries[sortarray.keys[n]])
  {
  }

  /** Once a field fails to sort, the whole object fails the same way. */
  lemma {:induction false} SortFieldsFailed(item: Item, sortarray: Dict<string, string>, n: nat)
    requires n <= |sortarray.keys| && SortFields(item, sortarray, n).Failure?
    ensures SortItem(item, sortarray) == SortFields(item, sortarray, n)
    decreases |sortarray.keys| - n
  {
    if n < |sortarray.keys| {
      SortFieldsFailed(item, sortarray, n + 1);
    }
  }

  /** One more object of the rewriting loop. */
  lemma RewriteStep<V>(data: Dict<string, V>, rewrite: V -> Result<V>, n: nat, acc: Dict<string, V>, next: Result<V>)
    requires n < |data.keys| && RewriteUpTo(data, rewrite, n) == Success(acc)
    requires next == rewrite(data.entries[data.keys[n]])
    ensures next.Success? ==> RewriteUpTo(data, rewrite, n + 1) == Success(Set(acc, data.keys[n], next.value))
    ensures next.Failure? ==> RewriteUpTo(data, rewrite, |data.keys|) == Failure(next.error)
  {
    if next.Failure? {
      RewriteFailed(data, rewrite, n + 1);
    }
  }

  /** Once an object fails, the whole rewrite fails the same way. */
  lemma {:induction false} RewriteFailed<V>(data: Dict<string, V>, rewrite: V -> Result<V>, n: nat)
    requires n <= |data.keys| && RewriteUpTo(data, rewrite, n).Failure?
    ensures RewriteUpTo(data, rewrite, |data.keys|) == RewriteUpTo(data, rewrite, n)
    decreases |data.keys| - n
  {
    if n < |data.keys| {
      RewriteFailed(data, rewrite, n + 1);
    }
  }

  /** `_mutate_sortarray._mutate`: the loop over the objects around the
      loop over the configured fields. */
  method SortArrays(data: Specifics, sortarray: Dict<string, string>) returns (r: Result<Specifics>)
    ensures r == SortAll(data, sortarray)
  {
    var acc := data;
    for n := 0 to |data.keys|
      invariant SortedUpTo(data, sortarray, n) == Success(acc)
    {
      var next := SortOne(data, sortarray, n, acc);
      if next.Failure? {
        return next;
      }
      acc := next.value;
    }
    return Success(acc);
  }

  /** One object of `SortArrays`: its configured fields sorted and the
      object stored back under its id. */
  method SortOne(data: Specifics, sortarray: Dict<string, string>, n: nat, acc: Specifics) returns (next: Result<Specifics>)
    requires n < |data.keys| && SortedUpTo(data, sortarray, n) == Success(acc)
    ensures next.Success? ==> SortedUpTo(data, sortarray, n + 1) == next
    ensures next.Failure? ==> SortAll(data, sortarray) == next
  {
    var id := data.keys[n];
    var item := SortItemLoop(data.entries[id], sortarray);
    assert item == ItemSorter(sortarray)(data.entries[id]);
    RewriteStep(data, ItemSorter(sortarray), n, acc, item);
    if item.Failure? {
      return Failure(item.error);
    }
    return Success(Set(acc, id, item.value));
  }

  // ---------------------------------------------------------------------
  // fetch

  /** One profile in one region. */
  datatype Session = Session(profile: string, region: string)

  /** The region recorded for every Definition of a single-region
      collector. */
  const SingleRegion: string := "__SINGLE_REGION"

  /** What `fetch` takes from a concrete collector: the kind it records,
      whether the objects are global to a profile, the per-session fetch
      (`None` where it raises, which `fetch` swallows) and `_mutate`
      (whose failure `fetch` does not catch). */
  datatype Source = Source(
    kind: string,
    singleRegion: bool,
    fetchOne: Session -> Option<Specifics>,
    mutate: Specifics -> Result<Specifics>)

  /** `_mutate` of a collector that does not override it. */
  function Unchanged(): Specifics -> Result<Specifics>
  {
    data => Success(data)
  }

  /** `_mutate` of a `_mutate_sortarray` collector. */
  function SortArrayMutator(sortarray: Dict<string, string>): Specifics -> Result<Specifics>
  {
    data => SortAll(data, sortarray)
  }

  /** A per-session fetch as `fetch` sees it: any exception it raises is
      swallowed, so only the answer or its absence is left. */
  function Caught(fetchOne: Session -> Result<Specifics>): Session -> Option<Specifics>
  {
    s => if fetchOne(s).Success? then Some(fetchOne(s).value) else None
  }

  /** The per-session fetch of a `_data_two_deep` collector, given the
      pages each session's listing returns or the error it raises. */
  function TwoDeepFetcher(pagesOf: Session -> Result<seq<Page>>, r1Key: string, r2Id: string): Session -> Result<Specifics>
  {
    s => if pagesOf(s).Success? then TwoDeep(pagesOf(s).value, r1Key, r2Id) else Failure(pagesOf(s).error)
  }

  /** Whether `fetch` asks session `i`: always, unless the collector is
      single-region and an earlier session had the same profile. */
  predicate Attempted(src: Source, sessions: seq<Session>, i: int)
    requires 0 <= i < |sessions|
  {
    !src.singleRegion || forall j :: 0 <= j < i ==> sessions[j].profile != sessions[i].profile
  }

  /** The session answered with at least one object. */
  predicate Answered(src: Source, s: Session)
  {
    src.fetchOne(s).Some? && src.fetchOne(s).value.keys != []
  }

  /** The Definition `fetch` builds for a session's rewritten answer: no
      data source is attached, and a single-region collector records the
      placeholder region. */
  function Made(src: Source, s: Session, data: Specifics): Definition<Field>
  {
    Definition(src.kind, None, s.profile, if src.singleRegion then SingleRegion else s.region, data)
  }

  /** What session `i` adds to the set. */
  function Contribution(src: Source, sessions: seq<Session>, i: int): Result<seq<Definition<Field>>>
    requires 0 <= i < |sessions|
  {
    if !Attempted(src, sessions, i) || !Answered(src, sessions[i]) then Success([])
    else
      var data :- src.mutate(src.fetchOne(sessions[i]).value);
      Success([Made(src, sessions[i], data)])
  }

  /** The members `fetch` has appended after the first `n` sessions. */
  function FetchedUpTo(src: Source, sessions: seq<Session>, n: nat): Result<seq<Definition<Field>>>
    requires n <= |sessions|
  {
    if n == 0 then Success([])
    else
      var before :- FetchedUpTo(src, sessions, n - 1);
      var more :- Contribution(src, sessions, n - 1);
      Success(before + more)
  }

  /** `fetch`: the members of the set it returns. */
  function Fetched(src: Source, sessions: seq<Session>): Result<seq<Definition<Field>>>
  {
    FetchedUpTo(src, sessions, |sessions|)
  }

  /** The set holds exactly one Definition per session that was attempted
      and answered, built from its rewritten answer. */
  lemma {:induction false} FetchedMembers(src: Source, sessions: seq<Session>, n: nat, d: Definition<Field>)
    requires n <= |sessions| && FetchedUpTo(src, sessions, n).Success?
    ensures d in FetchedUpTo(src, sessions, n).value <==>
      exists i :: 0 <= i < n && Attempted(src, sessions, i) && Answered(src, sessions[i])
        && src.mutate(src.fetchOne(sessions[i]).value).Success?
        && d == Made(src, sessions[i], src.mutate(src.fetchOne(sessions[i]).value).value)
  {
    if n > 0 {
      FetchedMembers(src, sessions, n - 1, d);
    }
  }

  /** `fetch` fails exactly when the rewrite of some attempted, answered
      session fails. */
  lemma {:induction false} FetchedFails(src: Source, sessions: seq<Session>, n: nat)
    requires n <= |sessions|
    ensures FetchedUpTo(src, sessions, n).Failure? <==>
      exists i :: 0 <= i < n && Attempted(src, sessions, i) && Answered(src, sessions[i])
        && src.mutate(src.fetchOne(sessions[i]).value).Failure?
  {
    if n > 0 {
      FetchedFails(src, sessions, n - 1);
    }
  }

  /** A single-region collector keeps at most one Definition per profile,
      each recorded under the placeholder region. */
  lemma {:induction false} FetchedOnePerProfile(src: Source, sessions: seq<Session>, n: nat)
    requires n <= |sessions| && src.singleRegion && FetchedUpTo(src, sessions, n).Success?
    ensures var ds := FetchedUpTo(src, sessions, n).value;
      && (forall a, b :: 0 <= a < b < |ds| ==> ds[a].profile != ds[b].profile)
      && (forall a :: 0 <= a < |ds| ==> ds[a].region == SingleRegion)
      && (forall a :: 0 <= a < |ds| ==> exists j :: 0 <= j < n && sessions[j].profile == ds[a].profile)
  {
    if n > 0 {
      FetchedOnePerProfile(src, sessions, n - 1);
      var before := FetchedUpTo(src, sessions, n - 1).value;
      var ds := FetchedUpTo(src, sessions, n).value;
      if Contribution(src, sessions, n - 1).value != [] {
        assert ds == before + [ds[|ds| - 1]];
        forall a | 0 <= a < |before| ensures before[a].profile != sessions[n - 1].profile {
          var j :| 0 <= j < n - 1 && sessions[j].profile == before[a].profile;
        }
      } else {
        assert ds == before;
      }
    }
  }

  /** Without single-region, every session is attempted, and each answered
      one is recorded under its own region. */
  lemma AllRegionsAttempted(src: Source, sessions: seq<Session>, i: int)
    requires 0 <= i < |sessions| && !src.singleRegion
    ensures Attempted(src, sessions, i)
    ensures Made(src, sessions[i], Empty()).region == sessions[i].region
  {
  }

  /** `fetch` attaches no data source, so as soon as one fetched Definition
      holds objects, rendering the set's rows or records fails. */
  lemma FetchedCannotRender(src: Source, sessions: seq<Session>, d: Definition<Field>)
    requires Fetched(src, sessions).Success? && d in Fetched(src, sessions).value && d.data.keys != []
    ensures SetRows(Fetched(src, sessions).value).Failure?
    ensures SetCanonical(Fetched(src, sessions).value).Failure?
  {
    FetchedMembers(src, sessions, |sessions|, d);
    var ds := Fetched(src, sessions).value;
    var a :| 0 <= a < |ds| && ds[a] == d;
    SetRowsContents(ds);
    SetCanonicalContents(ds);
  }

  /** Once a prefix of the sessions fails, `fetch` fails the same way. */
  lemma {:induction false} FetchedFailed(src: Source, sessions: seq<Session>, n: nat)
    requires n <= |sessions| && FetchedUpTo(src, sessions, n).Failure?
    ensures Fetched(src, sessions) == FetchedUpTo(src, sessions, n)
    decreases |sessions| - n
  {
    if n < |sessions| {
      FetchedFailed(src, sessions, n + 1);
    }
  }

  /** One more session of `fetch`'s loop. */
  lemma FetchStep(src: Source, sessions: seq<Session>, i: nat, members: seq<Definition<Field>>)
    requires i < |sessions| && FetchedUpTo(src, sessions, i) == Success(members)
    ensures Contribution(src, sessions, i) == Success([]) ==> FetchedUpTo(src, sessions, i + 1) == Success(members)
    ensures Contribution(src, sessions, i).Success? ==>
      FetchedUpTo(src, sessions, i + 1) == Success(members + Contribution(src, sessions, i).value)
    ensures Contribution(src, sessions, i).Failure? ==> Fetched(src, sessions) == Failure(Contribution(src, sessions, i).error)
  {
    if Contribution(src, sessions, i) == Success([]) {
      assert members + [] == members;
    }
    if Contribution(src, sessions, i).Failure? {
      FetchedFailed(src, sessions, i + 1);
    }
  }

  /** `fetch`: the loop over the sessions with the `profiles_done`
      record, appending to a new DefinitionSet. */
  method Fetch(src: Source, sessions: seq<Session>) returns (r: Result<DefinitionSet<Field>>)
    ensures r.Success? <==> Fetched(src, sessions).Success?
    ensures r.Success? ==> fresh(r.value) && r.value.members == Fetched(src, sessions).value
    ensures r.Failure? ==> r.error == Fetched(src, sessions).error
  {
    var db := new DefinitionSet<Field>();
    var profilesDone: set<string> := {};
    var i := 0;
    while i < |sessions|
      invariant 0 <= i <= |sessions|
      invariant fresh(db)
      invariant profilesDone == set j | 0 <= j < i :: sessions[j].profile
      invariant FetchedUpTo(src, sessions, i) == Success(db.members)
    {
      FetchStep(src, sessions, i, db.members);
      var session := sessions[i];
      var region := session.region;
      if src.singleRegion {
        region := SingleRegion;
        if session.profile in profilesDone {
          var j :| 0 <= j < i && sessions[j].profile == session.profile;
          assert !Attempted(src, sessions, i);
          i := i + 1;
          continue;
        }
      }
      assert Attempted(src, sessions, i);
      profilesDone := profilesDone + {session.profile};
      var specifics := src.fetchOne(session);
      if specifics.None? || specifics.value.keys == [] {
        i := i + 1;
        continue;
      }
      var data := src.mutate(specifics.value);
      if data.Failure? {
        return Failure(data.error);
      }
      db.Append(Definition(src.kind, None, session.profile, region, data.value));
      i := i + 1;
    }
    return Success(db);
  }
}
