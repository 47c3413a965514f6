/**
  The record adapter's data: the host objects a caller passes in, the
  (name, value) fields the adapter extracts from them, and the wrapper that
  pairs those fields with the original object. The pieces both generations of
  convertable_types share (convert_dict, the list and generic-object branches,
  wrapping every element, mapping results back) are here; each generation's
  module adds its own branches and guard.
 */
module Records {
  import opened Wrappers
  import opened PyValues
  import opened Seqs

  /** A searchable field: BaseField(name, value) with the name already passed through str(). */
  datatype SearchField = SearchField(name: string, value: Value)

  /** One item of a SearchDataProvider's `fields` when that is a list: a SearchField or something else. */
  datatype FieldItem = IsField(field: SearchField) | NotField(other: Value)

  /** What a SearchDataProvider's `fields` property returns. */
  datatype ProviderFields =
    | FieldList(items: seq<FieldItem>)           // a list (or another re-iterable, non-mapping collection)
    | FieldMapping(entries: seq<(Value, Value)>)  // a dict of name/value pairs, in iteration order
    | NotIterable                                 // e.g. None or an int

  /**
    An element of the collection being searched, with reflection replaced by
    explicit lists. Instance: the values of the properties declared on the
    object's class (in declaration order), then the entries of the instance
    dictionary (in insertion order). NoDict: an object without an instance
    dictionary, such as an int, a str or a tuple.
   */
  datatype HostObject =
    | Mapping(entries: seq<(Value, Value)>)
    | ListObject(elements: seq<Value>)
    | Provider(provided: ProviderFields)
    | Instance(properties: seq<(string, Value)>, attributes: seq<(string, Value)>)
    | NoDict(scalar: Value)

  /**
    An ImplicitlyConvertedSearchDataProvider. Python hashes these by object
    identity; `id` is that identity, the position of the wrapped element in
    the input.
   */
  datatype Adapted = Adapted(id: nat, fields: seq<SearchField>, underlying: HostObject)

  /** The `values` argument of a decorated call. */
  datatype Argument =
    | CollectionArg(items: seq<HostObject>)   // a list, tuple, set, dict (its keys) ... : a Collection
    | IteratorArg(items: seq<HostObject>)     // iterable but not a Collection, e.g. a generator
    | TextArg(text: string)                   // a str
    | ScalarArg                               // not iterable

  /** What iterating the argument yields; iterating a str yields its one-character strings. */
  function Elements(arg: Argument): seq<HostObject> {
    match arg
    case CollectionArg(items) => items
    case IteratorArg(items) => items
    case TextArg(text) => seq(|text|, k requires 0 <= k < |text| => NoDict(VStr([text[k]])))
    case ScalarArg => []
  }

  /** convert_dict: one SearchField per key/value pair, in iteration order, named str(key). */
  function ConvertDict(entries: seq<(Value, Value)>): (r: seq<SearchField>)
    ensures |r| == |entries|
    ensures forall k :: 0 <= k < |r| ==> r[k].name == Str(entries[k].0) && r[k].value == entries[k].1
  {
    if entries == [] then []
    else [SearchField(Str(entries[0].0), entries[0].1)] + ConvertDict(entries[1..])
  }

  /** The list branch: [SearchField(k, v) for k, v in enumerate(obj)]. */
  function EnumerateFields(elements: seq<Value>): (r: seq<SearchField>)
    ensures |r| == |elements|
    ensures forall k :: 0 <= k < |r| ==> r[k].name == IntToString(k) && r[k].value == elements[k]
  {
    ConvertDict(seq(|elements|, k requires 0 <= k < |elements| => (VInt(k), elements[k])))
  }

  /** The fields of a list are named "0" to "n-1": no two share a name. */
  lemma EnumeratedNamesDistinct(elements: seq<Value>, i: nat, j: nat)
    requires i < j < |elements|
    ensures EnumerateFields(elements)[i].name != EnumerateFields(elements)[j].name
  {
    if IntToString(i) == IntToString(j) {
      IntToStringInjective(i, j);
    }
  }

  /** A public attribute: one whose name does not start with '_'. */
  predicate IsPublic(entry: (string, Value)) {
    !(|entry.0| > 0 && entry.0[0] == '_')
  }

  function StrKeyed(pairs: seq<(string, Value)>): (r: seq<(Value, Value)>)
    ensures |r| == |pairs|
    ensures forall k :: 0 <= k < |r| ==> r[k] == (VStr(pairs[k].0), pairs[k].1)
  {
    seq(|pairs|, k requires 0 <= k < |pairs| => (VStr(pairs[k].0), pairs[k].1))
  }

  /** The generic-object branch: the property values, then the public instance attributes. */
  function InstanceFields(properties: seq<(string, Value)>, attributes: seq<(string, Value)>): seq<SearchField> {
    ConvertDict(StrKeyed(properties)) + ConvertDict(StrKeyed(Filter(attributes, IsPublic)))
  }

  /** The generic-object branch of __init__: extend with the property fields, then with the public attributes. */
  method InstanceBranch(properties: seq<(string, Value)>, attributes: seq<(string, Value)>) returns (fields: seq<SearchField>)
    ensures fields == InstanceFields(properties, attributes)
  {
    var head := ConvertDict(StrKeyed(properties));
    var tail := ConvertDict(StrKeyed(Filter(attributes, IsPublic)));
    fields := [];
    fields := fields + head;
    assert fields == head;
    fields := fields + tail;
  }

  /**
    A generic object yields one field per property first, in order, then
    exactly its public attributes, in order; no field after the properties
    is private.
   */
  lemma InstanceFieldsLayout(properties: seq<(string, Value)>, attributes: seq<(string, Value)>)
    ensures var r := InstanceFields(properties, attributes);
      var public := Filter(attributes, IsPublic);
      |r| == |properties| + |public| &&
      (forall k :: 0 <= k < |properties| ==> r[k] == SearchField(properties[k].0, properties[k].1)) &&
      (forall k :: 0 <= k < |public| ==> r[|properties| + k] == SearchField(public[k].0, public[k].1)) &&
      (forall a :: a in attributes && IsPublic(a) <==> a in public)
  {
    var r := InstanceFields(properties, attributes);
    var public := Filter(attributes, IsPublic);
    var head := ConvertDict(StrKeyed(properties));
    var tail := ConvertDict(StrKeyed(public));
    assert r == head + tail;
    forall k | 0 <= k < |properties| ensures r[k] == SearchField(properties[k].0, properties[k].1) {
      assert r[k] == head[k];
    }
    forall k | 0 <= k < |public| ensures r[|properties| + k] == SearchField(public[k].0, public[k].1) {
      assert r[|properties| + k] == tail[k];
    }
    forall a ensures a in attributes && IsPublic(a) <==> a in public {
      FilterMembership(attributes, IsPublic, a);
    }
  }

  /**
    {Wrapper(v) for v in values}: wraps each element in order, the k-th with
    identity from + k; the first element whose adapter raises aborts the rest.
   */
  function WrapAll(items: seq<HostObject>, fieldsOf: HostObject -> Result<seq<SearchField>>, from: nat): (r: Result<seq<Adapted>>)
    ensures r.Success? ==>
      |r.value| == |items| &&
      forall k :: 0 <= k < |items| ==>
        fieldsOf(items[k]).Success? &&
        r.value[k] == Adapted(from + k, fieldsOf(items[k]).value, items[k])
    ensures r.Failure? ==>
      exists k :: 0 <= k < |items| && fieldsOf(items[k]) == Failure(r.error) &&
        forall j :: 0 <= j < k ==> fieldsOf(items[j]).Success?
  {
    if items == [] then Success([])
    else match fieldsOf(items[0])
      case Failure(e) => Failure(e)
      case Success(fields) =>
        match WrapAll(items[1..], fieldsOf, from + 1)
        case Failure(e) =>
          var k :| 0 <= k < |items| - 1 && fieldsOf(items[1..][k]) == Failure(e) &&
            (forall j :: 0 <= j < k ==> fieldsOf(items[1..][j]).Success?);
          assert fieldsOf(items[k + 1]) == Failure(e);
          assert forall j :: 0 < j < k + 1 ==> fieldsOf(items[j]) == fieldsOf(items[1..][j - 1]);
          Failure(e)
        case Success(rest) => Success([Adapted(from, fields, items[0])] + rest)
  }

  /** Wrappers with consecutive identities are all distinct. */
  lemma ConsecutiveIdsDistinct(ws: seq<Adapted>, from: nat)
    requires forall k :: 0 <= k < |ws| ==> ws[k].id == from + k
    ensures Distinct(ws)
  {
  }

  function Underlyings(ws: seq<Adapted>): (r: seq<HostObject>)
    ensures |r| == |ws| && forall k :: 0 <= k < |ws| ==> r[k] == ws[k].underlying
  {
    seq(|ws|, k requires 0 <= k < |ws| => ws[k].underlying)
  }

  /**
    [r.underlying_object for r in results], listing the wrappers in the order
    of the input rather than in set iteration order.
   */
  function Listing(ws: seq<Adapted>, results: set<Adapted>): seq<HostObject> {
    Underlyings(Filter(ws, MemberOf(results)))
  }

  function MemberOf(results: set<Adapted>): Adapted -> bool {
    w => w in results
  }

  /**
    When the results come from the wrapped input, every result wrapper is
    listed exactly once: the listing has one entry per result, and an object
    is listed iff it is the underlying object of some result.
   */
  lemma ListingExact(ws: seq<Adapted>, results: set<Adapted>)
    requires Distinct(ws)
    requires results <= set w | w in ws
    ensures |Listing(ws, results)| == |results|
    ensures forall x :: x in Listing(ws, results) <==> exists w :: w in results && w.underlying == x
  {
    var keep := MemberOf(results);
    var kept := Filter(ws, keep);
    FilterDistinct(ws, keep);
    DistinctCardinality(kept);
    forall w ensures w in kept <==> w in results {
      FilterMembership(ws, keep, w);
    }
    assert (set w | w in kept) == results;
    forall x ensures x in Listing(ws, results) <==> exists w :: w in results && w.underlying == x {
      if x in Listing(ws, results) {
        var k :| 0 <= k < |kept| && Underlyings(kept)[k] == x;
        assert kept[k] in results;
      }
      if exists w :: w in results && w.underlying == x {
        var w :| w in results && w.underlying == x;
        var k :| 0 <= k < |kept| && kept[k] == w;
        assert Underlyings(kept)[k] == x;
      }
    }
  }

  /**
    When the results are the wrappers satisfying some test, the listing has one
    entry per result, and an object is listed exactly when a wrapper passing
    the test holds it.
   */
  lemma ListingSelects(ws: seq<Adapted>, results: set<Adapted>, keep: Adapted -> bool)
    requires Distinct(ws)
    requires forall w :: w in results <==> w in ws && keep(w)
    ensures |Listing(ws, results)| == |results|
    ensures forall x :: x in Listing(ws, results) <==>
      exists k :: 0 <= k < |ws| && keep(ws[k]) && ws[k].underlying == x
  {
    ListingExact(ws, results);
    forall x ensures x in Listing(ws, results) <==> exists k :: 0 <= k < |ws| && keep(ws[k]) && ws[k].underlying == x {
      if x in Listing(ws, results) {
        var w :| w in results && w.underlying == x;
        var k :| 0 <= k < |ws| && ws[k] == w;
      }
      if exists k :: 0 <= k < |ws| && keep(ws[k]) && ws[k].underlying == x {
        var k :| 0 <= k < |ws| && keep(ws[k]) && ws[k].underlying == x;
        assert ws[k] in results;
      }
    }
  }

  /** Listing every wrapper gives back the wrapped objects, in input order. */
  lemma {:induction false} ListingAll(ws: seq<Adapted>)
    ensures Listing(ws, set w | w in ws) == Underlyings(ws)
  {
    var keep := MemberOf(set w | w in ws);
    FilterKeepsAll(ws, keep);
  }

  /**
    The comprehension of implicit_conversion, once its guard has passed: wrap
    every element with the generation's adapter, call func on the set of
    wrappers, and list the underlying objects of the wrappers it returns.
   */
  function ConvertWrapped(items: seq<HostObject>, fieldsOf: HostObject -> Result<seq<SearchField>>,
                          func: set<Adapted> -> set<Adapted>): (r: Result<seq<HostObject>>)
    ensures r.Success? <==> WrapAll(items, fieldsOf, 0).Success?
    ensures r.Success? ==> |r.value| <= |items|
  {
    match WrapAll(items, fieldsOf, 0)
    case Failure(e) => Failure(e)
    case Success(ws) => Success(Listing(ws, func(set w | w in ws)))
  }

  /**
    Every element gets a wrapper of its own, so when func keeps every
    wrapper, all elements come back, equal ones included, in input order.
   */
  lemma ConvertWrappedKeepsEveryElement(items: seq<HostObject>, fieldsOf: HostObject -> Result<seq<SearchField>>,
                                        func: set<Adapted> -> set<Adapted>)
    requires WrapAll(items, fieldsOf, 0).Success?
    requires var ws := WrapAll(items, fieldsOf, 0).value; func(set w | w in ws) == set w | w in ws
    ensures ConvertWrapped(items, fieldsOf, func) == Success(items)
  {
    var ws := WrapAll(items, fieldsOf, 0).value;
    ListingAll(ws);
    assert Underlyings(ws) == items;
  }

  /**
    When func keeps exactly the wrappers that pass a test, the call returns
    one object per kept wrapper, and an object comes back exactly when some
    element that passes the test is that object.
   */
  lemma ConvertWrappedFilters(items: seq<HostObject>, fieldsOf: HostObject -> Result<seq<SearchField>>,
                              func: set<Adapted> -> set<Adapted>, keep: Adapted -> bool)
    requires WrapAll(items, fieldsOf, 0).Success?
    requires var ws := WrapAll(items, fieldsOf, 0).value;
      forall w :: w in func(set w | w in ws) <==> w in ws && keep(w)
    ensures var ws := WrapAll(items, fieldsOf, 0).value;
      var r := ConvertWrapped(items, fieldsOf, func);
      r.Success? &&
      |r.value| == |func(set w | w in ws)| &&
      forall x :: x in r.value <==> exists k :: 0 <= k < |ws| && keep(ws[k]) && items[k] == x
  {
    var ws := WrapAll(items, fieldsOf, 0).value;
    ConsecutiveIdsDistinct(ws, 0);
    ListingSelects(ws, func(set w | w in ws), keep);
    assert forall k :: 0 <= k < |ws| ==> ws[k].underlying == items[k];
  }

  /**
    When func returns some of the wrappers it was given, the call returns one
    object per returned wrapper, and exactly the objects those wrappers hold.
   */
  lemma ConvertWrappedReturnsUnderlying(items: seq<HostObject>, fieldsOf: HostObject -> Result<seq<SearchField>>,
                                        func: set<Adapted> -> set<Adapted>)
    requires WrapAll(items, fieldsOf, 0).Success?
    requires var ws := WrapAll(items, fieldsOf, 0).value; func(set w | w in ws) <= set w | w in ws
    ensures var ws := WrapAll(items, fieldsOf, 0).value;
      var results := func(set w | w in ws);
      |ConvertWrapped(items, fieldsOf, func).value| == |results| &&
      forall x :: x in ConvertWrapped(items, fieldsOf, func).value <==> exists w :: w in results && w.underlying == x
  {
    var ws := WrapAll(items, fieldsOf, 0).value;
    ConsecutiveIdsDistinct(ws, 0);
    ListingExact(ws, func(set w | w in ws));
  }
}
