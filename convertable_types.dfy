/**
  convertable_types.py: the root record adapter. It differs from the newer one
  in three places: a provider's `fields` must be a mapping, fields whose value
  is a collection (other than a str) are dropped after extraction, and the
  decorated call accepts any Collection, a str included.
 */
module ConvertableTypes {
  import opened Wrappers
  import opened PyValues
  import opened Seqs
  import opened Records

  /** is_collection on a field value: a Collection that is not a str. */
  predicate IsCollectionValue(v: Value) {
    v.VList?
  }

  predicate Supported(f: SearchField) {
    !IsCollectionValue(f.value)
  }

  /** The guard of implicit_conversion: isinstance(values, Collection); generators are not, a str is. */
  predicate IsCollection(arg: Argument) {
    arg.CollectionArg? || arg.TextArg?
  }

  /** The fields the four branches of __init__ extract, before the collection filter. */
  function ExtractedFields(obj: HostObject): Result<seq<SearchField>> {
    match obj
    case Mapping(entries) => Success(ConvertDict(entries))
    case ListObject(elements) => Success(EnumerateFields(elements))
    case Provider(p) => if p.FieldMapping? then Success(ConvertDict(p.entries)) else Failure(InvalidFieldAttributeError)
    case Instance(properties, attributes) => Success(InstanceFields(properties, attributes))
    case NoDict(_) => Failure(AttributeError)
  }

  /** The fields of the wrapper: the extracted ones without the collection-valued ones. */
  function FieldsOf(obj: HostObject): Result<seq<SearchField>> {
    match ExtractedFields(obj)
    case Success(fields) => Success(Filter(fields, Supported))
    case Failure(e) => Failure(e)
  }

  /** __init__ step by step: extend the field list in the selected branch, then reassign it to the filtered list. */
  method Adapt(obj: HostObject, id: nat) returns (r: Result<Adapted>)
    ensures FieldsOf(obj).Success? ==> r == Success(Adapted(id, FieldsOf(obj).value, obj))
    ensures FieldsOf(obj).Failure? ==> r == Failure(FieldsOf(obj).error)
  {
    var fields: seq<SearchField> := [];
    match obj {
      case Mapping(entries) =>
        fields := ConvertDict(entries);
      case ListObject(elements) =>
        fields := EnumerateFields(elements);
      case Provider(p) =>
        if !p.FieldMapping? {
          return Failure(InvalidFieldAttributeError);
        }
        fields := fields + ConvertDict(p.entries);
        assert fields == ConvertDict(p.entries);
      case Instance(properties, attributes) =>
        fields := InstanceBranch(properties, attributes);
      case NoDict(_) =>
        return Failure(AttributeError);
    }
    if exists k :: 0 <= k < |fields| && IsCollectionValue(fields[k].value) {
      fields := Filter(fields, Supported);
    } else {
      FilterKeepsAll(fields, Supported);
    }
    r := Success(Adapted(id, fields, obj));
  }

  /** A provider's fields are accepted exactly when they form a mapping. */
  lemma ProviderNeedsMapping(p: ProviderFields)
    ensures FieldsOf(Provider(p)).Success? <==> p.FieldMapping?
    ensures !p.FieldMapping? ==> FieldsOf(Provider(p)) == Failure(InvalidFieldAttributeError)
  {
  }

  /**
    The collection filter removes exactly the collection-valued fields: no
    kept field holds a collection, and every other extracted field is kept,
    in its relative order (Filter preserves order).
   */
  lemma FilterDropsExactlyCollections(obj: HostObject)
    requires ExtractedFields(obj).Success?
    ensures FieldsOf(obj).Success?
    ensures forall k :: 0 <= k < |FieldsOf(obj).value| ==> !IsCollectionValue(FieldsOf(obj).value[k].value)
    ensures forall f :: f in FieldsOf(obj).value <==> f in ExtractedFields(obj).value && !IsCollectionValue(f.value)
  {
    forall f ensures f in FieldsOf(obj).value <==> f in ExtractedFields(obj).value && !IsCollectionValue(f.value) {
      FilterMembership(ExtractedFields(obj).value, Supported, f);
    }
  }

  /** Filtering two runs of fields one after the other keeps the first run's survivors ahead of the second's. */
  lemma FilterKeepsRelativeOrder(first: seq<SearchField>, second: seq<SearchField>)
    ensures Filter(first + second, Supported) == Filter(first, Supported) + Filter(second, Supported)
  {
    FilterConcat(first, second, Supported);
  }

  /** A mapping without collection values keeps all of its fields, one per pair, in order. */
  lemma ScalarMappingKeepsAllFields(entries: seq<(Value, Value)>)
    requires forall k :: 0 <= k < |entries| ==> !IsCollectionValue(entries[k].1)
    ensures FieldsOf(Mapping(entries)) == Success(ConvertDict(entries))
  {
    FilterKeepsAll(ConvertDict(entries), Supported);
  }

  /**
    implicit_conversion's wrapper: ValueError unless the argument is a
    Collection (a str is one, a generator is not); otherwise the wrapped call.
   */
  function ImplicitConversion(arg: Argument, func: set<Adapted> -> set<Adapted>): (r: Result<seq<HostObject>>)
    ensures r == Failure(ValueError) <==> arg.IteratorArg? || arg.ScalarArg?
    ensures r.Success? ==> |r.value| <= |Elements(arg)|
  {
    if !IsCollection(arg) then Failure(ValueError)
    else ConvertWrapped(Elements(arg), FieldsOf, func)
  }

  /** A non-empty str passes the guard, but its one-character strings have no instance dictionary. */
  lemma TextArgumentFailsInAdapter(text: string, func: set<Adapted> -> set<Adapted>)
    requires text != []
    ensures ImplicitConversion(TextArg(text), func) == Failure(AttributeError)
  {
    assert Elements(TextArg(text))[0] == NoDict(VStr([text[0]]));
  }

  /** A generator is rejected by the guard although it is iterable. */
  lemma IteratorRejected(items: seq<HostObject>, func: set<Adapted> -> set<Adapted>)
    ensures ImplicitConversion(IteratorArg(items), func) == Failure(ValueError)
  {
  }
}
