/**
  search/convertable_types.py: the newer record adapter. Each element of the
  searched collection is wrapped with the fields extracted from it; the
  decorated function sees the set of wrappers, and the caller gets back the
  underlying objects of the wrappers it returns.
 */
module SearchConvertableTypes {
  import opened Wrappers
  import opened PyValues
  import opened Seqs
  import opened Records

  /** is_collection on the decorated call's argument: iterable and not a str. */
  predicate IsCollection(arg: Argument) {
    arg.CollectionArg? || arg.IteratorArg?
  }

  /** What iterating a provider's `fields` yields: the items of a list, the keys of a mapping. */
  function Iterated(p: ProviderFields): seq<FieldItem>
    requires !p.NotIterable?
  {
    match p
    case FieldList(items) => items
    case FieldMapping(entries) => seq(|entries|, k requires 0 <= k < |entries| => NotField(entries[k].0))
  }

  /** all(isinstance(f, SearchField) for f in fields). */
  predicate AllFields(items: seq<FieldItem>) {
    forall k :: 0 <= k < |items| ==> items[k].IsField?
  }

  function FieldValues(items: seq<FieldItem>): (r: seq<SearchField>)
    requires AllFields(items)
    ensures |r| == |items| && forall k :: 0 <= k < |items| ==> r[k] == items[k].field
  {
    seq(|items|, k requires 0 <= k < |items| => items[k].field)
  }

  /** The provider branch: the fields as they are, else a converted mapping, else InvalidFieldAttributeError. */
  function ProviderFieldsOf(p: ProviderFields): Result<seq<SearchField>> {
    if p.NotIterable? then Failure(TypeError)
    else if AllFields(Iterated(p)) then Success(FieldValues(Iterated(p)))
    else if p.FieldMapping? then Success(ConvertDict(p.entries))
    else Failure(InvalidFieldAttributeError)
  }

  /**
    The fields __ImplicitlyConvertedSearchDataProvider.__init__ builds for an
    object, or the exception it raises. An object without an instance
    dictionary fails when `obj.__dict__` is read.
   */
  function FieldsOf(obj: HostObject): Result<seq<SearchField>> {
    match obj
    case Mapping(entries) => Success(ConvertDict(entries))
    case ListObject(elements) => Success(EnumerateFields(elements))
    case Provider(p) => ProviderFieldsOf(p)
    case Instance(properties, attributes) => Success(InstanceFields(properties, attributes))
    case NoDict(_) => Failure(AttributeError)
  }

  /**
    __init__ step by step: start from an empty field list and extend it in the
    branch the object's kind selects.
   */
  method Adapt(obj: HostObject, id: nat) returns (r: Result<Adapted>)
    ensures FieldsOf(obj).Success? ==> r == Success(Adapted(id, FieldsOf(obj).value, obj))
    ensures FieldsOf(obj).Failure? ==> r == Failure(FieldsOf(obj).error)
  {
    var fields: seq<SearchField> := [];
    match obj {
      case Mapping(entries) =>
        fields := ConvertDict(entries);
      case ListObject(elements) =>
        fields := EnumerateFields(elements);
      case Provider(p) =>
        var provided := ProviderBranch(p);
        if provided.Failure? {
          return Failure(provided.error);
        }
        fields := fields + provided.value;
        assert fields == FieldsOf(obj).value;
      case Instance(properties, attributes) =>
        fields := InstanceBranch(properties, attributes);
      case NoDict(_) =>
        return Failure(AttributeError);
    }
    r := Success(Adapted(id, fields, obj));
  }

  /** The provider branch of __init__: the all() scan over `fields`, then extend or raise. */
  method ProviderBranch(p: ProviderFields) returns (r: Result<seq<SearchField>>)
    ensures r == ProviderFieldsOf(p)
  {
    if p.NotIterable? {
      return Failure(TypeError);
    }
    var items := Iterated(p);
    var all := true;
    var i := 0;
    while i < |items| && all
      invariant 0 <= i <= |items|
      invariant all == forall k :: 0 <= k < i ==> items[k].IsField?
    {
      all := items[i].IsField?;
      i := i + 1;
    }
    assert all == AllFields(items);
    if all {
      r := Success(FieldValues(items));
    } else if p.FieldMapping? {
      r := Success(ConvertDict(p.entries));
    } else {
      r := Failure(InvalidFieldAttributeError);
    }
  }

  /**
    A provider is accepted exactly when every item of its `fields` is a
    SearchField or `fields` is a mapping; the items are then kept as they are.
   */
  lemma ProviderAccepted(p: ProviderFields)
    ensures ProviderFieldsOf(p).Success? <==>
      p.FieldMapping? || (p.FieldList? && forall k :: 0 <= k < |p.items| ==> p.items[k].IsField?)
    ensures p.FieldList? && ProviderFieldsOf(p).Success? ==>
      |ProviderFieldsOf(p).value| == |p.items| &&
      forall k :: 0 <= k < |p.items| ==> ProviderFieldsOf(p).value[k] == p.items[k].field
    ensures p.FieldMapping? ==> ProviderFieldsOf(p) == Success(ConvertDict(p.entries))
  {
    if p.FieldMapping? {
      if |p.entries| > 0 {
        assert !Iterated(p)[0].IsField?;
      } else {
        assert FieldValues(Iterated(p)) == [] == ConvertDict(p.entries);
      }
    }
  }

  /** A list item that is not a SearchField makes the wrapper raise InvalidFieldAttributeError. */
  lemma ProviderRejectsForeignItem(items: seq<FieldItem>, k: nat)
    requires k < |items| && items[k].NotField?
    ensures FieldsOf(Provider(FieldList(items))) == Failure(InvalidFieldAttributeError)
  {
  }

  /**
    implicit_conversion's wrapper around `func`: ValueError when the argument
    is a str or not iterable; otherwise the wrapped call.
   */
  function ImplicitConversion(arg: Argument, func: set<Adapted> -> set<Adapted>): (r: Result<seq<HostObject>>)
    ensures r == Failure(ValueError) <==> arg.TextArg? || arg.ScalarArg?
    ensures r.Success? ==> |r.value| <= |Elements(arg)|
  {
    if !IsCollection(arg) then Failure(ValueError)
    else ConvertWrapped(Elements(arg), FieldsOf, func)
  }

  /** Two equal elements are wrapped apart: their wrappers differ although their contents agree. */
  lemma EqualElementsWrappedApart(arg: Argument, i: nat, j: nat)
    requires WrapAll(Elements(arg), FieldsOf, 0).Success?
    requires i < j < |Elements(arg)| && Elements(arg)[i] == Elements(arg)[j]
    ensures var ws := WrapAll(Elements(arg), FieldsOf, 0).value;
      ws[i] != ws[j] && ws[i].underlying == ws[j].underlying && ws[i].fields == ws[j].fields
  {
  }
}
