/**
 * The dynamically typed values (`Any`) held in Firestore dictionaries, and the
 * conditional casts `as? Int`, `as? String` and `as? [[String: Any]]`.
 */
module Dynamic {
  import opened Wrappers

  /** A value of type `Any` as it travels to and from the document store. */
  datatype Value =
    | IntV(i: int)
    | StrV(s: string)
    | NullV
    | ListV(items: seq<Value>)
    | DictV(fields: map<string, Value>)
    | OtherV

  type Dict = map<string, Value>

  /** `dict[key] as? Int`. */
  function IntAt(d: Dict, key: string): (r: Option<int>)
    ensures r.Some? <==> key in d && d[key].IntV?
    ensures r.Some? ==> d[key] == IntV(r.value)
  {
    if key in d && d[key].IntV? then Some(d[key].i) else None
  }

  /** `dict[key] as? String`. */
  function StringAt(d: Dict, key: string): (r: Option<string>)
    ensures r.Some? <==> key in d && d[key].StrV?
    ensures r.Some? ==> d[key] == StrV(r.value)
  {
    if key in d && d[key].StrV? then Some(d[key].s) else None
  }

  /** Every element is a dictionary. */
  predicate AllDicts(items: seq<Value>) {
    forall k :: 0 <= k < |items| ==> items[k].DictV?
  }

  /** `value as? [[String: Any]]`: an array all of whose elements are dictionaries. */
  function AsDictArray(v: Value): (r: Option<seq<Dict>>)
    ensures r.Some? <==> v.ListV? && AllDicts(v.items)
    ensures r.Some? ==> |r.value| == |v.items|
    ensures r.Some? ==> forall k :: 0 <= k < |v.items| ==> v.items[k] == DictV(r.value[k])
  {
    if v.ListV? && AllDicts(v.items)
    then Some(seq(|v.items|, k requires 0 <= k < |v.items| => v.items[k].fields))
    else None
  }

  /** The optional string written with `as Any`: nil reaches the store as null. */
  function OptionalString(o: Option<string>): (v: Value)
    ensures o.None? <==> v == NullV
    ensures o.Some? <==> v == StrV(o.GetOr(""))
  {
    match o
    case Some(s) => StrV(s)
    case None => NullV
  }
}
