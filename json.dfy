/**
 * The JSON-like values the converter builds and prints: Python's `None`,
 * booleans, integers, strings, lists and insertion-ordered dicts.
 */
module Json {
  import opened Common
  import OrderedDict

  datatype Value =
    | Null
    | Bool(b: bool)
    | Int(i: int)
    | Str(s: string)
    | Arr(items: seq<Value>)
    | Obj(entries: seq<(string, Value)>)

  /** Every dict inside `v`, at any depth, has distinct keys (as a Python dict always has). */
  predicate WellFormed(v: Value)
    decreases v
  {
    match v
    case Obj(es) =>
      && OrderedDict.DistinctKeys(es)
      && forall i :: 0 <= i < |es| ==> WellFormed(es[i].1)
    case Arr(xs) => forall i :: 0 <= i < |xs| ==> WellFormed(xs[i])
    case _ => true
  }

  /** `type(v).__name__` for the values above. */
  function TypeName(v: Value): string {
    match v
    case Null => "NoneType"
    case Bool(_) => "bool"
    case Int(_) => "int"
    case Str(_) => "str"
    case Arr(_) => "list"
    case Obj(_) => "dict"
  }

  /**
   * `target[ks[0]][ks[1]]...`: the value reached by following the keys
   * through dicts, or nothing when a key is missing or a non-dict is indexed.
   */
  function Lookup(v: Value, ks: seq<string>): Option<Value>
    decreases |ks|
  {
    if |ks| == 0 then Some(v)
    else if !v.Obj? then None
    else
      match OrderedDict.Get(v.entries, ks[0])
      case None => None
      case Some(c) => Lookup(c, ks[1..])
  }
}
