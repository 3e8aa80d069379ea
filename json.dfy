/**
  Parsed JSON values as `flatten` and `unflattenToObject` see them. An object
  keeps its properties in `Object.keys` order; an array is an object whose
  property names are its indices.
*/
module JsonValue {
  import opened Wrappers
  import opened Assoc
  import opened Paths

  datatype Json =
    | Null
    | Bool(b: bool)
    | Num(text: string)   // a number, carried as the text `String(n)` gives it
    | Str(s: string)
    | Obj(fields: seq<(string, Json)>)

  /** `val == null ? '' : String(val)` for a value that is not an object. */
  function Scalar(v: Json): (r: string)
    requires !v.Obj?
    ensures v.Null? ==> r == ""
    ensures v.Str? ==> r == v.s
  {
    match v
    case Null => ""
    case Bool(b) => if b then "true" else "false"
    case Num(t) => t
    case Str(s) => s
  }

  /**
    Every object in `j` has distinct property names. A value `JSON.parse`
    returns always has this shape (of repeated names it keeps the last);
    the `Obj` constructor alone does not ensure it.
  */
  predicate Parsed(j: Json)
  {
    j.Obj? ==>
      && DistinctKeys(j.fields)
      && forall i :: 0 <= i < |j.fields| ==> Parsed(j.fields[i].1)
  }

  /** The value reached by following the property names `q` from `j`. */
  function Get(j: Json, q: seq<string>): Option<Json>
    decreases |q|
  {
    if q == [] then Some(j)
    else if !j.Obj? then None
    else match Lookup(j.fields, q[0])
      case None => None
      case Some(c) => Get(c, q[1..])
  }

  /** The flat value a leaf stands for; objects and absent positions give none. */
  function LeafText(o: Option<Json>): Option<string>
  {
    if o.Some? && !o.value.Obj? then Some(Scalar(o.value)) else None
  }

  /**
    Every object in `j` has distinct property names, each a non-empty name
    without a dot: the shape `unflattenToObject` builds.
  */
  predicate Canonical(j: Json)
  {
    j.Obj? ==>
      && DistinctKeys(j.fields)
      && forall i :: 0 <= i < |j.fields| ==>
           j.fields[i].0 != "" && DotFree(j.fields[i].0) && Canonical(j.fields[i].1)
  }
}
