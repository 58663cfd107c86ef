/** Optional values and the JSON values the gateway's configuration is made of. */
module Values {

  datatype Option<+T> = None | Some(value: T) {
    function GetOr(default: T): T {
      match this
      case None => default
      case Some(v) => v
    }
  }

  type Block = map<string, Json>

  datatype Json =
    | Null
    | Bool(b: bool)
    | Num(n: real)
    | Str(s: string)
    | Arr(items: seq<Json>)
    | Obj(fields: Block)

  /** Property read. A missing property and a null one are both read as Null:
      the scripts only ever test what they read for truth or compare it with a string. */
  function Get(j: Json, key: string): Json {
    if j.Obj? && key in j.fields then j.fields[key] else Null
  }

  /** JavaScript truthiness. */
  predicate Truthy(j: Json) {
    match j
    case Null => false
    case Bool(b) => b
    case Num(n) => n != 0.0
    case Str(s) => s != ""
    case Arr(_) => true
    case Obj(_) => true
  }

  /** Four values are falsy; NaN is no value here. */
  lemma TruthyIs(j: Json)
    ensures Truthy(j) <==> j != Null && j != Bool(false) && j != Num(0.0) && j != Str("")
  {
  }

  /** `m` without those of `keys` that hold a truthy value (a guarded JavaScript `delete`). */
  function DropTruthy(m: Block, keys: set<string>): Block {
    map k | k in m && !(k in keys && Truthy(m[k])) :: m[k]
  }

  lemma {:induction false} SubsetSize(a: set<string>, b: set<string>)
    requires a <= b
    ensures |a| <= |b| && (a != b ==> |a| < |b|)
  {
    if a != {} {
      var x :| x in a;
      SubsetSize(a - {x}, b - {x});
      if a != b { assert a - {x} != b - {x} by { assert (a - {x}) + {x} == a && (b - {x}) + {x} == b; } }
    }
  }
}
