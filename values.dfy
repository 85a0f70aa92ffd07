/** JSON-like values as the Python code sees them after `json.load` or a
    MongoDB read, together with the few Python operations on them that the
    pipeline relies on: truthiness, `dict.get`, `x or y` and slicing. */
module Values {

  datatype Option<+T> = None | Some(value: T)

  datatype Result<+T, +E> = Ok(value: T) | Err(error: E)

  /** A field value of an article record. Embeddings are lists of floats,
      modelled as `Vec` of reals. */
  datatype Value =
    | Null
    | Bool(b: bool)
    | Num(x: real)
    | Str(s: string)
    | Vec(xs: seq<real>)

  /** An article record / MongoDB document: field name to value. */
  type Record = map<string, Value>

  /** Python truthiness (`if v:`, `not v`, `x or y`). */
  predicate Truthy(v: Value)
  {
    match v
    case Null => false
    case Bool(b) => b
    case Num(x) => x != 0.0
    case Str(s) => |s| > 0
    case Vec(xs) => |xs| > 0
  }

  /** `d[key] == v`, without a `KeyError`. */
  predicate FieldIs(d: Record, key: string, v: Value)
  {
    key in d && d[key] == v
  }

  /** `d.get(key, default)` */
  function Get(d: Record, key: string, default: Value): Value
  {
    if key in d then d[key] else default
  }

  /** Python's `x or y`: the first operand when it is truthy, else the second. */
  function Or(x: Value, y: Value): (r: Value)
    ensures Truthy(r) <==> Truthy(x) || Truthy(y)
    ensures Truthy(x) ==> r == x
    ensures !Truthy(x) ==> r == y
  {
    if Truthy(x) then x else y
  }

  /** Slicing `v[:n]` for `n >= 0`: defined on `str` and `list`; any other
      value raises `TypeError`, modelled as `None`. */
  function SliceTo(v: Value, n: nat): (r: Option<Value>)
    ensures r.Some? <==> v.Str? || v.Vec?
    ensures v.Str? ==> r.Some? && r.value.Str? && |r.value.s| == (if |v.s| < n then |v.s| else n)
                       && r.value.s == v.s[..|r.value.s|]
                       && (|v.s| <= n <==> r.value == v)
    ensures v.Vec? ==> r.Some? && r.value.Vec? && |r.value.xs| == (if |v.xs| < n then |v.xs| else n)
                       && r.value.xs == v.xs[..|r.value.xs|]
                       && (|v.xs| <= n <==> r.value == v)
  {
    match v
    case Str(s) => Some(Str(if |s| <= n then s else s[..n]))
    case Vec(xs) => Some(Vec(if |xs| <= n then xs else xs[..n]))
    case _ => None
  }

  /** Python's `s[:k]` on a list for any integer `k`: a negative `k` drops
      the last `-k` elements. */
  function Take<T>(s: seq<T>, k: int): (r: seq<T>)
    ensures |r| <= |s| && r == s[..|r|]
    ensures k >= 0 ==> |r| == if k < |s| then k else |s|
    ensures k < 0 ==> |r| == if |s| + k > 0 then |s| + k else 0
  {
    if k >= 0 then (if k < |s| then s[..k] else s)
    else (if |s| + k > 0 then s[..|s| + k] else [])
  }

  /** `sub` occurs in `s` starting at index `i`. */
  predicate OccursAt(s: string, sub: string, i: int)
  {
    0 <= i <= |s| - |sub| && s[i..i + |sub|] == sub
  }

  /** `sub in s` for Python strings: literal substring containment. */
  predicate Contains(s: string, sub: string)
  {
    exists i | 0 <= i <= |s| - |sub| :: OccursAt(s, sub, i)
  }

  /** The embedding field is present and is not the empty list: what the
      MongoDB filter `{"embedding": {"$exists": True, "$ne": []}}` selects. */
  predicate HasEmbedding(d: Record)
  {
    "embedding" in d && d["embedding"] != Vec([])
  }
}
