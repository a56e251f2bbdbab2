/** JSON values as the accounting documents hold them, and the object operations the source applies to them. */
module Json {

  datatype Option<+T> = None | Some(value: T)

  /** One own property of an object. */
  datatype Member<+V> = Member(key: string, value: V)

  /** Objects keep their members in enumeration order; numbers count ten-thousandths. */
  datatype Json =
    | Null
    | Bool(b: bool)
    | Num(n: int)
    | Str(s: string)
    | Arr(items: seq<Json>)
    | Obj(members: seq<Member<Json>>)

  /** Values that JavaScript compares by content rather than by identity. */
  predicate Scalar(v: Json) {
    !v.Arr? && !v.Obj?
  }

  predicate Truthy(v: Json) {
    match v
    case Null => false
    case Bool(b) => b
    case Num(n) => n != 0
    case Str(s) => s != ""
    case _ => true
  }

  /** The value `v || null`. */
  function OrNull(v: Json): Json {
    if Truthy(v) then v else Null
  }

  /** The comparison `a === b` between values that are not the same object. */
  predicate StrictEqual(a: Json, b: Json) {
    Scalar(a) && a == b
  }

  function Find<V>(ms: seq<Member<V>>, key: string): (r: Option<V>)
    ensures r.Some? ==> exists i :: 0 <= i < |ms| && ms[i] == Member(key, r.value)
    ensures r.None? ==> forall i :: 0 <= i < |ms| ==> ms[i].key != key
  {
    if ms == [] then None
    else if ms[0].key == key then Some(ms[0].value)
    else Find(ms[1..], key)
  }

  /** Own members; a value that is not an object has none. */
  function Members(v: Json): seq<Member<Json>> {
    if v.Obj? then v.members else []
  }

  /** The property read `v?.key`, with undefined read as null. */
  function Get(v: Json, key: string): Json {
    var r := Find(Members(v), key);
    if r.Some? then r.value else Null
  }

  function Overwrite<V>(a: seq<Member<V>>, b: seq<Member<V>>): seq<Member<V>> {
    if a == [] then []
    else
      var r := Find(b, a[0].key);
      [Member(a[0].key, if r.Some? then r.value else a[0].value)] + Overwrite(a[1..], b)
  }

  function Added<V>(a: seq<Member<V>>, b: seq<Member<V>>): seq<Member<V>> {
    if b == [] then []
    else (if Find(a, b[0].key).Some? then [] else [b[0]]) + Added(a, b[1..])
  }

  /** The object spread `{...a, ...b}`. */
  function Spread<V>(a: seq<Member<V>>, b: seq<Member<V>>): seq<Member<V>> {
    Overwrite(a, b) + Added(a, b)
  }

  lemma {:induction false} FindConcat<V>(a: seq<Member<V>>, b: seq<Member<V>>, key: string)
    ensures Find(a + b, key) == if Find(a, key).Some? then Find(a, key) else Find(b, key)
  {
    if a == [] {
      assert a + b == b;
    } else {
      assert (a + b)[1..] == a[1..] + b;
      FindConcat(a[1..], b, key);
    }
  }

  lemma {:induction false} FindOverwrite<V>(a: seq<Member<V>>, b: seq<Member<V>>, key: string)
    ensures Find(Overwrite(a, b), key)
         == if Find(a, key).Some? && Find(b, key).Some? then Find(b, key) else Find(a, key)
  {
    if a != [] {
      FindOverwrite(a[1..], b, key);
    }
  }

  lemma {:induction false} FindAdded<V>(a: seq<Member<V>>, b: seq<Member<V>>, key: string)
    ensures Find(Added(a, b), key) == if Find(a, key).Some? then None else Find(b, key)
  {
    if b != [] {
      FindAdded(a, b[1..], key);
      FindConcat(if Find(a, b[0].key).Some? then [] else [b[0]], Added(a, b[1..]), key);
    }
  }

  /** Spreading is lookup in the right operand first. */
  lemma SpreadFind<V>(a: seq<Member<V>>, b: seq<Member<V>>, key: string)
    ensures Find(Spread(a, b), key) == if Find(b, key).Some? then Find(b, key) else Find(a, key)
  {
    FindConcat(Overwrite(a, b), Added(a, b), key);
    FindOverwrite(a, b, key);
    FindAdded(a, b, key);
  }
}
