/** JSON values as the Python side (`json.loads`, `dict`) and the browser side
    (`JSON.parse`, plain objects) hold them. An object keeps its members in insertion
    order, as a Python `dict` and a JavaScript object with non-numeric keys do. */
module Json {
  import opened Wrappers

  /** A parsed JSON value. Numbers are integers only: a JSON number with a fraction or
      an exponent is not represented. */
  datatype Json =
    | JNull
    | JBool(b: bool)
    | JInt(i: int)
    | JStr(s: string)
    | JArr(items: seq<Json>)
    | JObj(fields: seq<Field>)

  type Field = (string, Json)

  /** The member names of an object, in order. */
  function Keys(fields: seq<Field>): (ks: seq<string>)
    ensures |ks| == |fields|
    ensures forall i :: 0 <= i < |fields| ==> ks[i] == fields[i].0
  {
    if fields == [] then [] else [fields[0].0] + Keys(fields[1..])
  }

  /** A well-formed dictionary: no member name occurs twice. */
  predicate DistinctKeys(fields: seq<Field>) {
    forall i, j :: 0 <= i < j < |fields| ==> fields[i].0 != fields[j].0
  }

  /** `d.get(k)` / `d[k]`: the value stored under `k`, if any. */
  function Get(fields: seq<Field>, k: string): Option<Json> {
    if fields == [] then None
    else if fields[0].0 == k then Some(fields[0].1)
    else Get(fields[1..], k)
  }

  /** A name has a value exactly when it is a member name, and the value found is the
      one stored with the first member of that name. */
  lemma {:induction false} GetSpec(fields: seq<Field>, k: string)
    ensures Get(fields, k).Some? <==> k in Keys(fields)
    ensures Get(fields, k).Some? ==>
              exists i :: 0 <= i < |fields| && fields[i] == (k, Get(fields, k).value)
                          && (forall j :: 0 <= j < i ==> fields[j].0 != k)
  {
    if fields != [] {
      GetSpec(fields[1..], k);
      assert Keys(fields) == [fields[0].0] + Keys(fields[1..]);
      if fields[0].0 != k && Get(fields, k).Some? {
        var i :| 0 <= i < |fields[1..]| && fields[1..][i] == (k, Get(fields, k).value)
          && (forall j :: 0 <= j < i ==> fields[1..][j].0 != k);
        assert fields[i + 1] == (k, Get(fields, k).value);
      }
    }
  }

  /** Looking a name up in a dictionary of two or three members. */
  lemma GetTwo(a: Field, b: Field, k: string)
    ensures Get([a, b], k) == if a.0 == k then Some(a.1) else if b.0 == k then Some(b.1) else None
  {
    assert [a, b][1..] == [b];
    assert [b][1..] == [];
    assert Get([b], k) == if b.0 == k then Some(b.1) else Get([], k);
  }

  lemma GetThree(a: Field, b: Field, c: Field, k: string)
    ensures Get([a, b, c], k) == if a.0 == k then Some(a.1) else Get([b, c], k)
  {
    assert [a, b, c][1..] == [b, c];
  }

  /** `d[k] = v`: overwrite the value of an existing member in place, or append a new one. */
  function Put(fields: seq<Field>, k: string, v: Json): seq<Field> {
    if fields == [] then [(k, v)]
    else if fields[0].0 == k then [(k, v)] + fields[1..]
    else [fields[0]] + Put(fields[1..], k, v)
  }

  /** `d.update(n)`: store every member of `n`, in order, into `d`. */
  function Update(d: seq<Field>, n: seq<Field>): seq<Field>
    decreases |n|
  {
    if n == [] then d else Update(Put(d, n[0].0, n[0].1), n[1..])
  }

  /** Storing a member sets it and leaves every other member's value alone. */
  lemma {:induction false} PutGet(fields: seq<Field>, k: string, v: Json)
    ensures Get(Put(fields, k, v), k) == Some(v)
    ensures forall k' :: k' != k ==> Get(Put(fields, k, v), k') == Get(fields, k')
  {
    if fields != [] && fields[0].0 != k {
      PutGet(fields[1..], k, v);
    } else if fields != [] {
      assert Put(fields, k, v)[1..] == fields[1..];
    }
  }

  /** Storing a member keeps the existing names in their positions, and a new name goes
      at the end. */
  lemma {:induction false} PutKeys(fields: seq<Field>, k: string, v: Json)
    ensures Keys(Put(fields, k, v)) == if k in Keys(fields) then Keys(fields) else Keys(fields) + [k]
  {
    if fields != [] {
      assert Keys(fields) == [fields[0].0] + Keys(fields[1..]);
      if fields[0].0 != k {
        PutKeys(fields[1..], k, v);
        assert Keys(Put(fields, k, v)) == [fields[0].0] + Keys(Put(fields[1..], k, v));
      } else {
        assert Keys(Put(fields, k, v)) == [k] + Keys(fields[1..]);
      }
    }
  }

  /** Storing a member into a dictionary leaves a dictionary. */
  lemma PutDistinct(fields: seq<Field>, k: string, v: Json)
    requires DistinctKeys(fields)
    ensures DistinctKeys(Put(fields, k, v))
  {
    var r := Put(fields, k, v);
    PutKeys(fields, k, v);
    var ks, rs := Keys(fields), Keys(r);
    forall i, j | 0 <= i < j < |r| ensures r[i].0 != r[j].0 {
      assert r[i].0 == rs[i] && r[j].0 == rs[j];
      if j < |ks| {
        assert rs[i] == ks[i] == fields[i].0 && rs[j] == ks[j] == fields[j].0;
      } else {
        assert rs[j] == k && rs[i] == ks[i];
      }
    }
  }

  /** After `d.update(n)` for a dictionary `n`, every member of `n` has `n`'s value and
      every other member of `d` keeps its value. */
  lemma {:induction false} UpdateGet(d: seq<Field>, n: seq<Field>, k: string)
    requires DistinctKeys(n)
    ensures Get(Update(d, n), k) == if k in Keys(n) then Get(n, k) else Get(d, k)
    decreases |n|
  {
    if n != [] {
      PutGet(d, n[0].0, n[0].1);
      assert DistinctKeys(n[1..]);
      UpdateGet(Put(d, n[0].0, n[0].1), n[1..], k);
      assert Keys(n) == [n[0].0] + Keys(n[1..]);
      assert n[0].0 !in Keys(n[1..]) by {
        forall j | 0 <= j < |n[1..]| ensures Keys(n[1..])[j] != n[0].0 {
          assert n[j + 1].0 != n[0].0;
        }
      }
    }
  }

  /** `d.update(n)` keeps the members of `d` in their order at the front, and leaves a
      dictionary when `d` is one. */
  lemma {:induction false} UpdateKeys(d: seq<Field>, n: seq<Field>)
    ensures Keys(d) <= Keys(Update(d, n))
    ensures DistinctKeys(d) ==> DistinctKeys(Update(d, n))
    decreases |n|
  {
    if n != [] {
      var d' := Put(d, n[0].0, n[0].1);
      PutKeys(d, n[0].0, n[0].1);
      if DistinctKeys(d) {
        PutDistinct(d, n[0].0, n[0].1);
      }
      UpdateKeys(d', n[1..]);
    }
  }

  /** Python truthiness of a JSON value: `None`, `False`, `0`, `""`, `[]` and `{}` are false. */
  predicate Truthy(j: Json) {
    match j
    case JNull => false
    case JBool(b) => b
    case JInt(i) => i != 0
    case JStr(s) => s != []
    case JArr(xs) => xs != []
    case JObj(fs) => fs != []
  }

  /** `isinstance(j, int)`: Python's `bool` is a subclass of `int`, so JSON `true` and
      `false` are integers too. */
  predicate IsPyInt(j: Json) {
    j.JInt? || j.JBool?
  }

  /** The integer value of a value that `IsPyInt` accepts: `True` is 1 and `False` is 0. */
  function PyIntValue(j: Json): int
    requires IsPyInt(j)
  {
    if j.JBool? then (if j.b then 1 else 0) else j.i
  }

  /** Python's name for the type of a parsed JSON value, as error messages print it. */
  function PyTypeName(j: Json): string {
    match j
    case JNull => "NoneType"
    case JBool(_) => "bool"
    case JInt(_) => "int"
    case JStr(_) => "str"
    case JArr(_) => "list"
    case JObj(_) => "dict"
  }
}
