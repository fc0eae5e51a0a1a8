/** Parsed documents and the objects that the codecs build. An object lists its keys in insertion order. */
module Json {
  import opened Sequences

  datatype Json =
    | Undefined
    | Null
    | Bool(flag: bool)
    | Num(number: real)
    | Str(text: string)
    | Arr(items: seq<Json>)
    | Obj(fields: seq<Field>)

  datatype Field = Field(key: string, value: Json)

  /** `v == null` of the original. */
  predicate Nullish(v: Json) { v.Undefined? || v.Null? }

  function Get(fields: seq<Field>, key: string): Json {
    if fields == [] then Undefined else if fields[0].key == key then fields[0].value else Get(fields[1..], key)
  }

  /** Property access on any value that is not nullish; only objects have the keys that the codecs read. */
  function Member(v: Json, key: string): Json { if v.Obj? then Get(v.fields, key) else Undefined }

  /** The elements of a list; what is no list has none. */
  function Items(v: Json): seq<Json> { if v.Arr? then v.items else [] }

  function Keys(fields: seq<Field>): seq<string> {
    if fields == [] then [] else [fields[0].key] + Keys(fields[1..])
  }

  /** `fields[key] = value`: an existing key keeps its place. */
  function Put(fields: seq<Field>, key: string, value: Json): seq<Field> {
    if fields == [] then [Field(key, value)]
    else if fields[0].key == key then [Field(key, value)] + fields[1..]
    else [fields[0]] + Put(fields[1..], key, value)
  }

  /** `delete fields[key]`. */
  function Without(fields: seq<Field>, key: string): seq<Field> {
    if fields == [] then [] else (if fields[0].key == key then [] else [fields[0]]) + Without(fields[1..], key)
  }

  /** An object literal whose entries are computed from the key. */
  function Record(keys: seq<string>, f: string -> Json): seq<Field> {
    if keys == [] then [] else [Field(keys[0], f(keys[0]))] + Record(keys[1..], f)
  }

  /** The keys of an object, at every depth, are distinct. */
  predicate WellFormed(v: Json) {
    match v
    case Arr(items) => forall i | 0 <= i < |items| :: WellFormed(items[i])
    case Obj(fields) => Distinct(fields) && forall i | 0 <= i < |fields| :: WellFormed(fields[i].value)
    case _ => true
  }

  predicate Distinct(fields: seq<Field>) { forall i, j | 0 <= i < j < |fields| :: fields[i].key != fields[j].key }

  lemma {:induction false} GetPut(fields: seq<Field>, key: string, value: Json, k: string)
    ensures Get(Put(fields, key, value), k) == if k == key then value else Get(fields, k)
  {
    if fields != [] && fields[0].key != key { GetPut(fields[1..], key, value, k); }
  }

  lemma {:induction false} GetWithout(fields: seq<Field>, key: string, k: string)
    ensures Get(Without(fields, key), k) == if k == key then Undefined else Get(fields, k)
  {
    if fields != [] {
      GetWithout(fields[1..], key, k);
      if fields[0].key == key { assert Without(fields, key) == Without(fields[1..], key); }
      else { assert Without(fields, key)[1..] == Without(fields[1..], key); }
    }
  }

  lemma {:induction false} GetAppend(a: seq<Field>, b: seq<Field>, k: string)
    ensures Get(a + b, k) == if exists i :: 0 <= i < |a| && a[i].key == k then Get(a, k) else Get(b, k)
  {
    if a == [] {
      assert a + b == b;
    } else {
      assert (a + b)[1..] == a[1..] + b;
      GetAppend(a[1..], b, k);
      assert forall i | 0 <= i < |a[1..]| :: a[1..][i] == a[i + 1];
      assert forall i | 0 < i < |a| :: a[i] == a[1..][i - 1];
    }
  }

  /** A key that is written for the first time goes to the end. */
  lemma {:induction false} PutNew(fields: seq<Field>, key: string, value: Json)
    requires forall i | 0 <= i < |fields| :: fields[i].key != key
    ensures Put(fields, key, value) == fields + [Field(key, value)]
  {
    if fields != [] {
      assert forall i | 0 <= i < |fields[1..]| :: fields[1..][i] == fields[i + 1];
      PutNew(fields[1..], key, value);
    }
  }

  lemma {:induction false} GetAt(fields: seq<Field>, i: nat)
    requires Distinct(fields) && i < |fields|
    ensures Get(fields, fields[i].key) == fields[i].value
  {
    if i > 0 {
      assert forall j | 0 <= j < |fields[1..]| :: fields[1..][j] == fields[j + 1];
      GetAt(fields[1..], i - 1);
    }
  }

  lemma {:induction false} NoSuchKey(fields: seq<Field>, k: string)
    requires forall i | 0 <= i < |fields| :: fields[i].key != k
    ensures Get(fields, k) == Undefined
  {
    if fields != [] {
      assert forall i | 0 <= i < |fields[1..]| :: fields[1..][i] == fields[i + 1];
      NoSuchKey(fields[1..], k);
    }
  }
}
