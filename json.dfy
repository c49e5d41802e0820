/** A decoded, self-describing JSON value, as `encoding/json` hands it to the scraper in
    an `any`: objects become `map[string]any`, arrays `[]any`, numbers `float64`.
    An object is kept as the sequence of its members; a decoded object has unique keys. */
module Json {
  import opened Wrappers

  datatype Value =
    | Null
    | Bool(b: bool)
    | Number(n: int)
    | Str(s: string)
    | Array(items: seq<Value>)
    | Object(fields: seq<Field>)

  datatype Field = Field(key: string, value: Value)

  predicate UniqueKeys(fields: seq<Field>)
  {
    forall i, j :: 0 <= i < j < |fields| ==> fields[i].key != fields[j].key
  }

  /** Index of the member named `key`, or `|fields|` when there is none. */
  function FindKey(fields: seq<Field>, key: string): (k: nat)
    ensures k <= |fields|
    ensures k < |fields| ==> fields[k].key == key
    ensures forall i :: 0 <= i < k ==> fields[i].key != key
  {
    if fields == [] then 0
    else if fields[0].key == key then 0
    else 1 + FindKey(fields[1..], key)
  }

  /** `m[key]` with the comma-ok form: `None` when the key is absent. */
  function Get(fields: seq<Field>, key: string): (r: Option<Value>)
    ensures r.Some? <==> exists i :: 0 <= i < |fields| && fields[i].key == key
    ensures UniqueKeys(fields) ==> forall i :: 0 <= i < |fields| && fields[i].key == key ==> r == Some(fields[i].value)
  {
    var k := FindKey(fields, key);
    if k < |fields| then Some(fields[k].value) else None
  }

  /** The scraper's `str(m[key])`: the string stored under `key`, or "" when the key is
      absent or holds anything but a string. */
  function StrAt(fields: seq<Field>, key: string): (s: string)
    ensures s != [] ==> Get(fields, key) == Some(Str(s))
    ensures Get(fields, key).Some? && Get(fields, key).value.Str? ==> s == Get(fields, key).value.s
    ensures Get(fields, key).Some? && !Get(fields, key).value.Str? ==> s == []
    ensures (forall i :: 0 <= i < |fields| ==> fields[i].key != key) ==> s == []
  {
    match Get(fields, key)
    case Some(Str(s)) => s
    case _ => []
  }

  /** `str(v)` on a value already in hand. */
  function AsString(v: Value): string
  {
    if v.Str? then v.s else []
  }

  /** With unique keys, `str(m[key])` is `str` of the value of the field named `key`. */
  lemma StrAtField(fields: seq<Field>, key: string, i: nat)
    requires UniqueKeys(fields) && i < |fields| && fields[i].key == key
    ensures StrAt(fields, key) == AsString(fields[i].value)
  {
    assert Get(fields, key) == Some(fields[i].value);
  }
}
