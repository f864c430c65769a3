/** The string-keyed hash maps the reflection code fills.  Their iteration order
    is taken to be the order in which keys were first inserted, which makes the
    key arrays and every map built by iterating another one deterministic. */
module Tables {
  import opened Results

  datatype Table<V> = Table(keys: seq<string>, values: map<string, V>)
  {
    /** The keys, each once, are exactly the mapped ones. */
    ghost predicate Valid() {
      && (forall i, j :: 0 <= i < j < |keys| ==> keys[i] != keys[j])
      && (forall k :: k in values <==> k in keys)
    }

    /** Map.put: a new key goes to the end of the iteration order; an existing
        key keeps its place and gets the new value. */
    function Put(k: string, v: V): (t: Table<V>)
      ensures t.values == values[k := v]
      ensures k in values ==> t.keys == keys
      ensures k !in values ==> t.keys == keys + [k]
      ensures Valid() ==> t.Valid()
    {
      if k in values then Table(keys, values[k := v]) else Table(keys + [k], values[k := v])
    }

    /** Map.get, with None for Java's null. */
    function Get(k: string): Option<V> {
      if k in values then Some(values[k]) else None
    }

    /** The values in iteration order (Map.values()). */
    function Values(): (r: seq<V>)
      requires Valid()
      ensures |r| == |keys|
      ensures forall i :: 0 <= i < |keys| ==> r[i] == values[keys[i]]
    {
      seq(|keys|, i requires 0 <= i < |keys| => values[keys[i]])
    }
  }

  function Empty<V>(): (t: Table<V>)
    ensures t.Valid() && t.keys == [] && t.values == map[]
  {
    Table([], map[])
  }

}
