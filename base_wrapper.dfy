/** BaseWrapper's collection helpers: reading and writing the element an
    indexed segment such as `items[2]` or `map[key]` designates. */
module BaseWrappers {
  import opened Results
  import opened Text
  import opened Tables
  import opened Classes
  import opened PropertyTokenizers
  import opened Heaps

  /** Integer.parseInt of the segment's index. */
  function ParseIndex(index: string): (r: Result<int>)
    ensures r.Err? ==> r.error == NumberFormat(index)
  {
    match ParseInt(index)
    case Some(i) => Ok(i)
    case None => Err(NumberFormat(index))
  }

  predicate IsMap(h: Heap, v: Value) {
    v.Ref? && NodeAt(h, v.addr).MapObject?
  }

  predicate IsList(h: Heap, v: Value) {
    v.Ref? && NodeAt(h, v.addr).ListObject?
  }

  predicate IsArray(h: Heap, v: Value) {
    v.Ref? && NodeAt(h, v.addr).ArrayObject?
  }

  /** getCollectionValue: a Map is looked up with the raw index text as key;
      a List or an array is read at the parsed position; anything else
      (null included) is not a List or Array. */
  function GetCollectionValue(h: Heap, prop: PropertyTokenizer, collection: Value): (r: Result<Value>)
    requires prop.index.Some?
    ensures IsMap(h, collection) ==>
      r == Ok(NodeAt(h, collection.addr).entries.Get(prop.index.value).GetOr(Null))
    ensures !IsMap(h, collection) && ParseInt(prop.index.value).None? ==> r == Err(NumberFormat(prop.index.value))
    ensures !IsMap(h, collection) && !IsList(h, collection) && !IsArray(h, collection) && ParseInt(prop.index.value).Some? ==>
      r == Err(NotListOrArray(prop.name))
    ensures (IsList(h, collection) || IsArray(h, collection)) && ParseInt(prop.index.value).Some? ==>
      var i := ParseInt(prop.index.value).value;
      var items := NodeAt(h, collection.addr).items;
      (if 0 <= i < |items| then r == Ok(items[i]) else r == Err(IndexOutOfBounds(i, |items|)))
  {
    var key := prop.index.value;
    if IsMap(h, collection) then
      Ok(NodeAt(h, collection.addr).entries.Get(key).GetOr(Null))
    else
      var i :- ParseIndex(key);
      if IsList(h, collection) || IsArray(h, collection) then
        var items := NodeAt(h, collection.addr).items;
        if 0 <= i < |items| then Ok(items[i]) else Err(IndexOutOfBounds(i, |items|))
      else
        Err(NotListOrArray(prop.name))
  }

  /** An array store: a primitive array first unboxes the value (null and
      the wrong wrapper class fail), then checks the position; an object
      array checks the position, then the value's class. */
  function StoreIntoArray(u: Universe, h: Heap, component: ClassId, items: seq<Value>, i: int, value: Value): (r: Result<seq<Value>>)
    ensures r.Ok? ==> 0 <= i < |items| && r.value == items[i := value]
    ensures r.Ok? ==> Accepts(u, h, component, value)
  {
    if IsPrimitive(component) then
      if value.Null? then Err(NullPointer)
      else if ClassOf(h, value) != Boxed(component) then Err(ClassCast(Boxed(component), ClassOf(h, value)))
      else if 0 <= i < |items| then Ok(items[i := value])
      else Err(IndexOutOfBounds(i, |items|))
    else if !(0 <= i < |items|) then Err(IndexOutOfBounds(i, |items|))
    else if !value.Null? && !IsAssignableFrom(u, component, ClassOf(h, value)) then Err(ArrayStore(component, ClassOf(h, value)))
    else Ok(items[i := value])
  }

  /** setCollectionValue: Map.put with the raw index text as key, List.set
      (which replaces and never appends) or an array store at the parsed
      position; anything else is not a List or Array.  The new heap. */
  function SetCollectionValue(u: Universe, h: Heap, prop: PropertyTokenizer, collection: Value, value: Value): (r: Result<Heap>)
    requires prop.index.Some?
    ensures r.Ok? ==> IsMap(h, collection) || IsList(h, collection) || IsArray(h, collection)
    ensures !IsMap(h, collection) && ParseInt(prop.index.value).None? ==> r == Err(NumberFormat(prop.index.value))
    ensures !IsMap(h, collection) && !IsList(h, collection) && !IsArray(h, collection) && ParseInt(prop.index.value).Some? ==>
      r == Err(NotListOrArray(prop.name))
    ensures IsList(h, collection) && ParseInt(prop.index.value).Some? ==>
      var i := ParseInt(prop.index.value).value;
      (r.Ok? <==> 0 <= i < |NodeAt(h, collection.addr).items|)
  {
    var key := prop.index.value;
    if IsMap(h, collection) then
      var node := NodeAt(h, collection.addr);
      Ok(Update(h, collection.addr, MapObject(node.cls, node.entries.Put(key, value))))
    else
      var i :- ParseIndex(key);
      if IsList(h, collection) then
        var node := NodeAt(h, collection.addr);
        if 0 <= i < |node.items| then Ok(Update(h, collection.addr, ListObject(node.cls, node.items[i := value])))
        else Err(IndexOutOfBounds(i, |node.items|))
      else if IsArray(h, collection) then
        var node := NodeAt(h, collection.addr);
        var items :- StoreIntoArray(u, h, node.component, node.items, i, value);
        Ok(Update(h, collection.addr, ArrayObject(node.component, items)))
      else
        Err(NotListOrArray(prop.name))
  }

  /** Round trip: after a successful setCollectionValue the same segment
      reads back the stored value from the same container. */
  lemma CollectionRoundTrip(u: Universe, h: Heap, prop: PropertyTokenizer, collection: Value, value: Value)
    requires prop.index.Some? && SetCollectionValue(u, h, prop, collection, value).Ok?
    ensures GetCollectionValue(SetCollectionValue(u, h, prop, collection, value).value, prop, collection) == Ok(value)
  {
  }

  /** Nothing else changes: only the container's object is replaced, it
      keeps its kind and class, and only the designated key or position
      gets a new value. */
  lemma CollectionFrame(u: Universe, h: Heap, prop: PropertyTokenizer, collection: Value, value: Value)
    requires prop.index.Some? && SetCollectionValue(u, h, prop, collection, value).Ok?
    ensures var h' := SetCollectionValue(u, h, prop, collection, value).value;
      var before := NodeAt(h, collection.addr);
      var after := NodeAt(h', collection.addr);
      && h'.next == h.next
      && h'.nodes.Keys == h.nodes.Keys + {collection.addr}
      && (forall a :: a in h.nodes && a != collection.addr ==> h'.nodes[a] == h.nodes[a])
      && NodeClass(after) == NodeClass(before)
      && (before.MapObject? ==>
            && after.MapObject?
            && forall k :: k != prop.index.value ==> after.entries.Get(k) == before.entries.Get(k))
      && (!before.MapObject? ==>
            && after.items == before.items[ParseInt(prop.index.value).value := value]
            && 0 <= ParseInt(prop.index.value).value < |before.items|)
  {
  }
}
