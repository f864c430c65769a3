/** MetaObject and its wrappers, write side: setValue walks the path like
    getValue, instantiating a missing intermediate object, and the wrappers
    store into a map, a bean or an indexed collection.  Every function
    returns the heap after the write; a failed write keeps what was already
    written before the failure, as the Java code does. */
module MetaObjectWrites {
  import opened Results
  import opened Tables
  import opened Classes
  import opened PropertyTokenizers
  import opened Heaps
  import opened BaseWrappers
  import OF = ObjectFactories
  import opened MetaObjects
  import MC = MetaClasses
  import CD = ClassDescriptors

  /** The result of setValue: the exception it ends with, if any, and the heap. */
  datatype Outcome = Outcome(failure: Option<Error>, heap: Heap)

  /** MetaObject.setValue: a malformed path, or a wrapper other than a map
      or bean wrapper, fails and leaves the heap as it was; so does a failed
      one-segment write. */
  function SetValue(env: Env, h: Heap, mo: MetaObject, name: string, value: Value): (r: Outcome)
    ensures Tokenize(name).Err? ==> r == Outcome(Some(Tokenize(name).error), h)
    ensures Kind(mo) !in {MapWrapper, BeanWrapper} ==> r.failure.Some? && r.heap == h
    ensures Tokenize(name).Ok? && !Tokenize(name).value.HasNext() && r.failure.Some? ==> r.heap == h
    decreases |name|
  {
    match Tokenize(name)
    case Err(e) => Outcome(Some(e), h)
    case Ok(prop) =>
      if !prop.HasNext() then
        match WrapperSet(env, h, mo, prop, value)
        case Err(e) => Outcome(Some(e), h)
        case Ok(h1) => Outcome(None, h1)
      else
        match MetaObjectForProperty(env, h, mo, prop.indexedName)
        case Err(e) => Outcome(Some(e), h)
        case Ok(metaValue) =>
          if metaValue.Meta? then SetValue(env, h, metaValue, prop.children.value, value)
          else if value.Null? then Outcome(None, h)
          else
            var (created, h1) := InstantiatePropertyValue(env, h, mo, name, prop);
            match created
            case Err(e) => Outcome(Some(e), h1)
            case Ok(child) => SetValue(env, h1, child, prop.children.value, value)
  }

  /** ObjectWrapper.set for one segment. */
  function WrapperSet(env: Env, h: Heap, mo: MetaObject, prop: PropertyTokenizer, value: Value): (r: Result<Heap>)
    ensures Kind(mo) in {OwnWrapper, CustomWrapper} ==> r == Err(ForeignWrapper)
    ensures Kind(mo) == CollectionWrapper ==> r == Err(Unsupported)
    ensures Kind(mo) == MapWrapper && prop.index.None? ==> r.Ok?
    ensures Kind(mo) == BeanWrapper && prop.index.None? && r.Ok? ==> ClassMeta(env, h, mo).Reflector().HasSetter(prop.name)
    ensures r.Ok? ==> r.value.next == h.next
  {
    match Kind(mo)
    case OwnWrapper => Err(ForeignWrapper)
    case CustomWrapper => Err(ForeignWrapper)
    case CollectionWrapper => Err(Unsupported)
    case MapWrapper =>
      if prop.index.Some? then
        var collection :- ResolveCollection(env, h, mo, prop);
        SetCollectionValue(env.universe, h, prop, collection, value)
      else
        Ok(MapPut(h, Wrapped(mo), prop.name, value))
    case BeanWrapper =>
      if prop.index.Some? then
        var collection :- ResolveCollection(env, h, mo, prop);
        SetCollectionValue(env.universe, h, prop, collection, value)
      else
        SetBeanProperty(env, h, mo, prop.name, value)
  }

  /** Map.put on the map object `target` (the map wrapper's own map). */
  function MapPut(h: Heap, target: Value, key: string, value: Value): (r: Heap)
    ensures IsMap(h, target) ==> r == Update(h, target.addr, NodeAt(h, target.addr).(entries := NodeAt(h, target.addr).entries.Put(key, value)))
    ensures !IsMap(h, target) ==> r == h
  {
    if IsMap(h, target) then
      var n := NodeAt(h, target.addr);
      Update(h, target.addr, n.(entries := n.entries.Put(key, value)))
    else h
  }

  /** The declared type a setter or field assignment checks its argument against. */
  function SetterParamType(env: Env, h: Heap, mo: MetaObject, name: string): ClassId {
    ClassMeta(env, h, mo).Reflector().accessors.setTypes.Get(name).GetOr(OBJECT)
  }

  /** BeanWrapper.setBeanProperty: the setter invoker stores the value in the
      property's slot.  Every failure, a missing or ambiguous setter or an
      argument of the wrong type, is reported as "Could not set property". */
  function SetBeanProperty(env: Env, h: Heap, mo: MetaObject, name: string, value: Value): (r: Result<Heap>)
    ensures var owner := ClassOf(h, Wrapped(mo));
      r.Err? ==> r.error.CouldNotSetProperty? && r.error.property == name && r.error.owner == owner
  {
    var owner := ClassOf(h, Wrapped(mo));
    match ClassMeta(env, h, mo).GetSetInvoker(name)
    case Err(e) => Err(CouldNotSetProperty(name, owner, e))
    case Ok(invoker) =>
      if invoker.AmbiguousMethodInvoker? then Err(CouldNotSetProperty(name, owner, invoker.error))
      else
        var t := SetterParamType(env, h, mo, name);
        if !Accepts(env.universe, h, t, value) then Err(CouldNotSetProperty(name, owner, IllegalArgument(t)))
        else Ok(StoreSlot(h, Wrapped(mo), name, value))
  }

  /** The write a setter performs: the bean's slot for the property, for
      method and field setters alike, so a static field is kept per object; an
      object that is not a bean on the heap keeps no state. */
  function StoreSlot(h: Heap, target: Value, name: string, value: Value): (r: Heap)
    ensures target.Ref? && NodeAt(h, target.addr).Bean? ==>
      r == Update(h, target.addr, NodeAt(h, target.addr).(props := NodeAt(h, target.addr).props[name := value]))
    ensures !(target.Ref? && NodeAt(h, target.addr).Bean?) ==> r == h
  {
    if target.Ref? && NodeAt(h, target.addr).Bean? then
      var n := NodeAt(h, target.addr);
      Update(h, target.addr, n.(props := n.props[name := value]))
    else h
  }

  /** ObjectWrapper.instantiatePropertyValue: MapWrapper puts a new HashMap
      under the segment; BeanWrapper creates an instance of the property's
      setter type with the object factory and sets it, reporting a failure
      of either step as "Cannot set value of property". */
  function InstantiatePropertyValue(env: Env, h: Heap, mo: MetaObject, name: string, prop: PropertyTokenizer): (r: (Result<MetaObject>, Heap))
    ensures Kind(mo) !in {MapWrapper, BeanWrapper} ==> r.0.Err? && r.1 == h
    ensures Kind(mo) == MapWrapper ==> r.1.next == h.next + 1
    ensures Kind(mo) == BeanWrapper && GetSetterType(env, h, mo, prop.name).Err? ==>
      r == (Err(GetSetterType(env, h, mo, prop.name).error), h)
  {
    match Kind(mo)
    case OwnWrapper => (Err(ForeignWrapper), h)
    case CustomWrapper => (Err(ForeignWrapper), h)
    case CollectionWrapper => (Err(Unsupported), h)
    case MapWrapper =>
      var (h1, a) := Alloc(h, MapObject(HASH_MAP, Tables.Empty()));
      var child := Ref(a);
      (match WrapperSet(env, h1, mo, prop, child)
       case Err(e) => (Err(e), h1)
       case Ok(h2) => (Ok(ForObject(env, h2, child)), h2))
    case BeanWrapper =>
      match GetSetterType(env, h, mo, prop.name)
      case Err(e) => (Err(e), h)
      case Ok(t) =>
        match OF.CreateDefault(env.universe, h, t)
        case Err(e) => (Err(CannotInstantiateProperty(name, t, e)), h)
        case Ok((h1, child)) =>
          var metaValue := ForObject(env, h1, child);
          match WrapperSet(env, h1, mo, prop, child)
          case Err(e) => (Err(CannotInstantiateProperty(name, t, e)), h1)
          case Ok(h2) => (Ok(metaValue), h2)
  }

  /** A path segment without a '.' or a '['. */
  predicate Simple(name: string) {
    '.' !in name && '[' !in name
  }

  lemma SimpleTokenize(name: string)
    requires Simple(name)
    ensures Tokenize(name) == Ok(PropertyTokenizer(name, name, None, None))
  {
  }

  /** setValue on a one-segment path is the wrapper's set. */
  lemma SetSimple(env: Env, h: Heap, mo: MetaObject, name: string, value: Value)
    requires Simple(name)
    ensures var w := WrapperSet(env, h, mo, PropertyTokenizer(name, name, None, None), value);
      SetValue(env, h, mo, name, value) == if w.Ok? then Outcome(None, w.value) else Outcome(Some(w.error), h)
  {
    SimpleTokenize(name);
  }

  /** getValue on a one-segment path is the wrapper's get. */
  lemma GetSimple(env: Env, h: Heap, mo: MetaObject, name: string)
    requires Simple(name)
    ensures GetValue(env, h, mo, name) == WrapperGet(env, h, mo, PropertyTokenizer(name, name, None, None))
  {
    SimpleTokenize(name);
  }

  /** Setting a plain key on a map wrapper stores it, changes no other
      object, and getValue then reads the value back. */
  lemma MapSetGetRoundTrip(env: Env, h: Heap, target: Value, key: string, value: Value)
    requires WrapperFor(env, h, target) == MapWrapper && !target.Null?
    requires Simple(key)
    ensures var mo := ForObject(env, h, target);
      var o := SetValue(env, h, mo, key, value);
      && o.failure.None?
      && o.heap.next == h.next
      && (forall a :: a != target.addr ==> NodeAt(o.heap, a) == NodeAt(h, a))
      && ClassOf(o.heap, target) == ClassOf(h, target)
      && GetValue(env, o.heap, mo, key) == Ok(value)
  {
    SimpleTokenize(key);
  }

  /** The accessor tables of the bean class a value belongs to. */
  function AccessorsOf(env: Env, h: Heap, target: Value): CD.Accessors {
    env.reflectors(ClassOf(h, target)).accessors
  }

  /** Setting a plain property of a bean through an unambiguous setter that
      accepts the value stores it in that bean only, and an unambiguous getter
      of the same property then returns it. */
  lemma BeanSetGetRoundTrip(env: Env, h: Heap, target: Value, name: string, value: Value)
    requires WrapperFor(env, h, target) == BeanWrapper && target.Ref? && NodeAt(h, target.addr).Bean?
    requires Simple(name)
    requires var acc := AccessorsOf(env, h, target);
      && name in acc.setMethods.values && !acc.setMethods.values[name].AmbiguousMethodInvoker?
      && name in acc.getMethods.values && !acc.getMethods.values[name].AmbiguousMethodInvoker?
      && Accepts(env.universe, h, acc.setTypes.Get(name).GetOr(OBJECT), value)
    ensures var mo := ForObject(env, h, target);
      var o := SetValue(env, h, mo, name, value);
      && o.failure.None?
      && o.heap.next == h.next
      && (forall a :: a != target.addr ==> NodeAt(o.heap, a) == NodeAt(h, a))
      && ClassOf(o.heap, target) == ClassOf(h, target)
      && GetValue(env, o.heap, mo, name) == Ok(value)
  {
    var mo := ForObject(env, h, target);
    var h1 := StoreSlot(h, target, name, value);
    BeanSetStores(env, h, mo, name, value);
    assert ClassMeta(env, h1, mo) == ClassMeta(env, h, mo);
    BeanGetReads(env, h1, mo, name);
    GetSimple(env, h1, mo, name);
  }

  /** An accepted write through an unambiguous setter is the slot store. */
  lemma BeanSetStores(env: Env, h: Heap, mo: MetaObject, name: string, value: Value)
    requires Kind(mo) == BeanWrapper && Simple(name)
    requires var acc := ClassMeta(env, h, mo).Reflector().accessors;
      && name in acc.setMethods.values && !acc.setMethods.values[name].AmbiguousMethodInvoker?
      && Accepts(env.universe, h, acc.setTypes.Get(name).GetOr(OBJECT), value)
    ensures SetValue(env, h, mo, name, value) == Outcome(None, StoreSlot(h, Wrapped(mo), name, value))
  {
    var invoker := ClassMeta(env, h, mo).GetSetInvoker(name);
    assert invoker.Ok? && !invoker.value.AmbiguousMethodInvoker?;
    assert SetBeanProperty(env, h, mo, name, value) == Ok(StoreSlot(h, Wrapped(mo), name, value));
    SetSimple(env, h, mo, name, value);
  }

  /** A bean read through an unambiguous getter is the property's slot. */
  lemma BeanGetReads(env: Env, h: Heap, mo: MetaObject, name: string)
    requires Kind(mo) == BeanWrapper
    requires var getters := ClassMeta(env, h, mo).Reflector().accessors.getMethods.values;
      name in getters && !getters[name].AmbiguousMethodInvoker?
    ensures WrapperGet(env, h, mo, PropertyTokenizer(name, name, None, None)) == Ok(Slot(BeanProps(h, Wrapped(mo)), name))
  {
  }

  /** Without a setter the write fails with "Could not set property" around
      the missing-setter error and changes nothing. */
  lemma BeanSetWithoutSetter(env: Env, h: Heap, target: Value, name: string, value: Value)
    requires WrapperFor(env, h, target) == BeanWrapper && !target.Null?
    requires Simple(name)
    requires name !in AccessorsOf(env, h, target).setMethods.values
    ensures var owner := ClassOf(h, target);
      SetValue(env, h, ForObject(env, h, target), name, value)
        == Outcome(Some(CouldNotSetProperty(name, owner, NoSetter(name, owner))), h)
  {
    SimpleTokenize(name);
  }

  /** Reading below a null intermediate gives null, whatever the rest of
      the path. */
  lemma NullIntermediateReadsNull(env: Env, h: Heap, mo: MetaObject, first: string, rest: string)
    requires Simple(first) && GetValue(env, h, mo, first) == Ok(Null)
    ensures GetValue(env, h, mo, first + "." + rest) == Ok(Null)
  {
    PlainSegmentRoundTrip(first, rest);
    assert MetaObjectForProperty(env, h, mo, first) == Ok(NullMeta);
  }

  /** Writing null below a null intermediate instantiates nothing and
      leaves the heap as it was. */
  lemma NullWriteBelowNullIsNoOp(env: Env, h: Heap, mo: MetaObject, first: string, rest: string)
    requires Simple(first) && GetValue(env, h, mo, first) == Ok(Null)
    ensures SetValue(env, h, mo, first + "." + rest, Null) == Outcome(None, h)
  {
    PlainSegmentRoundTrip(first, rest);
    assert MetaObjectForProperty(env, h, mo, first) == Ok(NullMeta);
  }

  /** After a map put, the getter type of the key is the class of the stored
      value, Object for null. */
  lemma MapPutGetterType(env: Env, h: Heap, target: Value, key: string, value: Value)
    requires WrapperFor(env, h, target) == MapWrapper && !target.Null?
    requires Simple(key)
    ensures var mo := ForObject(env, h, target);
      var o := SetValue(env, h, mo, key, value);
      GetGetterType(env, o.heap, mo, key) == Ok(StoredClass(o.heap, value))
  {
    SimpleTokenize(key);
  }

  /** MetaObject.add and addAll: the map and bean wrappers reject both with
      UnsupportedOperationException. */
  function AddElement(mo: MetaObject, element: Value): (r: Result<Heap>)
    ensures Kind(mo) in {MapWrapper, BeanWrapper} ==> r == Err(Unsupported)
  {
    match Kind(mo)
    case MapWrapper => Err(Unsupported)
    case BeanWrapper => Err(Unsupported)
    case _ => Err(ForeignWrapper)
  }

  function AddAllElements(mo: MetaObject, elements: seq<Value>): (r: Result<Heap>)
    ensures Kind(mo) in {MapWrapper, BeanWrapper} ==> r == Err(Unsupported)
  {
    match Kind(mo)
    case MapWrapper => Err(Unsupported)
    case BeanWrapper => Err(Unsupported)
    case _ => Err(ForeignWrapper)
  }

  /** Setting `first.rest` on a map without the key `first` instantiates one
      new HashMap at the next free address, puts it under `first` and stores
      the value in it under `rest`; getValue then reads the value back. */
  lemma NestedMapCreated(env: Env, h: Heap, target: Value, first: string, rest: string, value: Value)
    requires h.Valid()
    requires WrapperFor(env, h, target) == MapWrapper && !target.Null?
    requires HASH_MAP !in env.ownWrappers + env.customWrapped
    requires Simple(first) && Simple(rest)
    requires first !in NodeAt(h, target.addr).entries.values
    requires !value.Null?
    ensures var mo := ForObject(env, h, target);
      var o := SetValue(env, h, mo, first + "." + rest, value);
      && o.failure.None?
      && o.heap.next == h.next + 1
      && NodeAt(o.heap, h.next) == MapObject(HASH_MAP, Table([rest], map[rest := value]))
      && NodeAt(o.heap, target.addr).MapObject? && NodeAt(o.heap, target.addr).entries.Get(first) == Some(Ref(h.next))
      && GetValue(env, o.heap, mo, first + "." + rest) == Ok(value)
  {
    var h3 := NestedMapWritten(env, h, target, first, rest, value);
    NestedMapReads(env, h3, target, first, rest, value, h.next);
  }

  /** The heap a nested map write leaves: the fresh map under `first` holds
      `rest`, and `target` still gets a map wrapper. */
  lemma NestedMapWritten(env: Env, h: Heap, target: Value, first: string, rest: string, value: Value) returns (h3: Heap)
    requires h.Valid()
    requires WrapperFor(env, h, target) == MapWrapper && !target.Null?
    requires HASH_MAP !in env.ownWrappers + env.customWrapped
    requires Simple(first) && Simple(rest)
    requires first !in NodeAt(h, target.addr).entries.values
    requires !value.Null?
    ensures SetValue(env, h, ForObject(env, h, target), first + "." + rest, value) == Outcome(None, h3)
    ensures h3.next == h.next + 1
    ensures WrapperFor(env, h3, target) == MapWrapper
    ensures NodeAt(h3, target.addr).MapObject? && NodeAt(h3, target.addr).entries.Get(first) == Some(Ref(h.next))
    ensures NodeAt(h3, h.next) == MapObject(HASH_MAP, Table([rest], map[rest := value]))
  {
    PlainSegmentRoundTrip(first, rest);
    var a := h.next;
    var h2 := NestedMapInstantiated(env, h, target, first, rest);
    var child := Meta(Ref(a), MapWrapper);
    SetValueInstantiates(env, h, ForObject(env, h, target), first + "." + rest, value,
                         PropertyTokenizer(first, first, None, Some(rest)), h2, child);
    h3 := MapPut(h2, Ref(a), rest, value);
    SetSimple(env, h2, child, rest, value);
    assert SetValue(env, h2, child, rest, value) == Outcome(None, h3);
    assert NodeAt(h3, target.addr) == NodeAt(h2, target.addr);
    assert ClassOf(h3, target) == ClassOf(h, target);
    assert Tables.Empty<Value>().Put(rest, value) == Table([rest], map[rest := value]);
  }

  /** A write below a missing intermediate object continues in the object
      instantiatePropertyValue creates for it. */
  lemma SetValueInstantiates(env: Env, h: Heap, mo: MetaObject, name: string, value: Value,
                             prop: PropertyTokenizer, h1: Heap, child: MetaObject)
    requires Tokenize(name) == Ok(prop) && prop.HasNext()
    requires MetaObjectForProperty(env, h, mo, prop.indexedName) == Ok(NullMeta)
    requires !value.Null?
    requires InstantiatePropertyValue(env, h, mo, name, prop) == (Ok(child), h1)
    ensures SetValue(env, h, mo, name, value) == SetValue(env, h1, child, prop.children.value, value)
  {
  }

  /** The first step of a nested map write: the missing entry `first` is
      filled with a fresh empty HashMap, which is returned wrapped. */
  lemma NestedMapInstantiated(env: Env, h: Heap, target: Value, first: string, rest: string) returns (h2: Heap)
    requires h.Valid()
    requires WrapperFor(env, h, target) == MapWrapper && !target.Null?
    requires HASH_MAP !in env.ownWrappers + env.customWrapped
    requires Simple(first) && Simple(rest)
    requires first !in NodeAt(h, target.addr).entries.values
    ensures h2.next == h.next + 1 && target.addr != h.next
    ensures NodeAt(h2, h.next) == MapObject(HASH_MAP, Tables.Empty())
    ensures NodeAt(h2, target.addr) == NodeAt(h, target.addr).(entries := NodeAt(h, target.addr).entries.Put(first, Ref(h.next)))
    ensures MetaObjectForProperty(env, h, ForObject(env, h, target), first) == Ok(NullMeta)
    ensures InstantiatePropertyValue(env, h, ForObject(env, h, target), first + "." + rest,
              PropertyTokenizer(first, first, None, Some(rest)))
            == (Ok(Meta(Ref(h.next), MapWrapper)), h2)
  {
    SimpleTokenize(first);
    var prop := PropertyTokenizer(first, first, None, Some(rest));
    var mo := ForObject(env, h, target);
    assert mo == Meta(target, MapWrapper);
    assert GetValue(env, h, mo, first) == Ok(Null);
    assert MetaObjectForProperty(env, h, mo, first) == Ok(NullMeta);
    var (h1, a) := Alloc(h, MapObject(HASH_MAP, Tables.Empty()));
    assert a == h.next && target.addr != a;
    h2 := MapPut(h1, target, first, Ref(a));
    assert WrapperSet(env, h1, mo, prop, Ref(a)) == Ok(h2);
    assert ForObject(env, h2, Ref(a)) == Meta(Ref(a), MapWrapper);
  }

  /** Reading `first.rest` back after the nested map write. */
  lemma NestedMapReads(env: Env, h: Heap, target: Value, first: string, rest: string, value: Value, a: Addr)
    requires WrapperFor(env, h, target) == MapWrapper && !target.Null?
    requires HASH_MAP !in env.ownWrappers + env.customWrapped
    requires Simple(first) && Simple(rest)
    requires NodeAt(h, target.addr).MapObject? && NodeAt(h, target.addr).entries.Get(first) == Some(Ref(a))
    requires NodeAt(h, a) == MapObject(HASH_MAP, Table([rest], map[rest := value]))
    ensures GetValue(env, h, ForObject(env, h, target), first + "." + rest) == Ok(value)
  {
    PlainSegmentRoundTrip(first, rest);
    SimpleTokenize(first);
    SimpleTokenize(rest);
    var mo := ForObject(env, h, target);
    var child := Meta(Ref(a), MapWrapper);
    assert GetValue(env, h, mo, first) == Ok(Ref(a));
    assert ForObject(env, h, Ref(a)) == child;
    assert GetValue(env, h, child, rest) == Ok(value);
  }

  /** The wrapper a value gets, and its class, survive any heap that extends
      the one it was wrapped in. */
  lemma WrapperStable(env: Env, h: Heap, h': Heap, v: Value)
    requires Extends(h, h') && (v.Ref? ==> v.addr < h.next)
    ensures ClassOf(h', v) == ClassOf(h, v)
    ensures WrapperFor(env, h', v) == WrapperFor(env, h, v)
  {
    if v.Ref? {
      assert Tag(NodeAt(h', v.addr)) == Tag(NodeAt(h, v.addr));
    }
  }

  lemma MapPutExtends(h: Heap, target: Value, key: string, value: Value)
    ensures Extends(h, MapPut(h, target, key, value)) && MapPut(h, target, key, value).next == h.next
  {
  }

  lemma StoreSlotExtends(h: Heap, target: Value, name: string, value: Value)
    ensures Extends(h, StoreSlot(h, target, name, value)) && StoreSlot(h, target, name, value).next == h.next
  {
  }

  lemma CollectionSetExtends(u: Universe, h: Heap, prop: PropertyTokenizer, collection: Value, value: Value)
    requires prop.index.Some? && SetCollectionValue(u, h, prop, collection, value).Ok?
    ensures var h' := SetCollectionValue(u, h, prop, collection, value).value;
      Extends(h, h') && h'.next == h.next
  {
  }

  lemma BeanPropertyStores(env: Env, h: Heap, mo: MetaObject, name: string, value: Value)
    requires SetBeanProperty(env, h, mo, name, value).Ok?
    ensures SetBeanProperty(env, h, mo, name, value).value == StoreSlot(h, Wrapped(mo), name, value)
  {
    var invoker := ClassMeta(env, h, mo).GetSetInvoker(name);
    assert invoker.Ok? && !invoker.value.AmbiguousMethodInvoker?;
  }

  /** A one-segment write keeps every object's kind and class and allocates nothing. */
  lemma WrapperSetExtends(env: Env, h: Heap, mo: MetaObject, prop: PropertyTokenizer, value: Value)
    requires WrapperSet(env, h, mo, prop, value).Ok?
    ensures var h' := WrapperSet(env, h, mo, prop, value).value;
      Extends(h, h') && h'.next == h.next
  {
    if prop.index.Some? {
      var collection := ResolveCollection(env, h, mo, prop).value;
      CollectionSetExtends(env.universe, h, prop, collection, value);
    } else if Kind(mo) == MapWrapper {
      MapPutExtends(h, Wrapped(mo), prop.name, value);
    } else {
      BeanPropertyStores(env, h, mo, prop.name, value);
      StoreSlotExtends(h, Wrapped(mo), prop.name, value);
    }
  }

  /** instantiatePropertyValue allocates exactly one object, the one the
      returned MetaObject wraps, and changes no existing object's kind or class. */
  lemma InstantiateAllocatesOne(env: Env, h: Heap, mo: MetaObject, name: string, prop: PropertyTokenizer)
    ensures var (created, h') := InstantiatePropertyValue(env, h, mo, name, prop);
      && Extends(h, h')
      && h'.next <= h.next + 1
      && (created.Ok? ==> created.value.Meta? && created.value.target == Ref(h.next) && h'.next == h.next + 1)
  {
    match Kind(mo)
    case MapWrapper => MapInstantiateAllocatesOne(env, h, mo, name, prop);
    case BeanWrapper => BeanInstantiateAllocatesOne(env, h, mo, name, prop);
    case _ =>
  }

  lemma MapInstantiateAllocatesOne(env: Env, h: Heap, mo: MetaObject, name: string, prop: PropertyTokenizer)
    requires Kind(mo) == MapWrapper
    ensures var (created, h') := InstantiatePropertyValue(env, h, mo, name, prop);
      && Extends(h, h')
      && h'.next == h.next + 1
      && (created.Ok? ==> created.value.Meta? && created.value.target == Ref(h.next))
  {
    var (h1, a) := Alloc(h, MapObject(HASH_MAP, Tables.Empty()));
    assert Extends(h, h1);
    if WrapperSet(env, h1, mo, prop, Ref(a)).Ok? {
      WrapperSetExtends(env, h1, mo, prop, Ref(a));
      ExtendsTransitive(h, h1, WrapperSet(env, h1, mo, prop, Ref(a)).value);
    }
  }

  lemma BeanInstantiateAllocatesOne(env: Env, h: Heap, mo: MetaObject, name: string, prop: PropertyTokenizer)
    requires Kind(mo) == BeanWrapper
    ensures var (created, h') := InstantiatePropertyValue(env, h, mo, name, prop);
      && Extends(h, h')
      && h'.next <= h.next + 1
      && (created.Ok? ==> created.value.Meta? && created.value.target == Ref(h.next) && h'.next == h.next + 1)
  {
    if GetSetterType(env, h, mo, prop.name).Ok? {
      var t := GetSetterType(env, h, mo, prop.name).value;
      if OF.CreateDefault(env.universe, h, t).Ok? {
        var (h1, child) := OF.CreateDefault(env.universe, h, t).value;
        OF.CreateDefaultExtends(env.universe, h, t);
        if WrapperSet(env, h1, mo, prop, child).Ok? {
          WrapperSetExtends(env, h1, mo, prop, child);
          ExtendsTransitive(h, h1, WrapperSet(env, h1, mo, prop, child).value);
        }
      }
    }
  }

  /** setValue only ever adds objects: every object that existed keeps its
      kind and class, whatever the path and whether the write succeeds. */
  lemma {:induction false} SetValueExtends(env: Env, h: Heap, mo: MetaObject, name: string, value: Value)
    ensures Extends(h, SetValue(env, h, mo, name, value).heap)
    decreases |name|
  {
    match Tokenize(name)
    case Err(_) =>
    case Ok(prop) =>
      if !prop.HasNext() {
        if WrapperSet(env, h, mo, prop, value).Ok? {
          WrapperSetExtends(env, h, mo, prop, value);
        }
      } else {
        match MetaObjectForProperty(env, h, mo, prop.indexedName)
        case Err(_) =>
        case Ok(metaValue) =>
          if metaValue.Meta? {
            SetValueExtends(env, h, metaValue, prop.children.value, value);
          } else if !value.Null? {
            var (created, h1) := InstantiatePropertyValue(env, h, mo, name, prop);
            InstantiateAllocatesOne(env, h, mo, name, prop);
            if created.Ok? {
              SetValueExtends(env, h1, created.value, prop.children.value, value);
              ExtendsTransitive(h, h1, SetValue(env, h1, created.value, prop.children.value, value).heap);
            }
          }
      }
  }
}
