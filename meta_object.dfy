/** MetaObject and its wrappers, read side: property paths evaluated
    against the object graph.  A MetaObject wraps a non-null value with the
    wrapper its constructor selects; NullMeta is SystemMetaObject's
    NULL_META_OBJECT, which wraps a NullObject in a BeanWrapper. */
module MetaObjects {
  import opened Results
  import opened Text
  import opened Tables
  import opened Classes
  import opened PropertyTokenizers
  import opened Heaps
  import opened BaseWrappers
  import MC = MetaClasses

  /** What the wrappers depend on besides the heap: the classes, the
      reflector factory, the classes that are ObjectWrappers themselves, and
      the classes the configured ObjectWrapperFactory reports a wrapper for. */
  datatype Env = Env(universe: Universe, reflectors: MC.Reflectors, ownWrappers: set<ClassId>, customWrapped: set<ClassId>)

  /** The wrapper the MetaObject constructor picks.  OwnWrapper and
      CustomWrapper are wrappers supplied from outside the model. */
  datatype WrapperKind = OwnWrapper | CustomWrapper | MapWrapper | CollectionWrapper | BeanWrapper

  datatype MetaObject = NullMeta | Meta(target: Value, wrapper: WrapperKind)

  /** The NullObject instance NULL_META_OBJECT wraps. */
  const NULL_OBJECT_VALUE: Value := Scalar(NULL_OBJECT, "")

  /** The MetaObject constructor's choice, in its order: the object is a
      wrapper, the custom factory has one, a Map, a Collection, a bean. */
  function WrapperFor(env: Env, h: Heap, v: Value): (k: WrapperKind)
    ensures ClassOf(h, v) in env.ownWrappers ==> k == OwnWrapper
    ensures ClassOf(h, v) !in env.ownWrappers && ClassOf(h, v) in env.customWrapped ==> k == CustomWrapper
    ensures k == MapWrapper <==> ClassOf(h, v) !in env.ownWrappers + env.customWrapped && IsMap(h, v)
    ensures k == CollectionWrapper <==>
      ClassOf(h, v) !in env.ownWrappers + env.customWrapped && v.Ref? && (NodeAt(h, v.addr).ListObject? || NodeAt(h, v.addr).SetObject?)
  {
    var c := ClassOf(h, v);
    if c in env.ownWrappers then OwnWrapper
    else if c in env.customWrapped then CustomWrapper
    else if IsMap(h, v) then MapWrapper
    else if v.Ref? && (NodeAt(h, v.addr).ListObject? || NodeAt(h, v.addr).SetObject?) then CollectionWrapper
    else BeanWrapper
  }

  /** MetaObject.forObject: the null sentinel for null, a wrapper otherwise. */
  function ForObject(env: Env, h: Heap, v: Value): (r: MetaObject)
    ensures r.NullMeta? <==> v.Null?
    ensures r.Meta? ==> r.target == v && r.wrapper == WrapperFor(env, h, v)
  {
    if v.Null? then NullMeta else Meta(v, WrapperFor(env, h, v))
  }

  /** The wrapped object. */
  function Wrapped(mo: MetaObject): Value {
    if mo.NullMeta? then NULL_OBJECT_VALUE else mo.target
  }

  function Kind(mo: MetaObject): WrapperKind {
    if mo.NullMeta? then BeanWrapper else mo.wrapper
  }

  /** BeanWrapper's metaClass: the class metadata of the wrapped object's class. */
  function ClassMeta(env: Env, h: Heap, mo: MetaObject): MC.MetaClass {
    MC.MetaClass(env.universe, env.reflectors, ClassOf(h, Wrapped(mo)))
  }

  /** MapWrapper's map. */
  function MapEntries(h: Heap, mo: MetaObject): Table<Value> {
    if IsMap(h, Wrapped(mo)) then NodeAt(h, Wrapped(mo).addr).entries else Tables.Empty()
  }

  /** The property slots of a bean; any other value has none. */
  function BeanProps(h: Heap, v: Value): map<string, Value> {
    if v.Ref? && NodeAt(h, v.addr).Bean? then NodeAt(h, v.addr).props else map[]
  }

  function Slot(props: map<string, Value>, name: string): Value {
    if name in props then props[name] else Null
  }

  /** The measure of a wrapper-level access: a segment with an index first
      resolves its name, which is shorter. */
  function TokenSize(prop: PropertyTokenizer): nat {
    |prop.name| + if prop.index.Some? then 1 else 0
  }

  /** MetaObject.getValue: a malformed path fails with the tokenizer's
      error, and only map and bean wrappers can be read through. */
  function GetValue(env: Env, h: Heap, mo: MetaObject, name: string): (r: Result<Value>)
    ensures Tokenize(name).Err? ==> r == Err(Tokenize(name).error)
    ensures Kind(mo) !in {MapWrapper, BeanWrapper} ==> r.Err?
    decreases |name|, 1
  {
    var prop :- Tokenize(name);
    if !prop.HasNext() then WrapperGet(env, h, mo, prop)
    else
      var metaValue :- MetaObjectForProperty(env, h, mo, prop.indexedName);
      if metaValue.NullMeta? then Ok(Null)
      else GetValue(env, h, metaValue, prop.children.value)
  }

  /** MetaObject.metaObjectForProperty: forObject(getValue(name)). */
  function MetaObjectForProperty(env: Env, h: Heap, mo: MetaObject, name: string): (r: Result<MetaObject>)
    ensures GetValue(env, h, mo, name).Ok? <==> r.Ok?
    ensures r.Ok? ==> r.value == ForObject(env, h, GetValue(env, h, mo, name).value)
    decreases |name|, 2
  {
    var value :- GetValue(env, h, mo, name);
    Ok(ForObject(env, h, value))
  }

  /** ObjectWrapper.get for one segment: MapWrapper and BeanWrapper resolve
      an indexed segment through resolveCollection and getCollectionValue;
      otherwise MapWrapper reads map.get(name) and BeanWrapper the getter. */
  function WrapperGet(env: Env, h: Heap, mo: MetaObject, prop: PropertyTokenizer): (r: Result<Value>)
    ensures Kind(mo) in {OwnWrapper, CustomWrapper} ==> r == Err(ForeignWrapper)
    ensures Kind(mo) == CollectionWrapper ==> r == Err(Unsupported)
    ensures Kind(mo) == MapWrapper && prop.index.None? ==>
      r == Ok(if prop.name in MapEntries(h, mo).values then MapEntries(h, mo).values[prop.name] else Null)
    ensures Kind(mo) == BeanWrapper && prop.index.None? && r.Ok? ==> ClassMeta(env, h, mo).Reflector().HasGetter(prop.name)
    decreases TokenSize(prop), 0
  {
    match Kind(mo)
    case OwnWrapper => Err(ForeignWrapper)
    case CustomWrapper => Err(ForeignWrapper)
    case CollectionWrapper => Err(Unsupported)
    case MapWrapper =>
      if prop.index.Some? then
        var collection :- ResolveCollection(env, h, mo, prop);
        GetCollectionValue(h, prop, collection)
      else
        Ok(MapEntries(h, mo).Get(prop.name).GetOr(Null))
    case BeanWrapper =>
      if prop.index.Some? then
        var collection :- ResolveCollection(env, h, mo, prop);
        GetCollectionValue(h, prop, collection)
      else
        GetBeanProperty(env, h, mo, prop.name)
  }

  /** BaseWrapper.resolveCollection: the object itself for an empty name,
      else the value of the name. */
  function ResolveCollection(env: Env, h: Heap, mo: MetaObject, prop: PropertyTokenizer): (r: Result<Value>)
    ensures prop.name == "" ==> r == Ok(Wrapped(mo))
    ensures prop.name != "" ==> r == GetValue(env, h, mo, prop.name)
    decreases |prop.name|, 2
  {
    if prop.name == "" then Ok(Wrapped(mo)) else GetValue(env, h, mo, prop.name)
  }

  /** BeanWrapper.getBeanProperty: the getter invoker reads the property's
      slot; a missing getter or an ambiguous one fails with its own error,
      which is a runtime exception and passes through unchanged. */
  function GetBeanProperty(env: Env, h: Heap, mo: MetaObject, name: string): (r: Result<Value>)
    ensures var getters := ClassMeta(env, h, mo).Reflector().accessors.getMethods.values;
      && (name !in getters ==> r == Err(NoGetter(name, ClassOf(h, Wrapped(mo)))))
      && (name in getters && getters[name].AmbiguousMethodInvoker? ==> r == Err(getters[name].error))
      && (name in getters && !getters[name].AmbiguousMethodInvoker? ==> r == Ok(Slot(BeanProps(h, Wrapped(mo)), name)))
  {
    var invoker :- ClassMeta(env, h, mo).GetGetInvoker(name);
    match invoker
    case AmbiguousMethodInvoker(_, e) => Err(e)
    case _ => Ok(Slot(BeanProps(h, Wrapped(mo)), name))
  }

  /** MetaObject.getGetterType, delegated to the wrapper.  MapWrapper answers
      the class of the stored value (Object for null); BeanWrapper asks the
      class metadata for a single segment or a null intermediate. */
  function GetGetterType(env: Env, h: Heap, mo: MetaObject, name: string): (r: Result<ClassId>)
    ensures Kind(mo) !in {MapWrapper, BeanWrapper} ==> r.Err?
    ensures Kind(mo) in {MapWrapper, BeanWrapper} && Tokenize(name).Err? ==> r == Err(Tokenize(name).error)
    ensures Kind(mo) == MapWrapper && Tokenize(name).Ok? && !Tokenize(name).value.HasNext() ==>
      r.Ok? && (name !in MapEntries(h, mo).values ==> r.value == OBJECT)
    ensures Kind(mo) == BeanWrapper && Tokenize(name).Ok? && !Tokenize(name).value.HasNext() ==>
      r == ClassMeta(env, h, mo).GetGetterType(name)
    ensures (Kind(mo) == BeanWrapper && Tokenize(name).Ok? && Tokenize(name).value.HasNext() &&
             GetValue(env, h, mo, Tokenize(name).value.indexedName) == Ok(Null)) ==>
      r == ClassMeta(env, h, mo).GetGetterType(name)
    decreases |name|
  {
    match Kind(mo)
    case OwnWrapper => Err(ForeignWrapper)
    case CustomWrapper => Err(ForeignWrapper)
    case CollectionWrapper => Err(Unsupported)
    case MapWrapper =>
      var prop :- Tokenize(name);
      if prop.HasNext() then
        var metaValue :- MetaObjectForProperty(env, h, mo, prop.indexedName);
        if metaValue.NullMeta? then Ok(OBJECT)
        else GetGetterType(env, h, metaValue, prop.children.value)
      else
        Ok(StoredClass(h, MapEntries(h, mo).Get(name).GetOr(Null)))
    case BeanWrapper =>
      var prop :- Tokenize(name);
      if !prop.HasNext() then ClassMeta(env, h, mo).GetGetterType(name)
      else
        var metaValue :- MetaObjectForProperty(env, h, mo, prop.indexedName);
        if metaValue.NullMeta? then ClassMeta(env, h, mo).GetGetterType(name)
        else GetGetterType(env, h, metaValue, prop.children.value)
  }

  /** MetaObject.getSetterType: the same shape with the setter types. */
  function GetSetterType(env: Env, h: Heap, mo: MetaObject, name: string): (r: Result<ClassId>)
    ensures Kind(mo) !in {MapWrapper, BeanWrapper} ==> r.Err?
    ensures Kind(mo) in {MapWrapper, BeanWrapper} && Tokenize(name).Err? ==> r == Err(Tokenize(name).error)
    ensures Kind(mo) == MapWrapper && Tokenize(name).Ok? && !Tokenize(name).value.HasNext() ==>
      r.Ok? && (name !in MapEntries(h, mo).values ==> r.value == OBJECT)
    ensures Kind(mo) == BeanWrapper && Tokenize(name).Ok? && !Tokenize(name).value.HasNext() ==>
      r == ClassMeta(env, h, mo).GetSetterType(name)
    ensures (Kind(mo) == BeanWrapper && Tokenize(name).Ok? && Tokenize(name).value.HasNext() &&
             GetValue(env, h, mo, Tokenize(name).value.indexedName) == Ok(Null)) ==>
      r == ClassMeta(env, h, mo).GetSetterType(name)
    decreases |name|
  {
    match Kind(mo)
    case OwnWrapper => Err(ForeignWrapper)
    case CustomWrapper => Err(ForeignWrapper)
    case CollectionWrapper => Err(Unsupported)
    case MapWrapper =>
      var prop :- Tokenize(name);
      if prop.HasNext() then
        var metaValue :- MetaObjectForProperty(env, h, mo, prop.indexedName);
        if metaValue.NullMeta? then Ok(OBJECT)
        else GetSetterType(env, h, metaValue, prop.children.value)
      else
        Ok(StoredClass(h, MapEntries(h, mo).Get(name).GetOr(Null)))
    case BeanWrapper =>
      var prop :- Tokenize(name);
      if !prop.HasNext() then ClassMeta(env, h, mo).GetSetterType(name)
      else
        var metaValue :- MetaObjectForProperty(env, h, mo, prop.indexedName);
        if metaValue.NullMeta? then ClassMeta(env, h, mo).GetSetterType(name)
        else GetSetterType(env, h, metaValue, prop.children.value)
  }

  /** The class MapWrapper reports for a stored value: Object for null. */
  function StoredClass(h: Heap, v: Value): ClassId {
    if v.Null? then OBJECT else ClassOf(h, v)
  }

  /** MetaObject.hasSetter: MapWrapper accepts every name without parsing
      it; BeanWrapper needs a setter for each segment, stopping at a null
      intermediate, where the class metadata answers for the rest. */
  function HasSetter(env: Env, h: Heap, mo: MetaObject, name: string): (r: Result<bool>)
    ensures Kind(mo) == MapWrapper ==> r == Ok(true)
    ensures Kind(mo) !in {MapWrapper, BeanWrapper} ==> r.Err?
    ensures Kind(mo) == BeanWrapper && Tokenize(name).Err? ==> r == Err(Tokenize(name).error)
    ensures Kind(mo) == BeanWrapper && Tokenize(name).Ok? && !Tokenize(name).value.HasNext() ==>
      r == ClassMeta(env, h, mo).HasSetter(name)
    ensures Kind(mo) == BeanWrapper && r == Ok(true) && Tokenize(name).value.HasNext() ==>
      ClassMeta(env, h, mo).HasSetter(Tokenize(name).value.indexedName) == Ok(true)
    ensures (Kind(mo) == BeanWrapper && Tokenize(name).Ok? && Tokenize(name).value.HasNext() &&
             ClassMeta(env, h, mo).HasSetter(Tokenize(name).value.indexedName) == Ok(true) &&
             GetValue(env, h, mo, Tokenize(name).value.indexedName) == Ok(Null)) ==>
      r == ClassMeta(env, h, mo).HasSetter(name)
    decreases |name|
  {
    match Kind(mo)
    case OwnWrapper => Err(ForeignWrapper)
    case CustomWrapper => Err(ForeignWrapper)
    case CollectionWrapper => Err(Unsupported)
    case MapWrapper => Ok(true)
    case BeanWrapper =>
      var prop :- Tokenize(name);
      if !prop.HasNext() then ClassMeta(env, h, mo).HasSetter(name)
      else
        var first :- ClassMeta(env, h, mo).HasSetter(prop.indexedName);
        if !first then Ok(false)
        else
          var metaValue :- MetaObjectForProperty(env, h, mo, prop.indexedName);
          if metaValue.NullMeta? then ClassMeta(env, h, mo).HasSetter(name)
          else HasSetter(env, h, metaValue, prop.children.value)
  }

  /** MetaObject.hasGetter: MapWrapper needs the key (a null value below it
      answers true); BeanWrapper as for hasSetter with getters. */
  function HasGetter(env: Env, h: Heap, mo: MetaObject, name: string): (r: Result<bool>)
    ensures Kind(mo) !in {MapWrapper, BeanWrapper} ==> r.Err?
    ensures Kind(mo) in {MapWrapper, BeanWrapper} && Tokenize(name).Err? ==> r == Err(Tokenize(name).error)
    ensures Kind(mo) == MapWrapper && Tokenize(name).Ok? ==>
      if !Tokenize(name).value.HasNext() then r == Ok(Tokenize(name).value.name in MapEntries(h, mo).values)
      else r == Ok(true) ==> Tokenize(name).value.indexedName in MapEntries(h, mo).values
    ensures Kind(mo) == BeanWrapper && Tokenize(name).Ok? && !Tokenize(name).value.HasNext() ==>
      r == ClassMeta(env, h, mo).HasGetter(name)
    ensures Kind(mo) == BeanWrapper && r == Ok(true) && Tokenize(name).value.HasNext() ==>
      ClassMeta(env, h, mo).HasGetter(Tokenize(name).value.indexedName) == Ok(true)
    ensures (Kind(mo) == BeanWrapper && Tokenize(name).Ok? && Tokenize(name).value.HasNext() &&
             ClassMeta(env, h, mo).HasGetter(Tokenize(name).value.indexedName) == Ok(true) &&
             GetValue(env, h, mo, Tokenize(name).value.indexedName) == Ok(Null)) ==>
      r == ClassMeta(env, h, mo).HasGetter(name)
    decreases |name|
  {
    match Kind(mo)
    case OwnWrapper => Err(ForeignWrapper)
    case CustomWrapper => Err(ForeignWrapper)
    case CollectionWrapper => Err(Unsupported)
    case MapWrapper =>
      var prop :- Tokenize(name);
      if !prop.HasNext() then Ok(prop.name in MapEntries(h, mo).values)
      else if prop.indexedName !in MapEntries(h, mo).values then Ok(false)
      else
        var metaValue :- MetaObjectForProperty(env, h, mo, prop.indexedName);
        if metaValue.NullMeta? then Ok(true)
        else HasGetter(env, h, metaValue, prop.children.value)
    case BeanWrapper =>
      var prop :- Tokenize(name);
      if !prop.HasNext() then ClassMeta(env, h, mo).HasGetter(name)
      else
        var first :- ClassMeta(env, h, mo).HasGetter(prop.indexedName);
        if !first then Ok(false)
        else
          var metaValue :- MetaObjectForProperty(env, h, mo, prop.indexedName);
          if metaValue.NullMeta? then ClassMeta(env, h, mo).HasGetter(name)
          else HasGetter(env, h, metaValue, prop.children.value)
  }

  /** MetaObject.findProperty: MapWrapper returns the name as given. */
  function FindProperty(env: Env, h: Heap, mo: MetaObject, name: string, useCamelCaseMapping: bool): (r: Result<Option<string>>)
    ensures Kind(mo) == MapWrapper ==> r == Ok(Some(name))
    ensures Kind(mo) == BeanWrapper ==> r == ClassMeta(env, h, mo).FindPropertyCamelCase(name, useCamelCaseMapping)
  {
    match Kind(mo)
    case OwnWrapper => Err(ForeignWrapper)
    case CustomWrapper => Err(ForeignWrapper)
    case CollectionWrapper => Err(Unsupported)
    case MapWrapper => Ok(Some(name))
    case BeanWrapper => ClassMeta(env, h, mo).FindPropertyCamelCase(name, useCamelCaseMapping)
  }

  /** MetaObject.getGetterNames: a map's keys, a bean's readable properties. */
  function GetGetterNames(env: Env, h: Heap, mo: MetaObject): (r: Result<seq<string>>)
    ensures Kind(mo) == MapWrapper ==> r == Ok(MapEntries(h, mo).keys)
    ensures Kind(mo) == BeanWrapper ==> r == Ok(ClassMeta(env, h, mo).GetGetterNames())
    ensures Kind(mo) == BeanWrapper ==> r.Ok? && forall n :: n in r.value <==> ClassMeta(env, h, mo).Reflector().HasGetter(n)
    ensures Kind(mo) !in {MapWrapper, BeanWrapper} ==> r.Err?
  {
    match Kind(mo)
    case OwnWrapper => Err(ForeignWrapper)
    case CustomWrapper => Err(ForeignWrapper)
    case CollectionWrapper => Err(Unsupported)
    case MapWrapper => Ok(MapEntries(h, mo).keys)
    case BeanWrapper => Ok(ClassMeta(env, h, mo).GetGetterNames())
  }

  /** MetaObject.getSetterNames: a map's keys, a bean's writable properties. */
  function GetSetterNames(env: Env, h: Heap, mo: MetaObject): (r: Result<seq<string>>)
    ensures Kind(mo) == MapWrapper ==> r == Ok(MapEntries(h, mo).keys)
    ensures Kind(mo) == BeanWrapper ==> r == Ok(ClassMeta(env, h, mo).GetSetterNames())
    ensures Kind(mo) == BeanWrapper ==> r.Ok? && forall n :: n in r.value <==> ClassMeta(env, h, mo).Reflector().HasSetter(n)
    ensures Kind(mo) !in {MapWrapper, BeanWrapper} ==> r.Err?
  {
    match Kind(mo)
    case OwnWrapper => Err(ForeignWrapper)
    case CustomWrapper => Err(ForeignWrapper)
    case CollectionWrapper => Err(Unsupported)
    case MapWrapper => Ok(MapEntries(h, mo).keys)
    case BeanWrapper => Ok(ClassMeta(env, h, mo).GetSetterNames())
  }

  /** MetaObject.isCollection: only the collection wrapper says yes. */
  function IsCollection(mo: MetaObject): (r: Result<bool>)
    ensures Kind(mo) in {MapWrapper, BeanWrapper, CollectionWrapper} <==> r.Ok?
    ensures r.Ok? ==> (r.value <==> Kind(mo) == CollectionWrapper)
  {
    match Kind(mo)
    case OwnWrapper => Err(ForeignWrapper)
    case CustomWrapper => Err(ForeignWrapper)
    case CollectionWrapper => Ok(true)
    case _ => Ok(false)
  }

  /** Wherever hasGetter answers true, getGetterType succeeds: for maps and
      beans, through null intermediates and nested objects alike. */
  lemma {:induction false} HasGetterGivesGetterType(env: Env, h: Heap, mo: MetaObject, name: string)
    requires HasGetter(env, h, mo, name) == Ok(true)
    ensures GetGetterType(env, h, mo, name).Ok?
    decreases |name|
  {
    var prop := Tokenize(name).value;
    if Kind(mo) == BeanWrapper && !prop.HasNext() {
      MC.GetterTypeIffHasGetter(ClassMeta(env, h, mo), name);
    } else if prop.HasNext() {
      var metaValue := MetaObjectForProperty(env, h, mo, prop.indexedName).value;
      if metaValue.NullMeta? {
        if Kind(mo) == BeanWrapper {
          MC.GetterTypeIffHasGetter(ClassMeta(env, h, mo), name);
        }
      } else {
        HasGetterGivesGetterType(env, h, metaValue, prop.children.value);
      }
    }
  }
}
