/** DefaultObjectFactory: which class to instantiate for a requested type,
    which constructor to use, and how a failure is reported. */
module ObjectFactories {
  import opened Results
  import opened Text
  import opened Classes
  import opened Heaps

  /** resolveInterface: the collection interfaces map to their usual
      implementations, every other type to itself. */
  function ResolveInterface(t: ClassId): (r: ClassId)
    ensures t in {LIST, COLLECTION, ITERABLE} ==> r == ARRAY_LIST
    ensures t == MAP ==> r == HASH_MAP
    ensures t == SORTED_SET ==> r == TREE_SET
    ensures t == SET ==> r == HASH_SET
    ensures t !in {LIST, COLLECTION, ITERABLE, MAP, SORTED_SET, SET} ==> r == t
  {
    if t == LIST || t == COLLECTION || t == ITERABLE then ARRAY_LIST
    else if t == MAP then HASH_MAP
    else if t == SORTED_SET then TREE_SET
    else if t == SET then HASH_SET
    else t
  }

  /** The JDK facts resolveInterface relies on: each implementation it picks
      is a subtype of the interfaces it stands for. */
  ghost predicate KnowsCollections(u: Universe) {
    && (LIST, ARRAY_LIST) in u.subtypes && (COLLECTION, ARRAY_LIST) in u.subtypes && (ITERABLE, ARRAY_LIST) in u.subtypes
    && (MAP, HASH_MAP) in u.subtypes
    && (SORTED_SET, TREE_SET) in u.subtypes && (SET, HASH_SET) in u.subtypes
  }

  /** The class to create is always assignable to the requested type. */
  lemma ResolvedIsAssignable(u: Universe, t: ClassId)
    requires KnowsCollections(u)
    ensures IsAssignableFrom(u, t, ResolveInterface(t))
  {
  }

  /** Resolving twice changes nothing: the implementations are concrete. */
  lemma ResolveInterfaceIdempotent(t: ClassId)
    ensures ResolveInterface(ResolveInterface(t)) == ResolveInterface(t)
  {
  }

  /** isCollection: Collection itself and every type Collection is assignable
      from; with a transitive subtype relation, each subtype of a collection
      type is one too. */
  predicate IsCollection(u: Universe, t: ClassId)
    ensures t == COLLECTION ==> IsCollection(u, t)
    ensures KnowsCollections(u) && t == ARRAY_LIST ==> IsCollection(u, t)
    ensures Transitive(u) && IsCollection(u, t) ==>
      forall s :: IsAssignableFrom(u, t, s) ==> IsAssignableFrom(u, COLLECTION, s)
  {
    IsAssignableFrom(u, COLLECTION, t)
  }

  /** Exactly List, Collection, Iterable and ArrayList resolve to ArrayList,
      and ArrayList is a collection. */
  lemma ResolvedListIsCollection(u: Universe, t: ClassId)
    requires KnowsCollections(u)
    ensures IsCollection(u, ARRAY_LIST)
    ensures ResolveInterface(t) == ARRAY_LIST <==> t in {LIST, COLLECTION, ITERABLE, ARRAY_LIST}
  {
  }

  /** A new object of the class, with no state yet. */
  function NewInstance(u: Universe, c: ClassId): Node {
    match Info(u, c).shape
    case BeanShape => Bean(c, map[])
    case MapShape => MapObject(c, Tables.Empty())
    case ListShape => ListObject(c, [])
    case SetShape => SetObject(c, [])
  }

  /** The message of a failed instantiation: the class, the simple names of
      the argument types and the argument values, each comma-joined, a
      missing list counting as empty. */
  function InstantiationFailure(h: Heap, c: ClassId, argTypes: Option<seq<ClassId>>, args: Option<seq<Value>>): (e: Error)
    ensures e.InstantiationFailed? && e.targetType == c
    ensures argTypes.None? ==> e.argTypes == ""
    ensures args.None? ==> e.argValues == ""
  {
    var types := argTypes.GetOr([]);
    var values := args.GetOr([]);
    InstantiationFailed(c,
      Join(seq(|types|, i requires 0 <= i < |types| => SimpleName(types[i])), ","),
      Join(seq(|values|, i requires 0 <= i < |values| => ValueText(h, values[i])), ","))
  }

  /** The constructor instantiateClass selects: the no-argument one when
      either list is missing, else the one with exactly the given parameter
      types, provided the arguments fit it. */
  function SelectConstructor(u: Universe, h: Heap, c: ClassId, argTypes: Option<seq<ClassId>>, args: Option<seq<Value>>): (r: Option<seq<ClassId>>)
    ensures r.Some? ==> r.value in Info(u, c).constructors
    ensures (argTypes.None? || args.None?) ==> (r.Some? <==> [] in Info(u, c).constructors) && (r.Some? ==> r.value == [])
    ensures argTypes.Some? && args.Some? && r.Some? ==>
      && r.value == argTypes.value && |args.value| == |r.value|
      && forall i :: 0 <= i < |args.value| ==> Accepts(u, h, r.value[i], args.value[i])
  {
    if argTypes.None? || args.None? then
      if [] in Info(u, c).constructors then Some([]) else None
    else if argTypes.value in Info(u, c).constructors && |args.value| == |argTypes.value|
         && forall i :: 0 <= i < |args.value| ==> Accepts(u, h, argTypes.value[i], args.value[i]) then
      Some(argTypes.value)
    else None
  }

  /** create(type, constructorArgTypes, constructorArgs): instantiates
      resolveInterface(type) on the heap, or fails naming the class, the
      argument types and the values.  An abstract class fails even when the
      constructor exists, as newInstance throws InstantiationException. */
  function Create(u: Universe, h: Heap, t: ClassId, argTypes: Option<seq<ClassId>>, args: Option<seq<Value>>): (r: Result<(Heap, Value)>)
    ensures var c := ResolveInterface(t);
      && (r.Ok? <==> !Info(u, c).isAbstract && SelectConstructor(u, h, c, argTypes, args).Some?)
      && (r.Ok? ==> r.value.1 == Ref(h.next) && r.value.0 == Alloc(h, NewInstance(u, c)).0 && ClassOf(r.value.0, r.value.1) == c)
      && (r.Err? ==> r.error == InstantiationFailure(h, c, argTypes, args))
  {
    var c := ResolveInterface(t);
    if !Info(u, c).isAbstract && SelectConstructor(u, h, c, argTypes, args).Some? then
      var (h', a) := Alloc(h, NewInstance(u, c));
      Ok((h', Ref(a)))
    else
      Err(InstantiationFailure(h, c, argTypes, args))
  }

  /** create(type) is create(type, null, null). */
  function CreateDefault(u: Universe, h: Heap, t: ClassId): (r: Result<(Heap, Value)>)
    ensures r.Ok? <==> !Info(u, ResolveInterface(t)).isAbstract && [] in Info(u, ResolveInterface(t)).constructors
    ensures r.Ok? ==> h.Valid() ==> r.value.0.Valid() && r.value.1.Ref? && r.value.1.addr !in h.nodes
  {
    Create(u, h, t, None, None)
  }

  /** create(type) allocates exactly one object, at the next address, and
      leaves every existing object as it was. */
  lemma CreateDefaultExtends(u: Universe, h: Heap, t: ClassId)
    requires CreateDefault(u, h, t).Ok?
    ensures var (h', v) := CreateDefault(u, h, t).value;
      v == Ref(h.next) && h'.next == h.next + 1 && Extends(h, h')
  {
    AllocExtends(h, NewInstance(u, ResolveInterface(t)));
  }
}
