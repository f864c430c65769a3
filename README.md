# MyBatis property paths, reflection metadata and placeholders in Dafny

This project models the reflective property-path layer of MyBatis, together with two text utilities that sit beside it, and proves properties about the model.

- **Property paths.** `PropertyTokenizer` splits a path such as `orders[2].item.name` into its first segment, the segment's bracket index and the rest of the path. `PropertyNamer` turns accessor names such as `getName`, `isActive` and `setName` into property names.
- **Reflector.** A `Reflector` describes one class. It records every readable and writable property with its invoker and type. It takes getters and setters from the class's methods, resolving conflicts between overloads, then adds plain fields. It also builds an index of property names that ignores letter case.
- **Descriptor cache.** `DefaultReflectorFactory` caches one reflector per class.
- **MetaClass.** `MetaClass` walks a path over the reflectors to find:
  - the registered spelling of a property;
  - getter and setter types;
  - whether a getter or setter exists.
- **MetaObject.** `MetaObject` walks a path over a live object graph, through a `MapWrapper` or a `BeanWrapper`. The shared collection helpers of `BaseWrapper` index into maps, lists and arrays. When a write meets a missing intermediate object, it creates one through `DefaultObjectFactory`.
- **Placeholders.** `GenericTokenParser` replaces `${...}` placeholders, honouring backslash escapes. `PropertyParser` is that parser with a handler that looks the key up in a set of properties, with optional `${key:default}` defaults.
- **Small rules.**
  - `ExceptionUtil.unwrapThrowable` peels reflection wrapper exceptions.
  - `ParamNameResolver` names a mapper method's parameters and binds the arguments of a call to those names.

## How the Java world is represented

- **Classes.** The Java class universe is a value, `Classes.Universe`. Each class id has a record holding:
  - its superclass and its depth in the hierarchy;
  - its interfaces;
  - its declared methods, fields and constructors;
  - whether it is a record;
  - the kind of objects it makes: bean, map, list or set.

  `isAssignableFrom` is the reflexive closure of a given subtype relation. Where a proof needs it to be transitive, that is a hypothesis.
- **Reflector.** `Reflectors.Reflector` is a class with the reflector's fields. Its constructor fills them in place, step by step as the Java constructor does. Each step is proved against a pure function in `ClassDescriptors`, and the constructor ends with `Snapshot() == Describe(u, c)`. Everything above the reflector (MetaClass, MetaObject) reads the descriptor through a reflector factory seen as a function from class to descriptor. `MetaClasses.DefaultReflectors` is the one a `DefaultReflectorFactory` hands out.
- **Objects.** Live objects live in a heap value, `Heaps.Heap`:
  - bean objects with one slot per property;
  - maps with insertion-ordered entries;
  - lists, sets and arrays of values.

  A value is `Null`, a scalar (a class and a text) or a reference. Reads return a value. Writes return the new heap, together with the failure that Java would throw.
- **Exceptions.** Every Java exception of the core becomes an `Error` in a `Result` or `Outcome`, carrying the data of its message.

## Model

| member | source | states |
|---|---|---|
| PropertyTokenizers.SplitAtDot | src/main/java/org/apache/ibatis/reflection/property/PropertyTokenizer.java:38-45 | the first segment is the text before the first '.', contains no '.', the rest is absent exactly when there is no '.', and segment + "." + rest is the input |
| PropertyTokenizers.SplitIndex | src/main/java/org/apache/ibatis/reflection/property/PropertyTokenizer.java:46-51 | fails with StringIndexOutOfBounds exactly when the segment's first '[' is its last character; otherwise the name is the text before the first '[' and the index the text between it and the last character; without '[' the name is the whole segment and there is no index |
| PropertyTokenizers.Tokenize | src/main/java/org/apache/ibatis/reflection/property/PropertyTokenizer.java:37-52 | the constructor's fields: indexedName has no '.', children absent iff no '.', indexedName + "." + children is the input, index absent iff no '[' in indexedName, and then name == indexedName; with an index, indexedName is name + "[" + index followed by the segment's last character, which need not be ']' ("a[b" gives name "a", index "" and indexedName "a[b") |
| PropertyTokenizers.TokenizeFailsIff | src/main/java/org/apache/ibatis/reflection/property/PropertyTokenizer.java:37-52 | the tokenizer fails if and only if the first segment's first '[' is that segment's last character |
| PropertyTokenizers.PropertyTokenizer.Remove | src/main/java/org/apache/ibatis/reflection/property/PropertyTokenizer.java:84-87 | remove always fails as unsupported |
| PropertyTokenizers.HasNextIffDot | src/main/java/org/apache/ibatis/reflection/property/PropertyTokenizer.java:74-76 | a tokenizer has a next step exactly when its expression contains a '.' |
| PropertyTokenizers.PropertyTokenizer.Next | src/main/java/org/apache/ibatis/reflection/property/PropertyTokenizer.java:79-81 | the next tokenizer fails only as the tokenizer does; its segment, followed by "." and its rest when it has one, is the remaining path, and its rest is shorter, so the walk ends |
| PropertyTokenizers.WalkCoversPath | src/main/java/org/apache/ibatis/reflection/property/PropertyTokenizer.java:74-81 | walking with hasNext/next yields at least one segment, no segment contains '.', and the segments joined with '.' give back the path |
| PropertyTokenizers.WalkSucceeds | src/main/java/org/apache/ibatis/reflection/property/PropertyTokenizer.java:37-81 | a path with no '[' directly before a '.' or at its end tokenizes at every step of the walk |
| PropertyTokenizers.IndexedSegmentRoundTrip | src/main/java/org/apache/ibatis/reflection/property/PropertyTokenizer.java:37-52 | tokenizing name[index].children recovers name, index, the indexed name and children |
| PropertyTokenizers.PlainSegmentRoundTrip | src/main/java/org/apache/ibatis/reflection/property/PropertyTokenizer.java:37-52 | tokenizing name.children for a bracket-free name recovers name as both name and indexed name, no index, and children |
| PropertyNamer.AccessorPrefixLength | src/main/java/org/apache/ibatis/reflection/property/PropertyNamer.java:37-45 | the stripped prefix is "is" whenever the name starts with "is", else "get"/"set", else nothing |
| PropertyNamer.MethodToProperty | src/main/java/org/apache/ibatis/reflection/property/PropertyNamer.java:36-52 | fails exactly for names not starting with is/get/set; otherwise the result is the remainder after the prefix, with its first letter lower-cased exactly when the remainder has one character or its second is not upper case |
| PropertyNamer.IsGetter | src/main/java/org/apache/ibatis/reflection/property/PropertyNamer.java:58-61 | a getter name yields the non-empty property name that follows its prefix |
| PropertyNamer.IsSetter | src/main/java/org/apache/ibatis/reflection/property/PropertyNamer.java:62-65 | a setter name yields the non-empty property name after its three-letter prefix |
| PropertyNamer.IsProperty | src/main/java/org/apache/ibatis/reflection/property/PropertyNamer.java:54-56 | a name is a getter or setter name exactly when methodToProperty turns it into a non-empty property name |
| PropertyNamer.GetterAndSetterAgree | src/main/java/org/apache/ibatis/reflection/property/PropertyNamer.java:36-66 | "get" + p and "set" + p name the same property and are a getter and a setter |
| PropertyNamer.CapitalizedGetterRoundTrip | src/main/java/org/apache/ibatis/reflection/property/PropertyNamer.java:36-52 | for a property whose first two characters are not upper case, methodToProperty of its capitalised getter gives the property back |
| PropertyNamer.UpperCaseRunKept | src/main/java/org/apache/ibatis/reflection/property/PropertyNamer.java:46-50 | when the second character is upper case (getURL) the remainder is returned unchanged |
| PropertyNamer.IsPrefixTakesPrecedence | src/main/java/org/apache/ibatis/reflection/property/PropertyNamer.java:37-45 | a name starting with "is" loses exactly those two letters, and the next letter is lower-cased when the one after it is not upper case |
| ClassDescriptors.AddUniqueMethods | src/main/java/org/apache/ibatis/reflection/Reflector.java:339-351 | adding methods keeps the table keyed by each method's signature |
| ClassDescriptors.CollectMethods | src/main/java/org/apache/ibatis/reflection/Reflector.java:318-337 | the walk over the class, its interfaces and its superclasses keeps the table keyed by signature |
| ClassDescriptors.ClassMethods | src/main/java/org/apache/ibatis/reflection/Reflector.java:318-337 | getClassMethods returns no bridge method and no two methods with the same signature |
| ClassDescriptors.AddMethodConflictWellFormed | src/main/java/org/apache/ibatis/reflection/Reflector.java:186-191 | adding a candidate keeps every conflict list made of candidates named after its property, with no reserved name |
| ClassDescriptors.Conflicts | src/main/java/org/apache/ibatis/reflection/Reflector.java:120-128 | grouping the candidates keeps the conflict table well-formed |
| ClassDescriptors.ConflictsWellFormedKept | src/main/java/org/apache/ibatis/reflection/Reflector.java:179-184 | after grouping getters or setters, every list holds only candidates of its property |
| ClassDescriptors.PickGetter | src/main/java/org/apache/ibatis/reflection/Reflector.java:137-160 | the getter chosen is the first candidate or one of the others |
| ClassDescriptors.AddGetMethod | src/main/java/org/apache/ibatis/reflection/Reflector.java:169-177 | registering a getter leaves the setter tables alone and keeps invokers and types aligned |
| ClassDescriptors.ResolveGetterConflicts | src/main/java/org/apache/ibatis/reflection/Reflector.java:135-167 | resolving getters leaves the setter tables alone and keeps invokers and types aligned |
| ClassDescriptors.PickBetterSetter | src/main/java/org/apache/ibatis/reflection/Reflector.java:218-238 | the picked setter is one of the two and its parameter type is assignable to both; an unrelated pair is reported exactly when neither parameter type is assignable from the other |
| ClassDescriptors.SetterLoop | src/main/java/org/apache/ibatis/reflection/Reflector.java:193-216 | the setter chosen for a property is one of its candidates or the one already matched |
| ClassDescriptors.AddAmbiguousSetter | src/main/java/org/apache/ibatis/reflection/Reflector.java:228-236 | the failing setter for an unrelated pair leaves the getter tables alone and keeps the tables aligned |
| ClassDescriptors.AddSetMethod | src/main/java/org/apache/ibatis/reflection/Reflector.java:240-245 | registering a setter leaves the getter tables alone and keeps the tables aligned |
| ClassDescriptors.ResolveSetterConflicts | src/main/java/org/apache/ibatis/reflection/Reflector.java:193-216 | resolving setters leaves the getter tables alone and keeps the tables aligned |
| ClassDescriptors.AddSetField | src/main/java/org/apache/ibatis/reflection/Reflector.java:289-295 | for a valid name the setter table maps the field's name to its SetFieldInvoker and the setter type table to the field's type; an invalid name changes nothing; the getter tables are unchanged |
| ClassDescriptors.AddGetField | src/main/java/org/apache/ibatis/reflection/Reflector.java:297-303 | for a valid name the getter table maps the field's name to its GetFieldInvoker and the getter type table to the field's type; an invalid name changes nothing; the setter tables are unchanged |
| ClassDescriptors.AddField | src/main/java/org/apache/ibatis/reflection/Reflector.java:272-283 | a valid name without a getter gets the field's GetFieldInvoker and type; a valid name without a setter gets its SetFieldInvoker and type unless the field is final and static; every other entry is unchanged |
| ClassDescriptors.AddDeclaredFields | src/main/java/org/apache/ibatis/reflection/Reflector.java:268-287 | each valid name without a getter beforehand gets the invoker and type of the first field of that name, each valid name without a setter those of the first such field that is not final and static; every other entry is unchanged |
| ClassDescriptors.AddFields | src/main/java/org/apache/ibatis/reflection/Reflector.java:268-287 | the same over the class's fields and then its superclasses', in chain order: the nearest class on the chain declaring a valid name absent beforehand supplies its field invoker and type, inherited fields are registered, and no accessor method is replaced |
| ClassDescriptorFacts.FieldChainPrecedence | src/main/java/org/apache/ibatis/reflection/Reflector.java:268-287 | a field the class declares wins over a superclass field of the same name; a name the class does not declare is taken from its superclass's chain, and without a superclass it has no field |
| ClassDescriptors.AddRecordGetMethods | src/main/java/org/apache/ibatis/reflection/Reflector.java:100-103 | every method without parameters becomes a getter named after itself; every other getter is an old one; setter tables unchanged |
| ClassDescriptors.BuildAccessors | src/main/java/org/apache/ibatis/reflection/Reflector.java:77-88 | the tables the constructor builds are aligned, field setters only write writable fields, and a record has no setters |
| ClassDescriptors.IndexNames | src/main/java/org/apache/ibatis/reflection/Reflector.java:91-97 | every name is indexed under its upper-case form and every index entry is an old entry or a name stored under its upper-case form |
| ClassDescriptors.Descriptor.GetDefaultConstructor | src/main/java/org/apache/ibatis/reflection/Reflector.java:400-405 | succeeds exactly when a no-argument constructor exists, else fails naming the class |
| ClassDescriptors.Descriptor.GetSetInvoker | src/main/java/org/apache/ibatis/reflection/Reflector.java:411-417 | the registered setter invoker, or the no-setter error exactly when none is registered |
| ClassDescriptors.Descriptor.GetGetInvoker | src/main/java/org/apache/ibatis/reflection/Reflector.java:419-425 | the registered getter invoker, or the no-getter error exactly when none is registered |
| ClassDescriptors.Descriptor.GetSetterType | src/main/java/org/apache/ibatis/reflection/Reflector.java:435-441 | the registered setter type, or the no-setter error exactly when none is registered |
| ClassDescriptors.Descriptor.GetGetterType | src/main/java/org/apache/ibatis/reflection/Reflector.java:451-457 | the registered getter type, or the no-getter error exactly when none is registered |
| ClassDescriptors.Descriptor.HasSetter | src/main/java/org/apache/ibatis/reflection/Reflector.java:485-487 | with aligned tables, a property has a setter exactly when getSetterType succeeds for it |
| ClassDescriptors.Descriptor.HasGetter | src/main/java/org/apache/ibatis/reflection/Reflector.java:497-499 | with aligned tables, a property has a getter exactly when getGetterType succeeds for it |
| ClassDescriptors.IsValidPropertyName | src/main/java/org/apache/ibatis/reflection/Reflector.java:305-307 | a name is valid exactly when it is empty or does not start with '$', and is neither serialVersionUID nor class |
| ClassDescriptors.Descriptor.ReadablePropertyNames | src/main/java/org/apache/ibatis/reflection/Reflector.java:464-466 | with a well-formed getter table, exactly the names that have a getter, each once |
| ClassDescriptors.Descriptor.WritablePropertyNames | src/main/java/org/apache/ibatis/reflection/Reflector.java:473-475 | with a well-formed setter table, exactly the names that have a setter, each once |
| ClassDescriptors.Descriptor.FindPropertyName | src/main/java/org/apache/ibatis/reflection/Reflector.java:501-503 | a name is found exactly when its upper-case form is indexed |
| ClassDescriptors.Describe | src/main/java/org/apache/ibatis/reflection/Reflector.java:77-98 | the reflector of class c names c, has a default constructor exactly when c declares a no-argument one, keeps its type tables keyed like its invoker tables, indexes every readable and writable name under its upper-case form, and has no writable property for a record |
| ClassDescriptorFacts.CollectIsWalk | src/main/java/org/apache/ibatis/reflection/Reflector.java:318-337 | the method collection equals adding the methods of one flat walk from the class up to Object |
| ClassDescriptorFacts.AddUniqueKeepsOld | src/main/java/org/apache/ibatis/reflection/Reflector.java:339-351 | a signature already recorded keeps its method |
| ClassDescriptorFacts.AddUniqueFirstWins | src/main/java/org/apache/ibatis/reflection/Reflector.java:339-351 | the first non-bridge method with a new signature is the one recorded for it |
| ClassDescriptorFacts.AddUniqueFromMethods | src/main/java/org/apache/ibatis/reflection/Reflector.java:339-351 | every newly recorded method comes from the given methods |
| ClassDescriptorFacts.ClassMethodsFirstWins | src/main/java/org/apache/ibatis/reflection/Reflector.java:318-351 | the first non-bridge method of each signature met from the most derived class upwards is in getClassMethods |
| ClassDescriptorFacts.ClassMethodsFromWalk | src/main/java/org/apache/ibatis/reflection/Reflector.java:318-337 | every method getClassMethods returns is declared by the class, a superclass or an interface |
| ClassDescriptorFacts.CandidatesMembers | src/main/java/org/apache/ibatis/reflection/Reflector.java:120-128 | a method is a candidate of a property exactly when it is among the methods, is a getter (setter) candidate and names that property |
| ClassDescriptorFacts.ConflictsAreCandidates | src/main/java/org/apache/ibatis/reflection/Reflector.java:186-191 | grouping appends, in order, exactly the property's candidates to its list |
| ClassDescriptorFacts.CollectedCandidates | src/main/java/org/apache/ibatis/reflection/Reflector.java:120-128 | the conflict list of a valid property name is exactly its candidates in method order |
| ClassDescriptorFacts.PickGetterNarrowest | src/main/java/org/apache/ibatis/reflection/Reflector.java:135-167 | when no ambiguity arises, the chosen getter's return type is assignable to every candidate's return type |
| ClassDescriptorFacts.ResolveGetterKeepsOthers | src/main/java/org/apache/ibatis/reflection/Reflector.java:135-167 | resolving getters changes no property outside the resolved names |
| ClassDescriptorFacts.ResolveGetterOnlyCandidates | src/main/java/org/apache/ibatis/reflection/Reflector.java:135-167 | a newly registered getter belongs to a resolved name with candidates |
| ClassDescriptorFacts.ResolvedGetter | src/main/java/org/apache/ibatis/reflection/Reflector.java:135-177 | each resolved property gets the winner's invoker (ambiguous when marked so) and the winner's return type |
| ClassDescriptorFacts.BuildAccessorsStages | src/main/java/org/apache/ibatis/reflection/Reflector.java:77-98 | for a non-record, the tables are the getter stage, then the setter stage, then the fields |
| ClassDescriptorFacts.DescribedGetter | src/main/java/org/apache/ibatis/reflection/Reflector.java:120-177 | a method getter is one of the property's candidates; its type is its return type; unless ambiguous it is the most specific of all candidates; an ambiguous one carries the AmbiguousGetter error |
| ClassDescriptorFacts.SetterLoopOutcome | src/main/java/org/apache/ibatis/reflection/Reflector.java:193-238 | the setter chosen either matches an unambiguous getter type exactly, or, with no ambiguity, has the most specific parameter type of all candidates |
| ClassDescriptorFacts.SetterExactMatchWins | src/main/java/org/apache/ibatis/reflection/Reflector.java:193-216 | the first setter whose parameter type equals the getter type is chosen, even after an earlier ambiguity |
| ClassDescriptorFacts.ResolveSetterKeepsOthers | src/main/java/org/apache/ibatis/reflection/Reflector.java:193-216 | resolving setters changes no property outside the resolved names |
| ClassDescriptorFacts.ResolvedSetter | src/main/java/org/apache/ibatis/reflection/Reflector.java:193-245 | each resolved property is registered as the setter loop decides |
| ClassDescriptorFacts.DescribedSetter | src/main/java/org/apache/ibatis/reflection/Reflector.java:179-245 | a method setter is one of the property's candidates and its type is its parameter type; it matches the getter's return type or is the most specific; an ambiguous one names an unrelated other candidate |
| ClassDescriptorFacts.DescribedExactSetter | src/main/java/org/apache/ibatis/reflection/Reflector.java:193-216 | with an unambiguous method getter, the first setter candidate with the getter's return type is the setter and sets the type |
| ClassDescriptorFacts.DescribedFields | src/main/java/org/apache/ibatis/reflection/Reflector.java:268-303 | every declared field with a valid name is readable, and writable unless final and static; fields never replace accessor methods; no final static field is written; each valid name the accessor methods left without a getter or setter gets the field invoker and type of the first eligible field along the superclass chain |
| ClassDescriptorFacts.DescribedNamesValid | src/main/java/org/apache/ibatis/reflection/Reflector.java:305-307 | no readable or writable property is named class or serialVersionUID, or starts with '$' |
| ClassDescriptorFacts.DescribedRecord | src/main/java/org/apache/ibatis/reflection/Reflector.java:100-103 | a record has no writable properties, and every method without parameters is the getter of the property of its own name |
| ClassDescriptorFacts.IndexLookup | src/main/java/org/apache/ibatis/reflection/Reflector.java:91-97 | a name is in the index exactly when some readable or writable name equals it up to case, and the index answers such a name |
| ClassDescriptorFacts.DescribedFindPropertyName | src/main/java/org/apache/ibatis/reflection/Reflector.java:501-503 | findPropertyName finds exactly the registered names equal up to case and answers with a registered spelling |
| Reflectors.Reflector.constructor | src/main/java/org/apache/ibatis/reflection/Reflector.java:77-98 | the constructed reflector's state is the class's descriptor |
| Reflectors.Reflector.AddAccessors | src/main/java/org/apache/ibatis/reflection/Reflector.java:82-88 | leaves exactly `ClassDescriptors.BuildAccessors` in the four accessor tables: the record getters, or the getters, then setters, then fields |
| Reflectors.Reflector.AddDefaultConstructor | src/main/java/org/apache/ibatis/reflection/Reflector.java:109-114 | records whether the class declares a no-argument constructor and changes nothing else |
| Reflectors.Reflector.GetSignature | src/main/java/org/apache/ibatis/reflection/Reflector.java:353-365 | builds `ClassDescriptors.Signature`: return type, '#', name, then ':' and the parameter types comma-separated |
| Reflectors.Reflector.AddUniqueMethods | src/main/java/org/apache/ibatis/reflection/Reflector.java:339-351 | the loop produces `ClassDescriptors.AddUniqueMethods`, whose first-wins and provenance facts are in `ClassDescriptorFacts` |
| Reflectors.Reflector.GetClassMethods | src/main/java/org/apache/ibatis/reflection/Reflector.java:318-337 | the walk up the hierarchy returns `ClassDescriptors.ClassMethods`, the unique methods of one flat walk (`ClassDescriptorFacts.CollectIsWalk`) |
| Reflectors.Reflector.AddRecordGetMethods | src/main/java/org/apache/ibatis/reflection/Reflector.java:100-103 | updates the tables to `ClassDescriptors.AddRecordGetMethods` and nothing else |
| Reflectors.Reflector.AddGetMethods | src/main/java/org/apache/ibatis/reflection/Reflector.java:120-128 | groups the getter candidates and leaves `ClassDescriptors.ResolveGetterConflicts` of the groups in the tables |
| Reflectors.Reflector.CollectConflicts | src/main/java/org/apache/ibatis/reflection/Reflector.java:120-128 | the grouping loop yields `ClassDescriptors.Conflicts`, each property's candidates in order (`ClassDescriptorFacts.CollectedCandidates`) |
| Reflectors.Reflector.ResolveGetterConflicts | src/main/java/org/apache/ibatis/reflection/Reflector.java:135-167 | the outer loop yields `ClassDescriptors.ResolveGetterConflicts` over all property names |
| Reflectors.Reflector.ResolveGetter | src/main/java/org/apache/ibatis/reflection/Reflector.java:135-167 | one round registers the winner of one property |
| Reflectors.Reflector.PickGetter | src/main/java/org/apache/ibatis/reflection/Reflector.java:137-160 | the candidate loop returns the winner and ambiguity flag of `ClassDescriptors.PickGetter` |
| Reflectors.Reflector.AddGetMethod | src/main/java/org/apache/ibatis/reflection/Reflector.java:169-177 | registers invoker and type as `ClassDescriptors.AddGetMethod` / `AddSetMethod` and changes nothing else |
| Reflectors.Reflector.AddSetMethods | src/main/java/org/apache/ibatis/reflection/Reflector.java:179-184 | groups the setter candidates and leaves `ClassDescriptors.ResolveSetterConflicts` of the groups in the tables |
| Reflectors.Reflector.ResolveSetterConflicts | src/main/java/org/apache/ibatis/reflection/Reflector.java:193-216 | the outer loop yields `ClassDescriptors.ResolveSetterConflicts` over all property names |
| Reflectors.Reflector.ResolveSetters | src/main/java/org/apache/ibatis/reflection/Reflector.java:194-215 | one property's setter loop registers what `ClassDescriptors.SetterLoop` decides |
| Reflectors.Reflector.PickBetterSetter | src/main/java/org/apache/ibatis/reflection/Reflector.java:218-238 | returns the choice of `ClassDescriptors.PickBetterSetter`; for an unrelated pair, registers the failing setter and returns None |
| Reflectors.Reflector.AddSetMethod | src/main/java/org/apache/ibatis/reflection/Reflector.java:240-245 | registers invoker and type as `ClassDescriptors.AddGetMethod` / `AddSetMethod` and changes nothing else |
| Reflectors.Reflector.AddFields | src/main/java/org/apache/ibatis/reflection/Reflector.java:268-287 | the field loop and the superclass recursion yield `ClassDescriptors.AddFields` |
| Reflectors.Reflector.AddSetField | src/main/java/org/apache/ibatis/reflection/Reflector.java:289-295 | adds the field setter as `ClassDescriptors.AddSetField` and changes nothing else |
| Reflectors.Reflector.AddGetField | src/main/java/org/apache/ibatis/reflection/Reflector.java:297-303 | adds the field getter as `ClassDescriptors.AddGetField` and changes nothing else |
| Reflectors.Reflector.AddToIndex | src/main/java/org/apache/ibatis/reflection/Reflector.java:91-97 | the index loops produce `ClassDescriptors.IndexNames` and change nothing else |
| ReflectorFactories.DefaultReflectorFactory.constructor | src/main/java/org/apache/ibatis/reflection/DefaultReflectorFactory.java:25-28 | caching is on and the cache is empty |
| ReflectorFactories.DefaultReflectorFactory.IsClassCacheEnabled | src/main/java/org/apache/ibatis/reflection/DefaultReflectorFactory.java:31-33 | answers the flag |
| ReflectorFactories.DefaultReflectorFactory.SetClassCacheEnabled | src/main/java/org/apache/ibatis/reflection/DefaultReflectorFactory.java:36-38 | sets the flag and leaves the cache alone |
| ReflectorFactories.DefaultReflectorFactory.FindForClass | src/main/java/org/apache/ibatis/reflection/DefaultReflectorFactory.java:46-52 | returns a reflector describing the class; with caching, the cached one, or a new one that is added under the class; without caching, a new one and an unchanged cache |
| ReflectorFactories.RepeatedLookup | src/main/java/org/apache/ibatis/reflection/DefaultReflectorFactory.java:46-52 | two lookups with caching on return the same reflector, add only the class to the cache and replace no entry |
| MetaClasses.DefaultReflectors | src/main/java/org/apache/ibatis/reflection/DefaultReflectorFactory.java:46-52 | the default factory hands out the class's descriptor |
| MetaClasses.MetaClass.ReflectorConsistent | src/main/java/org/apache/ibatis/reflection/Reflector.java:77-98 | the reflector's type tables agree with its invoker tables |
| MetaClasses.MetaClass.ForProperty | src/main/java/org/apache/ibatis/reflection/MetaClass.java:59-62 | the MetaClass of the getter type, failing with the no-getter error exactly when there is no getter |
| MetaClasses.MetaClass.GenericGetterTypeArgs | src/main/java/org/apache/ibatis/reflection/MetaClass.java:177-201 | succeeds exactly when the property has a getter |
| MetaClasses.MetaClass.TokenGetterType | src/main/java/org/apache/ibatis/reflection/MetaClass.java:151-170 | the getter type, or for an indexed segment over a Collection with one resolved type argument that argument; no-getter error exactly when there is no getter |
| MetaClasses.MetaClass.ForToken | src/main/java/org/apache/ibatis/reflection/MetaClass.java:135-138 | succeeds exactly when the segment's name has a getter |
| MetaClasses.MetaClass.GetGetterNames | src/main/java/org/apache/ibatis/reflection/MetaClass.java:93-95 | exactly the names that have a getter |
| MetaClasses.MetaClass.GetSetterNames | src/main/java/org/apache/ibatis/reflection/MetaClass.java:101-103 | exactly the names that have a setter |
| MetaClasses.MetaClass.GetGetInvoker | src/main/java/org/apache/ibatis/reflection/MetaClass.java:250-252 | succeeds exactly when the property has a getter, else the no-getter error |
| MetaClasses.MetaClass.GetSetInvoker | src/main/java/org/apache/ibatis/reflection/MetaClass.java:259-261 | succeeds exactly when the property has a setter, else the no-setter error |
| MetaClasses.MetaClass.HasDefaultConstructor | src/main/java/org/apache/ibatis/reflection/MetaClass.java:291-293 | for the default factory, true exactly when the class declares a no-argument constructor |
| MetaClasses.MetaClass.GetGetterType | src/main/java/org/apache/ibatis/reflection/MetaClass.java:124-133 | a malformed path fails with the tokenizer's error; a plain one-segment name gives the reflector's getter type; a path with a type starts with a readable property |
| MetaClasses.MetaClass.GetSetterType | src/main/java/org/apache/ibatis/reflection/MetaClass.java:110-117 | a malformed path fails with the tokenizer's error; a path with a setter type descends through a readable first property, or is a single writable one |
| MetaClasses.MetaClass.HasGetter | src/main/java/org/apache/ibatis/reflection/MetaClass.java:232-243 | a malformed path fails with the tokenizer's error; a single segment answers whether the reflector has its getter; true only when the first property is readable |
| MetaClasses.MetaClass.HasSetter | src/main/java/org/apache/ibatis/reflection/MetaClass.java:208-225 | a malformed path fails with the tokenizer's error; a single segment answers whether the reflector has its setter; true for a nested path only when the first property is both writable and readable |
| MetaClasses.MetaClass.PropertyPath | src/main/java/org/apache/ibatis/reflection/MetaClass.java:269-289 | a malformed path fails with the tokenizer's error; a single segment never fails; a non-empty result means the first segment (the whole name for a single segment) was found |
| MetaClasses.MetaClass.FindProperty | src/main/java/org/apache/ibatis/reflection/MetaClass.java:69-72 | succeeds exactly when the path is built, and answers null exactly when the built path is empty, else that path |
| MetaClasses.MetaClass.FindPropertyCamelCase | src/main/java/org/apache/ibatis/reflection/MetaClass.java:80-87 | without camel-case mapping, or for a name without '_', it is findProperty of the name; with mapping, the lookup is of a name without '_' |
| MetaClasses.BuildProperty | src/main/java/org/apache/ibatis/reflection/MetaClass.java:269-289 | the builder loop produces the path the recursive definition describes |
| MetaClasses.PathStep | src/main/java/org/apache/ibatis/reflection/MetaClass.java:269-289 | a resolved segment contributes its registered spelling and '.', followed by the walk of the rest in the getter type's MetaClass |
| MetaClasses.GetterTypeIffHasGetter | src/main/java/org/apache/ibatis/reflection/MetaClass.java:124-243 | getGetterType succeeds exactly where hasGetter answers true |
| MetaClasses.HasSetterGivesSetterType | src/main/java/org/apache/ibatis/reflection/MetaClass.java:110-225 | where hasSetter answers true, getSetterType succeeds |
| MetaClasses.HasSetterNeedsIntermediateGetter | src/main/java/org/apache/ibatis/reflection/MetaClass.java:208-225 | a nested path whose first property has a setter but no getter raises the no-getter error instead of answering false |
| MetaClasses.FindPropertySingleSegment | src/main/java/org/apache/ibatis/reflection/MetaClass.java:69-72 | a single segment resolves exactly when a registered name equals it up to case, to that registered spelling |
| MetaClasses.FindPropertyIdempotent | src/main/java/org/apache/ibatis/reflection/MetaClass.java:69-72 | the spelling findProperty returns resolves to itself |
| MetaClasses.CamelCaseIgnoresUnderscores | src/main/java/org/apache/ibatis/reflection/MetaClass.java:80-87 | with camel-case mapping a name and the name stripped of '_' find the same property |
| ObjectFactories.ResolveInterface | src/main/java/org/apache/ibatis/reflection/factory/DefaultObjectFactory.java:107-123 | List, Collection and Iterable give ArrayList, Map gives HashMap, SortedSet TreeSet, Set HashSet, and every other type itself |
| ObjectFactories.ResolvedIsAssignable | src/main/java/org/apache/ibatis/reflection/factory/DefaultObjectFactory.java:107-123 | the class created is assignable to the requested type |
| ObjectFactories.ResolveInterfaceIdempotent | src/main/java/org/apache/ibatis/reflection/factory/DefaultObjectFactory.java:107-123 | resolving twice is resolving once |
| ObjectFactories.ResolvedListIsCollection | src/main/java/org/apache/ibatis/reflection/factory/DefaultObjectFactory.java:109-128 | exactly List, Collection, Iterable and ArrayList resolve to ArrayList, which isCollection accepts |
| ObjectFactories.IsCollection | src/main/java/org/apache/ibatis/reflection/factory/DefaultObjectFactory.java:126-128 | Collection is a collection type, and so is ArrayList when the JDK facts hold; with a transitive subtype relation every subtype of a collection type is one |
| ObjectFactories.InstantiationFailure | src/main/java/org/apache/ibatis/reflection/factory/DefaultObjectFactory.java:95-104 | the failure names the class; a missing type or argument list counts as empty |
| ObjectFactories.SelectConstructor | src/main/java/org/apache/ibatis/reflection/factory/DefaultObjectFactory.java:65-105 | a missing list selects the no-argument constructor; otherwise the constructor with exactly the given types, whose parameters accept the arguments |
| ObjectFactories.Create | src/main/java/org/apache/ibatis/reflection/factory/DefaultObjectFactory.java:50-55 | succeeds exactly when resolveInterface(type) is not abstract and a constructor is selected for it, with one new object of that class at the next address; otherwise fails with the instantiation message, as newInstance throws InstantiationException for an abstract class |
| ObjectFactories.CreateDefault | src/main/java/org/apache/ibatis/reflection/factory/DefaultObjectFactory.java:44-46 | succeeds exactly when the resolved class is not abstract and has a no-argument constructor, and then allocates a fresh object |
| ObjectFactories.CreateDefaultExtends | src/main/java/org/apache/ibatis/reflection/factory/DefaultObjectFactory.java:44-55 | a successful create returns the object at the next address, allocates exactly that one object and keeps every existing object's kind and class |
| BaseWrappers.ParseIndex | src/main/java/org/apache/ibatis/reflection/wrapper/BaseWrapper.java:65-86 | a failed Integer.parseInt reports the index text |
| BaseWrappers.GetCollectionValue | src/main/java/org/apache/ibatis/reflection/wrapper/BaseWrapper.java:61-92 | a Map is read with the raw index as key; a List or array at the parsed position; a bad number or a non-container fails as Java does |
| BaseWrappers.StoreIntoArray | src/main/java/org/apache/ibatis/reflection/wrapper/BaseWrapper.java:104-125 | a successful array store replaces exactly the position and the element type accepts the value |
| BaseWrappers.SetCollectionValue | src/main/java/org/apache/ibatis/reflection/wrapper/BaseWrapper.java:100-132 | succeeds only on a Map, List or array; a bad number or a non-container fails as Java does; a List write replaces and never appends |
| BaseWrappers.CollectionRoundTrip | src/main/java/org/apache/ibatis/reflection/wrapper/BaseWrapper.java:61-132 | after a successful set, getCollectionValue of the same segment returns the value |
| BaseWrappers.CollectionFrame | src/main/java/org/apache/ibatis/reflection/wrapper/BaseWrapper.java:100-132 | only the container changes, keeping its class; a Map changes only the key, a List or array only the in-range position |
| MetaObjects.WrapperFor | src/main/java/org/apache/ibatis/reflection/MetaObject.java:49-59 | wrapper choice in order: already a wrapper, custom factory, Map, Collection, bean |
| MetaObjects.ForObject | src/main/java/org/apache/ibatis/reflection/MetaObject.java:62-68 | the null sentinel exactly for null, otherwise a wrapper of the object as chosen above |
| MetaObjects.MetaObjectForProperty | src/main/java/org/apache/ibatis/reflection/MetaObject.java:144-147 | forObject(getValue(name)), failing exactly when getValue fails |
| MetaObjects.ResolveCollection | src/main/java/org/apache/ibatis/reflection/wrapper/BaseWrapper.java:46-53 | the object itself for an empty name, else getValue of the name |
| MetaObjects.GetValue | src/main/java/org/apache/ibatis/reflection/MetaObject.java:114-125 | a malformed path fails with the tokenizer's error; only map and bean wrappers can be read through |
| MetaObjects.WrapperGet | src/main/java/org/apache/ibatis/reflection/wrapper/BeanWrapper.java:54-63 | foreign wrappers fail, the collection wrapper is unsupported; a map reads the key's value, null for a missing key; a bean is read only through a registered getter (the map wrapper's branch is MapWrapper.java:42-50) |
| MetaObjects.GetGetterType | src/main/java/org/apache/ibatis/reflection/wrapper/BeanWrapper.java:125-136 | only map and bean wrappers answer; a malformed path fails with the tokenizer's error; a map answers every single segment, Object for a missing key; a bean's single segment, or a path below a null first value, is the class metadata's getter type (the map wrapper's branch is MapWrapper.java:101-116) |
| MetaObjects.GetSetterType | src/main/java/org/apache/ibatis/reflection/wrapper/BeanWrapper.java:94-117 | as for getGetterType, with the class metadata's setter type (the map wrapper's branch is MapWrapper.java:80-98) |
| MetaObjects.HasGetter | src/main/java/org/apache/ibatis/reflection/wrapper/BeanWrapper.java:167-182 | only map and bean wrappers answer; a malformed path fails with the tokenizer's error; a map's single segment is whether its name is a key, and a nested path needs its first indexed segment as a key; a bean's single segment, or a path below a null first value, is the class metadata's hasGetter, and a nested path needs a getter for its first indexed segment (the map wrapper's branch is MapWrapper.java:124-139) |
| MetaObjects.HasGetterGivesGetterType | src/main/java/org/apache/ibatis/reflection/MetaObject.java:102-112 | wherever hasGetter answers true, getGetterType succeeds, for maps and beans, through null intermediates and nested objects |
| MetaObjects.GetBeanProperty | src/main/java/org/apache/ibatis/reflection/wrapper/BeanWrapper.java:208-223 | the getter's value; the no-getter error without a getter; the ambiguity error passed through unchanged |
| MetaObjects.HasSetter | src/main/java/org/apache/ibatis/reflection/wrapper/BeanWrapper.java:144-159 | a map wrapper always answers true; other wrappers than map and bean fail; for a bean, a malformed path fails with the tokenizer's error, a single segment is the class metadata's hasSetter, a nested path is true only when its first indexed segment has a setter, and where that segment's value is null the class metadata answers for the whole path (the map wrapper's branch is MapWrapper.java:119-121) |
| MetaObjects.FindProperty | src/main/java/org/apache/ibatis/reflection/MetaObject.java:86-88 | a map wrapper returns the name unchanged; a bean wrapper delegates to the class metadata |
| MetaObjects.GetGetterNames | src/main/java/org/apache/ibatis/reflection/MetaObject.java:90-92 | a map wrapper gives the map's keys; a bean wrapper gives the MetaClass's getter names, exactly the names with a getter; other wrappers fail |
| MetaObjects.GetSetterNames | src/main/java/org/apache/ibatis/reflection/MetaObject.java:94-96 | a map wrapper gives the map's keys; a bean wrapper gives the MetaClass's setter names, exactly the names with a setter; other wrappers fail |
| MetaObjects.IsCollection | src/main/java/org/apache/ibatis/reflection/MetaObject.java:153-155 | true exactly for the collection wrapper; false for map and bean wrappers |
| MetaObjectWrites.MapPut | src/main/java/org/apache/ibatis/reflection/wrapper/MapWrapper.java:53-62 | put replaces the map object's entries with the key bound to the value |
| MetaObjectWrites.SetValue | src/main/java/org/apache/ibatis/reflection/MetaObject.java:127-142 | a malformed path, or a wrapper other than map or bean, fails and leaves the heap unchanged; a failed single-segment write changes nothing |
| MetaObjectWrites.SetValueInstantiates | src/main/java/org/apache/ibatis/reflection/MetaObject.java:129-138 | when the object at the first segment is missing and the value is not null, setValue continues at the rest of the path in the object instantiatePropertyValue creates |
| MetaObjectWrites.WrapperSet | src/main/java/org/apache/ibatis/reflection/wrapper/BeanWrapper.java:66-76 | foreign wrappers fail, the collection wrapper is unsupported; a map accepts every plain key; a bean is written only through a registered setter; no write allocates (the map wrapper's branch is MapWrapper.java:53-62) |
| MetaObjectWrites.InstantiatePropertyValue | src/main/java/org/apache/ibatis/reflection/wrapper/BeanWrapper.java:192-223 | other wrappers than map and bean fail and change nothing; a map always allocates one new HashMap; a bean property without a setter type fails with that error before anything is created (the map wrapper's branch is MapWrapper.java:151-156) |
| MetaObjectWrites.SetBeanProperty | src/main/java/org/apache/ibatis/reflection/wrapper/BeanWrapper.java:225-238 | every failure is "Could not set property" naming the property and the bean's class |
| MetaObjectWrites.SimpleTokenize | src/main/java/org/apache/ibatis/reflection/property/PropertyTokenizer.java:37-52 | a segment without '.' or '[' is its own name with no index or children |
| MetaObjectWrites.SetSimple | src/main/java/org/apache/ibatis/reflection/MetaObject.java:127-142 | setValue on a single segment is the wrapper's set |
| MetaObjectWrites.GetSimple | src/main/java/org/apache/ibatis/reflection/MetaObject.java:114-125 | getValue on a single segment is the wrapper's get |
| MetaObjectWrites.MapSetGetRoundTrip | src/main/java/org/apache/ibatis/reflection/wrapper/MapWrapper.java:42-62 | setting a key succeeds, allocates nothing, changes no other object, keeps the map's class, and getValue reads the value back |
| MetaObjectWrites.BeanSetGetRoundTrip | src/main/java/org/apache/ibatis/reflection/wrapper/BeanWrapper.java:54-76 | through an unambiguous setter that accepts the value, and an unambiguous getter, the write changes only that bean and reads back; a static field is kept per object here (see "## Left out") |
| MetaObjectWrites.BeanSetStores | src/main/java/org/apache/ibatis/reflection/wrapper/BeanWrapper.java:225-238 | an accepted write through an unambiguous setter stores the value in the property's slot |
| MetaObjectWrites.BeanGetReads | src/main/java/org/apache/ibatis/reflection/wrapper/BeanWrapper.java:208-223 | a read through an unambiguous getter returns the property's slot |
| MetaObjectWrites.BeanSetWithoutSetter | src/main/java/org/apache/ibatis/reflection/wrapper/BeanWrapper.java:225-238 | without a setter the write fails with "Could not set property" around the no-setter error and changes nothing |
| MetaObjectWrites.NullIntermediateReadsNull | src/main/java/org/apache/ibatis/reflection/MetaObject.java:119-124 | reading below a null intermediate gives null without error |
| MetaObjectWrites.NullWriteBelowNullIsNoOp | src/main/java/org/apache/ibatis/reflection/MetaObject.java:130-135 | writing null below a null intermediate succeeds and leaves the heap unchanged |
| MetaObjectWrites.MapPutGetterType | src/main/java/org/apache/ibatis/reflection/wrapper/MapWrapper.java:101-116 | after a map write, the key's getter type is the stored value's class, Object for null |
| MetaObjectWrites.AddElement | src/main/java/org/apache/ibatis/reflection/MetaObject.java:157-159 | map and bean wrappers reject add as unsupported |
| MetaObjectWrites.AddAllElements | src/main/java/org/apache/ibatis/reflection/MetaObject.java:161-163 | map and bean wrappers reject addAll as unsupported |
| MetaObjectWrites.NestedMapCreated | src/main/java/org/apache/ibatis/reflection/MetaObject.java:127-142 | writing first.rest on a map missing first creates one HashMap at the next address under first, stores the value under rest, and getValue reads it back |
| MetaObjectWrites.NestedMapWritten | src/main/java/org/apache/ibatis/reflection/MetaObject.java:136-141 | the heap after the nested write: one new object, the map under first holding exactly rest |
| MetaObjectWrites.NestedMapInstantiated | src/main/java/org/apache/ibatis/reflection/wrapper/MapWrapper.java:151-156 | instantiatePropertyValue puts a fresh empty HashMap under the segment and wraps that same map |
| MetaObjectWrites.NestedMapReads | src/main/java/org/apache/ibatis/reflection/MetaObject.java:114-125 | a two-segment read through a map held in a map returns the inner value |
| MetaObjectWrites.WrapperStable | src/main/java/org/apache/ibatis/reflection/MetaObject.java:42-60 | an object's class and wrapper kind survive any heap that only extends the one it was wrapped in |
| MetaObjectWrites.WrapperSetExtends | src/main/java/org/apache/ibatis/reflection/MetaObject.java:139-141 | a single-segment write allocates nothing and keeps every object's kind and class |
| MetaObjectWrites.InstantiateAllocatesOne | src/main/java/org/apache/ibatis/reflection/wrapper/BeanWrapper.java:192-206 | instantiatePropertyValue allocates at most one object, exactly one when it succeeds, and returns a wrapper of it |
| MetaObjectWrites.MapInstantiateAllocatesOne | src/main/java/org/apache/ibatis/reflection/wrapper/MapWrapper.java:151-156 | the map wrapper allocates exactly one object and wraps it |
| MetaObjectWrites.BeanInstantiateAllocatesOne | src/main/java/org/apache/ibatis/reflection/wrapper/BeanWrapper.java:192-206 | the bean wrapper allocates at most one object; on success it wraps the new object |
| MetaObjectWrites.SetValueExtends | src/main/java/org/apache/ibatis/reflection/MetaObject.java:127-142 | setValue only adds objects: every existing object keeps its kind and class, whether or not the write succeeds |
| ExceptionUtil.UnwrapThrowable | src/main/java/org/apache/ibatis/reflection/ExceptionUtil.java:37-50 | the result is not a wrapper and is the throwable with all its wrapper layers peeled |
| ExceptionUtil.Peel | src/main/java/org/apache/ibatis/reflection/ExceptionUtil.java:37-50 | peeling never adds a wrapper layer, and peeling at least as often as there are layers leaves no wrapper |
| ExceptionUtil.PeelStep | src/main/java/org/apache/ibatis/reflection/ExceptionUtil.java:39-45 | each peel removes one wrapper layer |
| ExceptionUtil.PeelAllIdempotent | src/main/java/org/apache/ibatis/reflection/ExceptionUtil.java:37-50 | unwrapping the result again returns it unchanged |
| TokenParsing.CloseEnd | src/main/java/org/apache/ibatis/parsing/GenericTokenParser.java:67-77 | the close token found is -1 or lies inside the text after the expression start |
| TokenParsing.EscapedClose | src/main/java/org/apache/ibatis/parsing/GenericTokenParser.java:73-76 | an escaped close token is kept without its backslash and the search goes on after it |
| TokenParsing.PlainExpression | src/main/java/org/apache/ibatis/parsing/GenericTokenParser.java:69-71 | an unescaped close token ends the expression at the text before it |
| TokenParsing.ScanStep | src/main/java/org/apache/ibatis/parsing/GenericTokenParser.java:53-88 | each round's positions lie inside the text in order |
| TokenParsing.ScanFrom | src/main/java/org/apache/ibatis/parsing/GenericTokenParser.java:40-94 | the only failure is the negative-length append of an escaped open token, so a text without backslashes always parses |
| TokenParsing.LastRound | src/main/java/org/apache/ibatis/parsing/GenericTokenParser.java:88-92 | with no further open token the rest of the text is copied |
| TokenParsing.GenericTokenParser.constructor | src/main/java/org/apache/ibatis/parsing/GenericTokenParser.java:27-31 | stores the two delimiters and the handler |
| TokenParsing.GenericTokenParser.FindClose | src/main/java/org/apache/ibatis/parsing/GenericTokenParser.java:67-77 | the inner loop finds the close token and expression that `TokenParsing.CloseEnd` defines |
| TokenParsing.GenericTokenParser.Round | src/main/java/org/apache/ibatis/parsing/GenericTokenParser.java:53-88 | one round advances, and either fails as the whole scan does or appends the part the scan begins with |
| TokenParsing.GenericTokenParser.Parse | src/main/java/org/apache/ibatis/parsing/GenericTokenParser.java:40-94 | the result is the scan of the whole text |
| TokenParsing.NoTokenUnchanged | src/main/java/org/apache/ibatis/parsing/GenericTokenParser.java:45-48 | a text without an open token comes back unchanged |
| TokenParsing.PlainToken | src/main/java/org/apache/ibatis/parsing/GenericTokenParser.java:54-71 | without backslashes an open token is never escaped and the expression is the text up to the first close token |
| TokenParsing.RerenderingIsIdentity | src/main/java/org/apache/ibatis/parsing/GenericTokenParser.java:40-94 | with a handler that puts the delimiters back, parsing a text without backslashes is the identity: text around and between tokens is copied in order |
| TokenParsing.SingleToken | src/main/java/org/apache/ibatis/parsing/GenericTokenParser.java:60-86 | a text that is one token becomes the handler's answer for its expression |
| TokenParsing.TokenSplices | src/main/java/org/apache/ibatis/parsing/GenericTokenParser.java:65-85 | the pieces of a round put back together give the scanned text |
| VariableTokenHandlers.GetProperty | src/main/java/org/apache/ibatis/parsing/PropertyParser.java:101-103 | the value of a present key, otherwise the default |
| VariableTokenHandlers.VariableTokenHandler.GetPropertyValue | src/main/java/org/apache/ibatis/parsing/PropertyParser.java:101-103 | the default without variables, else the property lookup with default |
| VariableTokenHandlers.VariableTokenHandler.HandleToken | src/main/java/org/apache/ibatis/parsing/PropertyParser.java:115-135 | without variables the placeholder comes back as written; with defaults off, or with defaults on and no separator in the token, a present key gives its value and an absent one the placeholder |
| VariableTokenHandlers.NewVariableTokenHandler | src/main/java/org/apache/ibatis/parsing/PropertyParser.java:95-99 | defaults are on only when the variables enable them; the separator is read from the variables, ":" by default |
| VariableTokenHandlers.LookupWithDefault | src/main/java/org/apache/ibatis/parsing/PropertyParser.java:117-128 | with defaults on, the text before the first separator is the key and the text after it the value used for a missing key |
| PropertyParsing.Parse | src/main/java/org/apache/ibatis/parsing/PropertyParser.java:81-85 | parse is the token parser with "${" and "}" around the variable handler |
| PropertyParsing.NoVariablesUnchanged | src/main/java/org/apache/ibatis/parsing/PropertyParser.java:115-135 | without variables a text without backslashes comes back unchanged |
| PropertyParsing.PlaceholderReplaced | src/main/java/org/apache/ibatis/parsing/PropertyParser.java:129-132 | "${key}" for a defined key becomes its value when defaults are off or the key holds no separator |
| PropertyParsing.PlaceholderToken | src/main/java/org/apache/ibatis/parsing/PropertyParser.java:81-85 | a text that is one "${key}" placeholder, with no "}" in the key and no trailing backslash, becomes the handler's answer for the key |
| PropertyParsing.DefaultApplied | src/main/java/org/apache/ibatis/parsing/PropertyParser.java:117-128 | "${key:default}" for a missing key becomes the default when defaults are on |
| ParamNameResolvers.NewParamNameResolver | src/main/java/org/apache/ibatis/reflection/ParamNameResolver.java:71-117 | the naming loop yields the entries `ParamNameResolvers.NameEntries` defines (their positions and names are proved below) and sets hasParamAnnotation exactly when a non-special parameter carries @Param |
| ParamNameResolvers.IsSpecialParameter | src/main/java/org/apache/ibatis/reflection/ParamNameResolver.java:123-125 | RowBounds and ResultHandler are special; with a transitive subtype relation every subtype of a special type is special too |
| ParamNameResolvers.NameEntriesPositions | src/main/java/org/apache/ibatis/reflection/ParamNameResolver.java:82-116 | the entries are exactly the non-special parameters, keyed by their positions in increasing order |
| ParamNameResolvers.NameEntriesNames | src/main/java/org/apache/ibatis/reflection/ParamNameResolver.java:91-114 | each entry's name is its @Param value, else its actual name when configured, else the count of names given before it |
| ParamNameResolvers.SpecialParameterSkipped | src/main/java/org/apache/ibatis/reflection/ParamNameResolver.java:52-54 | (int a, RowBounds rb, int b) is named {0: "0", 2: "1"} |
| ParamNameResolvers.GetNames | src/main/java/org/apache/ibatis/reflection/ParamNameResolver.java:132-134 | the names in key order, one per entry |
| ParamNameResolvers.GetNamesInPositionOrder | src/main/java/org/apache/ibatis/reflection/ParamNameResolver.java:114-134 | getNames lists the names of exactly the non-special parameters, in position order |
| ParamNameResolvers.GenericNameInjective | src/main/java/org/apache/ibatis/reflection/ParamNameResolver.java:39 | distinct indexes give distinct "param" names |
| ParamNameResolvers.ParamTable | src/main/java/org/apache/ibatis/reflection/ParamNameResolver.java:161-176 | the ParamMap built by the loop is a well-formed table |
| ParamNameResolvers.ParamTableKeys | src/main/java/org/apache/ibatis/reflection/ParamNameResolver.java:161-176 | its keys are exactly the names and the generic names param1..paramN that no parameter already has |
| ParamNameResolvers.ParamTableStep | src/main/java/org/apache/ibatis/reflection/ParamNameResolver.java:166-174 | a round changes no key other than the name and the generic name it puts |
| ParamNameResolvers.GenericNameBound | src/main/java/org/apache/ibatis/reflection/ParamNameResolver.java:166-174 | a generic name no parameter has is bound to its parameter's argument |
| ParamNameResolvers.DeclaredNameBound | src/main/java/org/apache/ibatis/reflection/ParamNameResolver.java:166-174 | a name that no later entry repeats is bound to its own argument, so with distinct names every name is |
| ParamNameResolvers.WrapToMapIfCollection | src/main/java/org/apache/ibatis/reflection/ParamNameResolver.java:194-211 | a non-collection non-array comes back as it is; otherwise a map whose keys are exactly collection (and list) or array, plus the actual name, each bound to the value |
| ParamNameResolvers.PutIfPresent | src/main/java/org/apache/ibatis/reflection/ParamNameResolver.java:200-208 | the name is put only when present |
| ParamNameResolvers.GetNamedParams | src/main/java/org/apache/ibatis/reflection/ParamNameResolver.java:151-177 | the loop produces `ParamNameResolvers.NamedParams`: null without args or names, the single unannotated argument wrapped if needed, else the ParamMap |
| ParamNameResolvers.NamedParamsBindings | src/main/java/org/apache/ibatis/reflection/ParamNameResolver.java:161-176 | in the map case each free generic name, and with distinct names each name, is bound to its argument; the keys are exactly those |
| ParamNameResolvers.SingleParameterUnwrapped | src/main/java/org/apache/ibatis/reflection/ParamNameResolver.java:156-160 | a single unannotated argument that is neither a collection nor an array is passed on as it is |

## Left out

- Java reflection itself (`Class`, `Method`, `Field`, `Constructor`, annotations, generic `Type`s) is replaced by the `Universe` value. `TypeParameterResolver` is not part of this model: resolved getter/setter types and type arguments are data of the universe.
- Getter, setter and constructor bodies are not run. A method getter reads, and a method setter writes, the bean's slot for its property. A constructor allocates an object without state and never throws; only an abstract class refuses instantiation.
- MetaObjectWrites.StoreSlot: field invokers read and write the bean's slot too, and that includes static non-final fields. So a static field is kept separately for each object. In Java, `SetFieldInvoker` on a static field writes the one class-wide value, and every other instance of the class then reads it through `GetFieldInvoker`.
- MetaObjectWrites.BeanSetGetRoundTrip: its "only that bean changes" follows that per-object storage. For a static non-final field, Java changes what every instance of the class reads.
- `Reflector.canControlMemberAccessible`, the accessibility retry in `instantiateClass`, and `isRecord` are left out: a class is a record by a flag of its record.
- HashMap iteration order (conflict maps, key-set arrays, `uniqueMethods.values()`) is modelled as first-insertion order. This fixes one order where Java's depends on hashing; it affects only the order of name arrays and which spelling wins when two names differ only in case.
- `String.toUpperCase(Locale.ENGLISH)` and case-insensitive comparison are modelled on ASCII letters only.
- The heap is a value: `setValue` returns a new heap instead of mutating objects in place. Aliasing between wrappers and their objects is captured by addresses, not by Java object identity of the wrappers.
- `ConcurrentHashMap` and concurrency in `DefaultReflectorFactory` are left out; the factory is a single-threaded class.
- `Object.toString` of an argument in the instantiation failure message is modelled as the class name and address.
- Custom `ObjectWrapperFactory` wrappers are not part of this model: objects that select them (their own `ObjectWrapper`, or a custom factory) are recognised, and every operation on them reports a foreign-wrapper error.
- `CollectionWrapper.add` and `CollectionWrapper.addAll` are not modelled: `MetaObjectWrites.AddElement` and `MetaObjectWrites.AddAllElements` on a collection wrapper report a foreign-wrapper error where Java appends to the collection. The collection wrapper's other operations are modelled: `get`, `set`, `findProperty`, the name and type queries and `hasSetter`/`hasGetter` fail as unsupported, and `isCollection` is true.
- ObjectFactories.Create: inherits the restriction of `ObjectFactories.SelectConstructor` below, so a constructor whose primitive parameter needs a widening conversion of the argument is not found, and the instantiation fails where Java's would succeed.
- ObjectFactories.SelectConstructor: an argument matches a primitive parameter only as that primitive's own wrapper class (Integer for int). Java's reflective call also unboxes and then widens (byte to short, int, long, float, double; short and char to int, long, float, double; int to long, float, double; long to float, double; float to double). Widening would change the stored value's class and text, which this model's scalar values do not compute.
- MetaObjectWrites.SetBeanProperty: a setter or field of primitive type accepts only the primitive's own wrapper, with the same widening conversions missing as for `SelectConstructor`; such a write fails with the illegal-argument error where Java stores the widened value. Writes into arrays (`BaseWrapper.setCollectionValue`) are exact in Java as well and are modelled exactly.
- Each method and field of the universe carries one type per position: the same `ClassId` serves as the erased type (used for signatures and for choosing between getter candidates) and as the type resolved against the described class (recorded in the getter and setter type tables). A generic accessor whose erased and resolved types differ is therefore described with a single type, and a generic superclass inherited with different type arguments by two subclasses cannot be described differently for each.
- `Text.ParseInt` accepts ASCII digits only; Java's `Integer.parseInt` also accepts the decimal digits of other scripts.
- `Classes.SimpleName` keeps everything after the last dot, so a nested class gives `Outer$Inner` where Java's `getSimpleName` gives `Inner`; this affects only the text of the instantiation failure message.
- `BeanWrapper.getBeanProperty`: the wrapping of a checked getter exception as "Could not get property" is left out, because getters never throw here. The ambiguity errors are the only failures and pass through unchanged.
- `ParamNameResolver`: the `Configuration` and the reflective `Method` are given as a flag and a list of parameter declarations. The actual parameter name is a field of each declaration.
- `ParamNameResolvers.GetNamedParams` requires every key of the names map to index the argument array; Java would throw `ArrayIndexOutOfBoundsException` otherwise.
- `ParamNameResolvers.NamedParams`: the ParamMap is a table value, not a heap object. The `BindingException` that `ParamMap.get` raises for a missing key belongs to the caller and is left out.
- `TokenParsing.GenericTokenParser.Parse` requires a non-empty open token. With an empty one the Java method has three outcomes: the empty text returns "" before any search (GenericTokenParser.java:41-43); otherwise every search for the open token finds the current offset, and with a non-empty close token that does not end in '\' a text ending in '\' (such as `a\`) reaches start == offset == its length, where `append(src, offset, -1)` at lines 54-56 throws IndexOutOfBoundsException, while every other text loops forever. A null text is not representable.
- `XNode`, `PropertyCopier`, the invoker classes and the configuration parser of the repository are not part of this model.
