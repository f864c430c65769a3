/** The Reflector class: its constructor inspects a class with loops over the
    class's constructors, methods and fields and fills its tables in place.
    Every step is proved to compute the matching function of
    ClassDescriptors, so a constructed Reflector holds Describe(u, c). */
module Reflectors {
  import opened Results
  import opened Text
  import opened Tables
  import opened Classes
  import PropertyNamer
  import CD = ClassDescriptors

  class Reflector {
    /** The class universe reflection looks into. */
    const universe: Universe
    const classType: ClassId
    var defaultConstructorFound: bool
    var getMethods: Table<CD.Invoker>
    var setMethods: Table<CD.Invoker>
    var getTypes: Table<ClassId>
    var setTypes: Table<ClassId>
    var readablePropertyNames: seq<string>
    var writablePropertyNames: seq<string>
    var caseInsensitivePropertyMap: map<string, string>

    /** The four accessor tables. */
    function Accessors(): CD.Accessors
      reads this
    {
      CD.Accessors(getMethods, setMethods, getTypes, setTypes)
    }

    /** The fields the accessor-filling steps leave alone. */
    function Rest(): (bool, seq<string>, seq<string>, map<string, string>)
      reads this
    {
      (defaultConstructorFound, readablePropertyNames, writablePropertyNames, caseInsensitivePropertyMap)
    }

    /** The reflector's state as a value; its queries are the Descriptor's. */
    function Snapshot(): CD.Descriptor
      reads this
    {
      CD.Descriptor(classType, defaultConstructorFound, Accessors(), caseInsensitivePropertyMap)
    }

    /** The name arrays are the key sets of the accessor tables. */
    ghost predicate Valid()
      reads this
    {
      readablePropertyNames == getMethods.keys && writablePropertyNames == setMethods.keys
    }

    /** This reflector was built for class `c` of `u` and holds its descriptor. */
    ghost predicate Describes(u: Universe, c: ClassId)
      reads this
    {
      universe == u && classType == c && Valid() && Snapshot() == CD.Describe(u, c)
    }

    /** new Reflector(clazz). */
    constructor (u: Universe, c: ClassId)
      ensures Describes(u, c)
    {
      universe := u;
      classType := c;
      defaultConstructorFound := false;
      getMethods := Empty();
      setMethods := Empty();
      getTypes := Empty();
      setTypes := Empty();
      readablePropertyNames := [];
      writablePropertyNames := [];
      caseInsensitivePropertyMap := map[];
      new;
      AddDefaultConstructor();
      var classMethods := GetClassMethods(c);
      AddAccessors(classMethods);
      ghost var acc := CD.BuildAccessors(u, c);
      readablePropertyNames := getMethods.keys;
      writablePropertyNames := setMethods.keys;
      AddToIndex(readablePropertyNames);
      AddToIndex(writablePropertyNames);
      assert Snapshot() == CD.Descriptor(c, [] in Info(u, c).constructors, acc,
                                         CD.IndexNames(CD.IndexNames(map[], acc.getMethods.keys), acc.setMethods.keys));
    }

    /** The middle of the constructor: record components, or getters,
        setters and fields. */
    method AddAccessors(classMethods: seq<Method>)
      requires classMethods == CD.ClassMethods(universe, classType)
      requires Accessors() == CD.NoAccessors()
      modifies this
      ensures Accessors() == CD.BuildAccessors(universe, classType)
      ensures Rest() == old(Rest())
    {
      if Info(universe, classType).isRecord {
        AddRecordGetMethods(classMethods);
      } else {
        AddGetMethods(classMethods);
        AddSetMethods(classMethods);
        AddFields(classType);
      }
    }

    /** Reflector.addDefaultConstructor: looks for a constructor without parameters. */
    method AddDefaultConstructor()
      modifies this
      ensures defaultConstructorFound == (old(defaultConstructorFound) || [] in Info(universe, classType).constructors)
      ensures Accessors() == old(Accessors())
      ensures readablePropertyNames == old(readablePropertyNames) && writablePropertyNames == old(writablePropertyNames)
      ensures caseInsensitivePropertyMap == old(caseInsensitivePropertyMap)
    {
      var constructors := Info(universe, classType).constructors;
      for i := 0 to |constructors|
        invariant defaultConstructorFound == (old(defaultConstructorFound) || [] in constructors[..i])
        invariant Accessors() == old(Accessors())
        invariant readablePropertyNames == old(readablePropertyNames) && writablePropertyNames == old(writablePropertyNames)
        invariant caseInsensitivePropertyMap == old(caseInsensitivePropertyMap)
      {
        assert constructors[..i + 1] == constructors[..i] + [constructors[i]];
        if |constructors[i]| == 0 {
          defaultConstructorFound := true;
        }
      }
      assert constructors[..|constructors|] == constructors;
    }

    /** Reflector.getSignature. */
    method GetSignature(m: Method) returns (signature: string)
      ensures signature == CD.Signature(m)
    {
      signature := m.returnType + "#" + m.name;
      var i := 0;
      while i < |m.paramTypes|
        invariant 0 <= i <= |m.paramTypes|
        invariant signature + CD.ParamSuffix(m.paramTypes, i) == CD.Signature(m)
      {
        var separator := if i == 0 then ':' else ',';
        assert signature + CD.ParamSuffix(m.paramTypes, i)
            == (signature + [separator] + m.paramTypes[i]) + CD.ParamSuffix(m.paramTypes, i + 1);
        signature := signature + [separator] + m.paramTypes[i];
        i := i + 1;
      }
    }

    /** Reflector.addUniqueMethods. */
    method AddUniqueMethods(unique: Table<Method>, methods: seq<Method>) returns (r: Table<Method>)
      ensures r == CD.AddUniqueMethods(unique, methods)
    {
      r := unique;
      for i := 0 to |methods|
        invariant CD.AddUniqueMethods(r, methods[i..]) == CD.AddUniqueMethods(unique, methods)
      {
        assert methods[i..][1..] == methods[i + 1..];
        var current := methods[i];
        if !current.isBridge {
          var signature := GetSignature(current);
          if signature !in r.values {
            r := r.Put(signature, current);
          }
        }
      }
    }

    /** Reflector.getClassMethods: from the class up to Object, its declared
        methods and its interfaces' methods, the first of each signature. */
    method GetClassMethods(c: ClassId) returns (methods: seq<Method>)
      ensures methods == CD.ClassMethods(universe, c)
    {
      var unique: Table<Method> := Empty();
      var current: Option<ClassId> := Some(c);
      while current.Some? && current.value != OBJECT
        invariant CD.SignatureKeyed(unique)
        invariant current.Some? ==> CD.CollectMethods(universe, current.value, unique) == CD.CollectMethods(universe, c, Empty())
        invariant current.None? ==> unique == CD.CollectMethods(universe, c, Empty())
        decreases if current.Some? then Depth(universe, current.value) + 1 else 0
      {
        var info := Info(universe, current.value);
        unique := AddUniqueMethods(unique, info.declaredMethods);
        unique := AddUniqueMethods(unique, info.interfaceMethods);
        current := Superclass(universe, current.value);
      }
      methods := unique.Values();
    }

    /** Reflector.addRecordGetMethods. */
    method AddRecordGetMethods(methods: seq<Method>)
      modifies this
      ensures Accessors() == CD.AddRecordGetMethods(old(Accessors()), methods)
      ensures Rest() == old(Rest())
    {
      for i := 0 to |methods|
        invariant CD.AddRecordGetMethods(Accessors(), methods[i..]) == CD.AddRecordGetMethods(old(Accessors()), methods)
        invariant Rest() == old(Rest())
      {
        assert methods[i..][1..] == methods[i + 1..];
        if |methods[i].paramTypes| == 0 {
          AddGetMethod(methods[i].name, methods[i], false);
        }
      }
    }

    /** Reflector.addGetMethods: the getter candidates grouped by property,
        then resolved. */
    method AddGetMethods(methods: seq<Method>)
      modifies this
      ensures var conflicts := CD.Conflicts(Empty(), methods, true);
        Accessors() == CD.ResolveGetterConflicts(universe, old(Accessors()), conflicts, conflicts.keys)
      ensures Rest() == old(Rest())
    {
      var conflicts := CollectConflicts(methods, true);
      CD.ConflictsWellFormedKept(Empty(), methods, true);
      ResolveGetterConflicts(conflicts);
    }

    /** The stream of addGetMethods and addSetMethods: filter the candidates
        and add each to its property's list. */
    method CollectConflicts(methods: seq<Method>, getters: bool) returns (conflicts: Table<seq<Method>>)
      ensures conflicts == CD.Conflicts(Empty(), methods, getters)
    {
      conflicts := Empty();
      for i := 0 to |methods|
        invariant CD.Conflicts(conflicts, methods[i..], getters) == CD.Conflicts(Empty(), methods, getters)
      {
        assert methods[i..][1..] == methods[i + 1..];
        var m := methods[i];
        var isCandidate :=
          if getters then |m.paramTypes| == 0 && PropertyNamer.IsGetter(m.name)
          else |m.paramTypes| == 1 && PropertyNamer.IsSetter(m.name);
        if isCandidate {
          var property := PropertyNamer.MethodToProperty(m.name);
          if property.Ok? {
            conflicts := CD.AddMethodConflict(conflicts, property.value, m);
          }
        }
      }
    }

    /** Reflector.resolveGetterConflicts. */
    method ResolveGetterConflicts(conflicts: Table<seq<Method>>)
      requires conflicts.Valid() && forall p :: p in conflicts.values ==> conflicts.values[p] != []
      modifies this
      ensures Accessors() == CD.ResolveGetterConflicts(universe, old(Accessors()), conflicts, conflicts.keys)
      ensures Rest() == old(Rest())
    {
      var names := conflicts.keys;
      while names != []
        invariant forall p :: p in names ==> p in conflicts.values
        invariant CD.ResolveGetterConflicts(universe, Accessors(), conflicts, names)
               == CD.ResolveGetterConflicts(universe, old(Accessors()), conflicts, conflicts.keys)
        invariant Rest() == old(Rest())
      {
        ResolveGetter(conflicts, names);
        names := names[1..];
      }
    }

    /** One round of resolveGetterConflicts: the winner for the first name. */
    method ResolveGetter(conflicts: Table<seq<Method>>, names: seq<string>)
      requires names != [] && names[0] in conflicts.values && conflicts.values[names[0]] != []
      modifies this
      ensures CD.ResolveGetterConflicts(universe, old(Accessors()), conflicts, names)
           == CD.ResolveGetterConflicts(universe, Accessors(), conflicts, names[1..])
      ensures Rest() == old(Rest())
    {
      var propName := names[0];
      var candidates := conflicts.values[propName];
      var winner, isAmbiguous := PickGetter(candidates);
      AddGetMethod(propName, winner, isAmbiguous);
    }

    /** The candidate loop of resolveGetterConflicts. */
    method PickGetter(candidates: seq<Method>) returns (winner: Method, isAmbiguous: bool)
      requires |candidates| > 0
      ensures (winner, isAmbiguous) == CD.PickGetter(universe, candidates[0], candidates[1..])
    {
      var best: Option<Method> := None;
      isAmbiguous := false;
      var j := 0;
      while j < |candidates|
        invariant 0 <= j <= |candidates|
        invariant best.None? <==> j == 0
        invariant j > 0 ==> CD.PickGetter(universe, best.value, candidates[j..]) == CD.PickGetter(universe, candidates[0], candidates[1..])
        invariant !isAmbiguous
      {
        var candidate := candidates[j];
        if best.None? {
          best := Some(candidate);
          j := j + 1;
          continue;
        }
        assert candidates[j..][1..] == candidates[j + 1..];
        var winnerType := best.value.returnType;
        var candidateType := candidate.returnType;
        if candidateType == winnerType {
          if candidateType != BOOLEAN {
            isAmbiguous := true;
            break;
          }
          if StartsWith(candidate.name, "is") {
            best := Some(candidate);
          }
        } else if IsAssignableFrom(universe, candidateType, winnerType) {
        } else if IsAssignableFrom(universe, winnerType, candidateType) {
          best := Some(candidate);
        } else {
          isAmbiguous := true;
          break;
        }
        j := j + 1;
      }
      winner := best.value;
    }

    /** Reflector.addGetMethod. */
    method AddGetMethod(name: string, m: Method, isAmbiguous: bool)
      modifies this
      ensures Accessors() == CD.AddGetMethod(old(Accessors()), name, m, isAmbiguous)
      ensures Rest() == old(Rest())
    {
      var invoker :=
        if isAmbiguous then CD.AmbiguousMethodInvoker(m, AmbiguousGetter(name, m.declaringClass))
        else CD.MethodInvoker(m);
      getMethods := getMethods.Put(name, invoker);
      getTypes := getTypes.Put(name, m.returnType);
    }

    /** Reflector.addSetMethods. */
    method AddSetMethods(methods: seq<Method>)
      modifies this
      ensures var conflicts := CD.Conflicts(Empty(), methods, false);
        Accessors() == CD.ResolveSetterConflicts(universe, old(Accessors()), conflicts, conflicts.keys)
      ensures Rest() == old(Rest())
    {
      var conflicts := CollectConflicts(methods, false);
      CD.ConflictsWellFormedKept(Empty(), methods, false);
      ResolveSetterConflicts(conflicts);
    }

    /** Reflector.resolveSetterConflicts. */
    method ResolveSetterConflicts(conflicts: Table<seq<Method>>)
      requires conflicts.Valid()
      modifies this
      ensures Accessors() == CD.ResolveSetterConflicts(universe, old(Accessors()), conflicts, conflicts.keys)
      ensures Rest() == old(Rest())
    {
      var names := conflicts.keys;
      for i := 0 to |names|
        invariant CD.ResolveSetterConflicts(universe, Accessors(), conflicts, names[i..])
               == CD.ResolveSetterConflicts(universe, old(Accessors()), conflicts, names)
        invariant Rest() == old(Rest())
      {
        assert names[i..][1..] == names[i + 1..];
        var propName := names[i];
        ResolveSetters(propName, conflicts.values[propName]);
      }
    }

    /** The body of resolveSetterConflicts for one property. */
    method ResolveSetters(propName: string, setters: seq<Method>)
      modifies this
      ensures var acc := old(Accessors());
        Accessors() == CD.RegisterSetter(acc, propName,
          CD.SetterLoop(universe, acc.getTypes.Get(propName), CD.GetterIsAmbiguous(acc, propName), None, None, false, setters))
      ensures Rest() == old(Rest())
    {
      var getterType := getTypes.Get(propName);
      var isGetterAmbiguous := propName in getMethods.values && getMethods.values[propName].AmbiguousMethodInvoker?;
      var isSetterAmbiguous := false;
      var matched: Option<Method> := None;
      ghost var acc := Accessors();
      ghost var unrelated: Option<(Method, Method)> := None;
      ghost var goal := CD.SetterLoop(universe, getterType, isGetterAmbiguous, None, None, false, setters);
      var j := 0;
      while j < |setters|
        invariant 0 <= j <= |setters|
        invariant CD.SetterLoop(universe, getterType, isGetterAmbiguous, matched, unrelated, isSetterAmbiguous, setters[j..]) == goal
        invariant Accessors() == CD.RegisterSetter(acc, propName, (None, unrelated))
        invariant !isSetterAmbiguous ==> unrelated.None? && Accessors() == acc
        invariant Rest() == old(Rest())
      {
        assert setters[j..][1..] == setters[j + 1..];
        var setter := setters[j];
        if !isGetterAmbiguous && getterType == Some(CD.ParamType(setter)) {
          matched := Some(setter);
          break;
        }
        if !isSetterAmbiguous {
          ghost var choice := CD.PickBetterSetter(universe, matched, setter);
          matched := PickBetterSetter(matched, setter, propName);
          isSetterAmbiguous := matched.None?;
          if isSetterAmbiguous {
            unrelated := Some((choice.setter1, choice.setter2));
            assert Accessors() == CD.AddAmbiguousSetter(acc, propName, choice.setter1, choice.setter2);
          }
        }
        j := j + 1;
      }
      if matched.Some? {
        AddSetMethod(propName, matched.value);
      }
    }

    /** Reflector.pickBetterSetter: the setter with the narrower parameter
        type; for unrelated types it registers an ambiguous setter and
        returns None for Java's null. */
    method PickBetterSetter(setter1: Option<Method>, setter2: Method, property: string) returns (r: Option<Method>)
      modifies this
      ensures var choice := CD.PickBetterSetter(universe, setter1, setter2);
        && (choice.Picked? ==> r == Some(choice.setter) && Accessors() == old(Accessors()))
        && (choice.Unrelated? ==>
              r.None? && Accessors() == CD.AddAmbiguousSetter(old(Accessors()), property, choice.setter1, choice.setter2))
      ensures Rest() == old(Rest())
    {
      if setter1.None? {
        return Some(setter2);
      }
      var paramType1 := CD.ParamType(setter1.value);
      var paramType2 := CD.ParamType(setter2);
      if IsAssignableFrom(universe, paramType1, paramType2) {
        return Some(setter2);
      }
      if IsAssignableFrom(universe, paramType2, paramType1) {
        return setter1;
      }
      setMethods := setMethods.Put(property, CD.UnrelatedSetterInvoker(property, setter1.value, setter2));
      setTypes := setTypes.Put(property, paramType1);
      return None;
    }

    /** Reflector.addSetMethod. */
    method AddSetMethod(name: string, m: Method)
      modifies this
      ensures Accessors() == CD.AddSetMethod(old(Accessors()), name, m)
      ensures Rest() == old(Rest())
    {
      setMethods := setMethods.Put(name, CD.MethodInvoker(m));
      setTypes := setTypes.Put(name, CD.ParamType(m));
    }

    /** Reflector.addFields: the class's declared fields, then its superclass's. */
    method AddFields(c: ClassId)
      modifies this
      ensures Accessors() == CD.AddFields(universe, c, old(Accessors()))
      ensures Rest() == old(Rest())
      decreases Depth(universe, c)
    {
      var fields := Info(universe, c).declaredFields;
      for i := 0 to |fields|
        invariant CD.AddDeclaredFields(Accessors(), fields[i..]) == CD.AddDeclaredFields(old(Accessors()), fields)
        invariant Rest() == old(Rest())
      {
        assert fields[i..][1..] == fields[i + 1..];
        var field := fields[i];
        if field.name !in setMethods.values {
          if !field.isFinal || !field.isStatic {
            AddSetField(field);
          }
        }
        if field.name !in getMethods.values {
          AddGetField(field);
        }
      }
      var superclass := Superclass(universe, c);
      if superclass.Some? {
        AddFields(superclass.value);
      }
    }

    /** Reflector.addSetField. */
    method AddSetField(field: Field)
      requires field.name !in setMethods.values && !(field.isFinal && field.isStatic)
      modifies this
      ensures Accessors() == CD.AddSetField(old(Accessors()), field)
      ensures Rest() == old(Rest())
    {
      if CD.IsValidPropertyName(field.name) {
        setMethods := setMethods.Put(field.name, CD.SetFieldInvoker(field));
        setTypes := setTypes.Put(field.name, field.fieldType);
      }
    }

    /** Reflector.addGetField. */
    method AddGetField(field: Field)
      requires field.name !in getMethods.values
      modifies this
      ensures Accessors() == CD.AddGetField(old(Accessors()), field)
      ensures Rest() == old(Rest())
    {
      if CD.IsValidPropertyName(field.name) {
        getMethods := getMethods.Put(field.name, CD.GetFieldInvoker(field));
        getTypes := getTypes.Put(field.name, field.fieldType);
      }
    }

    /** A loop at the end of the constructor: each name under its upper-case form. */
    method AddToIndex(names: seq<string>)
      modifies this
      ensures caseInsensitivePropertyMap == CD.IndexNames(old(caseInsensitivePropertyMap), names)
      ensures Accessors() == old(Accessors()) && defaultConstructorFound == old(defaultConstructorFound)
      ensures readablePropertyNames == old(readablePropertyNames) && writablePropertyNames == old(writablePropertyNames)
    {
      for i := 0 to |names|
        invariant CD.IndexNames(caseInsensitivePropertyMap, names[i..]) == CD.IndexNames(old(caseInsensitivePropertyMap), names)
        invariant Accessors() == old(Accessors()) && defaultConstructorFound == old(defaultConstructorFound)
        invariant readablePropertyNames == old(readablePropertyNames) && writablePropertyNames == old(writablePropertyNames)
      {
        assert names[i..][1..] == names[i + 1..];
        caseInsensitivePropertyMap := caseInsensitivePropertyMap[ToUpper(names[i]) := names[i]];
      }
    }
  }
}
