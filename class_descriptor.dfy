/** What the Reflector constructor computes for a class, as functions: the
    collected methods, the getters and setters chosen per property, the field
    accessors added where no accessor method exists, and the case-insensitive
    name index.  The Reflector class builds the same tables step by step. */
module ClassDescriptors {
  import opened Results
  import opened Text
  import opened Tables
  import opened Classes
  import PropertyNamer

  /** How a registered property is read or written. */
  datatype Invoker =
    | MethodInvoker(target: Method)
    | AmbiguousMethodInvoker(target: Method, error: Error)
    | GetFieldInvoker(field: Field)
    | SetFieldInvoker(field: Field)

  /** Reflector.isValidPropertyName: neither a name starting with '$' (a
      compiler-generated member) nor serialVersionUID nor class. */
  predicate IsValidPropertyName(name: string)
    ensures IsValidPropertyName(name) <==>
      (name == [] || name[0] != '$') && name != "serialVersionUID" && name != "class"
  {
    !StartsWith(name, "$") && name != "serialVersionUID" && name != "class"
  }

  // ---------------------------------------------------------------------------
  // Method collection

  /** The parameter part of a signature from parameter `i` on: ':' before the
      first parameter, ',' before the others. */
  function ParamSuffix(params: seq<ClassId>, i: nat): string
    decreases |params| - i
  {
    if i >= |params| then ""
    else [if i == 0 then ':' else ','] + params[i] + ParamSuffix(params, i + 1)
  }

  /** Reflector.getSignature: `returnType#name:param1,param2`. */
  function Signature(m: Method): string {
    m.returnType + "#" + m.name + ParamSuffix(m.paramTypes, 0)
  }

  /** Every entry sits under its own signature and no bridge method is kept. */
  ghost predicate SignatureKeyed(t: Table<Method>) {
    t.Valid() && forall k :: k in t.values ==> Signature(t.values[k]) == k && !t.values[k].isBridge
  }

  /** One step of addUniqueMethods: bridge methods and already-known signatures
      are skipped. */
  function AddUnique(unique: Table<Method>, m: Method): Table<Method> {
    if m.isBridge || Signature(m) in unique.values then unique else unique.Put(Signature(m), m)
  }

  /** Reflector.addUniqueMethods. */
  function AddUniqueMethods(unique: Table<Method>, methods: seq<Method>): (r: Table<Method>)
    ensures SignatureKeyed(unique) ==> SignatureKeyed(r)
    decreases |methods|
  {
    if methods == [] then unique else AddUniqueMethods(AddUnique(unique, methods[0]), methods[1..])
  }

  /** The loop of getClassMethods from class `c` upwards, stopping at Object. */
  function CollectMethods(u: Universe, c: ClassId, unique: Table<Method>): (r: Table<Method>)
    ensures SignatureKeyed(unique) ==> SignatureKeyed(r)
    decreases Depth(u, c)
  {
    if c == OBJECT then unique
    else
      var info := Info(u, c);
      var t := AddUniqueMethods(AddUniqueMethods(unique, info.declaredMethods), info.interfaceMethods);
      match Superclass(u, c)
      case None => t
      case Some(s) => CollectMethods(u, s, t)
  }

  /** Reflector.getClassMethods. */
  function ClassMethods(u: Universe, c: ClassId): (r: seq<Method>)
    ensures forall i :: 0 <= i < |r| ==> !r[i].isBridge
    ensures forall i, j :: 0 <= i < j < |r| ==> Signature(r[i]) != Signature(r[j])
  {
    CollectMethods(u, c, Empty()).Values()
  }

  // ---------------------------------------------------------------------------
  // Getters and setters grouped by property

  predicate IsGetterCandidate(m: Method) {
    |m.paramTypes| == 0 && PropertyNamer.IsGetter(m.name)
  }

  predicate IsSetterCandidate(m: Method) {
    |m.paramTypes| == 1 && PropertyNamer.IsSetter(m.name)
  }

  /** Reflector.addMethodConflict: the method joins the list of its property,
      unless the property name is reserved. */
  function AddMethodConflict(conflicts: Table<seq<Method>>, name: string, m: Method): Table<seq<Method>> {
    if IsValidPropertyName(name) then conflicts.Put(name, conflicts.Get(name).GetOr([]) + [m]) else conflicts
  }

  predicate IsCandidate(m: Method, getters: bool) {
    if getters then IsGetterCandidate(m) else IsSetterCandidate(m)
  }

  /** Every list sits under a usable property name and holds only candidates
      named after that property. */
  ghost predicate ConflictsWellFormed(conflicts: Table<seq<Method>>, getters: bool) {
    && conflicts.Valid()
    && forall p :: p in conflicts.values ==>
         && IsValidPropertyName(p)
         && |conflicts.values[p]| > 0
         && forall m :: m in conflicts.values[p] ==> IsCandidate(m, getters) && PropertyNamer.MethodToProperty(m.name) == Ok(p)
  }

  lemma AddMethodConflictWellFormed(conflicts: Table<seq<Method>>, name: string, m: Method, getters: bool)
    requires ConflictsWellFormed(conflicts, getters)
    requires IsCandidate(m, getters) && PropertyNamer.MethodToProperty(m.name) == Ok(name)
    ensures ConflictsWellFormed(AddMethodConflict(conflicts, name, m), getters)
  {
    if IsValidPropertyName(name) {
      var r := AddMethodConflict(conflicts, name, m);
      var list := conflicts.Get(name).GetOr([]) + [m];
      assert r.values == conflicts.values[name := list];
      forall p | p in r.values
        ensures forall x :: x in r.values[p] ==> IsCandidate(x, getters) && PropertyNamer.MethodToProperty(x.name) == Ok(p)
      {
        if p == name {
          forall x | x in list
            ensures IsCandidate(x, getters) && PropertyNamer.MethodToProperty(x.name) == Ok(p)
          {
            if x != m {
              assert x in conflicts.values[name];
            }
          }
        }
      }
    }
  }

  /** The conflict lists of addGetMethods (getters = true) or addSetMethods. */
  function Conflicts(conflicts: Table<seq<Method>>, methods: seq<Method>, getters: bool): (r: Table<seq<Method>>)
    ensures conflicts.Valid() ==> r.Valid()
    decreases |methods|
  {
    if methods == [] then conflicts
    else Conflicts(ConflictStep(conflicts, methods[0], getters), methods[1..], getters)
  }

  /** One method of the filter-and-collect pass. */
  function ConflictStep(conflicts: Table<seq<Method>>, m: Method, getters: bool): Table<seq<Method>> {
    if !IsCandidate(m, getters) then conflicts
    else match PropertyNamer.MethodToProperty(m.name)
      case Ok(p) => AddMethodConflict(conflicts, p, m)
      case Err(_) => conflicts
  }

  lemma {:induction false} ConflictsWellFormedKept(conflicts: Table<seq<Method>>, methods: seq<Method>, getters: bool)
    requires ConflictsWellFormed(conflicts, getters)
    ensures ConflictsWellFormed(Conflicts(conflicts, methods, getters), getters)
    decreases |methods|
  {
    if methods != [] {
      var m := methods[0];
      if IsCandidate(m, getters) && PropertyNamer.MethodToProperty(m.name).Ok? {
        AddMethodConflictWellFormed(conflicts, PropertyNamer.MethodToProperty(m.name).value, m, getters);
      }
      ConflictsWellFormedKept(ConflictStep(conflicts, m, getters), methods[1..], getters);
    }
  }

  // ---------------------------------------------------------------------------
  // Getter conflicts

  /** The loop of resolveGetterConflicts after the first candidate: the winner
      so far, and whether the property turned out ambiguous. */
  function PickGetter(u: Universe, winner: Method, rest: seq<Method>): (r: (Method, bool))
    ensures r.0 == winner || r.0 in rest
    decreases |rest|
  {
    if rest == [] then (winner, false)
    else
      var candidate := rest[0];
      if candidate.returnType == winner.returnType then
        if candidate.returnType != BOOLEAN then (winner, true)
        else if StartsWith(candidate.name, "is") then PickGetter(u, candidate, rest[1..])
        else PickGetter(u, winner, rest[1..])
      else if IsAssignableFrom(u, candidate.returnType, winner.returnType) then PickGetter(u, winner, rest[1..])
      else if IsAssignableFrom(u, winner.returnType, candidate.returnType) then PickGetter(u, candidate, rest[1..])
      else (winner, true)
  }

  /** The tables the constructor fills. */
  datatype Accessors = Accessors(
    getMethods: Table<Invoker>,
    setMethods: Table<Invoker>,
    getTypes: Table<ClassId>,
    setTypes: Table<ClassId>)

  /** Every table is well formed, and each accessor table has its type table's keys. */
  ghost predicate Aligned(acc: Accessors) {
    && acc.getMethods.Valid() && acc.setMethods.Valid() && acc.getTypes.Valid() && acc.setTypes.Valid()
    && acc.getTypes.keys == acc.getMethods.keys
    && acc.setTypes.keys == acc.setMethods.keys
  }

  /** No reserved name is registered. */
  ghost predicate NamesValid(acc: Accessors) {
    && (forall k :: k in acc.getMethods.values ==> IsValidPropertyName(k))
    && (forall k :: k in acc.setMethods.values ==> IsValidPropertyName(k))
  }

  /** No field that is both final and static is written through a field setter. */
  ghost predicate FieldSettersWritable(acc: Accessors) {
    forall k :: k in acc.setMethods.values && acc.setMethods.values[k].SetFieldInvoker? ==>
      !(acc.setMethods.values[k].field.isFinal && acc.setMethods.values[k].field.isStatic)
  }

  function NoAccessors(): (acc: Accessors)
    ensures Aligned(acc) && NamesValid(acc) && FieldSettersWritable(acc)
  {
    Accessors(Empty(), Empty(), Empty(), Empty())
  }

  /** Reflector.addGetMethod. */
  function AddGetMethod(acc: Accessors, name: string, m: Method, isAmbiguous: bool): (r: Accessors)
    ensures r.setMethods == acc.setMethods && r.setTypes == acc.setTypes
    ensures Aligned(acc) ==> Aligned(r)
  {
    var invoker := if isAmbiguous then AmbiguousMethodInvoker(m, AmbiguousGetter(name, m.declaringClass)) else MethodInvoker(m);
    acc.(getMethods := acc.getMethods.Put(name, invoker), getTypes := acc.getTypes.Put(name, m.returnType))
  }

  /** Reflector.resolveGetterConflicts over the properties `names`. */
  function ResolveGetterConflicts(u: Universe, acc: Accessors, conflicts: Table<seq<Method>>, names: seq<string>): (r: Accessors)
    ensures r.setMethods == acc.setMethods && r.setTypes == acc.setTypes
    ensures Aligned(acc) ==> Aligned(r)
    decreases |names|
  {
    if names == [] then acc
    else
      var candidates := conflicts.Get(names[0]).GetOr([]);
      var next :=
        if candidates == [] then acc
        else
          var (winner, isAmbiguous) := PickGetter(u, candidates[0], candidates[1..]);
          AddGetMethod(acc, names[0], winner, isAmbiguous);
      ResolveGetterConflicts(u, next, conflicts, names[1..])
  }

  // ---------------------------------------------------------------------------
  // Setter conflicts

  /** The type of a setter's only parameter. */
  function ParamType(m: Method): ClassId {
    if |m.paramTypes| > 0 then m.paramTypes[0] else OBJECT
  }

  /** What pickBetterSetter decides: a setter, or that the two are unrelated. */
  datatype SetterChoice = Picked(setter: Method) | Unrelated(setter1: Method, setter2: Method)

  /** Reflector.pickBetterSetter: the setter with the narrower parameter type. */
  function PickBetterSetter(u: Universe, setter1: Option<Method>, setter2: Method): (r: SetterChoice)
    ensures r.Picked? ==> r.setter == setter2 || setter1 == Some(r.setter)
    ensures r.Unrelated? ==> setter1 == Some(r.setter1) && r.setter2 == setter2
    ensures r.Picked? ==> IsAssignableFrom(u, ParamType(setter2), ParamType(r.setter))
    ensures r.Picked? && setter1.Some? ==> IsAssignableFrom(u, ParamType(setter1.value), ParamType(r.setter))
    ensures r.Unrelated? ==>
      !IsAssignableFrom(u, ParamType(r.setter1), ParamType(setter2)) && !IsAssignableFrom(u, ParamType(setter2), ParamType(r.setter1))
  {
    if setter1.None? then Picked(setter2)
    else if IsAssignableFrom(u, ParamType(setter1.value), ParamType(setter2)) then Picked(setter2)
    else if IsAssignableFrom(u, ParamType(setter2), ParamType(setter1.value)) then Picked(setter1.value)
    else Unrelated(setter1.value, setter2)
  }

  /** The loop of resolveSetterConflicts for one property: the setter matched
      so far, the unrelated pair pickBetterSetter registered (if any), and
      whether the setters became ambiguous. */
  function SetterLoop(u: Universe, getterType: Option<ClassId>, getterAmbiguous: bool,
                      matched: Option<Method>, unrelated: Option<(Method, Method)>, setterAmbiguous: bool,
                      setters: seq<Method>): (r: (Option<Method>, Option<(Method, Method)>))
    ensures r.0.Some? ==> r.0.value in setters || r.0 == matched
    ensures r.1.Some? && r.1 != unrelated ==>
      && r.1.value.1 in setters && (r.1.value.0 in setters || matched == Some(r.1.value.0))
      && !IsAssignableFrom(u, ParamType(r.1.value.0), ParamType(r.1.value.1))
      && !IsAssignableFrom(u, ParamType(r.1.value.1), ParamType(r.1.value.0))
    decreases |setters|
  {
    if setters == [] then (matched, unrelated)
    else
      var setter := setters[0];
      if !getterAmbiguous && getterType == Some(ParamType(setter)) then (Some(setter), unrelated)
      else if setterAmbiguous then SetterLoop(u, getterType, getterAmbiguous, matched, unrelated, true, setters[1..])
      else match PickBetterSetter(u, matched, setter)
        case Picked(m) => SetterLoop(u, getterType, getterAmbiguous, Some(m), unrelated, false, setters[1..])
        case Unrelated(s1, s2) => SetterLoop(u, getterType, getterAmbiguous, None, Some((s1, s2)), true, setters[1..])
  }

  /** The invoker pickBetterSetter registers for two unrelated setters. */
  function UnrelatedSetterInvoker(name: string, s1: Method, s2: Method): Invoker {
    AmbiguousMethodInvoker(s1, AmbiguousSetters(name, s2.declaringClass, ParamType(s1), ParamType(s2)))
  }

  /** The write pickBetterSetter makes for two unrelated setters. */
  function AddAmbiguousSetter(acc: Accessors, name: string, s1: Method, s2: Method): (r: Accessors)
    ensures r.getMethods == acc.getMethods && r.getTypes == acc.getTypes
    ensures Aligned(acc) ==> Aligned(r)
    ensures FieldSettersWritable(acc) ==> FieldSettersWritable(r)
  {
    acc.(setMethods := acc.setMethods.Put(name, UnrelatedSetterInvoker(name, s1, s2)),
         setTypes := acc.setTypes.Put(name, ParamType(s1)))
  }

  /** Reflector.addSetMethod. */
  function AddSetMethod(acc: Accessors, name: string, m: Method): (r: Accessors)
    ensures r.getMethods == acc.getMethods && r.getTypes == acc.getTypes
    ensures Aligned(acc) ==> Aligned(r)
    ensures FieldSettersWritable(acc) ==> FieldSettersWritable(r)
  {
    acc.(setMethods := acc.setMethods.Put(name, MethodInvoker(m)), setTypes := acc.setTypes.Put(name, ParamType(m)))
  }

  /** The writes of one property's setter resolution, in the order Java makes
      them: the entry of pickBetterSetter for an unrelated pair, then
      addSetMethod for the match. */
  function RegisterSetter(acc: Accessors, name: string, outcome: (Option<Method>, Option<(Method, Method)>)): (r: Accessors)
    ensures r.getMethods == acc.getMethods && r.getTypes == acc.getTypes
    ensures Aligned(acc) ==> Aligned(r)
    ensures FieldSettersWritable(acc) ==> FieldSettersWritable(r)
  {
    var (matched, unrelated) := outcome;
    var withPair := if unrelated.None? then acc else AddAmbiguousSetter(acc, name, unrelated.value.0, unrelated.value.1);
    if matched.None? then withPair else AddSetMethod(withPair, name, matched.value)
  }

  /** Whether the getter registered for `name` is marked ambiguous. */
  predicate GetterIsAmbiguous(acc: Accessors, name: string) {
    name in acc.getMethods.values && acc.getMethods.values[name].AmbiguousMethodInvoker?
  }

  /** Reflector.resolveSetterConflicts over the properties `names`. */
  function ResolveSetterConflicts(u: Universe, acc: Accessors, conflicts: Table<seq<Method>>, names: seq<string>): (r: Accessors)
    ensures r.getMethods == acc.getMethods && r.getTypes == acc.getTypes
    ensures Aligned(acc) ==> Aligned(r)
    ensures FieldSettersWritable(acc) ==> FieldSettersWritable(r)
    decreases |names|
  {
    if names == [] then acc
    else
      var name := names[0];
      var outcome := SetterLoop(u, acc.getTypes.Get(name), GetterIsAmbiguous(acc, name), None, None, false,
                                conflicts.Get(name).GetOr([]));
      ResolveSetterConflicts(u, RegisterSetter(acc, name, outcome), conflicts, names[1..])
  }

  // ---------------------------------------------------------------------------
  // Fields and records

  /** `r` keeps every entry of `acc` and adds only field invokers. */
  ghost predicate AddsFieldInvokersOnly(acc: Accessors, r: Accessors) {
    && (forall k :: k in acc.getMethods.values ==>
          k in r.getMethods.values && r.getMethods.values[k] == acc.getMethods.values[k] && r.getTypes.Get(k) == acc.getTypes.Get(k))
    && (forall k :: k in acc.setMethods.values ==>
          k in r.setMethods.values && r.setMethods.values[k] == acc.setMethods.values[k] && r.setTypes.Get(k) == acc.setTypes.Get(k))
    && (forall k :: k in r.getMethods.values && k !in acc.getMethods.values ==> r.getMethods.values[k].GetFieldInvoker?)
    && (forall k :: k in r.setMethods.values && k !in acc.setMethods.values ==> r.setMethods.values[k].SetFieldInvoker?)
  }

  /** The first of `fields` named `n`; when `settable`, the first such field
      that is not both final and static, since addFields gives those no setter. */
  function FirstField(fields: seq<Field>, n: string, settable: bool): (r: Option<Field>)
    ensures r.Some? ==> r.value in fields && r.value.name == n && !(settable && r.value.isFinal && r.value.isStatic)
    ensures r.None? ==> forall f :: f in fields && f.name == n ==> settable && f.isFinal && f.isStatic
    decreases |fields|
  {
    if fields == [] then None
    else if fields[0].name == n && !(settable && fields[0].isFinal && fields[0].isStatic) then Some(fields[0])
    else FirstField(fields[1..], n, settable)
  }

  /** The first eligible field of `a + b` comes from `a` when `a` has one. */
  lemma {:induction false} FirstFieldConcat(a: seq<Field>, b: seq<Field>, n: string, settable: bool)
    ensures FirstField(a + b, n, settable) == if FirstField(a, n, settable).Some? then FirstField(a, n, settable) else FirstField(b, n, settable)
    decreases |a|
  {
    if a == [] {
      assert a + b == b;
    } else {
      assert (a + b)[0] == a[0] && (a + b)[1..] == a[1..] + b;
      FirstFieldConcat(a[1..], b, n, settable);
    }
  }

  /** The setter table of `acc` when `settable`, its getter table otherwise. */
  function Invokers(acc: Accessors, settable: bool): Table<Invoker> {
    if settable then acc.setMethods else acc.getMethods
  }

  /** The setter type table of `acc` when `settable`, its getter type table otherwise. */
  function Types(acc: Accessors, settable: bool): Table<ClassId> {
    if settable then acc.setTypes else acc.getTypes
  }

  function FieldInvoker(f: Field, settable: bool): Invoker {
    if settable then SetFieldInvoker(f) else GetFieldInvoker(f)
  }

  /** Adding `fields` in order took `acc` to `r` at name `n` on one side: a valid
      name with no accessor in `acc` gets the first eligible field's invoker and
      type, and otherwise both entries for `n` are unchanged. */
  ghost predicate FieldSupplied(acc: Accessors, r: Accessors, fields: seq<Field>, settable: bool, n: string) {
    var first := FirstField(fields, n, settable);
    if n !in Invokers(acc, settable).values && IsValidPropertyName(n) && first.Some? then
      Invokers(r, settable).Get(n) == Some(FieldInvoker(first.value, settable)) && Types(r, settable).Get(n) == Some(first.value.fieldType)
    else
      Invokers(r, settable).Get(n) == Invokers(acc, settable).Get(n) && Types(r, settable).Get(n) == Types(acc, settable).Get(n)
  }

  ghost predicate FieldsSupplied(acc: Accessors, r: Accessors, fields: seq<Field>, settable: bool) {
    forall n :: FieldSupplied(acc, r, fields, settable, n)
  }

  /** Adding `a` and then `b` supplies what adding `a + b` does. */
  lemma FieldsSuppliedConcat(acc: Accessors, mid: Accessors, r: Accessors, a: seq<Field>, b: seq<Field>, settable: bool)
    requires FieldsSupplied(acc, mid, a, settable) && FieldsSupplied(mid, r, b, settable)
    ensures FieldsSupplied(acc, r, a + b, settable)
  {
    forall n ensures FieldSupplied(acc, r, a + b, settable, n) {
      FirstFieldConcat(a, b, n, settable);
      assert FieldSupplied(acc, mid, a, settable, n) && FieldSupplied(mid, r, b, settable, n);
    }
  }

  /** Whether `r` was reached from `acc` by adding `fields` depends only on
      the tables of the side concerned. */
  lemma FieldsSuppliedSide(acc: Accessors, acc': Accessors, r: Accessors, r': Accessors, fields: seq<Field>, settable: bool)
    requires Invokers(acc, settable) == Invokers(acc', settable) && Types(acc, settable) == Types(acc', settable)
    requires Invokers(r, settable) == Invokers(r', settable) && Types(r, settable) == Types(r', settable)
    requires FieldsSupplied(acc, r, fields, settable)
    ensures FieldsSupplied(acc', r', fields, settable)
  {
    forall n ensures FieldSupplied(acc', r', fields, settable, n) {
      assert FieldSupplied(acc, r, fields, settable, n);
    }
  }

  /** Reflector.addSetField. */
  function AddSetField(acc: Accessors, f: Field): (r: Accessors)
    requires f.name !in acc.setMethods.values && !(f.isFinal && f.isStatic)
    ensures IsValidPropertyName(f.name) ==>
      r.setMethods.Get(f.name) == Some(SetFieldInvoker(f)) && r.setTypes.Get(f.name) == Some(f.fieldType)
    ensures !IsValidPropertyName(f.name) ==> r == acc
    ensures FieldsSupplied(acc, r, [f], true)
    ensures AddsFieldInvokersOnly(acc, r)
    ensures r.getMethods == acc.getMethods && r.getTypes == acc.getTypes
    ensures Aligned(acc) ==> Aligned(r)
    ensures NamesValid(acc) ==> NamesValid(r)
    ensures FieldSettersWritable(acc) ==> FieldSettersWritable(r)
  {
    if IsValidPropertyName(f.name) then
      acc.(setMethods := acc.setMethods.Put(f.name, SetFieldInvoker(f)), setTypes := acc.setTypes.Put(f.name, f.fieldType))
    else acc
  }

  /** Reflector.addGetField. */
  function AddGetField(acc: Accessors, f: Field): (r: Accessors)
    requires f.name !in acc.getMethods.values
    ensures IsValidPropertyName(f.name) ==>
      r.getMethods.Get(f.name) == Some(GetFieldInvoker(f)) && r.getTypes.Get(f.name) == Some(f.fieldType)
    ensures !IsValidPropertyName(f.name) ==> r == acc
    ensures FieldsSupplied(acc, r, [f], false)
    ensures AddsFieldInvokersOnly(acc, r)
    ensures r.setMethods == acc.setMethods && r.setTypes == acc.setTypes
    ensures Aligned(acc) ==> Aligned(r)
    ensures NamesValid(acc) ==> NamesValid(r)
    ensures FieldSettersWritable(acc) ==> FieldSettersWritable(r)
  {
    if IsValidPropertyName(f.name) then
      acc.(getMethods := acc.getMethods.Put(f.name, GetFieldInvoker(f)), getTypes := acc.getTypes.Put(f.name, f.fieldType))
    else acc
  }

  /** One field of addFields: a field setter where no setter exists and the
      field is not both final and static, a field getter where no getter exists. */
  function AddField(acc: Accessors, f: Field): (r: Accessors)
    ensures FieldsSupplied(acc, r, [f], false) && FieldsSupplied(acc, r, [f], true)
    ensures AddsFieldInvokersOnly(acc, r)
    ensures IsValidPropertyName(f.name) ==> f.name in r.getMethods.values
    ensures IsValidPropertyName(f.name) && !(f.isFinal && f.isStatic) ==> f.name in r.setMethods.values
    ensures Aligned(acc) ==> Aligned(r)
    ensures NamesValid(acc) ==> NamesValid(r)
    ensures FieldSettersWritable(acc) ==> FieldSettersWritable(r)
  {
    var withSetter := if f.name !in acc.setMethods.values && !(f.isFinal && f.isStatic) then AddSetField(acc, f) else acc;
    var r := if f.name !in withSetter.getMethods.values then AddGetField(withSetter, f) else withSetter;
    assert FieldsSupplied(acc, withSetter, [f], true) by {
      forall n ensures FieldSupplied(acc, withSetter, [f], true, n) {
        if f.name !in acc.setMethods.values && !(f.isFinal && f.isStatic) {
          assert FieldSupplied(acc, withSetter, [f], true, n);
        }
      }
    }
    assert FieldsSupplied(withSetter, r, [f], false) by {
      forall n ensures FieldSupplied(withSetter, r, [f], false, n) {
        if f.name !in withSetter.getMethods.values {
          assert FieldSupplied(withSetter, r, [f], false, n);
        }
      }
    }
    FieldsSuppliedSide(withSetter, acc, r, r, [f], false);
    FieldsSuppliedSide(acc, acc, withSetter, r, [f], true);
    r
  }

  function AddDeclaredFields(acc: Accessors, fields: seq<Field>): (r: Accessors)
    ensures FieldsSupplied(acc, r, fields, false) && FieldsSupplied(acc, r, fields, true)
    ensures AddsFieldInvokersOnly(acc, r)
    ensures forall f :: f in fields && IsValidPropertyName(f.name) ==> f.name in r.getMethods.values
    ensures forall f :: f in fields && IsValidPropertyName(f.name) && !(f.isFinal && f.isStatic) ==> f.name in r.setMethods.values
    ensures Aligned(acc) ==> Aligned(r)
    ensures NamesValid(acc) ==> NamesValid(r)
    ensures FieldSettersWritable(acc) ==> FieldSettersWritable(r)
    decreases |fields|
  {
    if fields == [] then acc
    else
      var mid := AddField(acc, fields[0]);
      var r := AddDeclaredFields(mid, fields[1..]);
      assert [fields[0]] + fields[1..] == fields;
      FieldsSuppliedConcat(acc, mid, r, [fields[0]], fields[1..], false);
      FieldsSuppliedConcat(acc, mid, r, [fields[0]], fields[1..], true);
      r
  }

  /** The declared fields of `c` and then those of each superclass in turn: the
      order addFields visits them in. */
  function ChainFields(u: Universe, c: ClassId): (r: seq<Field>)
    ensures forall f :: f in Info(u, c).declaredFields ==> f in r
    decreases Depth(u, c)
  {
    Info(u, c).declaredFields + match Superclass(u, c) case None => [] case Some(s) => ChainFields(u, s)
  }

  /** Reflector.addFields: the class's own fields, then its superclass's. */
  function AddFields(u: Universe, c: ClassId, acc: Accessors): (r: Accessors)
    ensures FieldsSupplied(acc, r, ChainFields(u, c), false) && FieldsSupplied(acc, r, ChainFields(u, c), true)
    ensures AddsFieldInvokersOnly(acc, r)
    ensures forall f :: f in Info(u, c).declaredFields && IsValidPropertyName(f.name) ==> f.name in r.getMethods.values
    ensures forall f :: f in Info(u, c).declaredFields && IsValidPropertyName(f.name) && !(f.isFinal && f.isStatic) ==>
      f.name in r.setMethods.values
    ensures Aligned(acc) ==> Aligned(r)
    ensures NamesValid(acc) ==> NamesValid(r)
    ensures FieldSettersWritable(acc) ==> FieldSettersWritable(r)
    decreases Depth(u, c)
  {
    var next := AddDeclaredFields(acc, Info(u, c).declaredFields);
    match Superclass(u, c)
    case None =>
      assert ChainFields(u, c) == Info(u, c).declaredFields + [] == Info(u, c).declaredFields;
      next
    case Some(s) =>
      var r := AddFields(u, s, next);
      FieldsSuppliedConcat(acc, next, r, Info(u, c).declaredFields, ChainFields(u, s), false);
      FieldsSuppliedConcat(acc, next, r, Info(u, c).declaredFields, ChainFields(u, s), true);
      r
  }

  /** Reflector.addRecordGetMethods: every method without parameters is a getter
      named after itself. */
  function AddRecordGetMethods(acc: Accessors, methods: seq<Method>): (r: Accessors)
    ensures r.setMethods == acc.setMethods && r.setTypes == acc.setTypes
    ensures forall k :: k in acc.getMethods.values ==> k in r.getMethods.values
    ensures forall m :: m in methods && |m.paramTypes| == 0 ==> m.name in r.getMethods.values
    ensures forall k :: k in r.getMethods.values ==>
      || (k in acc.getMethods.values && r.getMethods.values[k] == acc.getMethods.values[k])
      || (&& r.getMethods.values[k].MethodInvoker?
          && r.getMethods.values[k].target in methods
          && r.getMethods.values[k].target.name == k
          && |r.getMethods.values[k].target.paramTypes| == 0)
    ensures Aligned(acc) ==> Aligned(r)
    decreases |methods|
  {
    if methods == [] then acc
    else
      var next := if |methods[0].paramTypes| == 0 then AddGetMethod(acc, methods[0].name, methods[0], false) else acc;
      AddRecordGetMethods(next, methods[1..])
  }

  /** The accessor tables of the constructor. */
  function BuildAccessors(u: Universe, c: ClassId): (r: Accessors)
    ensures Aligned(r) && FieldSettersWritable(r)
    ensures Info(u, c).isRecord ==> r.setMethods.keys == []
  {
    var methods := ClassMethods(u, c);
    if Info(u, c).isRecord then AddRecordGetMethods(NoAccessors(), methods)
    else
      var getters := Conflicts(Empty(), methods, true);
      var withGetters := ResolveGetterConflicts(u, NoAccessors(), getters, getters.keys);
      var setters := Conflicts(Empty(), methods, false);
      var withSetters := ResolveSetterConflicts(u, withGetters, setters, setters.keys);
      AddFields(u, c, withSetters)
  }

  // ---------------------------------------------------------------------------
  // The case-insensitive index and the descriptor

  /** The loops at the end of the constructor: each name under its upper-case form. */
  function IndexNames(index: map<string, string>, names: seq<string>): (r: map<string, string>)
    ensures forall k :: k in index ==> k in r
    ensures forall n :: n in names ==> ToUpper(n) in r
    ensures forall k :: k in r ==> (k in index && r[k] == index[k]) || (r[k] in names && ToUpper(r[k]) == k)
    decreases |names|
  {
    if names == [] then index else IndexNames(index[ToUpper(names[0]) := names[0]], names[1..])
  }

  /** The state of a constructed Reflector. */
  datatype Descriptor = Descriptor(
    classType: ClassId,
    hasDefaultConstructor: bool,
    accessors: Accessors,
    caseInsensitivePropertyMap: map<string, string>)
  {
    /** Reflector.getGetablePropertyNames: with a well-formed table, every
        property with a getter, each once. */
    function ReadablePropertyNames(): (r: seq<string>)
      ensures accessors.getMethods.Valid() ==> forall n :: n in r <==> HasGetter(n)
      ensures accessors.getMethods.Valid() ==> forall i, j :: 0 <= i < j < |r| ==> r[i] != r[j]
    {
      accessors.getMethods.keys
    }

    /** Reflector.getSetablePropertyNames: with a well-formed table, every
        property with a setter, each once. */
    function WritablePropertyNames(): (r: seq<string>)
      ensures accessors.setMethods.Valid() ==> forall n :: n in r <==> HasSetter(n)
      ensures accessors.setMethods.Valid() ==> forall i, j :: 0 <= i < j < |r| ==> r[i] != r[j]
    {
      accessors.setMethods.keys
    }

    /** Reflector.getDefaultConstructor, as whether one exists. */
    function GetDefaultConstructor(): (r: Outcome)
      ensures r.Pass? <==> hasDefaultConstructor
      ensures r.Fail? ==> r.error == NoDefaultConstructor(classType)
    {
      if hasDefaultConstructor then Pass else Fail(NoDefaultConstructor(classType))
    }

    /** Reflector.getSetInvoker. */
    function GetSetInvoker(name: string): (r: Result<Invoker>)
      ensures r.Ok? <==> HasSetter(name)
      ensures r.Ok? ==> r.value == accessors.setMethods.values[name]
      ensures r.Err? ==> r.error == NoSetter(name, classType)
    {
      if name in accessors.setMethods.values then Ok(accessors.setMethods.values[name]) else Err(NoSetter(name, classType))
    }

    /** Reflector.getGetInvoker. */
    function GetGetInvoker(name: string): (r: Result<Invoker>)
      ensures r.Ok? <==> HasGetter(name)
      ensures r.Ok? ==> r.value == accessors.getMethods.values[name]
      ensures r.Err? ==> r.error == NoGetter(name, classType)
    {
      if name in accessors.getMethods.values then Ok(accessors.getMethods.values[name]) else Err(NoGetter(name, classType))
    }

    /** Reflector.getSetterType. */
    function GetSetterType(name: string): (r: Result<ClassId>)
      ensures r.Ok? <==> name in accessors.setTypes.values
      ensures r.Ok? ==> r.value == accessors.setTypes.values[name]
      ensures r.Err? ==> r.error == NoSetter(name, classType)
    {
      if name in accessors.setTypes.values then Ok(accessors.setTypes.values[name]) else Err(NoSetter(name, classType))
    }

    /** Reflector.getGetterType. */
    function GetGetterType(name: string): (r: Result<ClassId>)
      ensures r.Ok? <==> name in accessors.getTypes.values
      ensures r.Ok? ==> r.value == accessors.getTypes.values[name]
      ensures r.Err? ==> r.error == NoGetter(name, classType)
    {
      if name in accessors.getTypes.values then Ok(accessors.getTypes.values[name]) else Err(NoGetter(name, classType))
    }

    /** Reflector.hasSetter: with the tables aligned, as a described class's are,
        true exactly where getSetterType succeeds. */
    predicate HasSetter(name: string)
      ensures Aligned(accessors) ==> (HasSetter(name) <==> GetSetterType(name).Ok?)
    {
      name in accessors.setMethods.values
    }

    /** Reflector.hasGetter: with the tables aligned, as a described class's are,
        true exactly where getGetterType succeeds. */
    predicate HasGetter(name: string)
      ensures Aligned(accessors) ==> (HasGetter(name) <==> GetGetterType(name).Ok?)
    {
      name in accessors.getMethods.values
    }

    /** Reflector.findPropertyName: the registered name equal to `name` up to
        letter case, None for Java's null. */
    function FindPropertyName(name: string): (r: Option<string>)
      ensures r.Some? <==> ToUpper(name) in caseInsensitivePropertyMap
    {
      if ToUpper(name) in caseInsensitivePropertyMap then Some(caseInsensitivePropertyMap[ToUpper(name)]) else None
    }
  }

  /** new Reflector(c): the descriptor of class c, whose type tables are keyed
      like its invoker tables, in which every readable or writable name can
      be found by its upper-case form, and which records no setter for a
      record class. */
  function Describe(u: Universe, c: ClassId): (r: Descriptor)
    ensures r.classType == c
    ensures r.hasDefaultConstructor <==> [] in Info(u, c).constructors
    ensures Aligned(r.accessors) && FieldSettersWritable(r.accessors)
    ensures forall n :: n in r.ReadablePropertyNames() || n in r.WritablePropertyNames() ==> ToUpper(n) in r.caseInsensitivePropertyMap
    ensures Info(u, c).isRecord ==> r.WritablePropertyNames() == []
  {
    var acc := BuildAccessors(u, c);
    Descriptor(c, [] in Info(u, c).constructors, acc,
               IndexNames(IndexNames(map[], acc.getMethods.keys), acc.setMethods.keys))
  }
}
