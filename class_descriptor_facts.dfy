/** What the Reflector constructor guarantees about the tables it builds. */
module ClassDescriptorFacts {
  import opened Results
  import opened Text
  import opened Tables
  import opened Classes
  import opened ClassDescriptors
  import PropertyNamer

  // ---------------------------------------------------------------------------
  // Method collection

  /** The methods getClassMethods visits, in visiting order. */
  function Walk(u: Universe, c: ClassId): seq<Method>
    decreases Depth(u, c)
  {
    if c == OBJECT then []
    else
      var info := Info(u, c);
      info.declaredMethods + info.interfaceMethods +
        match Superclass(u, c)
        case None => []
        case Some(s) => Walk(u, s)
  }

  lemma {:induction false} AddUniqueMethodsAppend(t: Table<Method>, a: seq<Method>, b: seq<Method>)
    ensures AddUniqueMethods(t, a + b) == AddUniqueMethods(AddUniqueMethods(t, a), b)
    decreases |a|
  {
    if a != [] {
      assert (a + b)[1..] == a[1..] + b;
      AddUniqueMethodsAppend(AddUnique(t, a[0]), a[1..], b);
    } else {
      assert a + b == b;
    }
  }

  /** The class walk is one pass of addUniqueMethods over Walk. */
  lemma {:induction false} CollectIsWalk(u: Universe, c: ClassId, t: Table<Method>)
    ensures CollectMethods(u, c, t) == AddUniqueMethods(t, Walk(u, c))
    decreases Depth(u, c)
  {
    if c != OBJECT {
      var info := Info(u, c);
      var rest := match Superclass(u, c) case None => [] case Some(s) => Walk(u, s);
      assert Walk(u, c) == (info.declaredMethods + info.interfaceMethods) + rest;
      AddUniqueMethodsAppend(t, info.declaredMethods, info.interfaceMethods);
      AddUniqueMethodsAppend(t, info.declaredMethods + info.interfaceMethods, rest);
      var t2 := AddUniqueMethods(AddUniqueMethods(t, info.declaredMethods), info.interfaceMethods);
      match Superclass(u, c)
      case None =>
      case Some(s) => CollectIsWalk(u, s, t2);
    }
  }

  /** A signature already present keeps its method. */
  lemma {:induction false} AddUniqueKeepsOld(t: Table<Method>, methods: seq<Method>, k: string)
    requires k in t.values
    ensures k in AddUniqueMethods(t, methods).values
    ensures AddUniqueMethods(t, methods).values[k] == t.values[k]
    decreases |methods|
  {
    if methods != [] {
      AddUniqueKeepsOld(AddUnique(t, methods[0]), methods[1..], k);
    }
  }

  /** A new signature ends up with the first non-bridge method carrying it. */
  lemma {:induction false} AddUniqueFirstWins(t: Table<Method>, methods: seq<Method>, i: nat)
    requires i < |methods| && !methods[i].isBridge && Signature(methods[i]) !in t.values
    requires forall j :: 0 <= j < i ==> methods[j].isBridge || Signature(methods[j]) != Signature(methods[i])
    ensures Signature(methods[i]) in AddUniqueMethods(t, methods).values
    ensures AddUniqueMethods(t, methods).values[Signature(methods[i])] == methods[i]
    decreases i
  {
    if i == 0 {
      AddUniqueKeepsOld(AddUnique(t, methods[0]), methods[1..], Signature(methods[0]));
    } else {
      assert methods[0].isBridge || Signature(methods[0]) != Signature(methods[i]);
      AddUniqueFirstWins(AddUnique(t, methods[0]), methods[1..], i - 1);
    }
  }

  /** Every new entry is one of the added methods. */
  lemma {:induction false} AddUniqueFromMethods(t: Table<Method>, methods: seq<Method>, k: string)
    requires k in AddUniqueMethods(t, methods).values && k !in t.values
    ensures AddUniqueMethods(t, methods).values[k] in methods
    decreases |methods|
  {
    var next := AddUnique(t, methods[0]);
    if k in next.values {
      AddUniqueKeepsOld(next, methods[1..], k);
    } else {
      AddUniqueFromMethods(next, methods[1..], k);
    }
  }

  /** getClassMethods keeps, of each signature, the first non-bridge method met
      walking from the class up to Object. */
  lemma ClassMethodsFirstWins(u: Universe, c: ClassId, i: nat)
    requires i < |Walk(u, c)| && !Walk(u, c)[i].isBridge
    requires forall j :: 0 <= j < i ==> Walk(u, c)[j].isBridge || Signature(Walk(u, c)[j]) != Signature(Walk(u, c)[i])
    ensures Walk(u, c)[i] in ClassMethods(u, c)
  {
    var t := CollectMethods(u, c, Empty());
    CollectIsWalk(u, c, Empty());
    AddUniqueFirstWins(Empty(), Walk(u, c), i);
    var k := Signature(Walk(u, c)[i]);
    assert k in t.keys;
    var n :| 0 <= n < |t.keys| && t.keys[n] == k;
    assert ClassMethods(u, c)[n] == Walk(u, c)[i];
  }

  /** getClassMethods returns only methods of the class and its superclasses. */
  lemma ClassMethodsFromWalk(u: Universe, c: ClassId, m: Method)
    requires m in ClassMethods(u, c)
    ensures m in Walk(u, c)
  {
    var t := CollectMethods(u, c, Empty());
    CollectIsWalk(u, c, Empty());
    var n :| 0 <= n < |ClassMethods(u, c)| && ClassMethods(u, c)[n] == m;
    AddUniqueFromMethods(Empty(), Walk(u, c), t.keys[n]);
  }

  // ---------------------------------------------------------------------------
  // The conflict lists

  /** The candidates for `p`, in method order: what addGetMethods or
      addSetMethods collects under that property. */
  function Candidates(methods: seq<Method>, p: string, getters: bool): seq<Method>
    decreases |methods|
  {
    if methods == [] then []
    else
      var m := methods[0];
      (if IsCandidate(m, getters) && PropertyNamer.MethodToProperty(m.name) == Ok(p) then [m] else []) +
        Candidates(methods[1..], p, getters)
  }

  lemma {:induction false} CandidatesMembers(methods: seq<Method>, p: string, getters: bool, m: Method)
    ensures m in Candidates(methods, p, getters) <==>
      m in methods && IsCandidate(m, getters) && PropertyNamer.MethodToProperty(m.name) == Ok(p)
    decreases |methods|
  {
    if methods != [] {
      CandidatesMembers(methods[1..], p, getters, m);
      assert methods == [methods[0]] + methods[1..];
    }
  }

  /** One method appends itself to its property's list exactly when it is a
      candidate for that property, ahead of whatever later methods append. */
  lemma ConflictStepGet(conflicts: Table<seq<Method>>, m: Method, getters: bool, p: string, later: seq<Method>)
    requires IsValidPropertyName(p)
    ensures ConflictStep(conflicts, m, getters).Get(p).GetOr([]) + later ==
      conflicts.Get(p).GetOr([]) + ((if IsCandidate(m, getters) && PropertyNamer.MethodToProperty(m.name) == Ok(p) then [m] else []) + later)
  {
  }

  /** The list a usable property name gets is its candidates, in order. */
  lemma {:induction false} ConflictsAreCandidates(conflicts: Table<seq<Method>>, methods: seq<Method>, getters: bool, p: string)
    requires IsValidPropertyName(p)
    ensures Conflicts(conflicts, methods, getters).Get(p).GetOr([]) == conflicts.Get(p).GetOr([]) + Candidates(methods, p, getters)
    decreases |methods|
  {
    if methods != [] {
      var m := methods[0];
      var next := ConflictStep(conflicts, m, getters);
      ConflictsAreCandidates(next, methods[1..], getters, p);
      ConflictStepGet(conflicts, m, getters, p, Candidates(methods[1..], p, getters));
    }
  }

  /** From no lists, a usable property name gets exactly its candidates. */
  lemma CollectedCandidates(methods: seq<Method>, getters: bool, p: string)
    requires IsValidPropertyName(p)
    ensures Conflicts(Empty(), methods, getters).Get(p).GetOr([]) == Candidates(methods, p, getters)
  {
    ConflictsAreCandidates(Empty(), methods, getters, p);
    var none: seq<Method> := Empty<seq<Method>>().Get(p).GetOr([]);
    assert none == [];
    assert none + Candidates(methods, p, getters) == Candidates(methods, p, getters);
  }

  // ---------------------------------------------------------------------------
  // Getters

  /** Without ambiguity the chosen getter's type is assignable to every
      candidate's type: the most specific return type wins. */
  lemma {:induction false} PickGetterNarrowest(u: Universe, winner: Method, rest: seq<Method>)
    requires Transitive(u)
    ensures var (w, isAmbiguous) := PickGetter(u, winner, rest);
      !isAmbiguous ==>
        && IsAssignableFrom(u, winner.returnType, w.returnType)
        && forall c :: c in rest ==> IsAssignableFrom(u, c.returnType, w.returnType)
    decreases |rest|
  {
    if rest != [] {
      var candidate := rest[0];
      var (w, isAmbiguous) := PickGetter(u, winner, rest);
      if !isAmbiguous {
        var next: Method;
        if candidate.returnType == winner.returnType {
          if StartsWith(candidate.name, "is") { next := candidate; } else { next := winner; }
        } else if IsAssignableFrom(u, candidate.returnType, winner.returnType) {
          next := winner;
        } else {
          next := candidate;
        }
        assert PickGetter(u, winner, rest) == PickGetter(u, next, rest[1..]);
        PickGetterNarrowest(u, next, rest[1..]);
        AssignableTransitive(u, winner.returnType, next.returnType, w.returnType);
        AssignableTransitive(u, candidate.returnType, next.returnType, w.returnType);
        forall c | c in rest ensures IsAssignableFrom(u, c.returnType, w.returnType) {
          if c != candidate {
            assert c in rest[1..];
          }
        }
      }
    }
  }

  /** resolveGetterConflicts touches only the properties it iterates over. */
  lemma {:induction false} ResolveGetterKeepsOthers(u: Universe, acc: Accessors, conflicts: Table<seq<Method>>, names: seq<string>, k: string)
    requires k !in names
    ensures ResolveGetterConflicts(u, acc, conflicts, names).getMethods.Get(k) == acc.getMethods.Get(k)
    ensures ResolveGetterConflicts(u, acc, conflicts, names).getTypes.Get(k) == acc.getTypes.Get(k)
    decreases |names|
  {
    if names != [] {
      var candidates := conflicts.Get(names[0]).GetOr([]);
      var next :=
        if candidates == [] then acc
        else
          var (winner, isAmbiguous) := PickGetter(u, candidates[0], candidates[1..]);
          AddGetMethod(acc, names[0], winner, isAmbiguous);
      ResolveGetterKeepsOthers(u, next, conflicts, names[1..], k);
    }
  }

  /** A property gets a getter only if it has candidates. */
  lemma {:induction false} ResolveGetterOnlyCandidates(u: Universe, acc: Accessors, conflicts: Table<seq<Method>>, names: seq<string>, k: string)
    requires k in ResolveGetterConflicts(u, acc, conflicts, names).getMethods.values && k !in acc.getMethods.values
    ensures k in names && conflicts.Get(k).GetOr([]) != []
    decreases |names|
  {
    var candidates := conflicts.Get(names[0]).GetOr([]);
    var next :=
      if candidates == [] then acc
      else
        var (winner, isAmbiguous) := PickGetter(u, candidates[0], candidates[1..]);
        AddGetMethod(acc, names[0], winner, isAmbiguous);
    if k !in next.getMethods.values {
      ResolveGetterOnlyCandidates(u, next, conflicts, names[1..], k);
    }
  }

  /** Each property with candidates gets the getter PickGetter chooses. */
  lemma {:induction false} ResolvedGetter(u: Universe, acc: Accessors, conflicts: Table<seq<Method>>, names: seq<string>, k: string)
    requires forall i, j :: 0 <= i < j < |names| ==> names[i] != names[j]
    requires k in names && conflicts.Get(k).GetOr([]) != []
    ensures var candidates := conflicts.Get(k).GetOr([]);
      var (w, isAmbiguous) := PickGetter(u, candidates[0], candidates[1..]);
      var r := ResolveGetterConflicts(u, acc, conflicts, names);
      && r.getMethods.Get(k) == Some(if isAmbiguous then AmbiguousMethodInvoker(w, AmbiguousGetter(k, w.declaringClass)) else MethodInvoker(w))
      && r.getTypes.Get(k) == Some(w.returnType)
    decreases |names|
  {
    var candidates := conflicts.Get(names[0]).GetOr([]);
    var next :=
      if candidates == [] then acc
      else
        var (winner, isAmbiguous) := PickGetter(u, candidates[0], candidates[1..]);
        AddGetMethod(acc, names[0], winner, isAmbiguous);
    if names[0] == k {
      assert k !in names[1..];
      ResolveGetterKeepsOthers(u, next, conflicts, names[1..], k);
    } else {
      ResolvedGetter(u, next, conflicts, names[1..], k);
    }
  }

  /** The accessors of a class that is not a record after the getter stage. */
  function GetterStage(u: Universe, methods: seq<Method>): Accessors {
    var getters := Conflicts(Empty(), methods, true);
    ResolveGetterConflicts(u, NoAccessors(), getters, getters.keys)
  }

  /** ... and after the setter stage. */
  function SetterStage(u: Universe, methods: seq<Method>): Accessors {
    var setters := Conflicts(Empty(), methods, false);
    ResolveSetterConflicts(u, GetterStage(u, methods), setters, setters.keys)
  }

  lemma BuildAccessorsStages(u: Universe, c: ClassId)
    requires !Info(u, c).isRecord
    ensures BuildAccessors(u, c) == AddFields(u, c, SetterStage(u, ClassMethods(u, c)))
    ensures Describe(u, c).accessors == BuildAccessors(u, c)
  {
  }

  /** The guarantees for the getter method `invoker` registered for `p` with
      type `getterType`, chosen among `methods`. */
  ghost predicate WellChosenGetter(u: Universe, methods: seq<Method>, p: string, invoker: Invoker, getterType: Option<ClassId>)
    requires invoker.MethodInvoker? || invoker.AmbiguousMethodInvoker?
  {
    && invoker.target in methods
    && IsGetterCandidate(invoker.target)
    && PropertyNamer.MethodToProperty(invoker.target.name) == Ok(p)
    && getterType == Some(invoker.target.returnType)
    && (invoker.AmbiguousMethodInvoker? ==> invoker.error == AmbiguousGetter(p, invoker.target.declaringClass))
    && (invoker.MethodInvoker? ==>
          forall m :: m in methods && IsGetterCandidate(m) && PropertyNamer.MethodToProperty(m.name) == Ok(p) ==>
            IsAssignableFrom(u, m.returnType, invoker.target.returnType))
  }

  lemma StagedGetter(u: Universe, methods: seq<Method>, p: string)
    requires Transitive(u)
    requires p in GetterStage(u, methods).getMethods.values
    ensures var stage := GetterStage(u, methods);
      && (stage.getMethods.values[p].MethodInvoker? || stage.getMethods.values[p].AmbiguousMethodInvoker?)
      && WellChosenGetter(u, methods, p, stage.getMethods.values[p], stage.getTypes.Get(p))
  {
    var getters := Conflicts(Empty(), methods, true);
    ResolveGetterOnlyCandidates(u, NoAccessors(), getters, getters.keys, p);
    ConflictsWellFormedKept(Empty(), methods, true);
    assert IsValidPropertyName(p);
    CollectedCandidates(methods, true, p);
    var candidates := Candidates(methods, p, true);
    ResolvedGetter(u, NoAccessors(), getters, getters.keys, p);
    var (w, isAmbiguous) := PickGetter(u, candidates[0], candidates[1..]);
    var invoker := GetterStage(u, methods).getMethods.values[p];
    assert invoker == if isAmbiguous then AmbiguousMethodInvoker(w, AmbiguousGetter(p, w.declaringClass)) else MethodInvoker(w);
    assert w in candidates;
    CandidatesMembers(methods, p, true, w);
    if !isAmbiguous {
      PickGetterNarrowest(u, candidates[0], candidates[1..]);
      forall m | m in methods && IsGetterCandidate(m) && PropertyNamer.MethodToProperty(m.name) == Ok(p)
        ensures IsAssignableFrom(u, m.returnType, w.returnType)
      {
        CandidatesMembers(methods, p, true, m);
        if m != candidates[0] {
          assert m in candidates[1..];
        }
      }
    }
  }

  /** A getter method registered for a property of a class that is not a
      record is one of that property's getter candidates among the class's
      methods; unless it is marked ambiguous, its return type is the most
      specific of all of them, and the property's getter type is that return
      type.  The ambiguous mark carries the AmbiguousGetter error. */
  lemma DescribedGetter(u: Universe, c: ClassId, p: string)
    requires Transitive(u) && !Info(u, c).isRecord
    requires p in Describe(u, c).accessors.getMethods.values
    requires !Describe(u, c).accessors.getMethods.values[p].GetFieldInvoker?
    ensures var acc := Describe(u, c).accessors;
      && (acc.getMethods.values[p].MethodInvoker? || acc.getMethods.values[p].AmbiguousMethodInvoker?)
      && WellChosenGetter(u, ClassMethods(u, c), p, acc.getMethods.values[p], acc.getTypes.Get(p))
  {
    BuildAccessorsStages(u, c);
    var methods := ClassMethods(u, c);
    var stage := GetterStage(u, methods);
    var acc := Describe(u, c).accessors;
    assert SetterStage(u, methods).getMethods == stage.getMethods && SetterStage(u, methods).getTypes == stage.getTypes;
    assert p in stage.getMethods.values && acc.getMethods.values[p] == stage.getMethods.values[p];
    StagedGetter(u, methods, p);
  }

  // ---------------------------------------------------------------------------
  // Setters

  /** A setter comes out of the loop either as the first one whose parameter
      type equals the (unambiguous) getter's type, or, when no ambiguity arose,
      as the one with the most specific parameter type of all. */
  lemma {:induction false} SetterLoopOutcome(u: Universe, getterType: Option<ClassId>, getterAmbiguous: bool,
                                             matched: Option<Method>, unrelated: Option<(Method, Method)>,
                                             setterAmbiguous: bool, setters: seq<Method>)
    requires Transitive(u) && (setterAmbiguous ==> matched.None?)
    ensures var r := SetterLoop(u, getterType, getterAmbiguous, matched, unrelated, setterAmbiguous, setters);
      r.0.Some? ==>
        || (!getterAmbiguous && getterType == Some(ParamType(r.0.value)) && r.0.value in setters)
        || (&& !setterAmbiguous && r.1 == unrelated
            && (forall s :: s in setters ==> IsAssignableFrom(u, ParamType(s), ParamType(r.0.value)))
            && (matched.Some? ==> IsAssignableFrom(u, ParamType(matched.value), ParamType(r.0.value))))
    decreases |setters|
  {
    if setters != [] {
      var setter := setters[0];
      var r := SetterLoop(u, getterType, getterAmbiguous, matched, unrelated, setterAmbiguous, setters);
      if !getterAmbiguous && getterType == Some(ParamType(setter)) {
      } else if setterAmbiguous {
        SetterLoopOutcome(u, getterType, getterAmbiguous, matched, unrelated, true, setters[1..]);
      } else {
        match PickBetterSetter(u, matched, setter)
        case Picked(m) =>
          SetterLoopOutcome(u, getterType, getterAmbiguous, Some(m), unrelated, false, setters[1..]);
          if r.0.Some? && !(!getterAmbiguous && getterType == Some(ParamType(r.0.value)) && r.0.value in setters) {
            AssignableTransitive(u, ParamType(setter), ParamType(m), ParamType(r.0.value));
            if matched.Some? {
              AssignableTransitive(u, ParamType(matched.value), ParamType(m), ParamType(r.0.value));
            }
          }
        case Unrelated(s1, s2) =>
          SetterLoopOutcome(u, getterType, getterAmbiguous, None, Some((s1, s2)), true, setters[1..]);
      }
    }
  }

  /** The first setter whose parameter type equals the getter's type wins. */
  lemma {:induction false} SetterExactMatchWins(u: Universe, getterType: ClassId, matched: Option<Method>,
                                                unrelated: Option<(Method, Method)>, setterAmbiguous: bool,
                                                setters: seq<Method>, i: nat)
    requires i < |setters| && ParamType(setters[i]) == getterType
    requires forall j :: 0 <= j < i ==> ParamType(setters[j]) != getterType
    ensures SetterLoop(u, Some(getterType), false, matched, unrelated, setterAmbiguous, setters).0 == Some(setters[i])
    decreases i
  {
    if i > 0 {
      var setter := setters[0];
      if setterAmbiguous {
        SetterExactMatchWins(u, getterType, matched, unrelated, true, setters[1..], i - 1);
      } else {
        match PickBetterSetter(u, matched, setter)
        case Picked(m) =>
          SetterExactMatchWins(u, getterType, Some(m), unrelated, false, setters[1..], i - 1);
        case Unrelated(s1, s2) =>
          SetterExactMatchWins(u, getterType, None, Some((s1, s2)), true, setters[1..], i - 1);
      }
    }
  }

  /** resolveSetterConflicts touches only the properties it iterates over. */
  lemma {:induction false} ResolveSetterKeepsOthers(u: Universe, acc: Accessors, conflicts: Table<seq<Method>>, names: seq<string>, k: string)
    requires k !in names
    ensures ResolveSetterConflicts(u, acc, conflicts, names).setMethods.Get(k) == acc.setMethods.Get(k)
    ensures ResolveSetterConflicts(u, acc, conflicts, names).setTypes.Get(k) == acc.setTypes.Get(k)
    decreases |names|
  {
    if names != [] {
      var name := names[0];
      var outcome := SetterLoop(u, acc.getTypes.Get(name), GetterIsAmbiguous(acc, name), None, None, false,
                                conflicts.Get(name).GetOr([]));
      ResolveSetterKeepsOthers(u, RegisterSetter(acc, name, outcome), conflicts, names[1..], k);
    }
  }

  /** What the setter loop of a property decides is what gets registered. */
  lemma {:induction false} ResolvedSetter(u: Universe, acc: Accessors, conflicts: Table<seq<Method>>, names: seq<string>, k: string)
    requires forall i, j :: 0 <= i < j < |names| ==> names[i] != names[j]
    requires k in names
    ensures var outcome := SetterLoop(u, acc.getTypes.Get(k), GetterIsAmbiguous(acc, k), None, None, false, conflicts.Get(k).GetOr([]));
      var r := ResolveSetterConflicts(u, acc, conflicts, names);
      && (outcome.0.Some? ==>
            r.setMethods.Get(k) == Some(MethodInvoker(outcome.0.value)) && r.setTypes.Get(k) == Some(ParamType(outcome.0.value)))
      && (outcome.0.None? && outcome.1.Some? ==>
            && r.setMethods.Get(k) == Some(UnrelatedSetterInvoker(k, outcome.1.value.0, outcome.1.value.1))
            && r.setTypes.Get(k) == Some(ParamType(outcome.1.value.0)))
      && (outcome.0.None? && outcome.1.None? ==> r.setMethods.Get(k) == acc.setMethods.Get(k))
    decreases |names|
  {
    var name := names[0];
    var outcome := SetterLoop(u, acc.getTypes.Get(name), GetterIsAmbiguous(acc, name), None, None, false,
                              conflicts.Get(name).GetOr([]));
    var next := RegisterSetter(acc, name, outcome);
    if name == k {
      assert k !in names[1..];
      ResolveSetterKeepsOthers(u, next, conflicts, names[1..], k);
    } else {
      ResolvedSetter(u, next, conflicts, names[1..], k);
    }
  }

  /** The guarantees for the setter method `invoker` registered for `p` with
      type `setterType`, chosen among `methods`, next to the getter `getter`. */
  ghost predicate WellChosenSetter(u: Universe, methods: seq<Method>, p: string, invoker: Invoker, setterType: Option<ClassId>,
                                   getter: Option<Invoker>)
    requires invoker.MethodInvoker? || invoker.AmbiguousMethodInvoker?
  {
    var candidates := Candidates(methods, p, false);
    && invoker.target in candidates
    && setterType == Some(ParamType(invoker.target))
    && (invoker.MethodInvoker? ==>
          || (getter.Some? && getter.value.MethodInvoker? && getter.value.target.returnType == ParamType(invoker.target))
          || forall s :: s in candidates ==> IsAssignableFrom(u, ParamType(s), ParamType(invoker.target)))
    && (invoker.AmbiguousMethodInvoker? ==>
          exists other :: other in candidates
            && invoker.error == AmbiguousSetters(p, other.declaringClass, ParamType(invoker.target), ParamType(other))
            && !IsAssignableFrom(u, ParamType(invoker.target), ParamType(other))
            && !IsAssignableFrom(u, ParamType(other), ParamType(invoker.target)))
  }

  lemma StagedSetter(u: Universe, methods: seq<Method>, p: string)
    requires Transitive(u)
    requires p in SetterStage(u, methods).setMethods.values
    ensures var stage := SetterStage(u, methods);
      && (stage.setMethods.values[p].MethodInvoker? || stage.setMethods.values[p].AmbiguousMethodInvoker?)
      && WellChosenSetter(u, methods, p, stage.setMethods.values[p], stage.setTypes.Get(p), GetterStage(u, methods).getMethods.Get(p))
  {
    var getterStage := GetterStage(u, methods);
    var setters := Conflicts(Empty(), methods, false);
    var stage := SetterStage(u, methods);
    if p !in setters.keys {
      ResolveSetterKeepsOthers(u, getterStage, setters, setters.keys, p);
      assert false;
    }
    ConflictsWellFormedKept(Empty(), methods, false);
    assert IsValidPropertyName(p);
    CollectedCandidates(methods, false, p);
    var candidates := Candidates(methods, p, false);
    ResolvedSetter(u, getterStage, setters, setters.keys, p);
    var getterType := getterStage.getTypes.Get(p);
    var getterAmbiguous := GetterIsAmbiguous(getterStage, p);
    var outcome := SetterLoop(u, getterType, getterAmbiguous, None, None, false, candidates);
    var invoker := stage.setMethods.values[p];
    if outcome.0.Some? {
      var chosen := outcome.0.value;
      assert invoker == MethodInvoker(chosen);
      CandidatesMembers(methods, p, false, chosen);
      SetterLoopOutcome(u, getterType, getterAmbiguous, None, None, false, candidates);
      if !getterAmbiguous && getterType == Some(ParamType(chosen)) {
        assert p in getterStage.getMethods.values;
        StagedGetter(u, methods, p);
      }
    } else {
      assert outcome.1.Some?;
      var (s1, s2) := outcome.1.value;
      assert invoker == UnrelatedSetterInvoker(p, s1, s2);
      CandidatesMembers(methods, p, false, s1);
      CandidatesMembers(methods, p, false, s2);
    }
  }

  /** A setter method registered for a property of a class that is not a
      record is one of that property's setter candidates, and the property's
      setter type is its parameter type.  It is the setter whose parameter
      type equals the getter method's return type, or else the one with the
      most specific parameter type of all.  A setter marked ambiguous carries
      the AmbiguousSetters error naming another candidate with an unrelated
      parameter type. */
  lemma DescribedSetter(u: Universe, c: ClassId, p: string)
    requires Transitive(u) && !Info(u, c).isRecord
    requires p in Describe(u, c).accessors.setMethods.values
    requires !Describe(u, c).accessors.setMethods.values[p].SetFieldInvoker?
    ensures var acc := Describe(u, c).accessors;
      && (acc.setMethods.values[p].MethodInvoker? || acc.setMethods.values[p].AmbiguousMethodInvoker?)
      && WellChosenSetter(u, ClassMethods(u, c), p, acc.setMethods.values[p], acc.setTypes.Get(p), acc.getMethods.Get(p))
  {
    BuildAccessorsStages(u, c);
    var methods := ClassMethods(u, c);
    var stage := SetterStage(u, methods);
    var acc := Describe(u, c).accessors;
    assert p in stage.setMethods.values && acc.setMethods.values[p] == stage.setMethods.values[p];
    assert acc.setTypes.Get(p) == stage.setTypes.Get(p);
    StagedSetter(u, methods, p);
    var getter := GetterStage(u, methods).getMethods.Get(p);
    if getter.Some? {
      assert stage.getMethods.Get(p) == getter;
      assert acc.getMethods.Get(p) == getter;
    }
  }

  lemma StagedExactSetter(u: Universe, methods: seq<Method>, p: string, getter: Method, i: nat)
    requires Transitive(u)
    requires GetterStage(u, methods).getMethods.Get(p) == Some(MethodInvoker(getter))
    requires var candidates := Candidates(methods, p, false);
      && i < |candidates| && ParamType(candidates[i]) == getter.returnType
      && forall j :: 0 <= j < i ==> ParamType(candidates[j]) != getter.returnType
    ensures SetterStage(u, methods).setMethods.Get(p) == Some(MethodInvoker(Candidates(methods, p, false)[i]))
    ensures SetterStage(u, methods).setTypes.Get(p) == Some(getter.returnType)
  {
    var getterStage := GetterStage(u, methods);
    StagedGetter(u, methods, p);
    var getters := Conflicts(Empty(), methods, true);
    ResolveGetterOnlyCandidates(u, NoAccessors(), getters, getters.keys, p);
    ConflictsWellFormedKept(Empty(), methods, true);
    assert IsValidPropertyName(p);
    var setters := Conflicts(Empty(), methods, false);
    var candidates := Candidates(methods, p, false);
    CollectedCandidates(methods, false, p);
    assert p in setters.values;
    ResolvedSetter(u, getterStage, setters, setters.keys, p);
    SetterExactMatchWins(u, getter.returnType, None, None, false, candidates, i);
  }

  /** When the getter of a property is a getter method, the first setter
      candidate whose parameter type equals its return type is the setter. */
  lemma DescribedExactSetter(u: Universe, c: ClassId, p: string, getter: Method, i: nat)
    requires Transitive(u) && !Info(u, c).isRecord
    requires Describe(u, c).accessors.getMethods.Get(p) == Some(MethodInvoker(getter))
    requires var candidates := Candidates(ClassMethods(u, c), p, false);
      && i < |candidates| && ParamType(candidates[i]) == getter.returnType
      && forall j :: 0 <= j < i ==> ParamType(candidates[j]) != getter.returnType
    ensures Describe(u, c).accessors.setMethods.Get(p) == Some(MethodInvoker(Candidates(ClassMethods(u, c), p, false)[i]))
    ensures Describe(u, c).accessors.setTypes.Get(p) == Some(getter.returnType)
  {
    BuildAccessorsStages(u, c);
    var methods := ClassMethods(u, c);
    var stage := SetterStage(u, methods);
    assert p in stage.getMethods.values && GetterStage(u, methods).getMethods.Get(p) == Some(MethodInvoker(getter));
    StagedExactSetter(u, methods, p, getter, i);
    assert p in stage.setMethods.values;
  }

  /** Every field of the class with a usable name is readable, and writable
      unless it is final and static; field accessors never replace accessor
      methods, and no final static field is written. */
  lemma DescribedFields(u: Universe, c: ClassId)
    requires !Info(u, c).isRecord
    ensures var acc := Describe(u, c).accessors;
      && AddsFieldInvokersOnly(SetterStage(u, ClassMethods(u, c)), acc)
      && FieldSettersWritable(acc)
      && (forall f :: f in Info(u, c).declaredFields && IsValidPropertyName(f.name) ==> f.name in acc.getMethods.values)
      && (forall f :: f in Info(u, c).declaredFields && IsValidPropertyName(f.name) && !(f.isFinal && f.isStatic) ==>
            f.name in acc.setMethods.values)
      && FieldsSupplied(SetterStage(u, ClassMethods(u, c)), acc, ChainFields(u, c), false)
      && FieldsSupplied(SetterStage(u, ClassMethods(u, c)), acc, ChainFields(u, c), true)
  {
    BuildAccessorsStages(u, c);
  }

  /** Along the superclass chain a field declared by the class itself wins over
      a superclass field of the same name, and a name the class does not
      declare is looked up in its superclass's chain. */
  lemma FieldChainPrecedence(u: Universe, c: ClassId, n: string, settable: bool)
    ensures var own := FirstField(Info(u, c).declaredFields, n, settable);
      && (own.Some? ==> FirstField(ChainFields(u, c), n, settable) == own)
      && (own.None? && Superclass(u, c).None? ==> FirstField(ChainFields(u, c), n, settable).None?)
      && (own.None? && Superclass(u, c).Some? ==>
            FirstField(ChainFields(u, c), n, settable) == FirstField(ChainFields(u, Superclass(u, c).value), n, settable))
  {
    var rest := match Superclass(u, c) case None => [] case Some(s) => ChainFields(u, s);
    FirstFieldConcat(Info(u, c).declaredFields, rest, n, settable);
  }

  lemma GetterStageNamesValid(u: Universe, methods: seq<Method>)
    ensures NamesValid(GetterStage(u, methods))
  {
    var getters := Conflicts(Empty(), methods, true);
    ConflictsWellFormedKept(Empty(), methods, true);
    forall k | k in GetterStage(u, methods).getMethods.values
      ensures IsValidPropertyName(k)
    {
      ResolveGetterOnlyCandidates(u, NoAccessors(), getters, getters.keys, k);
    }
  }

  lemma SetterStageNamesValid(u: Universe, methods: seq<Method>)
    ensures NamesValid(SetterStage(u, methods))
  {
    GetterStageNamesValid(u, methods);
    var setters := Conflicts(Empty(), methods, false);
    ConflictsWellFormedKept(Empty(), methods, false);
    forall k | k in SetterStage(u, methods).setMethods.values
      ensures IsValidPropertyName(k)
    {
      if k !in setters.keys {
        ResolveSetterKeepsOthers(u, GetterStage(u, methods), setters, setters.keys, k);
      }
    }
  }

  /** A class that is not a record exposes no property named "class",
      "serialVersionUID" or starting with '$'. */
  lemma DescribedNamesValid(u: Universe, c: ClassId)
    requires !Info(u, c).isRecord
    ensures forall n :: n in Describe(u, c).ReadablePropertyNames() ==> IsValidPropertyName(n)
    ensures forall n :: n in Describe(u, c).WritablePropertyNames() ==> IsValidPropertyName(n)
  {
    BuildAccessorsStages(u, c);
    SetterStageNamesValid(u, ClassMethods(u, c));
  }

  /** A record has no writable property, and each of its methods without
      parameters is a getter for the property of its own name. */
  lemma DescribedRecord(u: Universe, c: ClassId)
    requires Info(u, c).isRecord
    ensures Describe(u, c).WritablePropertyNames() == []
    ensures forall m :: m in ClassMethods(u, c) && |m.paramTypes| == 0 ==> Describe(u, c).HasGetter(m.name)
    ensures forall k :: k in Describe(u, c).accessors.getMethods.values ==>
      var invoker := Describe(u, c).accessors.getMethods.values[k];
      invoker.MethodInvoker? && invoker.target in ClassMethods(u, c) && invoker.target.name == k
  {
  }

  lemma {:induction false} IndexLookup(readable: seq<string>, writable: seq<string>, name: string)
    ensures var index := IndexNames(IndexNames(map[], readable), writable);
      && (ToUpper(name) in index <==> exists n :: n in readable + writable && ToUpper(n) == ToUpper(name))
      && (ToUpper(name) in index ==> index[ToUpper(name)] in readable + writable && ToUpper(index[ToUpper(name)]) == ToUpper(name))
  {
    var first := IndexNames(map[], readable);
    if exists n :: n in readable + writable && ToUpper(n) == ToUpper(name) {
      var n :| n in readable + writable && ToUpper(n) == ToUpper(name);
      assert n in readable || n in writable;
    }
  }

  /** findPropertyName finds exactly the readable and writable names equal to
      the given one up to letter case. */
  lemma DescribedFindPropertyName(u: Universe, c: ClassId, name: string)
    ensures var d := Describe(u, c);
      var names := d.ReadablePropertyNames() + d.WritablePropertyNames();
      && (d.FindPropertyName(name).Some? <==> exists n :: n in names && ToUpper(n) == ToUpper(name))
      && (d.FindPropertyName(name).Some? ==>
            d.FindPropertyName(name).value in names && ToUpper(d.FindPropertyName(name).value) == ToUpper(name))
  {
    var d := Describe(u, c);
    IndexLookup(d.ReadablePropertyNames(), d.WritablePropertyNames(), name);
  }
}
