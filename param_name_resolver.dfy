/** ParamNameResolver: the names a mapper method's parameters are known by,
    and the parameter object built from the arguments of one call.  The
    reflective inputs (parameter types, the first @Param annotation of each
    parameter, the names ParamNameUtil reports) are given as a sequence of
    parameter declarations. */
module ParamNameResolvers {
  import opened Results
  import opened Text
  import opened Tables
  import opened Classes
  import opened Heaps
  import opened BaseWrappers

  const GENERIC_NAME_PREFIX: string := "param"
  const ROW_BOUNDS: ClassId := "org.apache.ibatis.session.RowBounds"
  const RESULT_HANDLER: ClassId := "org.apache.ibatis.session.ResultHandler"

  /** One declared parameter: its type, the value of its @Param annotation if
      it has one, and the name reflection reports for it, if any. */
  datatype ParamDecl = ParamDecl(paramType: ClassId, paramAnnotation: Option<string>, actualName: Option<string>)

  /** One entry of the sorted `names` map: parameter position and name. */
  datatype NameEntry = NameEntry(position: nat, name: string)

  /** A constructed resolver.  It never changes after construction; `names`
      holds the entries of the SortedMap in key order. */
  datatype ParamNameResolver = ParamNameResolver(useActualParamName: bool, names: seq<NameEntry>, hasParamAnnotation: bool)

  /** What getNamedParams returns: an argument (or null) as it is, or a new
      ParamMap with the given entries. */
  datatype ParamObject = Plain(v: Value) | ParamMapOf(entries: Table<Value>)

  /** isSpecialParameter: RowBounds, ResultHandler and their subtypes. */
  predicate IsSpecialParameter(u: Universe, c: ClassId)
    ensures c == ROW_BOUNDS || c == RESULT_HANDLER ==> IsSpecialParameter(u, c)
    ensures Transitive(u) && IsSpecialParameter(u, c) ==>
      forall s :: IsAssignableFrom(u, c, s) ==> IsAssignableFrom(u, ROW_BOUNDS, s) || IsAssignableFrom(u, RESULT_HANDLER, s)
  {
    IsAssignableFrom(u, ROW_BOUNDS, c) || IsAssignableFrom(u, RESULT_HANDLER, c)
  }

  /** The name a non-special parameter gets when `given` names were assigned
      before it: its @Param value, else (when configured) its actual name,
      else the decimal text of `given`. */
  function ParamName(p: ParamDecl, useActualParamName: bool, given: nat): string {
    match p.paramAnnotation
    case Some(n) => n
    case None =>
      if useActualParamName && p.actualName.Some? then p.actualName.value else NatToString(given)
  }

  /** The names map built from the given parameters, as entries in key order. */
  function NameEntries(u: Universe, useActualParamName: bool, params: seq<ParamDecl>): seq<NameEntry> {
    if params == [] then []
    else
      var prior := NameEntries(u, useActualParamName, params[..|params| - 1]);
      var p := params[|params| - 1];
      if IsSpecialParameter(u, p.paramType) then prior
      else prior + [NameEntry(|params| - 1, ParamName(p, useActualParamName, |prior|))]
  }

  /** Some non-special parameter carries @Param. */
  ghost predicate Annotated(u: Universe, params: seq<ParamDecl>) {
    exists i :: 0 <= i < |params| && !IsSpecialParameter(u, params[i].paramType) && params[i].paramAnnotation.Some?
  }

  /** The constructor: one pass over the parameters, skipping special ones,
      recording a name per remaining position. */
  method NewParamNameResolver(u: Universe, useActualParamName: bool, params: seq<ParamDecl>) returns (r: ParamNameResolver)
    ensures r.useActualParamName == useActualParamName
    ensures r.names == NameEntries(u, useActualParamName, params)
    ensures r.hasParamAnnotation <==> Annotated(u, params)
  {
    var names: seq<NameEntry> := [];
    var hasParamAnnotation := false;
    var paramIndex := 0;
    while paramIndex < |params|
      invariant 0 <= paramIndex <= |params|
      invariant names == NameEntries(u, useActualParamName, params[..paramIndex])
      invariant hasParamAnnotation <==> Annotated(u, params[..paramIndex])
    {
      assert params[..paramIndex + 1][..paramIndex] == params[..paramIndex];
      var p := params[paramIndex];
      if !IsSpecialParameter(u, p.paramType) {
        var name: Option<string> := None;
        if p.paramAnnotation.Some? {
          hasParamAnnotation := true;
          name := p.paramAnnotation;
        }
        if name.None? {
          if useActualParamName {
            name := p.actualName;
          }
          if name.None? {
            name := Some(NatToString(|names|));
          }
        }
        names := names + [NameEntry(paramIndex, name.value)];
      }
      assert Annotated(u, params[..paramIndex + 1]) <==>
        Annotated(u, params[..paramIndex]) || (!IsSpecialParameter(u, p.paramType) && p.paramAnnotation.Some?)
      by {
        var s := params[..paramIndex + 1];
        if Annotated(u, s) {
          var i :| 0 <= i < |s| && !IsSpecialParameter(u, s[i].paramType) && s[i].paramAnnotation.Some?;
          if i < paramIndex {
            assert params[..paramIndex][i] == s[i];
          }
        }
        if Annotated(u, params[..paramIndex]) {
          var i :| 0 <= i < paramIndex && !IsSpecialParameter(u, params[..paramIndex][i].paramType) && params[..paramIndex][i].paramAnnotation.Some?;
          assert s[i] == params[..paramIndex][i];
        }
        if !IsSpecialParameter(u, p.paramType) && p.paramAnnotation.Some? {
          assert s[paramIndex] == p;
        }
      }
      paramIndex := paramIndex + 1;
    }
    assert params[..|params|] == params;
    r := ParamNameResolver(useActualParamName, names, hasParamAnnotation);
  }

  /** Every entry is a non-special parameter, the keys strictly increase,
      and every non-special parameter has an entry. */
  lemma NameEntriesPositions(u: Universe, useActualParamName: bool, params: seq<ParamDecl>)
    ensures var names := NameEntries(u, useActualParamName, params);
      && (forall k :: 0 <= k < |names| ==>
            names[k].position < |params| && !IsSpecialParameter(u, params[names[k].position].paramType))
      && (forall k, l :: 0 <= k < l < |names| ==> names[k].position < names[l].position)
      && (forall i :: 0 <= i < |params| && !IsSpecialParameter(u, params[i].paramType) ==>
            exists k :: 0 <= k < |names| && names[k].position == i)
  {
    NameEntriesOfParams(u, useActualParamName, params);
    NameEntriesIncreasing(u, useActualParamName, params);
    NameEntriesComplete(u, useActualParamName, params);
  }

  /** Every entry is keyed by a non-special parameter. */
  lemma {:induction false} NameEntriesOfParams(u: Universe, useActualParamName: bool, params: seq<ParamDecl>)
    ensures forall k :: 0 <= k < |NameEntries(u, useActualParamName, params)| ==>
      var e := NameEntries(u, useActualParamName, params)[k];
      e.position < |params| && !IsSpecialParameter(u, params[e.position].paramType)
    decreases |params|
  {
    if params != [] {
      var init := params[..|params| - 1];
      NameEntriesOfParams(u, useActualParamName, init);
      var prior := NameEntries(u, useActualParamName, init);
      var names := NameEntries(u, useActualParamName, params);
      assert forall k :: 0 <= k < |prior| ==> names[k] == prior[k] && init[prior[k].position] == params[prior[k].position];
    }
  }

  /** The entries' keys strictly increase. */
  lemma {:induction false} NameEntriesIncreasing(u: Universe, useActualParamName: bool, params: seq<ParamDecl>)
    ensures forall k, l :: 0 <= k < l < |NameEntries(u, useActualParamName, params)| ==>
      NameEntries(u, useActualParamName, params)[k].position < NameEntries(u, useActualParamName, params)[l].position
    ensures forall k :: 0 <= k < |NameEntries(u, useActualParamName, params)| ==>
      NameEntries(u, useActualParamName, params)[k].position < |params|
    decreases |params|
  {
    if params != [] {
      var init := params[..|params| - 1];
      NameEntriesIncreasing(u, useActualParamName, init);
      var prior := NameEntries(u, useActualParamName, init);
      var names := NameEntries(u, useActualParamName, params);
      assert forall k :: 0 <= k < |prior| ==> names[k] == prior[k];
    }
  }

  /** Some entry is keyed by position i. */
  predicate HasEntry(names: seq<NameEntry>, i: nat) {
    exists k :: 0 <= k < |names| && names[k].position == i
  }

  /** Every non-special parameter has an entry. */
  lemma {:induction false} NameEntriesComplete(u: Universe, useActualParamName: bool, params: seq<ParamDecl>)
    ensures forall i :: 0 <= i < |params| && !IsSpecialParameter(u, params[i].paramType) ==>
      HasEntry(NameEntries(u, useActualParamName, params), i)
    decreases |params|
  {
    if params != [] {
      var init := params[..|params| - 1];
      NameEntriesComplete(u, useActualParamName, init);
      var prior := NameEntries(u, useActualParamName, init);
      var names := NameEntries(u, useActualParamName, params);
      forall i | 0 <= i < |params| && !IsSpecialParameter(u, params[i].paramType)
        ensures HasEntry(names, i)
      {
        if i < |params| - 1 {
          assert init[i] == params[i];
          assert HasEntry(prior, i);
          var k :| 0 <= k < |prior| && prior[k].position == i;
          assert names[k] == prior[k];
        } else {
          assert names[|names| - 1].position == i;
        }
      }
    }
  }

  /** The entry a name map holds in place k names the parameter it is keyed
      by as ParamName says with k names assigned before it. */
  predicate NamedAsAssigned(e: NameEntry, params: seq<ParamDecl>, useActualParamName: bool, k: nat) {
    e.position < |params| && e.name == ParamName(params[e.position], useActualParamName, k)
  }

  /** Every entry is named as ParamName says with k names assigned before
      it: the fallback name counts the names given so far, not the position. */
  lemma {:induction false} NameEntriesNames(u: Universe, useActualParamName: bool, params: seq<ParamDecl>)
    ensures var names := NameEntries(u, useActualParamName, params);
      forall k :: 0 <= k < |names| ==> NamedAsAssigned(names[k], params, useActualParamName, k)
    decreases |params|
  {
    if params != [] {
      var init := params[..|params| - 1];
      NameEntriesNames(u, useActualParamName, init);
      var prior := NameEntries(u, useActualParamName, init);
      var names := NameEntries(u, useActualParamName, params);
      assert var nn := NameEntries(u, useActualParamName, init); forall k :: 0 <= k < |nn| ==> NamedAsAssigned(nn[k], init, useActualParamName, k);
      assert forall k :: 0 <= k < |prior| ==> NamedAsAssigned(prior[k], init, useActualParamName, k);
      forall k | 0 <= k < |names|
        ensures NamedAsAssigned(names[k], params, useActualParamName, k)
      {
        if k < |prior| {
          assert names[k] == prior[k];
          assert NamedAsAssigned(prior[k], init, useActualParamName, k);
          assert init[prior[k].position] == params[prior[k].position];
        }
      }
    }
  }

  /** `aMethod(int a, RowBounds rb, int b)` is named {0: "0", 2: "1"}. */
  lemma SpecialParameterSkipped(u: Universe)
    requires !IsSpecialParameter(u, "int")
    ensures NameEntries(u, false, [ParamDecl("int", None, Some("a")), ParamDecl(ROW_BOUNDS, None, Some("rb")), ParamDecl("int", None, Some("b"))])
         == [NameEntry(0, "0"), NameEntry(2, "1")]
  {
    var ps := [ParamDecl("int", None, Some("a")), ParamDecl(ROW_BOUNDS, None, Some("rb")), ParamDecl("int", None, Some("b"))];
    assert ps[..2][..1] == ps[..1] && ps[..2] == ps[..3][..2] && ps[..3] == ps;
    assert NameEntries(u, false, ps[..1]) == [NameEntry(0, "0")];
    assert NameEntries(u, false, ps[..2]) == [NameEntry(0, "0")];
  }

  /** getNames: the names in key order. */
  function GetNames(r: ParamNameResolver): (names: seq<string>)
    ensures |names| == |r.names|
    ensures forall k :: 0 <= k < |names| ==> names[k] == r.names[k].name
  {
    seq(|r.names|, k requires 0 <= k < |r.names| => r.names[k].name)
  }

  /** For a resolver built from `params`, getNames lists the names of the
      non-special parameters, ordered by position. */
  lemma GetNamesInPositionOrder(u: Universe, params: seq<ParamDecl>, r: ParamNameResolver)
    requires r.names == NameEntries(u, r.useActualParamName, params)
    ensures var names := GetNames(r);
      && (forall k, l :: 0 <= k < l < |names| ==> r.names[k].position < r.names[l].position)
      && (forall k :: 0 <= k < |names| ==>
            && NamedAsAssigned(r.names[k], params, r.useActualParamName, k)
            && !IsSpecialParameter(u, params[r.names[k].position].paramType))
      && (forall i :: 0 <= i < |params| && !IsSpecialParameter(u, params[i].paramType) ==>
            exists k :: 0 <= k < |names| && r.names[k].position == i)
  {
    NameEntriesPositions(u, r.useActualParamName, params);
    NameEntriesNames(u, r.useActualParamName, params);
  }

  /** "param1", "param2", ... */
  function GenericName(i: nat): string {
    GENERIC_NAME_PREFIX + NatToString(i)
  }

  lemma GenericNameInjective(i: nat, j: nat)
    requires GenericName(i) == GenericName(j)
    ensures i == j
  {
    assert NatToString(i) == GenericName(i)[|GENERIC_NAME_PREFIX|..];
    assert NatToString(j) == GenericName(j)[|GENERIC_NAME_PREFIX|..];
    DigitsOfNatToString(i);
    DigitsOfNatToString(j);
  }

  /** names.containsValue(n) */
  predicate DeclaresName(names: seq<NameEntry>, n: string) {
    exists k :: 0 <= k < |names| && names[k].name == n
  }

  /** Every key of the names map indexes the argument array. */
  predicate ArgsCover(names: seq<NameEntry>, args: seq<Value>) {
    forall k :: 0 <= k < |names| ==> names[k].position < |args|
  }

  /** The ParamMap after the loop has handled the first n entries. */
  function ParamTable(names: seq<NameEntry>, args: seq<Value>, n: nat): (t: Table<Value>)
    requires n <= |names| && ArgsCover(names, args)
    ensures t.Valid()
  {
    if n == 0 then Tables.Empty()
    else
      var e := names[n - 1];
      var t := ParamTable(names, args, n - 1).Put(e.name, args[e.position]);
      if DeclaresName(names, GenericName(n)) then t else t.Put(GenericName(n), args[e.position])
  }

  /** One of the first n entries is named `key`. */
  predicate NamedAmongFirst(names: seq<NameEntry>, n: nat, key: string) {
    exists k :: 0 <= k < n && k < |names| && names[k].name == key
  }

  /** `key` is one of param1..paramN and no parameter is named so. */
  predicate FreeGenericName(names: seq<NameEntry>, n: nat, key: string) {
    exists j :: 1 <= j <= n && key == GenericName(j) && !DeclaresName(names, key)
  }

  /** The keys of the ParamMap: the first n names, and the generic names
      param1..paramN that no parameter is named. */
  lemma ParamTableKeys(names: seq<NameEntry>, args: seq<Value>, n: nat)
    requires n <= |names| && ArgsCover(names, args)
    ensures forall key :: key in ParamTable(names, args, n).values <==>
      NamedAmongFirst(names, n, key) || FreeGenericName(names, n, key)
  {
    forall key
      ensures key in ParamTable(names, args, n).values <==>
        NamedAmongFirst(names, n, key) || FreeGenericName(names, n, key)
    {
      ParamTableKey(names, args, n, key);
    }
  }

  /** ParamTableKeys for one key, by induction on the rounds. */
  lemma {:induction false} ParamTableKey(names: seq<NameEntry>, args: seq<Value>, n: nat, key: string)
    requires n <= |names| && ArgsCover(names, args)
    ensures key in ParamTable(names, args, n).values <==>
      NamedAmongFirst(names, n, key) || FreeGenericName(names, n, key)
  {
    if n > 0 {
      ParamTableKeysStep(names, args, n, key);
      NamedAmongFirstStep(names, n, key);
      FreeGenericNameStep(names, n, key);
      ParamTableKey(names, args, n - 1, key);
    }
  }

  lemma NamedAmongFirstStep(names: seq<NameEntry>, n: nat, key: string)
    requires 0 < n <= |names|
    ensures NamedAmongFirst(names, n, key) <==> NamedAmongFirst(names, n - 1, key) || key == names[n - 1].name
  {
    if NamedAmongFirst(names, n, key) {
      var k :| 0 <= k < n && k < |names| && names[k].name == key;
      if k < n - 1 {
        assert NamedAmongFirst(names, n - 1, key);
      }
    }
    if key == names[n - 1].name {
      assert NamedAmongFirst(names, n, key);
    }
  }

  lemma FreeGenericNameStep(names: seq<NameEntry>, n: nat, key: string)
    requires 0 < n
    ensures FreeGenericName(names, n, key) <==>
      FreeGenericName(names, n - 1, key) || (key == GenericName(n) && !DeclaresName(names, key))
  {
    if FreeGenericName(names, n, key) {
      var j :| 1 <= j <= n && key == GenericName(j) && !DeclaresName(names, key);
      if j < n {
        assert FreeGenericName(names, n - 1, key);
      }
    }
    if FreeGenericName(names, n - 1, key) {
      var j :| 1 <= j <= n - 1 && key == GenericName(j) && !DeclaresName(names, key);
      assert 1 <= j <= n;
    }
  }

  /** The n-th round of the loop adds the n-th name and, unless a parameter
      has it, the n-th generic name. */
  lemma ParamTableKeysStep(names: seq<NameEntry>, args: seq<Value>, n: nat, key: string)
    requires 0 < n <= |names| && ArgsCover(names, args)
    ensures key in ParamTable(names, args, n).values <==>
      || key in ParamTable(names, args, n - 1).values
      || key == names[n - 1].name
      || (key == GenericName(n) && !DeclaresName(names, key))
  {
  }

  /** A key the n-th round of the loop does not put keeps its binding. */
  lemma ParamTableStep(names: seq<NameEntry>, args: seq<Value>, n: nat, key: string)
    requires 0 < n <= |names| && ArgsCover(names, args)
    requires key != names[n - 1].name && key != GenericName(n)
    ensures ParamTable(names, args, n).Get(key) == ParamTable(names, args, n - 1).Get(key)
  {
  }

  /** A generic name no parameter has is bound to its parameter's argument,
      and no later put replaces it. */
  lemma {:induction false} GenericNameBound(names: seq<NameEntry>, args: seq<Value>, n: nat, k: nat)
    requires n <= |names| && ArgsCover(names, args)
    requires k < n && !DeclaresName(names, GenericName(k + 1))
    ensures ParamTable(names, args, n).Get(GenericName(k + 1)) == Some(args[names[k].position])
  {
    if n - 1 > k {
      assert names[n - 1].name != GenericName(k + 1);
      if GenericName(n) == GenericName(k + 1) {
        GenericNameInjective(n, k + 1);
      }
      ParamTableStep(names, args, n, GenericName(k + 1));
      GenericNameBound(names, args, n - 1, k);
    } else {
      LastGenericBound(names, args, k);
    }
  }

  /** The round that handles entry k binds param(k+1), when no parameter has
      that name, to the entry's argument. */
  lemma LastGenericBound(names: seq<NameEntry>, args: seq<Value>, k: nat)
    requires k < |names| && ArgsCover(names, args)
    requires !DeclaresName(names, GenericName(k + 1))
    ensures ParamTable(names, args, k + 1).Get(GenericName(k + 1)) == Some(args[names[k].position])
  {
  }

  /** When no later entry repeats the k-th name, that name is bound to its
      own argument. */
  lemma {:induction false} DeclaredNameBound(names: seq<NameEntry>, args: seq<Value>, n: nat, k: nat)
    requires n <= |names| && ArgsCover(names, args)
    requires k < n
    requires forall j :: k < j < n ==> names[j].name != names[k].name
    ensures ParamTable(names, args, n).Get(names[k].name) == Some(args[names[k].position])
  {
    if k < n - 1 {
      DeclaredNameBound(names, args, n - 1, k);
      DeclaredNameKept(names, args, n, k, Some(args[names[k].position]));
    } else {
      LastNameBound(names, args, n, names[k].name, args[names[k].position]);
    }
  }

  /** The n-th round binds the n-th entry's name to its argument. */
  lemma LastNameBound(names: seq<NameEntry>, args: seq<Value>, n: nat, key: string, v: Value)
    requires 0 < n <= |names| && ArgsCover(names, args)
    requires key == names[n - 1].name && v == args[names[n - 1].position]
    ensures ParamTable(names, args, n).Get(key) == Some(v)
  {
    assert DeclaresName(names, key);
  }

  /** The i-th name, when it differs from the n-th, keeps its binding through
      the n-th round: the generic name that round may put is never a declared one. */
  lemma DeclaredNameKept(names: seq<NameEntry>, args: seq<Value>, n: nat, i: nat, bound: Option<Value>)
    requires 0 < n <= |names| && ArgsCover(names, args)
    requires i < |names| && names[i].name != names[n - 1].name
    requires ParamTable(names, args, n - 1).Get(names[i].name) == bound
    ensures ParamTable(names, args, n).Get(names[i].name) == bound
  {
    assert DeclaresName(names, names[i].name);
  }

  /** wrapToMapIfCollection: a Collection or an array is put into a new
      ParamMap under "collection" (and "list" for a List) or "array", and
      under its actual name when there is one; anything else is returned as
      it is. */
  function WrapToMapIfCollection(h: Heap, v: Value, actualParamName: Option<string>): (r: ParamObject)
    ensures r.Plain? <==> !IsCollectionValue(h, v) && !IsArray(h, v)
    ensures r.Plain? ==> r.v == v
    ensures r.ParamMapOf? ==>
      && r.entries.Valid()
      && (forall key :: key in r.entries.values ==> r.entries.values[key] == v)
      && (forall key :: key in r.entries.values <==>
            || (IsCollectionValue(h, v) && key == "collection")
            || (IsList(h, v) && key == "list")
            || (IsArray(h, v) && key == "array")
            || actualParamName == Some(key))
  {
    if IsCollectionValue(h, v) then
      ParamMapOf(WrapperMap("collection", if IsList(h, v) then Some("list") else None, actualParamName, v))
    else if v != Null && IsArray(h, v) then
      ParamMapOf(WrapperMap("array", None, actualParamName, v))
    else
      Plain(v)
  }

  /** The ParamMap wrapToMapIfCollection fills: `v` under `first`, then
      under `second` and `name` when they are present. */
  function WrapperMap(first: string, second: Option<string>, name: Option<string>, v: Value): (t: Table<Value>)
    ensures t.Valid()
    ensures forall key :: key in t.values ==> t.values[key] == v
    ensures forall key :: key in t.values <==> key == first || second == Some(key) || name == Some(key)
  {
    var t := Tables.Empty().Put(first, v);
    var t := if second.Some? then t.Put(second.value, v) else t;
    PutIfPresent(t, name, v)
  }

  /** object instanceof Collection: a List or another Collection. */
  predicate IsCollectionValue(h: Heap, v: Value) {
    v.Ref? && (NodeAt(h, v.addr).ListObject? || NodeAt(h, v.addr).SetObject?)
  }

  /** Optional.ofNullable(name).ifPresent(name -> map.put(name, v)) */
  function PutIfPresent(t: Table<Value>, name: Option<string>, v: Value): (r: Table<Value>)
    ensures r.values == if name.Some? then t.values[name.value := v] else t.values
    ensures t.Valid() ==> r.Valid()
  {
    if name.Some? then t.Put(name.value, v) else t
  }

  /** getNamedParams: null without arguments or names; a single unannotated
      parameter's argument, wrapped if it is a collection or an array;
      otherwise the ParamMap of every name and generic name. */
  function NamedParams(h: Heap, r: ParamNameResolver, args: Option<seq<Value>>): ParamObject
    requires args.Some? ==> ArgsCover(r.names, args.value)
  {
    if args.None? || |r.names| == 0 then Plain(Null)
    else if !r.hasParamAnnotation && |r.names| == 1 then
      WrapToMapIfCollection(h, args.value[r.names[0].position],
        if r.useActualParamName then Some(r.names[0].name) else None)
    else
      ParamMapOf(ParamTable(r.names, args.value, |r.names|))
  }

  /** getNamedParams, with its loop over the names map. */
  method GetNamedParams(h: Heap, r: ParamNameResolver, args: Option<seq<Value>>) returns (result: ParamObject)
    requires args.Some? ==> ArgsCover(r.names, args.value)
    ensures result == NamedParams(h, r, args)
  {
    var paramCount := |r.names|;
    if args.None? || paramCount == 0 {
      return Plain(Null);
    }
    if !r.hasParamAnnotation && paramCount == 1 {
      var value := args.value[r.names[0].position];
      return WrapToMapIfCollection(h, value, if r.useActualParamName then Some(r.names[0].name) else None);
    }
    var param: Table<Value> := Tables.Empty();
    var i := 0;
    while i < paramCount
      invariant 0 <= i <= paramCount
      invariant param == ParamTable(r.names, args.value, i)
    {
      var entry := r.names[i];
      param := param.Put(entry.name, args.value[entry.position]);
      var genericParamName := GENERIC_NAME_PREFIX + NatToString(i + 1);
      if !DeclaresName(r.names, genericParamName) {
        param := param.Put(genericParamName, args.value[entry.position]);
      }
      i := i + 1;
    }
    return ParamMapOf(param);
  }

  /** In the ParamMap case, every generic name that no parameter has is bound
      to its parameter's argument, and, when the names are distinct, so is
      every name; the keys are exactly those names. */
  lemma NamedParamsBindings(h: Heap, r: ParamNameResolver, args: seq<Value>)
    requires ArgsCover(r.names, args)
    requires |r.names| > 0 && (r.hasParamAnnotation || |r.names| > 1)
    ensures NamedParams(h, r, Some(args)).ParamMapOf?
    ensures var t := NamedParams(h, r, Some(args)).entries;
      && (forall k :: 0 <= k < |r.names| && !DeclaresName(r.names, GenericName(k + 1)) ==>
            t.Get(GenericName(k + 1)) == Some(args[r.names[k].position]))
      && ((forall i, j :: 0 <= i < j < |r.names| ==> r.names[i].name != r.names[j].name) ==>
            forall k :: 0 <= k < |r.names| ==> t.Get(r.names[k].name) == Some(args[r.names[k].position]))
      && (forall key :: key in t.values <==> DeclaresName(r.names, key) || FreeGenericName(r.names, |r.names|, key))
  {
    var n := |r.names|;
    forall k | 0 <= k < n && !DeclaresName(r.names, GenericName(k + 1))
      ensures ParamTable(r.names, args, n).Get(GenericName(k + 1)) == Some(args[r.names[k].position])
    {
      GenericNameBound(r.names, args, n, k);
    }
    if forall i, j :: 0 <= i < j < n ==> r.names[i].name != r.names[j].name {
      forall k | 0 <= k < n
        ensures ParamTable(r.names, args, n).Get(r.names[k].name) == Some(args[r.names[k].position])
      {
        DeclaredNameBound(r.names, args, n, k);
      }
    }
    ParamTableKeys(r.names, args, n);
    assert forall key :: NamedAmongFirst(r.names, n, key) <==> DeclaresName(r.names, key);
  }

  /** The single unannotated parameter of a resolver built from `params` is
      passed on as it is unless it is a collection or an array. */
  lemma SingleParameterUnwrapped(u: Universe, h: Heap, params: seq<ParamDecl>, r: ParamNameResolver, args: seq<Value>)
    requires r.names == NameEntries(u, r.useActualParamName, params)
    requires |params| == |args| && |r.names| == 1 && !r.hasParamAnnotation
    ensures ArgsCover(r.names, args)
    ensures var v := args[r.names[0].position];
      !IsCollectionValue(h, v) && !IsArray(h, v) ==> NamedParams(h, r, Some(args)) == Plain(v)
  {
    NameEntriesPositions(u, r.useActualParamName, params);
  }
}
