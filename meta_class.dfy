/** MetaClass: property paths resolved against class metadata alone.  Each
    step asks the reflector factory for the reflector of the current class
    and descends into a property's getter type. */
module MetaClasses {
  import opened Results
  import opened Text
  import opened Classes
  import opened PropertyTokenizers
  import CD = ClassDescriptors
  import CDF = ClassDescriptorFacts

  /** ReflectorFactory.findForClass, as the reflector it answers for each
      class.  Whatever the factory, what it hands out is the Reflector of that
      class, whose type tables agree with its invoker tables. */
  type Reflectors = f: ClassId -> CD.Descriptor | forall c :: f(c).classType == c && Consistent(f(c).accessors)
    witness (c: ClassId) => CD.Descriptor(c, false, CD.NoAccessors(), map[])

  /** Every property with an invoker has a type and the other way round, and
      every listed name is registered. */
  ghost predicate Consistent(acc: CD.Accessors) {
    forall n ::
      && (n in acc.getMethods.values <==> n in acc.getTypes.values)
      && (n in acc.setMethods.values <==> n in acc.setTypes.values)
      && (n in acc.getMethods.keys <==> n in acc.getMethods.values)
      && (n in acc.setMethods.keys <==> n in acc.setMethods.values)
  }

  /** The reflectors a DefaultReflectorFactory hands out: new Reflector(c). */
  function DefaultReflectors(u: Universe): (f: Reflectors)
    ensures forall c :: f(c) == CD.Describe(u, c)
  {
    forall c ensures CD.Describe(u, c).classType == c && Consistent(CD.Describe(u, c).accessors) {
      assert CD.Aligned(CD.Describe(u, c).accessors);
    }
    c => CD.Describe(u, c)
  }

  /** MetaClass.forClass(classType, reflectorFactory). */
  datatype MetaClass = MetaClass(universe: Universe, reflectors: Reflectors, classType: ClassId)
  {
    /** The reflector the factory hands out for the class. */
    function Reflector(): CD.Descriptor {
      reflectors(classType)
    }

    /** The MetaClass was made with a DefaultReflectorFactory. */
    ghost predicate Described() {
      Reflector() == CD.Describe(universe, classType)
    }

    /** The descriptor's type tables agree with its invoker tables. */
    lemma ReflectorConsistent()
      ensures Consistent(Reflector().accessors)
    {
    }

    /** metaClassForProperty(String): the MetaClass of the property's getter type. */
    function ForProperty(name: string): (r: Result<MetaClass>)
      ensures r.Ok? <==> Reflector().HasGetter(name)
      ensures r.Ok? ==> r.value.universe == universe && r.value.classType == Reflector().accessors.getTypes.values[name]
      ensures r.Err? ==> r.error == NoGetter(name, classType)
    {
      ReflectorConsistent();
      var propType :- Reflector().GetGetterType(name);
      Ok(MetaClass(universe, reflectors, propType))
    }

    /** getGenericGetterType: the resolved type arguments of the getter's
        declared type; an empty list stands for a type that is not
        parameterized (and for Java's null). */
    function GenericGetterTypeArgs(propertyName: string): (r: Result<seq<Option<ClassId>>>)
      ensures r.Ok? <==> Reflector().HasGetter(propertyName)
    {
      var invoker :- Reflector().GetGetInvoker(propertyName);
      match invoker
      case MethodInvoker(m) => Ok(m.returnTypeArgs)
      case AmbiguousMethodInvoker(m, _) => Ok(m.returnTypeArgs)
      case GetFieldInvoker(f) => Ok(f.typeArgs)
      case SetFieldInvoker(_) => Ok([])
    }

    /** getGetterType(PropertyTokenizer): the getter type, or, for an indexed
        segment over a Collection with exactly one resolvable type argument,
        the element type. */
    function TokenGetterType(prop: PropertyTokenizer): (r: Result<ClassId>)
      ensures r.Ok? <==> Reflector().HasGetter(prop.name)
      ensures r.Err? ==> r.error == NoGetter(prop.name, classType)
      ensures r.Ok? ==>
        var t := Reflector().accessors.getTypes.values[prop.name];
        var args := GenericGetterTypeArgs(prop.name).value;
        if prop.index.Some? && IsAssignableFrom(universe, COLLECTION, t) && |args| == 1 && args[0].Some?
        then r.value == args[0].value
        else r.value == t
    {
      ReflectorConsistent();
      var t :- Reflector().GetGetterType(prop.name);
      if prop.index.Some? && IsAssignableFrom(universe, COLLECTION, t) then
        var args := GenericGetterTypeArgs(prop.name).value;
        if |args| == 1 && args[0].Some? then Ok(args[0].value) else Ok(t)
      else
        Ok(t)
    }

    /** metaClassForProperty(PropertyTokenizer). */
    function ForToken(prop: PropertyTokenizer): (r: Result<MetaClass>)
      ensures r.Ok? <==> Reflector().HasGetter(prop.name)
    {
      var propType :- TokenGetterType(prop);
      Ok(MetaClass(universe, reflectors, propType))
    }

    /** getGetterType(String): a malformed path fails with the tokenizer's
        error; a plain one-segment name gives the reflector's getter type;
        any path with a type starts with a readable property. */
    function GetGetterType(name: string): (r: Result<ClassId>)
      ensures Tokenize(name).Err? ==> r == Err(Tokenize(name).error)
      ensures Tokenize(name).Ok? && !Tokenize(name).value.HasNext() && Tokenize(name).value.index.None? ==>
        r == Reflector().GetGetterType(name)
      ensures r.Ok? ==> Tokenize(name).Ok? && Reflector().HasGetter(Tokenize(name).value.name)
      decreases |name|
    {
      var prop :- Tokenize(name);
      if prop.HasNext() then
        var metaProp :- ForToken(prop);
        metaProp.GetGetterType(prop.children.value)
      else
        TokenGetterType(prop)
    }

    /** getSetterType(String): intermediate segments descend through the
        plain getter type, the last one asks for the setter type. */
    function GetSetterType(name: string): (r: Result<ClassId>)
      ensures Tokenize(name).Err? ==> r == Err(Tokenize(name).error)
      ensures r.Ok? ==> (Tokenize(name).Ok? &&
        if Tokenize(name).value.HasNext() then Reflector().HasGetter(Tokenize(name).value.name)
        else Reflector().HasSetter(Tokenize(name).value.name))
      decreases |name|
    {
      ReflectorConsistent();
      var prop :- Tokenize(name);
      if prop.HasNext() then
        var metaProp :- ForProperty(prop.name);
        metaProp.GetSetterType(prop.children.value)
      else
        Reflector().GetSetterType(prop.name)
    }

    /** hasGetter(String): true only when the first segment is readable. */
    function HasGetter(name: string): (r: Result<bool>)
      ensures Tokenize(name).Err? ==> r == Err(Tokenize(name).error)
      ensures Tokenize(name).Ok? && !Tokenize(name).value.HasNext() ==> r == Ok(Reflector().HasGetter(Tokenize(name).value.name))
      ensures r == Ok(true) ==> Tokenize(name).Ok? && Reflector().HasGetter(Tokenize(name).value.name)
      decreases |name|
    {
      var prop :- Tokenize(name);
      if !prop.HasNext() then Ok(Reflector().HasGetter(prop.name))
      else if Reflector().HasGetter(prop.name) then
        var metaProp :- ForToken(prop);
        metaProp.HasGetter(prop.children.value)
      else
        Ok(false)
    }

    /** hasSetter(String): note that it descends with metaClassForProperty,
        which needs a getter. */
    function HasSetter(name: string): (r: Result<bool>)
      ensures Tokenize(name).Err? ==> r == Err(Tokenize(name).error)
      ensures Tokenize(name).Ok? && !Tokenize(name).value.HasNext() ==> r == Ok(Reflector().HasSetter(Tokenize(name).value.name))
      ensures r == Ok(true) ==> (Tokenize(name).Ok? && Reflector().HasSetter(Tokenize(name).value.name) &&
        (Tokenize(name).value.HasNext() ==> Reflector().HasGetter(Tokenize(name).value.name)))
      decreases |name|
    {
      var prop :- Tokenize(name);
      if !prop.HasNext() then Ok(Reflector().HasSetter(prop.name))
      else if Reflector().HasSetter(prop.name) then
        var metaProp :- ForProperty(prop.name);
        metaProp.HasSetter(prop.children.value)
      else
        Ok(false)
    }

    /** The text buildProperty appends: each resolved segment in its
        registered spelling followed by '.', then the last segment looked up
        as a whole (bracket included); resolution stops at the first segment
        that is not found. */
    function PropertyPath(name: string): (r: Result<string>)
      ensures Tokenize(name).Err? ==> r == Err(Tokenize(name).error)
      ensures Tokenize(name).Ok? && !Tokenize(name).value.HasNext() ==> r.Ok?
      ensures r.Ok? && |r.value| > 0 ==> (Tokenize(name).Ok? &&
        Reflector().FindPropertyName(if Tokenize(name).value.HasNext() then Tokenize(name).value.name else name).Some?)
      decreases |name|
    {
      var prop :- Tokenize(name);
      if prop.HasNext() then
        match Reflector().FindPropertyName(prop.name)
        case None => Ok("")
        case Some(propertyName) =>
          var metaProp :- ForProperty(propertyName);
          var rest :- metaProp.PropertyPath(prop.children.value);
          Ok(propertyName + "." + rest)
      else
        Ok(Reflector().FindPropertyName(name).GetOr(""))
    }

    /** findProperty(String): None (Java's null) when nothing was resolved. */
    function FindProperty(name: string): (r: Result<Option<string>>)
      ensures r.Ok? <==> PropertyPath(name).Ok?
      ensures r.Ok? ==> (r.value.None? <==> PropertyPath(name).value == "")
      ensures r.Ok? && r.value.Some? ==> r.value.value == PropertyPath(name).value
    {
      var built :- PropertyPath(name);
      Ok(if |built| > 0 then Some(built) else None)
    }

    /** findProperty(String, boolean): with camel-case mapping every '_' is
        dropped before the lookup. */
    function FindPropertyCamelCase(name: string, useCamelCaseMapping: bool): (r: Result<Option<string>>)
      ensures !useCamelCaseMapping || '_' !in name ==> r == FindProperty(name)
      ensures useCamelCaseMapping ==> exists n :: '_' !in n && r == FindProperty(n)
    {
      FindProperty(if useCamelCaseMapping then RemoveAll(name, '_') else name)
    }

    /** getGetterNames. */
    function GetGetterNames(): (r: seq<string>)
      ensures forall n :: n in r <==> Reflector().HasGetter(n)
    {
      ReflectorConsistent();
      Reflector().ReadablePropertyNames()
    }

    /** getSetterNames. */
    function GetSetterNames(): (r: seq<string>)
      ensures forall n :: n in r <==> Reflector().HasSetter(n)
    {
      ReflectorConsistent();
      Reflector().WritablePropertyNames()
    }

    /** getGetInvoker: the reflector's, failing for an unknown property. */
    function GetGetInvoker(name: string): (r: Result<CD.Invoker>)
      ensures r.Ok? <==> Reflector().HasGetter(name)
      ensures r.Err? ==> r.error == NoGetter(name, classType)
    {
      Reflector().GetGetInvoker(name)
    }

    /** getSetInvoker: the reflector's, failing for an unknown property. */
    function GetSetInvoker(name: string): (r: Result<CD.Invoker>)
      ensures r.Ok? <==> Reflector().HasSetter(name)
      ensures r.Err? ==> r.error == NoSetter(name, classType)
    {
      Reflector().GetSetInvoker(name)
    }

    /** hasDefaultConstructor: whether the class declares a constructor
        without parameters (for a reflector the default factory built). */
    function HasDefaultConstructor(): (r: bool)
      ensures Described() ==> (r <==> [] in Info(universe, classType).constructors)
    {
      Reflector().hasDefaultConstructor
    }
  }

  /** buildProperty, which appends to a StringBuilder as it walks the path. */
  method BuildProperty(mc: MetaClass, name: string) returns (r: Result<string>)
    ensures r == mc.PropertyPath(name)
  {
    var builder := "";
    var current := mc;
    var rest := name;
    PrefixedEmpty(mc.PropertyPath(name));
    while true
      invariant mc.PropertyPath(name) == Prefixed(builder, current.PropertyPath(rest))
      decreases |rest|
    {
      var prop := Tokenize(rest);
      if prop.Err? {
        return Err(prop.error);
      }
      var t := prop.value;
      if t.HasNext() {
        var propertyName := current.Reflector().FindPropertyName(t.name);
        if propertyName.None? {
          PrefixedEmptyPart(builder);
          return Ok(builder);
        }
        var metaProp := current.ForProperty(propertyName.value);
        if metaProp.Err? {
          return Err(metaProp.error);
        }
        var part := propertyName.value + ".";
        PathStep(current, rest);
        PrefixedAppend(builder, part, metaProp.value.PropertyPath(t.children.value));
        builder := builder + part;
        current := metaProp.value;
        rest := t.children.value;
      } else {
        var propertyName := current.Reflector().FindPropertyName(rest);
        assert current.PropertyPath(rest) == Ok(propertyName.GetOr(""));
        if propertyName.Some? {
          builder := builder + propertyName.value;
        } else {
          PrefixedEmptyPart(builder);
        }
        return Ok(builder);
      }
    }
  }

  /** One resolved segment of buildProperty: its registered spelling and a
      '.' in front of the rest of the walk. */
  lemma PathStep(mc: MetaClass, name: string)
    requires Tokenize(name).Ok? && Tokenize(name).value.HasNext()
    requires mc.Reflector().FindPropertyName(Tokenize(name).value.name).Some?
    requires mc.ForProperty(mc.Reflector().FindPropertyName(Tokenize(name).value.name).value).Ok?
    ensures var t := Tokenize(name).value;
      var p := mc.Reflector().FindPropertyName(t.name).value;
      mc.PropertyPath(name) == Prefixed(p + ".", mc.ForProperty(p).value.PropertyPath(t.children.value))
  {
  }

  /** What the builder holds once the rest of the walk has appended its part. */
  function Prefixed(builder: string, rest: Result<string>): Result<string> {
    if rest.Ok? then Ok(builder + rest.value) else rest
  }

  lemma PrefixedEmpty(rest: Result<string>)
    ensures Prefixed("", rest) == rest
  {
    if rest.Ok? {
      assert "" + rest.value == rest.value;
    }
  }

  lemma PrefixedEmptyPart(builder: string)
    ensures Prefixed(builder, Ok("")) == Ok(builder)
  {
    assert builder + "" == builder;
  }

  lemma PrefixedAppend(builder: string, part: string, rest: Result<string>)
    ensures Prefixed(builder, Prefixed(part, rest)) == Prefixed(builder + part, rest)
  {
    if rest.Ok? {
      assert builder + (part + rest.value) == builder + part + rest.value;
    }
  }

  // ---------------------------------------------------------------------------
  // Properties

  /** getGetterType succeeds exactly where hasGetter answers true: the two
      walk the same segments through the same getter types. */
  lemma {:induction false} GetterTypeIffHasGetter(mc: MetaClass, name: string)
    ensures mc.GetGetterType(name).Ok? <==> mc.HasGetter(name) == Ok(true)
    decreases |name|
  {
    var prop := Tokenize(name);
    if prop.Ok? && prop.value.HasNext() {
      var t := prop.value;
      var metaProp := mc.ForToken(t);
      if metaProp.Ok? {
        GetterTypeIffHasGetter(metaProp.value, t.children.value);
      }
    } else if prop.Ok? {
      mc.ReflectorConsistent();
    }
  }

  /** Where hasSetter answers true, getSetterType succeeds. */
  lemma {:induction false} HasSetterGivesSetterType(mc: MetaClass, name: string)
    requires mc.HasSetter(name) == Ok(true)
    ensures mc.GetSetterType(name).Ok?
    decreases |name|
  {
    var t := Tokenize(name).value;
    if t.HasNext() {
      HasSetterGivesSetterType(mc.ForProperty(t.name).value, t.children.value);
    } else {
      mc.ReflectorConsistent();
    }
  }

  /** hasSetter on a nested path whose first property has a setter but no
      getter raises the no-getter error instead of answering false. */
  lemma HasSetterNeedsIntermediateGetter(mc: MetaClass, name: string)
    requires Tokenize(name).Ok? && Tokenize(name).value.HasNext()
    requires var first := Tokenize(name).value.name;
      mc.Reflector().HasSetter(first) && !mc.Reflector().HasGetter(first)
    ensures mc.HasSetter(name) == Err(NoGetter(Tokenize(name).value.name, mc.classType))
  {
  }

  /** On a single segment findProperty resolves exactly the names registered
      as readable or writable, ignoring letter case, and answers with the
      registered spelling. */
  lemma FindPropertySingleSegment(mc: MetaClass, name: string)
    requires mc.Described()
    requires '.' !in name && name != []
    requires Tokenize(name).Ok?
    ensures var names := mc.Reflector().ReadablePropertyNames() + mc.Reflector().WritablePropertyNames();
      && mc.FindProperty(name).Ok?
      && (mc.FindProperty(name).value.Some? <==> exists n :: n in names && n != [] && ToUpper(n) == ToUpper(name))
      && (mc.FindProperty(name).value.Some? ==>
            mc.FindProperty(name).value.value in names && EqualsIgnoreCase(mc.FindProperty(name).value.value, name))
  {
    CDF.DescribedFindPropertyName(mc.universe, mc.classType, name);
    var names := mc.Reflector().ReadablePropertyNames() + mc.Reflector().WritablePropertyNames();
    var found := mc.Reflector().FindPropertyName(name);
    if found.Some? {
      assert |ToUpper(found.value)| == |ToUpper(name)|;
    } else {
      forall n | n in names && n != [] ensures ToUpper(n) != ToUpper(name) {
      }
    }
    if exists n :: n in names && n != [] && ToUpper(n) == ToUpper(name) {
      assert found.Some?;
      assert |ToUpper(found.value)| == |ToUpper(name)|;
    }
  }

  /** Upper-casing keeps '.' and '[' where they are and introduces none. */
  lemma ToUpperKeepsPunctuation(a: string, b: string)
    requires ToUpper(a) == ToUpper(b)
    ensures |a| == |b|
    ensures forall j :: 0 <= j < |a| ==> (a[j] == '.' <==> b[j] == '.') && (a[j] == '[' <==> b[j] == '[')
  {
    assert |a| == |ToUpper(a)|;
    forall j | 0 <= j < |a| ensures (a[j] == '.' <==> b[j] == '.') && (a[j] == '[' <==> b[j] == '[') {
      UpperCharKeepsPunctuation(a[j]);
      UpperCharKeepsPunctuation(b[j]);
      assert ToUpperChar(a[j]) == ToUpperChar(b[j]);
    }
  }

  lemma UpperCharKeepsPunctuation(x: char)
    ensures ToUpperChar(x) == '.' <==> x == '.'
    ensures ToUpperChar(x) == '[' <==> x == '['
  {
    if 'a' <= x <= 'z' {
      assert 'A' <= ToUpperChar(x) <= 'Z';
    }
  }

  lemma NoDotIgnoresCase(a: string, b: string)
    requires ToUpper(a) == ToUpper(b) && '.' !in b
    ensures '.' !in a
  {
    ToUpperKeepsPunctuation(a, b);
    forall j | 0 <= j < |a| ensures a[j] != '.' {
      assert b[j] in b;
    }
  }

  /** A character missing from a prefix of `a` is missing from the same
      prefix of a string that has it at the same places. */
  lemma AbsentFromPrefix(a: string, b: string, k: nat, ch: char)
    requires k <= |a| == |b|
    requires forall j :: 0 <= j < |a| ==> (a[j] == ch <==> b[j] == ch)
    requires ch !in a[..k]
    ensures ch !in b[..k]
  {
    forall j | 0 <= j < k ensures b[..k][j] != ch {
      assert a[..k][j] == a[j];
    }
  }

  /** Whether a segment tokenizes does not depend on letter case. */
  lemma TokenizeIgnoresCase(a: string, b: string)
    requires ToUpper(a) == ToUpper(b)
    requires Tokenize(b).Ok?
    ensures Tokenize(a).Ok?
  {
    TokenizeFailsIff(a);
    TokenizeFailsIff(b);
    ToUpperKeepsPunctuation(a, b);
    if k :| BracketClosesSegment(a, k) {
      AbsentFromPrefix(a, b, k, '[');
      AbsentFromPrefix(a, b, k, '.');
      assert BracketClosesSegment(b, k);
    }
  }

  /** On a single segment findProperty is idempotent: the registered
      spelling it returns resolves to itself. */
  lemma FindPropertyIdempotent(mc: MetaClass, name: string)
    requires mc.Described()
    requires '.' !in name
    requires mc.FindProperty(name).Ok? && mc.FindProperty(name).value.Some?
    ensures mc.FindProperty(mc.FindProperty(name).value.value) == mc.FindProperty(name)
  {
    var d := mc.Reflector();
    var p := d.FindPropertyName(name).value;
    CDF.DescribedFindPropertyName(mc.universe, mc.classType, name);
    TokenizeIgnoresCase(p, name);
    NoDotIgnoresCase(p, name);
    assert d.FindPropertyName(p) == Some(p);
    var t := Tokenize(p).value;
    assert !t.HasNext() && t.indexedName == p;
    assert mc.PropertyPath(p) == Ok(p);
    assert mc.PropertyPath(name) == Ok(p);
  }

  /** With camel-case mapping underscores never matter: the name and the
      name stripped of its underscores find the same property. */
  lemma CamelCaseIgnoresUnderscores(mc: MetaClass, name: string)
    ensures mc.FindPropertyCamelCase(name, true) == mc.FindPropertyCamelCase(RemoveAll(name, '_'), true)
  {
    assert RemoveAll(RemoveAll(name, '_'), '_') == RemoveAll(name, '_');
  }
}
