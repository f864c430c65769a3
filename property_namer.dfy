/** JavaBeans accessor-name conventions: which method names are getters and
    setters, and the property name an accessor stands for. */
module PropertyNamer {
  import opened Results
  import opened Text

  /** The accessor prefix methodToProperty strips: "is" is checked first, then
      "get" and "set". */
  function AccessorPrefixLength(name: string): (n: nat)
    ensures n == 0 || n == 2 || n == 3
    ensures n == 2 <==> StartsWith(name, "is")
    ensures n == 3 <==> !StartsWith(name, "is") && (StartsWith(name, "get") || StartsWith(name, "set"))
  {
    if StartsWith(name, "is") then 2
    else if StartsWith(name, "get") || StartsWith(name, "set") then 3
    else 0
  }

  /** The decapitalisation rule: the first letter is lowered when the rest is a
      single character or its second character is not upper case, so `getURL`
      names the property `URL` and `getName` names `name`. */
  predicate Decapitalizes(rest: string) {
    |rest| == 1 || (|rest| > 1 && !IsUpperCase(rest[1]))
  }

  /** PropertyNamer.methodToProperty. */
  function MethodToProperty(name: string): (r: Result<string>)
    ensures r.Err? <==> !(StartsWith(name, "is") || StartsWith(name, "get") || StartsWith(name, "set"))
    ensures r.Err? ==> r.error == NotAPropertyMethod(name)
    ensures r.Ok? ==>
      var rest := name[AccessorPrefixLength(name)..];
      && |r.value| == |rest|
      && (|rest| > 0 ==>
            && r.value[1..] == rest[1..]
            && r.value[0] == if Decapitalizes(rest) then ToLowerChar(rest[0]) else rest[0])
  {
    var prefix := AccessorPrefixLength(name);
    if prefix == 0 then Err(NotAPropertyMethod(name))
    else
      var rest := name[prefix..];
      if Decapitalizes(rest) then Ok([ToLowerChar(rest[0])] + rest[1..]) else Ok(rest)
  }

  /** PropertyNamer.isGetter: "get" followed by something, or "is" followed
      by something; the property it names is what follows the prefix. */
  predicate IsGetter(name: string)
    ensures IsGetter(name) ==>
      MethodToProperty(name).Ok? && |MethodToProperty(name).value| == |name| - AccessorPrefixLength(name) > 0
  {
    assert StartsWith(name, "get") ==> name[..2] == "ge";
    (StartsWith(name, "get") && |name| > 3) || (StartsWith(name, "is") && |name| > 2)
  }

  /** PropertyNamer.isSetter: "set" followed by something, which names the
      property. */
  predicate IsSetter(name: string)
    ensures IsSetter(name) ==> MethodToProperty(name).Ok? && |MethodToProperty(name).value| == |name| - 3 > 0
  {
    assert StartsWith(name, "set") ==> name[..2] == "se";
    StartsWith(name, "set") && |name| > 3
  }

  /** PropertyNamer.isProperty: exactly the names methodToProperty turns into
      a non-empty property name. */
  predicate IsProperty(name: string)
    ensures IsProperty(name) <==> MethodToProperty(name).Ok? && |MethodToProperty(name).value| > 0
  {
    IsGetter(name) || IsSetter(name)
  }

  /** The getter and setter of one property name the same property. */
  lemma GetterAndSetterAgree(prop: string)
    requires |prop| > 0
    ensures MethodToProperty("get" + prop) == MethodToProperty("set" + prop)
    ensures IsGetter("get" + prop) && IsSetter("set" + prop)
  {
    assert ("get" + prop)[..2] == "ge";
    assert ("get" + prop)[..3] == "get";
    assert ("set" + prop)[..2] == "se";
    assert ("set" + prop)[..3] == "set";
    assert ("get" + prop)[3..] == prop;
    assert ("set" + prop)[3..] == prop;
  }

  /** Round trip for the common case: the getter of a property whose first
      character is not an upper-case letter and whose second character is not
      an upper-case letter is `get` followed by the capitalised name, and
      methodToProperty recovers the property. */
  lemma CapitalizedGetterRoundTrip(prop: string)
    requires |prop| > 0 && !IsUpperCase(prop[0])
    requires |prop| == 1 || !IsUpperCase(prop[1])
    ensures MethodToProperty("get" + [ToUpperChar(prop[0])] + prop[1..]) == Ok(prop)
  {
    var m := "get" + [ToUpperChar(prop[0])] + prop[1..];
    assert m[..2] == "ge";
    assert m[..3] == "get";
    var rest := m[3..];
    assert rest == [ToUpperChar(prop[0])] + prop[1..];
    assert [ToLowerChar(rest[0])] + rest[1..] == prop;
  }

  /** A name whose second character is upper case keeps its capitalisation:
      `getURL` is the property `URL`. */
  lemma UpperCaseRunKept(prop: string)
    requires |prop| > 1 && IsUpperCase(prop[1])
    ensures MethodToProperty("get" + prop) == Ok(prop)
  {
    var m := "get" + prop;
    assert m[..2] == "ge";
    assert m[..3] == "get";
    assert m[3..] == prop;
  }

  /** "is" is checked before "get" and "set", so a name such as `isolate` or
      `issue` is read as a boolean accessor. */
  lemma IsPrefixTakesPrecedence(rest: string)
    requires |rest| > 1 && !IsUpperCase(rest[1])
    ensures MethodToProperty("is" + rest) == Ok([ToLowerChar(rest[0])] + rest[1..])
  {
    var m := "is" + rest;
    assert m[..2] == "is";
    assert m[2..] == rest;
  }
}
