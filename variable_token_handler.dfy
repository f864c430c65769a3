/** The token handler PropertyParser hands to the placeholder parser: it looks a
    `${key}` placeholder up in a set of properties and, when default values are
    switched on, understands `${key:default}`. */
module VariableTokenHandlers {
  import opened Results
  import opened Text

  /** java.util.Properties restricted to string keys and values. */
  type Properties = map<string, string>

  const KEY_PREFIX: string := "org.apache.ibatis.parsing.PropertyParser."
  const KEY_ENABLE_DEFAULT_VALUE: string := KEY_PREFIX + "enable-default-value"
  const KEY_DEFAULT_VALUE_SEPARATOR: string := KEY_PREFIX + "default-value-separator"
  const ENABLE_DEFAULT_VALUE: string := "false"
  const DEFAULT_VALUE_SEPARATOR: string := ":"

  /** Properties.getProperty(key, defaultValue). */
  function GetProperty(props: Properties, key: string, defaultValue: string): (r: string)
    ensures key in props ==> r == props[key]
    ensures key !in props ==> r == defaultValue
  {
    if key in props then props[key] else defaultValue
  }

  /** Boolean.parseBoolean: true exactly for "true" in any letter case. */
  predicate ParseBoolean(s: string) {
    EqualsIgnoreCase(s, "true")
  }

  /** The handler's state; `variables` is None where Java holds null. */
  datatype VariableTokenHandler = VariableTokenHandler(
    variables: Option<Properties>,
    enableDefaultValue: bool,
    defaultValueSeparator: string)
  {
    /** VariableTokenHandler.getPropertyValue. */
    function GetPropertyValue(key: string, defaultValue: string): (r: string)
      ensures variables.None? ==> r == defaultValue
      ensures variables.Some? ==> r == GetProperty(variables.value, key, defaultValue)
    {
      if variables.None? then defaultValue else GetProperty(variables.value, key, defaultValue)
    }

    /** VariableTokenHandler.handleToken.  Without variables, and for a missing
        key without a default, the placeholder is written back as it was found;
        a key without the separator is looked up as it is, whether or not
        default values are on. */
    function HandleToken(content: string): (r: string)
      ensures variables.None? ==> r == "${" + content + "}"
      ensures variables.Some? && !enableDefaultValue ==>
        && (content in variables.value ==> r == variables.value[content])
        && (content !in variables.value ==> r == "${" + content + "}")
      ensures variables.Some? && enableDefaultValue && IndexOf(content, defaultValueSeparator, 0) == -1 ==>
        && (content in variables.value ==> r == variables.value[content])
        && (content !in variables.value ==> r == "${" + content + "}")
    {
      if variables.Some? then
        var props := variables.value;
        var separatorIndex := if enableDefaultValue then IndexOf(content, defaultValueSeparator, 0) else -1;
        if separatorIndex >= 0 then
          GetProperty(props, content[..separatorIndex], content[separatorIndex + |defaultValueSeparator|..])
        else if content in props then props[content]
        else "${" + content + "}"
      else "${" + content + "}"
    }
  }

  /** new VariableTokenHandler(variables): the two switches are read from the
      variables themselves, defaulting to "false" and ":". */
  function NewVariableTokenHandler(variables: Option<Properties>): (h: VariableTokenHandler)
    ensures h.variables == variables
    ensures variables.None? ==> !h.enableDefaultValue && h.defaultValueSeparator == ":"
    ensures variables.Some? ==>
      && (h.enableDefaultValue <==>
            KEY_ENABLE_DEFAULT_VALUE in variables.value && ParseBoolean(variables.value[KEY_ENABLE_DEFAULT_VALUE]))
      && h.defaultValueSeparator == GetProperty(variables.value, KEY_DEFAULT_VALUE_SEPARATOR, ":")
  {
    var partial := VariableTokenHandler(variables, false, "");
    VariableTokenHandler(
      variables,
      ParseBoolean(partial.GetPropertyValue(KEY_ENABLE_DEFAULT_VALUE, ENABLE_DEFAULT_VALUE)),
      partial.GetPropertyValue(KEY_DEFAULT_VALUE_SEPARATOR, DEFAULT_VALUE_SEPARATOR))
  }

  /** With default values on, the text before the first separator is the key and
      the text after it is the value used when the key is missing. */
  lemma LookupWithDefault(h: VariableTokenHandler, key: string, defaultValue: string)
    requires h.variables.Some? && h.enableDefaultValue
    requires |h.defaultValueSeparator| > 0
    requires forall k :: 0 <= k < |key| ==> !OccursAt(key + h.defaultValueSeparator, h.defaultValueSeparator, k)
    ensures var content := key + h.defaultValueSeparator + defaultValue;
      && (key in h.variables.value ==> h.HandleToken(content) == h.variables.value[key])
      && (key !in h.variables.value ==> h.HandleToken(content) == defaultValue)
  {
    var sep := h.defaultValueSeparator;
    var content := key + sep + defaultValue;
    assert OccursAt(content, sep, |key|) by {
      assert content[|key|..|key| + |sep|] == sep;
      OccursAtIff(content, sep, |key|);
    }
    forall k | 0 <= k < |key| ensures !OccursAt(content, sep, k) {
      assert content[k..k + |sep|] == (key + sep)[k..k + |sep|];
      OccursAtIff(content, sep, k);
      OccursAtIff(key + sep, sep, k);
    }
    IndexOfFinds(content, sep, 0);
    assert IndexOf(content, sep, 0) == |key|;
    assert content[..|key|] == key;
    assert content[|key| + |sep|..] == defaultValue;
  }
}
