/** PropertyParser: `${key}` placeholders replaced by the values of a set of
    properties, through the generic token parser. */
module PropertyParsing {
  import opened Results
  import opened TokenParsing
  import opened Text
  import opened VariableTokenHandlers

  const OPEN_TOKEN: string := "${"
  const CLOSE_TOKEN: string := "}"

  /** The variable handler as the function the token parser calls. */
  function Handler(variables: Option<Properties>): string -> string {
    content => NewVariableTokenHandler(variables).HandleToken(content)
  }

  /** PropertyParser.parse: the token parser with `${` and `}` around the
      variable handler. */
  method Parse(s: string, variables: Option<Properties>) returns (r: Result<string>)
    ensures r == ScanFrom(OPEN_TOKEN, CLOSE_TOKEN, Handler(variables), s, 0)
  {
    var parser := new GenericTokenParser(OPEN_TOKEN, CLOSE_TOKEN, Handler(variables));
    r := parser.Parse(s);
  }

  /** Without variables every placeholder is written back as it was found, so
      a text without backslashes comes back unchanged. */
  lemma NoVariablesUnchanged(s: string)
    requires '\\' !in s
    ensures ScanFrom(OPEN_TOKEN, CLOSE_TOKEN, Handler(None), s, 0) == Ok(s)
  {
    RerenderingIsIdentity(OPEN_TOKEN, CLOSE_TOKEN, Handler(None), s, 0);
  }

  /** A text that is one placeholder for a defined key becomes the key's value
      when default values are off, or when the key holds no separator. */
  lemma PlaceholderReplaced(variables: Properties, key: string)
    requires var h := NewVariableTokenHandler(Some(variables));
      !h.enableDefaultValue || IndexOf(key, h.defaultValueSeparator, 0) == -1
    requires key in variables
    requires '}' !in key && (|key| == 0 || key[|key| - 1] != '\\')
    ensures ScanFrom(OPEN_TOKEN, CLOSE_TOKEN, Handler(Some(variables)), "${" + key + "}", 0) == Ok(variables[key])
  {
    PlaceholderToken(Handler(Some(variables)), key);
    KeyLookup(variables, key);
  }

  /** A text that is one `${key}` placeholder becomes the handler's answer
      for the key. */
  lemma PlaceholderToken(handler: string -> string, key: string)
    requires '}' !in key && (|key| == 0 || key[|key| - 1] != '\\')
    ensures ScanFrom(OPEN_TOKEN, CLOSE_TOKEN, handler, OPEN_TOKEN + key + CLOSE_TOKEN, 0) == Ok(handler(key))
  {
    assert CLOSE_TOKEN[0] == '}' && |CLOSE_TOKEN| == 1 && |OPEN_TOKEN| == 2;
    SingleToken(OPEN_TOKEN, CLOSE_TOKEN, handler, key);
  }

  /** The handler's answer for a defined key that is not split at a
      separator, and the placeholder text written with the parser's delimiters. */
  lemma KeyLookup(variables: Properties, key: string)
    requires var h := NewVariableTokenHandler(Some(variables));
      !h.enableDefaultValue || IndexOf(key, h.defaultValueSeparator, 0) == -1
    requires key in variables
    ensures Handler(Some(variables))(key) == variables[key]
    ensures "${" + key + "}" == OPEN_TOKEN + key + CLOSE_TOKEN
  {
  }

  /** With default values on, `${key:default}` for a missing key becomes the
      default. */
  lemma DefaultApplied(variables: Properties, key: string, defaultValue: string)
    requires var h := NewVariableTokenHandler(Some(variables));
      h.enableDefaultValue && h.defaultValueSeparator == ":"
    requires key !in variables
    requires ':' !in key && '}' !in key && '}' !in defaultValue
    requires |defaultValue| == 0 || defaultValue[|defaultValue| - 1] != '\\'
    ensures ScanFrom(OPEN_TOKEN, CLOSE_TOKEN, Handler(Some(variables)), "${" + key + ":" + defaultValue + "}", 0)
         == Ok(defaultValue)
  {
    var content := key + ":" + defaultValue;
    assert "${" + key + ":" + defaultValue + "}" == OPEN_TOKEN + content + CLOSE_TOKEN;
    assert content[|content| - 1] == if |defaultValue| == 0 then ':' else defaultValue[|defaultValue| - 1];
    NoCloseInside(key, defaultValue);
    SingleToken(OPEN_TOKEN, CLOSE_TOKEN, Handler(Some(variables)), content);
    DefaultLookup(variables, key, defaultValue);
  }

  lemma NoCloseInside(key: string, defaultValue: string)
    requires '}' !in key && '}' !in defaultValue
    ensures '}' !in key + ":" + defaultValue
  {
    var content := key + ":" + defaultValue;
    forall i | 0 <= i < |content| ensures content[i] != '}' {
      if i < |key| {
        assert content[i] == key[i];
        assert key[i] in key;
      } else if i > |key| {
        assert content[i] == defaultValue[i - |key| - 1];
        assert defaultValue[i - |key| - 1] in defaultValue;
      }
    }
  }

  lemma DefaultLookup(variables: Properties, key: string, defaultValue: string)
    requires var h := NewVariableTokenHandler(Some(variables));
      h.enableDefaultValue && h.defaultValueSeparator == ":"
    requires key !in variables && ':' !in key
    ensures Handler(Some(variables))(key + ":" + defaultValue) == defaultValue
  {
    forall k | 0 <= k < |key| ensures !Text.OccursAt(key + ":", ":", k) {
      Text.OccursAtIff(key + ":", ":", k);
      assert (key + ":")[k] == key[k];
      assert key[k] in key;
    }
    LookupWithDefault(NewVariableTokenHandler(Some(variables)), key, defaultValue);
  }
}
