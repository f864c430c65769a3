/** The property-path tokenizer: splits an expression such as `orders[0].item.name`
    into its first segment (`orders[0]`, with name `orders` and index `0`) and the
    rest of the path (`item.name`). */
module PropertyTokenizers {
  import opened Results
  import opened Text

  /** One step of the tokenizer.  `index` and `children` are Java's nullable fields. */
  datatype PropertyTokenizer = PropertyTokenizer(
    name: string,
    indexedName: string,
    index: Option<string>,
    children: Option<string>)
  {
    /** Whether a rest of the path follows this segment. */
    predicate HasNext() {
      children.Some?
    }

    /** The tokenizer for the rest of the path: its segment and its own rest
        put back together give that path, and its rest is shorter, so a walk
        with hasNext/next ends. */
    function Next(): (r: Result<PropertyTokenizer>)
      requires HasNext()
      ensures r.Err? ==> r.error == StringIndexOutOfBounds
      ensures r.Ok? && !r.value.HasNext() ==> children.value == r.value.indexedName
      ensures r.Ok? && r.value.HasNext() ==>
        && children.value == r.value.indexedName + "." + r.value.children.value
        && |r.value.children.value| < |children.value|
    {
      Tokenize(children.value)
    }

    /** Iterator.remove is unsupported. */
    function Remove(): (r: Outcome)
      ensures r == Fail(Unsupported)
    {
      Fail(Unsupported)
    }
  }

  /** `k` is the position of the first '[' of the first dot-separated segment of `s`
      and it is that segment's last character: the substring for the index then
      starts after it ends. */
  predicate BracketClosesSegment(s: string, k: int) {
    0 <= k < |s| && s[k] == '[' && '[' !in s[..k] && '.' !in s[..k]
    && (k + 1 == |s| || s[k + 1] == '.')
  }

  /** The split at the first '.': the first segment and, when there is a '.',
      everything after it. */
  function SplitAtDot(fullname: string): (r: (string, Option<string>))
    ensures '.' !in r.0
    ensures r.1.None? <==> '.' !in fullname
    ensures r.1.None? ==> fullname == r.0
    ensures r.1.Some? ==> fullname == r.0 + "." + r.1.value
  {
    var delim := IndexOfChar(fullname, '.');
    if delim > -1 then
      assert fullname == fullname[..delim] + "." + fullname[delim + 1..];
      (fullname[..delim], Some(fullname[delim + 1..]))
    else (fullname, None)
  }

  /** The split of one segment at its first '[': the name before it and the index
      between it and the segment's last character.  Java's substring fails when
      the '[' is itself the last character. */
  function SplitIndex(segment: string): (r: Result<(string, Option<string>)>)
    ensures r.Err? <==> |segment| > 0 && segment[|segment| - 1] == '[' && '[' !in segment[..|segment| - 1]
    ensures r.Err? ==> r.error == StringIndexOutOfBounds
    ensures r.Ok? ==>
      var (name, index) := r.value;
      && (index.None? <==> '[' !in segment)
      && (index.None? ==> name == segment)
      && (index.Some? ==>
            && '[' !in name
            && |segment| == |name| + |index.value| + 2
            && segment[..|name| + 1] == name + "["
            && segment[|name| + 1..|segment| - 1] == index.value)
  {
    var open := IndexOfChar(segment, '[');
    if open > -1 then
      if open + 1 > |segment| - 1 then
        assert segment[..|segment| - 1] == segment[..open];
        Err(StringIndexOutOfBounds)
      else
        assert segment[open] in segment[..|segment| - 1];
        assert segment[..open + 1] == segment[..open] + "[";
        Ok((segment[..open], Some(segment[open + 1..|segment| - 1])))
    else
      Ok((segment, None))
  }

  /** new PropertyTokenizer(fullname), and what its fields say about the
      expression it was built from. */
  function Tokenize(fullname: string): (r: Result<PropertyTokenizer>)
    ensures r.Err? ==> r.error == StringIndexOutOfBounds
    ensures r.Ok? ==>
      var t := r.value;
      && '.' !in t.indexedName
      && (t.children.None? <==> '.' !in fullname)
      && (t.children.None? ==> fullname == t.indexedName)
      && (t.children.Some? ==> fullname == t.indexedName + "." + t.children.value)
      && (t.index.None? <==> '[' !in t.indexedName)
      && (t.index.None? ==> t.name == t.indexedName)
      && (t.index.Some? ==>
            && '[' !in t.name
            && |t.indexedName| == |t.name| + |t.index.value| + 2
            && t.indexedName[..|t.name| + 1] == t.name + "["
            && t.indexedName[|t.name| + 1..|t.indexedName| - 1] == t.index.value)
  {
    var (segment, children) := SplitAtDot(fullname);
    var (name, index) :- SplitIndex(segment);
    Ok(PropertyTokenizer(name, segment, index, children))
  }

  /** A tokenizer has a next step exactly when its expression contains a '.'. */
  lemma HasNextIffDot(fullname: string)
    requires Tokenize(fullname).Ok?
    ensures Tokenize(fullname).value.HasNext() <==> '.' in fullname
  {
  }

  /** The tokenizer fails exactly when the first segment's first '[' is the
      segment's last character. */
  lemma TokenizeFailsIff(fullname: string)
    ensures Tokenize(fullname).Err? <==> exists k :: BracketClosesSegment(fullname, k)
  {
    var (segment, children) := SplitAtDot(fullname);
    var n := |segment|;
    assert fullname[..n] == segment;
    if Tokenize(fullname).Err? {
      assert fullname[..n - 1] == segment[..n - 1];
      assert BracketClosesSegment(fullname, n - 1);
    }
    forall k | BracketClosesSegment(fullname, k) ensures Tokenize(fullname).Err? {
      assert children.Some? ==> fullname[n] == '.';
      assert forall j :: 0 <= j < k ==> fullname[..k][j] == fullname[j];
      assert forall j :: 0 <= j < n ==> fullname[j] == segment[j];
      assert k == n - 1;
      assert segment[..n - 1] == fullname[..k];
    }
  }

  /** Walking the tokenizer with hasNext/next: the indexed names of every step. */
  function IndexedNames(fullname: string): (r: Result<seq<string>>)
    decreases |fullname|
  {
    var t :- Tokenize(fullname);
    if t.HasNext() then
      var rest :- IndexedNames(t.children.value);
      Ok([t.indexedName] + rest)
    else
      Ok([t.indexedName])
  }

  /** The walk consumes the whole path: its segments contain no '.' and joined
      with '.' they give back the expression. */
  lemma {:induction false} WalkCoversPath(fullname: string)
    requires IndexedNames(fullname).Ok?
    ensures var names := IndexedNames(fullname).value;
      && |names| >= 1
      && Join(names, ".") == fullname
      && (forall i :: 0 <= i < |names| ==> '.' !in names[i])
    decreases |fullname|
  {
    var t := Tokenize(fullname).value;
    if t.HasNext() {
      WalkCoversPath(t.children.value);
    }
  }

  /** A path with no '[' directly before a '.' or at its end never fails to
      tokenize, at any step. */
  lemma {:induction false} WalkSucceeds(fullname: string)
    requires forall k :: 0 <= k < |fullname| && fullname[k] == '[' ==>
      k + 1 < |fullname| && fullname[k + 1] != '.'
    ensures IndexedNames(fullname).Ok?
    decreases |fullname|
  {
    TokenizeFailsIff(fullname);
    var r := Tokenize(fullname);
    assert r.Ok?;
    var t := r.value;
    if t.HasNext() {
      var c := t.children.value;
      var off := |t.indexedName| + 1;
      assert forall k :: 0 <= k < |c| ==> c[k] == fullname[off + k];
      WalkSucceeds(c);
    }
  }

  /** The inverse direction: rendering a segment `name[index]` in front of the
      rest of a path and tokenizing it recovers every part. */
  lemma IndexedSegmentRoundTrip(name: string, index: string, children: string)
    requires '.' !in name && '[' !in name && '.' !in index
    ensures Tokenize(name + "[" + index + "]" + "." + children)
         == Ok(PropertyTokenizer(name, name + "[" + index + "]", Some(index), Some(children)))
  {
    var full := name + "[" + index + "]" + "." + children;
    var seg := name + "[" + index + "]";
    assert full[..|seg|] == seg;
    assert full[|seg|] == '.';
    assert '.' !in seg;
    assert IndexOfChar(full, '.') == |seg|;
    assert seg[..|name|] == name;
    assert seg[|name|] == '[';
    assert IndexOfChar(seg, '[') == |name|;
    assert seg[|name| + 1..|seg| - 1] == index;
  }

  /** A segment without a bracket is its own name and carries no index. */
  lemma PlainSegmentRoundTrip(name: string, children: string)
    requires '.' !in name && '[' !in name
    ensures Tokenize(name + "." + children) == Ok(PropertyTokenizer(name, name, None, Some(children)))
  {
    var full := name + "." + children;
    assert full[..|name|] == name;
    assert full[|name|] == '.';
    assert IndexOfChar(full, '.') == |name|;
  }
}
