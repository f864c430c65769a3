/** The placeholder parser: finds every `open ... close` token in a text, hands
    the text between the delimiters to a handler and splices the handler's
    answer into the output.  A backslash right before a delimiter escapes it. */
module TokenParsing {
  import opened Results
  import opened Text

  /** The position of the close token that ends an expression starting at
      `offset`: the first occurrence of `close` at or after `offset` that is not
      preceded by a backslash inside the expression, or -1. */
  function CloseEnd(text: string, close: string, offset: nat): (r: int)
    requires offset <= |text|
    ensures r == -1 || (offset <= r && r + |close| <= |text|)
    decreases |text| - offset
  {
    var end := IndexOf(text, close, offset);
    if end == -1 then -1
    else if end <= offset || text[end - 1] != '\\' then end
    else CloseEnd(text, close, end + |close|)
  }

  /** The expression the parser collects from `offset` up to CloseEnd, after
      the `expression` collected so far: the text, with the backslash of each
      escaped close token dropped.  When no close token ends it the parser
      discards it. */
  function CloseExpression(text: string, close: string, offset: nat, expression: string): string
    requires offset <= |text|
    decreases |text| - offset
  {
    var end := IndexOf(text, close, offset);
    if end == -1 then expression
    else if end <= offset || text[end - 1] != '\\' then expression + text[offset..end]
    else CloseExpression(text, close, end + |close|, expression + text[offset..end - 1] + close)
  }

  /** Past an escaped close token both the end and the expression continue
      after it. */
  lemma EscapedClose(text: string, close: string, offset: nat, expression: string)
    requires offset <= |text|
    requires var end := IndexOf(text, close, offset); end > offset && text[end - 1] == '\\'
    ensures var end := IndexOf(text, close, offset);
      && CloseEnd(text, close, offset) == CloseEnd(text, close, end + |close|)
      && CloseExpression(text, close, offset, expression)
         == CloseExpression(text, close, end + |close|, expression + text[offset..end - 1] + close)
  {
  }

  /** Without a backslash before the first close token, the expression is the
      text up to it. */
  lemma PlainExpression(text: string, close: string, offset: nat, expression: string)
    requires offset <= |text|
    requires var end := IndexOf(text, close, offset); end != -1 && (end <= offset || text[end - 1] != '\\')
    ensures CloseEnd(text, close, offset) == IndexOf(text, close, offset)
    ensures CloseExpression(text, close, offset, expression) == expression + text[offset..IndexOf(text, close, offset)]
  {
  }

  /** What the parser's outer loop does at `offset`: it finishes, copying the
      rest of the text; fails; copies the escaped open token found at `start`
      without its backslash; or finds a token whose open delimiter is at
      `start` and whose close delimiter is at `end`. */
  datatype Step =
    | Finish
    | Abort(error: Error)
    | Escaped(start: nat)
    | Token(start: nat, end: nat)

  /** One round of the parser's outer loop from `offset`.  It fails where Java's
      StringBuilder.append receives a negative length: an escaped open token
      whose backslash lies before `offset`. */
  function ScanStep(open: string, close: string, text: string, offset: nat): (r: Step)
    requires |open| > 0 && offset <= |text|
    ensures r.Escaped? ==> offset < r.start && r.start + |open| <= |text|
    ensures r.Token? ==> offset <= r.start && r.start + |open| <= r.end && r.end + |close| <= |text|
  {
    var start := IndexOf(text, open, offset);
    if start == -1 then Finish
    else if start > 0 && text[start - 1] == '\\' then
      if start - 1 < offset then Abort(IndexOutOfBounds(start - offset - 1, |text|))
      else Escaped(start)
    else
      var end := CloseEnd(text, close, start + |open|);
      if end == -1 then Finish else Token(start, end)
  }

  /** `r` with `prefix` in front of its value. */
  function Prepend(prefix: string, r: Result<string>): Result<string> {
    if r.Ok? then Ok(prefix + r.value) else r
  }

  /** The output produced from `offset` onwards.  The only failure is the
      negative-length append of an escaped open token, so a text without
      backslashes is always parsed. */
  function ScanFrom(open: string, close: string, handler: string -> string, text: string, offset: nat): (r: Result<string>)
    requires |open| > 0 && offset <= |text|
    ensures r.Err? ==> r.error.IndexOutOfBounds?
    ensures '\\' !in text ==> r.Ok?
    decreases |text| - offset
  {
    match ScanStep(open, close, text, offset)
    case Finish => Ok(text[offset..])
    case Abort(error) => Err(error)
    case Escaped(start) =>
      Prepend(text[offset..start - 1] + open, ScanFrom(open, close, handler, text, start + |open|))
    case Token(start, end) =>
      Prepend(text[offset..start] + handler(CloseExpression(text, close, start + |open|, "")),
              ScanFrom(open, close, handler, text, end + |close|))
  }

  /** ScanFrom unfolded by one step. */
  lemma ScanFromUnfold(open: string, close: string, handler: string -> string, text: string, offset: nat)
    requires |open| > 0 && offset <= |text|
    ensures var st := ScanStep(open, close, text, offset);
      && (st.Finish? ==> ScanFrom(open, close, handler, text, offset) == Ok(text[offset..]))
      && (st.Abort? ==> ScanFrom(open, close, handler, text, offset) == Err(st.error))
      && (st.Escaped? ==>
            ScanFrom(open, close, handler, text, offset)
            == Prepend(text[offset..st.start - 1] + open, ScanFrom(open, close, handler, text, st.start + |open|)))
      && (st.Token? ==>
            ScanFrom(open, close, handler, text, offset)
            == Prepend(text[offset..st.start] + handler(CloseExpression(text, close, st.start + |open|, "")),
                       ScanFrom(open, close, handler, text, st.end + |close|)))
  {
  }

  /** Without a further open token the rest of the text is copied. */
  lemma LastRound(open: string, close: string, handler: string -> string, text: string, offset: nat)
    requires |open| > 0 && offset <= |text| && IndexOf(text, open, offset) == -1
    ensures ScanFrom(open, close, handler, text, offset) == Ok(text[offset..])
  {
    ScanFromUnfold(open, close, handler, text, offset);
  }

  lemma PrependTwice(a: string, b: string, r: Result<string>)
    ensures Prepend(a, Prepend(b, r)) == Prepend(a + b, r)
  {
    if r.Ok? {
      assert a + (b + r.value) == (a + b) + r.value;
    }
  }

  /** The parser's loop invariant carried over one round that appends `part`. */
  lemma Advance(open: string, close: string, handler: string -> string, text: string,
                goal: Result<string>, builder: string, part: string, offset: nat, next: nat)
    requires |open| > 0 && offset <= |text| && next <= |text|
    requires goal == Prepend(builder, ScanFrom(open, close, handler, text, offset))
    requires ScanFrom(open, close, handler, text, offset) == Prepend(part, ScanFrom(open, close, handler, text, next))
    ensures goal == Prepend(builder + part, ScanFrom(open, close, handler, text, next))
  {
    PrependTwice(builder, part, ScanFrom(open, close, handler, text, next));
  }

  /** An escaped open token whose backslash lies before `offset` fails the round. */
  lemma AbortRound(open: string, close: string, handler: string -> string, text: string, offset: nat)
    requires |open| > 0 && offset <= |text|
    requires var start := IndexOf(text, open, offset);
      start > 0 && text[start - 1] == '\\' && start - 1 < offset
    ensures var start := IndexOf(text, open, offset);
      ScanFrom(open, close, handler, text, offset) == Err(IndexOutOfBounds(start - offset - 1, |text|))
  {
    ScanFromUnfold(open, close, handler, text, offset);
  }

  /** An escaped open token is copied without its backslash. */
  lemma EscapedRound(open: string, close: string, handler: string -> string, text: string, offset: nat,
                     part: string, next: nat)
    requires |open| > 0 && offset <= |text|
    requires var start := IndexOf(text, open, offset);
      start > 0 && text[start - 1] == '\\' && offset <= start - 1
    requires var start := IndexOf(text, open, offset);
      part == text[offset..start - 1] + open && next == start + |open|
    ensures next <= |text|
    ensures ScanFrom(open, close, handler, text, offset) == Prepend(part, ScanFrom(open, close, handler, text, next))
  {
    ScanFromUnfold(open, close, handler, text, offset);
  }

  /** An open token that no close token ends: the rest of the text is copied. */
  lemma UnclosedRound(open: string, close: string, handler: string -> string, text: string, offset: nat,
                      part: string, next: nat)
    requires |open| > 0 && offset <= |text|
    requires var start := IndexOf(text, open, offset);
      start != -1 && !(start > 0 && text[start - 1] == '\\') && CloseEnd(text, close, start + |open|) == -1
    requires part == text[offset..] && next == |text|
    ensures ScanFrom(open, close, handler, text, offset) == Prepend(part, ScanFrom(open, close, handler, text, next))
  {
    ScanFromUnfold(open, close, handler, text, offset);
    LastRound(open, close, handler, text, |text|);
    assert text[offset..] + text[|text|..] == text[offset..];
  }

  /** A token: the text before it, then the handler's answer for its expression. */
  lemma TokenRound(open: string, close: string, handler: string -> string, text: string, offset: nat,
                   expression: string, part: string, next: nat)
    requires |open| > 0 && offset <= |text|
    requires var start := IndexOf(text, open, offset);
      start != -1 && !(start > 0 && text[start - 1] == '\\') && CloseEnd(text, close, start + |open|) != -1
    requires var start := IndexOf(text, open, offset);
      && expression == CloseExpression(text, close, start + |open|, "")
      && part == text[offset..start] + handler(expression)
      && next == CloseEnd(text, close, start + |open|) + |close|
    ensures next <= |text|
    ensures ScanFrom(open, close, handler, text, offset) == Prepend(part, ScanFrom(open, close, handler, text, next))
  {
    var start := IndexOf(text, open, offset);
    TokenStep(open, close, text, offset);
    ScanFromUnfold(open, close, handler, text, offset);
  }

  /** The round at `offset` meets a token that a close token ends. */
  lemma TokenStep(open: string, close: string, text: string, offset: nat)
    requires |open| > 0 && offset <= |text|
    requires var start := IndexOf(text, open, offset);
      start != -1 && !(start > 0 && text[start - 1] == '\\') && CloseEnd(text, close, start + |open|) != -1
    ensures var start := IndexOf(text, open, offset);
      ScanStep(open, close, text, offset) == Token(start, CloseEnd(text, close, start + |open|))
  {
  }

  class GenericTokenParser {
    const openToken: string
    const closeToken: string
    const handler: string -> string

    constructor (openToken: string, closeToken: string, handler: string -> string)
      ensures this.openToken == openToken && this.closeToken == closeToken && this.handler == handler
    {
      this.openToken := openToken;
      this.closeToken := closeToken;
      this.handler := handler;
    }

    /** The inner loop of GenericTokenParser.parse: collects the expression after
        an open token up to the first close token not preceded by a backslash,
        keeping each escaped close token without its backslash. */
    method FindClose(text: string, exprStart: nat) returns (expression: string, end: int)
      requires exprStart <= |text|
      ensures end == CloseEnd(text, closeToken, exprStart)
      ensures end != -1 ==> expression == CloseExpression(text, closeToken, exprStart, "")
    {
      var closeToken := this.closeToken;
      var offset := exprStart;
      expression := "";
      end := IndexOf(text, closeToken, offset);
      while end > -1
        invariant exprStart <= offset <= |text|
        invariant end == IndexOf(text, closeToken, offset)
        invariant CloseEnd(text, closeToken, offset) == CloseEnd(text, closeToken, exprStart)
        invariant CloseExpression(text, closeToken, offset, expression) == CloseExpression(text, closeToken, exprStart, "")
        decreases |text| - offset
      {
        if end <= offset || text[end - 1] != '\\' {
          PlainExpression(text, closeToken, offset, expression);
          expression := expression + text[offset..end];
          return;
        }
        EscapedClose(text, closeToken, offset, expression);
        expression := expression + text[offset..end - 1] + closeToken;
        offset := end + |closeToken|;
        end := IndexOf(text, closeToken, offset);
      }
    }

    /** One round of the outer loop of GenericTokenParser.parse, at the open
        token found at `start`: the failure it raises, or the text it appends
        to the builder and the offset the next round starts from. */
    method Round(text: string, offset: nat, start: nat) returns (failure: Option<Error>, part: string, next: nat)
      requires |openToken| > 0 && offset <= |text| && start == IndexOf(text, openToken, offset)
      ensures offset < next <= |text|
      ensures failure.Some? ==> ScanFrom(openToken, closeToken, handler, text, offset) == Err(failure.value)
      ensures failure.None? ==>
        ScanFrom(openToken, closeToken, handler, text, offset)
        == Prepend(part, ScanFrom(openToken, closeToken, handler, text, next))
    {
      var openToken := this.openToken;
      if start > 0 && text[start - 1] == '\\' {
        if start - 1 < offset {
          AbortRound(openToken, closeToken, handler, text, offset);
          failure, part, next := Some(IndexOutOfBounds(start - offset - 1, |text|)), "", |text|;
        } else {
          failure, part, next := None, text[offset..start - 1] + openToken, start + |openToken|;
          EscapedRound(openToken, closeToken, handler, text, offset, part, next);
        }
      } else {
        var expression, end := FindClose(text, start + |openToken|);
        if end == -1 {
          failure, part, next := None, text[offset..], |text|;
          UnclosedRound(openToken, closeToken, handler, text, offset, part, next);
        } else {
          failure, part, next := None, text[offset..start] + handler(expression), end + |closeToken|;
          TokenRound(openToken, closeToken, handler, text, offset, expression, part, next);
        }
      }
    }

    /** GenericTokenParser.parse.  An empty open token makes the Java loop run
        forever, so it is excluded. */
    method Parse(text: string) returns (r: Result<string>)
      requires |openToken| > 0
      ensures r == ScanFrom(openToken, closeToken, handler, text, 0)
    {
      var openToken, closeToken := this.openToken, this.closeToken;
      if |text| == 0 {
        LastRound(openToken, closeToken, handler, text, 0);
        return Ok("");
      }
      var start := IndexOf(text, openToken, 0);
      if start == -1 {
        LastRound(openToken, closeToken, handler, text, 0);
        return Ok(text);
      }
      var offset: nat := 0;
      var builder := "";
      ghost var goal := ScanFrom(openToken, closeToken, handler, text, 0);
      assert goal == Prepend(builder, goal) by {
        if goal.Ok? {
          assert "" + goal.value == goal.value;
        }
      }
      while start > -1
        invariant offset <= |text|
        invariant start == IndexOf(text, openToken, offset)
        invariant goal == Prepend(builder, ScanFrom(openToken, closeToken, handler, text, offset))
        decreases |text| - offset
      {
        var failure, part, next := Round(text, offset, start);
        if failure.Some? {
          return Err(failure.value);
        }
        Advance(openToken, closeToken, handler, text, goal, builder, part, offset, next);
        builder := builder + part;
        offset := next;
        start := IndexOf(text, openToken, offset);
      }
      LastRound(openToken, closeToken, handler, text, offset);
      if offset < |text| {
        builder := builder + text[offset..];
      } else {
        assert builder + text[offset..] == builder;
      }
      return Ok(builder);
    }
  }

  /** A text without an open token comes back unchanged, whatever the handler. */
  lemma NoTokenUnchanged(open: string, close: string, handler: string -> string, text: string)
    requires |open| > 0
    requires forall k :: !OccursAt(text, open, k)
    ensures ScanFrom(open, close, handler, text, 0) == Ok(text)
  {
    IndexOfFinds(text, open, 0);
    LastRound(open, close, handler, text, 0);
  }

  /** With no backslash in the text, an open token found from `offset` is not
      escaped, and the first close token after it ends the expression, which
      is exactly the text between the two. */
  lemma PlainToken(open: string, close: string, text: string, offset: nat)
    requires |open| > 0 && offset <= |text|
    requires '\\' !in text
    requires IndexOf(text, open, offset) != -1
    ensures var start := IndexOf(text, open, offset);
      var exprStart := start + |open|;
      var end := IndexOf(text, close, exprStart);
      && text[start..exprStart] == open
      && !(start > 0 && text[start - 1] == '\\')
      && CloseEnd(text, close, exprStart) == end
      && (end != -1 ==>
            && text[end..end + |close|] == close
            && CloseExpression(text, close, exprStart, "") == text[exprStart..end])
  {
    var start := IndexOf(text, open, offset);
    assert text[start..start + |open|] == open by {
      IndexOfFinds(text, open, offset);
      OccursAtIff(text, open, start);
    }
    assert start == 0 || text[start - 1] != '\\' by {
      if start > 0 {
        assert text[start - 1] in text;
      }
    }
    var exprStart := start + |open|;
    var end := IndexOf(text, close, exprStart);
    if end != -1 {
      assert text[end..end + |close|] == close by {
        IndexOfFinds(text, close, exprStart);
        OccursAtIff(text, close, end);
      }
      assert end <= exprStart || text[end - 1] != '\\' by {
        if end > exprStart {
          assert text[end - 1] in text;
        }
      }
      PlainExpression(text, close, exprStart, "");
      assert "" + text[exprStart..end] == text[exprStart..end];
    }
  }

  /** The handler that puts the delimiters back around the expression makes
      parsing the identity on text without backslashes: every token is found
      and re-rendered exactly as written. */
  lemma {:induction false} RerenderingIsIdentity(open: string, close: string, handler: string -> string, text: string, offset: nat)
    requires |open| > 0 && offset <= |text|
    requires forall x :: handler(x) == open + x + close
    requires '\\' !in text
    ensures ScanFrom(open, close, handler, text, offset) == Ok(text[offset..])
    decreases |text| - offset
  {
    var start := IndexOf(text, open, offset);
    if start == -1 {
      LastRound(open, close, handler, text, offset);
      return;
    }
    PlainToken(open, close, text, offset);
    var exprStart := start + |open|;
    var end := IndexOf(text, close, exprStart);
    if end == -1 {
      UnclosedRound(open, close, handler, text, offset, text[offset..], |text|);
      LastRound(open, close, handler, text, |text|);
      assert text[offset..] + text[|text|..] == text[offset..];
    } else {
      var expression := text[exprStart..end];
      var after := end + |close|;
      var part := text[offset..start] + handler(expression);
      TokenRound(open, close, handler, text, offset, expression, part, after);
      RerenderingIsIdentity(open, close, handler, text, after);
      assert handler(expression) == open + expression + close;
      TokenSplices(text, offset, start, exprStart, end, after, open, close);
    }
  }

  /** Where the parser finds the delimiters of a text that is one token. */
  lemma SingleTokenBounds(open: string, close: string, key: string)
    requires |open| > 0 && |close| == 1
    requires close[0] !in key
    requires |key| == 0 || key[|key| - 1] != '\\'
    ensures var text := open + key + close;
      && IndexOf(text, open, 0) == 0
      && CloseEnd(text, close, |open|) == |open| + |key|
      && CloseExpression(text, close, |open|, "") == key
  {
    var text := open + key + close;
    assert IndexOf(text, open, 0) == 0 by {
      assert text[0..|open|] == open;
      OccursAtIff(text, open, 0);
    }
    CloseAfterKey(open, close, key);
  }

  lemma CloseAfterKey(open: string, close: string, key: string)
    requires |close| == 1
    requires close[0] !in key
    requires |key| == 0 || key[|key| - 1] != '\\'
    ensures var text := open + key + close;
      && CloseEnd(text, close, |open|) == |open| + |key|
      && CloseExpression(text, close, |open|, "") == key
  {
    var text := open + key + close;
    var exprStart := |open|;
    var end := |open| + |key|;
    FirstCloseAfterKey(open, close, key);
    assert text[exprStart..end] == key;
    assert end <= exprStart || text[end - 1] != '\\';
    PlainExpression(text, close, exprStart, "");
  }

  lemma FirstCloseAfterKey(open: string, close: string, key: string)
    requires |close| == 1
    requires close[0] !in key
    ensures IndexOf(open + key + close, close, |open|) == |open| + |key|
  {
    var text := open + key + close;
    var exprStart := |open|;
    var end := |open| + |key|;
    forall k | exprStart <= k < end ensures !OccursAt(text, close, k) {
      assert text[k] == key[k - exprStart];
      assert text[k] in key;
    }
    assert text[end] == close[0];
    assert OccursAt(text, close, end);
    IndexOfFinds(text, close, exprStart);
  }

  /** A text that is one token, whose one-character close delimiter does not
      occur in the expression and is not escaped, becomes the handler's answer
      for the expression. */
  lemma SingleToken(open: string, close: string, handler: string -> string, key: string)
    requires |open| > 0 && |close| == 1
    requires close[0] !in key
    requires |key| == 0 || key[|key| - 1] != '\\'
    ensures ScanFrom(open, close, handler, open + key + close, 0) == Ok(handler(key))
  {
    var text := open + key + close;
    SingleTokenBounds(open, close, key);
    TokenRound(open, close, handler, text, 0, key, text[0..0] + handler(key), |text|);
    LastRound(open, close, handler, text, |text|);
    assert text[0..0] + handler(key) + text[|text|..] == handler(key);
  }

  /** Re-assembling a text around an occurrence of the two delimiters. */
  lemma TokenSplices(text: string, offset: nat, start: nat, exprStart: nat, end: nat, after: nat, open: string, close: string)
    requires offset <= start <= exprStart <= end <= after <= |text|
    requires text[start..exprStart] == open && text[end..after] == close
    ensures text[offset..start] + (open + text[exprStart..end] + close) + text[after..] == text[offset..]
  {
    assert text[offset..] == text[offset..start] + text[start..exprStart] + text[exprStart..end]
                             + text[end..after] + text[after..];
  }
}
