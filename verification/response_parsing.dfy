/** Output parsing: the first `{...}` span of the model's text is cut out
    (the regular expression `{.*?}` with DOTALL, first match), cleaned of
    escaped newlines and backslashes, and handed to the caller's schema
    parser. Records that already carry an error pass through untouched.

    The schema parser (a pydantic output parser) is a parameter: it either
    yields a value of the schema type `P` or fails with a message. */
module ResponseParsing {
  import opened Wrappers
  import opened Domain

  const Backslash: char := '\\'

  predicate NoBackslash(s: string) {
    forall i :: 0 <= i < |s| ==> s[i] != Backslash
  }

  /** `s` contains a backslash immediately followed by `n`. */
  predicate HasEscapedNewline(s: string) {
    exists i :: 0 <= i < |s| - 1 && s[i] == Backslash && s[i + 1] == 'n'
  }

  /** `s.replace("\\n", "")`: every two-character sequence backslash, `n`
      is removed, scanning left to right. */
  function RemoveEscapedNewlines(s: string): (r: string)
    ensures |r| <= |s|
    ensures !HasEscapedNewline(s) ==> r == s
  {
    if |s| == 0 then ""
    else if |s| >= 2 && s[0] == Backslash && s[1] == 'n' then RemoveEscapedNewlines(s[2..])
    else
      assert HasEscapedNewline(s[1..]) ==> HasEscapedNewline(s) by {
        if HasEscapedNewline(s[1..]) {
          var i :| 0 <= i < |s[1..]| - 1 && s[1..][i] == Backslash && s[1..][i + 1] == 'n';
          assert s[i + 1] == Backslash && s[i + 2] == 'n';
        }
      }
      assert s == [s[0]] + s[1..];
      [s[0]] + RemoveEscapedNewlines(s[1..])
  }

  /** Only backslash-`n` pairs are removed: no character's count grows,
      and a character other than those two keeps its count. */
  lemma {:induction false} RemoveEscapedNewlinesCount(s: string, c: char)
    ensures multiset(RemoveEscapedNewlines(s))[c] <= multiset(s)[c]
    ensures c != Backslash && c != 'n' ==> multiset(RemoveEscapedNewlines(s))[c] == multiset(s)[c]
    decreases |s|
  {
    if |s| == 0 {
    } else if |s| >= 2 && s[0] == Backslash && s[1] == 'n' {
      RemoveEscapedNewlinesCount(s[2..], c);
      SplitOffTwo(s);
    } else {
      RemoveEscapedNewlinesCount(s[1..], c);
      SplitOffOne(s);
    }
  }

  /** As many backslashes as `n`s disappear. */
  lemma {:induction false} RemoveEscapedNewlinesPairs(s: string)
    ensures var r := RemoveEscapedNewlines(s);
            multiset(s)[Backslash] + multiset(r)['n'] == multiset(s)['n'] + multiset(r)[Backslash]
    decreases |s|
  {
    if |s| == 0 {
    } else if |s| >= 2 && s[0] == Backslash && s[1] == 'n' {
      RemoveEscapedNewlinesPairs(s[2..]);
      SplitOffTwo(s);
    } else {
      RemoveEscapedNewlinesPairs(s[1..]);
      SplitOffOne(s);
    }
  }

  lemma SplitOffTwo(s: string)
    requires |s| >= 2 && s[0] == Backslash && s[1] == 'n'
    ensures multiset(s) == multiset{Backslash, 'n'} + multiset(s[2..])
    ensures RemoveEscapedNewlines(s) == RemoveEscapedNewlines(s[2..])
  {
    assert s == [Backslash, 'n'] + s[2..];
  }

  lemma SplitOffOne(s: string)
    requires |s| >= 1 && !(|s| >= 2 && s[0] == Backslash && s[1] == 'n')
    ensures multiset(s) == multiset{s[0]} + multiset(s[1..])
    ensures multiset(RemoveEscapedNewlines(s)) == multiset{s[0]} + multiset(RemoveEscapedNewlines(s[1..]))
  {
    assert s == [s[0]] + s[1..];
  }

  /** `s.replace("\\", "")`: every backslash is dropped, nothing else. */
  function RemoveBackslashes(s: string): (r: string)
    ensures NoBackslash(r)
    ensures multiset(r)[Backslash] == 0
    ensures forall c :: c != Backslash ==> multiset(r)[c] == multiset(s)[c]
    ensures NoBackslash(s) ==> r == s
  {
    if |s| == 0 then ""
    else
      assert s == [s[0]] + s[1..];
      if s[0] == Backslash then RemoveBackslashes(s[1..]) else [s[0]] + RemoveBackslashes(s[1..])
  }

  /** `_clean_extracted_json`. */
  function Clean(s: string): (r: string)
    ensures NoBackslash(r)
    ensures multiset(r) <= multiset(s)
    ensures forall c :: c != Backslash && c != 'n' ==> multiset(r)[c] == multiset(s)[c]
    ensures NoBackslash(s) ==> r == s
  {
    var withoutNewlines := RemoveEscapedNewlines(s);
    forall c
      ensures multiset(withoutNewlines)[c] <= multiset(s)[c]
      ensures c != Backslash && c != 'n' ==> multiset(withoutNewlines)[c] == multiset(s)[c]
    {
      RemoveEscapedNewlinesCount(s, c);
    }
    assert NoBackslash(s) ==> !HasEscapedNewline(s);
    RemoveBackslashes(withoutNewlines)
  }

  /** Cleaning a cleaned text changes nothing. */
  lemma CleanIdempotent(s: string)
    ensures Clean(Clean(s)) == Clean(s)
  {
  }

  /** `{` at `i` is the first `{` of `s`, and `}` at `j` the first `}` after
      it: the leftmost, shortest match of `{.*?}`. */
  predicate JsonSpanAt(s: string, i: int, j: int) {
    && 0 <= i < j < |s|
    && s[i] == '{' && s[j] == '}'
    && (forall m :: 0 <= m < i ==> s[m] != '{')
    && (forall m :: i < m < j ==> s[m] != '}')
  }

  /** There is at most one such span. */
  lemma JsonSpanUnique(s: string, i: int, j: int, i2: int, j2: int)
    requires JsonSpanAt(s, i, j) && JsonSpanAt(s, i2, j2)
    ensures i == i2 && j == j2
  {
    assert s[i] == '{' && s[i2] == '{';
    assert s[j] == '}' && s[j2] == '}';
  }

  /** With no `}` after the first `{`, no `{` has a `}` after it. */
  lemma NoClosingAfterFirstOpening(s: string, i: nat)
    requires i < |s| && s[i] == '{'
    requires forall m :: 0 <= m < i ==> s[m] != '{'
    requires forall m :: i < m < |s| ==> s[m] != '}'
    ensures forall i', j' :: 0 <= i' < j' < |s| && s[i'] == '{' ==> s[j'] != '}'
  {
    forall i', j' | 0 <= i' < j' < |s| && s[i'] == '{'
      ensures s[j'] != '}'
    {
      assert i <= i';
    }
  }

  lemma SpanDeterminesExtract(s: string, i: int, j: int)
    requires JsonSpanAt(s, i, j)
    ensures forall i', j' :: JsonSpanAt(s, i', j') ==> s[i'..j' + 1] == s[i..j + 1]
  {
    forall i', j' | JsonSpanAt(s, i', j')
      ensures s[i'..j' + 1] == s[i..j + 1]
    {
      JsonSpanUnique(s, i, j, i', j');
    }
  }

  /** The first index at or after `from` holding `c`, or `|s|`. */
  function IndexOf(s: string, c: char, from: nat): (k: nat)
    requires from <= |s|
    ensures from <= k <= |s|
    ensures forall m :: from <= m < k ==> s[m] != c
    ensures k < |s| ==> s[k] == c
    decreases |s| - from
  {
    if from == |s| || s[from] == c then from else IndexOf(s, c, from + 1)
  }

  /** `_extract_json_from_response`: the cleaned first match, or the whole
      text, uncleaned, when there is no `{` with a `}` somewhere after it. */
  function ExtractJson(s: string): (r: string)
    ensures forall i, j :: JsonSpanAt(s, i, j) ==> r == Clean(s[i..j + 1])
    ensures (forall i, j :: 0 <= i < j < |s| && s[i] == '{' ==> s[j] != '}') ==> r == s
  {
    var i := IndexOf(s, '{', 0);
    if i == |s| then s
    else
      var j := IndexOf(s, '}', i + 1);
      if j == |s| then
        NoClosingAfterFirstOpening(s, i);
        s
      else
        assert JsonSpanAt(s, i, j);
        SpanDeterminesExtract(s, i, j);
        Clean(s[i..j + 1])
  }

  /** A JSON object without backslashes and without `}` inside, preceded by
      chatter with no `{` and followed by anything, is extracted exactly.
      (The body may contain `{`: a nested object ends the match at its own
      closing brace.) */
  lemma ExtractEmbeddedJson(prefix: string, body: string, suffix: string)
    requires forall m :: 0 <= m < |prefix| ==> prefix[m] != '{'
    requires forall m :: 0 <= m < |body| ==> body[m] != '}'
    requires NoBackslash(body)
    ensures ExtractJson(prefix + "{" + body + "}" + suffix) == "{" + body + "}"
  {
    var json := "{" + body + "}";
    var s := prefix + "{" + body + "}" + suffix;
    var i, j := |prefix|, |prefix| + |body| + 1;
    assert forall m :: 0 <= m < |prefix| ==> s[m] == prefix[m];
    assert forall m :: 0 <= m < |body| ==> s[i + 1 + m] == body[m];
    assert s[i] == '{' && s[j] == '}';
    assert JsonSpanAt(s, i, j);
    assert forall m :: 0 <= m < |json| ==> s[i + m] == json[m];
    assert s[i..j + 1] == json;
    assert NoBackslash(json) by {
      assert forall m :: 1 <= m <= |body| ==> json[m] == body[m - 1];
    }
  }

  /** `_parse_response`: exactly one of the parsed value and the parse error
      is present; the error records the candidate text the parser saw. */
  function ParseResponse<P>(parse: string -> Result<P, string>, text: string): (r: ResponseParsingOutput<P>)
    ensures r.response.Some? <==> r.errorMessage.None?
    ensures r.response.Some? <==> parse(ExtractJson(text)).Success?
    ensures r.response.Some? ==> r.response.value == parse(ExtractJson(text)).value
    ensures r.errorMessage.Some? ==>
              r.errorMessage.value == OutputParseFailure(ExtractJson(text), parse(ExtractJson(text)).error)
  {
    var candidate := ExtractJson(text);
    match parse(candidate)
    case Success(v) => ResponseParsingOutput(Some(v), None)
    case Failure(message) => ResponseParsingOutput(None, Some(OutputParseFailure(candidate, message)))
  }

  /** A record that can be parsed: either it already carries an error, or
      its response is the model's raw text. */
  predicate Parsable<P>(rd: ResponseData<P>) {
    rd.error.None? ==> rd.response.Some? && rd.response.value.Raw?
  }

  /** One iteration of `parse_model_output`. */
  function ParseRecord<P>(parse: string -> Result<P, string>, rd: ResponseData<P>): (r: ResponseData<P>)
    requires Parsable(rd)
    ensures rd.error.Some? ==> r == rd
    ensures r.inputData == rd.inputData
    ensures r.promptTokens == rd.promptTokens && r.generatedTokens == rd.generatedTokens
    ensures rd.error.None? ==> (r.response.Some? <==> r.error.None?)
    ensures rd.error.None? && r.response.Some? ==>
              var parsedText := parse(ExtractJson(rd.response.value.text));
              parsedText.Success? && r.response.value == Parsed(parsedText.value)
    ensures rd.error.None? ==> (r.error.None? <==> parse(ExtractJson(rd.response.value.text)).Success?)
    ensures rd.error.None? && r.error.Some? ==>
              var candidate := ExtractJson(rd.response.value.text);
              r.error == Some(OutputParseFailure(candidate, parse(candidate).error))
  {
    if rd.error.Some? then rd
    else
      var out := ParseResponse(parse, rd.response.value.text);
      ResponseData(
        if out.response.Some? then Some(Parsed(out.response.value)) else None,
        rd.inputData,
        rd.promptTokens,
        rd.generatedTokens,
        out.errorMessage)
  }

  /** A record without an error is parsed exactly as `_parse_response`
      parses its raw text: the same error, and the parsed value as the
      response. */
  lemma ParseRecordIsParseResponse<P>(parse: string -> Result<P, string>, rd: ResponseData<P>)
    requires Parsable(rd) && rd.error.None?
    ensures var out := ParseResponse(parse, rd.response.value.text);
            var r := ParseRecord(parse, rd);
            && r.error == out.errorMessage
            && (r.response.Some? <==> out.response.Some?)
            && (out.response.Some? ==> r.response == Some(Parsed(out.response.value)))
  {
  }

  /** `parse_model_output`: one parsed record per input record, in order. */
  method ParseModelOutput<P>(parse: string -> Result<P, string>, records: seq<ResponseData<P>>)
    returns (parsed: seq<ResponseData<P>>)
    requires forall k :: 0 <= k < |records| ==> Parsable(records[k])
    ensures |parsed| == |records|
    ensures forall k :: 0 <= k < |records| ==> parsed[k] == ParseRecord(parse, records[k])
    ensures forall k :: 0 <= k < |records| && records[k].error.Some? ==> parsed[k] == records[k]
    ensures forall k :: 0 <= k < |records| ==> parsed[k].inputData == records[k].inputData
  {
    parsed := [];
    var i := 0;
    while i < |records|
      invariant 0 <= i <= |records|
      invariant |parsed| == i
      invariant forall k :: 0 <= k < i ==> parsed[k] == ParseRecord(parse, records[k])
    {
      parsed := parsed + [ParseRecord(parse, records[i])];
      i := i + 1;
    }
  }
}
