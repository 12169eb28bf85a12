/** Placeholder extraction from a prompt template: the names captured by
    `re.findall(r'(?<!\{)\{([^{}]+)\}(?!\})', prompt)`, collected into a set.
    Doubled braces `{{...}}` are the template's escape for literal braces and
    never yield a placeholder. */
module Placeholders {

  predicate IsBrace(c: char) {
    c == '{' || c == '}'
  }

  /** No brace at any index in [a, b). */
  predicate BraceFreeBetween(s: string, a: int, b: int)
    requires 0 <= a && b <= |s|
  {
    forall m :: a <= m < b ==> !IsBrace(s[m])
  }

  predicate BraceFree(s: string) {
    BraceFreeBetween(s, 0, |s|)
  }

  /** The regex matches with `{` at index `i` and the closing `}` at `j`:
      a non-empty, brace-free name in between, no `{` just before and no
      `}` just after. */
  predicate PlaceholderAt(s: string, i: int, j: int) {
    && 0 <= i && i + 1 < j < |s|
    && s[i] == '{' && s[j] == '}'
    && (i == 0 || s[i - 1] != '{')
    && (j + 1 == |s| || s[j + 1] != '}')
    && BraceFreeBetween(s, i + 1, j)
  }

  /** The first index at or after `k` holding a brace, or `|s|`. */
  function NextBrace(s: string, k: nat): (j: nat)
    requires k <= |s|
    ensures k <= j <= |s|
    ensures BraceFreeBetween(s, k, j)
    ensures j < |s| ==> IsBrace(s[j])
    decreases |s| - k
  {
    if k == |s| || IsBrace(s[k]) then k else NextBrace(s, k + 1)
  }

  /** The scan `findall` performs from index `k`: try a match at `k`; on
      success record the name and resume after the closing brace, otherwise
      move one character on. */
  function ExtractFrom(s: string, k: nat): (names: set<string>)
    requires k <= |s|
    ensures forall x <- names :: |x| > 0 && BraceFree(x)
    decreases |s| - k
  {
    if k == |s| then {}
    else if s[k] == '{' && (k == 0 || s[k - 1] != '{') then
      var j := NextBrace(s, k + 1);
      if k + 1 < j < |s| && s[j] == '}' && (j + 1 == |s| || s[j + 1] != '}') then
        var name := s[k + 1..j];
        assert forall m :: 0 <= m < |name| ==> name[m] == s[k + 1 + m];
        {name} + ExtractFrom(s, j + 1)
      else ExtractFrom(s, k + 1)
    else ExtractFrom(s, k + 1)
  }

  /** `_extract_input_variables_from_prompt`: the placeholder names of a
      prompt template, each non-empty and brace-free; a text without `{`
      has none. `ExtractSpec` characterises the names exactly. */
  function Extract(prompt: string): (names: set<string>)
    ensures forall x <- names :: |x| > 0 && BraceFree(x)
    ensures '{' !in prompt ==> names == {}
  {
    assert '{' !in prompt ==> ExtractFrom(prompt, 0) == {} by {
      forall x
        ensures '{' !in prompt ==> x !in ExtractFrom(prompt, 0)
      {
        ExtractFromSpec(prompt, 0, x);
      }
    }
    ExtractFrom(prompt, 0)
  }

  /** At index `k` a match can only close at the first brace after `k`. */
  lemma PlaceholderClosesAtNextBrace(s: string, k: nat, j: int)
    requires k < |s|
    requires PlaceholderAt(s, k, j)
    ensures j == NextBrace(s, k + 1)
  {
    var n := NextBrace(s, k + 1);
    assert IsBrace(s[j]);
    assert n < |s| ==> IsBrace(s[n]);
  }

  /** No match starts strictly inside a match that was just consumed. */
  lemma NoPlaceholderInside(s: string, k: nat, j: nat, i: int, j2: int)
    requires k < j <= |s| && BraceFreeBetween(s, k + 1, j)
    requires j < |s| ==> s[j] == '}'
    requires k < i <= j
    ensures !PlaceholderAt(s, i, j2)
  {
    if i < j {
      assert !IsBrace(s[i]);
    }
  }

  /** A match at `k` closing at `j` is the only match starting in [k, j]. */
  lemma MatchesAfterMatch(s: string, k: nat, j: int)
    requires k < |s| && PlaceholderAt(s, k, j)
    ensures forall i, j2 :: k <= i && PlaceholderAt(s, i, j2) ==> (i == k && j2 == j) || j + 1 <= i
  {
    PlaceholderClosesAtNextBrace(s, k, j);
    forall i, j2 | k <= i && PlaceholderAt(s, i, j2)
      ensures (i == k && j2 == j) || j + 1 <= i
    {
      if i == k {
        PlaceholderClosesAtNextBrace(s, k, j2);
      } else if i <= j {
        NoPlaceholderInside(s, k, j, i, j2);
      }
    }
  }

  /** When the scan finds no match at `k`, there is none. */
  lemma NoMatchAt(s: string, k: nat)
    requires k < |s|
    requires s[k] == '{' && (k == 0 || s[k - 1] != '{') ==>
               var j := NextBrace(s, k + 1);
               !(k + 1 < j < |s| && s[j] == '}' && (j + 1 == |s| || s[j + 1] != '}'))
    ensures forall j2 :: !PlaceholderAt(s, k, j2)
  {
    forall j2 | PlaceholderAt(s, k, j2)
      ensures false
    {
      PlaceholderClosesAtNextBrace(s, k, j2);
    }
  }

  /** The scan from `k` collects exactly the names of the matches that start
      at or after `k`. */
  lemma {:induction false} ExtractFromSpec(s: string, k: nat, x: string)
    requires k <= |s|
    ensures x in ExtractFrom(s, k) <==> exists i, j :: k <= i && PlaceholderAt(s, i, j) && x == s[i + 1..j]
    decreases |s| - k
  {
    if k == |s| {
      assert forall i, j :: k <= i && PlaceholderAt(s, i, j) ==> false;
    } else {
      var j := NextBrace(s, k + 1);
      if s[k] == '{' && (k == 0 || s[k - 1] != '{') && k + 1 < j < |s| && s[j] == '}' && (j + 1 == |s| || s[j + 1] != '}') {
        ExtractFromSpec(s, j + 1, x);
        assert PlaceholderAt(s, k, j);
        MatchesAfterMatch(s, k, j);
      } else {
        ExtractFromSpec(s, k + 1, x);
        NoMatchAt(s, k);
      }
    }
  }

  /** A name is extracted iff it sits between a `{` not preceded by `{` and a
      `}` not followed by `}`, with no brace in between. */
  lemma ExtractSpec(prompt: string, x: string)
    ensures x in Extract(prompt) <==> exists i, j :: PlaceholderAt(prompt, i, j) && x == prompt[i + 1..j]
  {
    ExtractFromSpec(prompt, 0, x);
  }

  /** `{name}` on its own is a placeholder. */
  lemma SinglePlaceholder(name: string)
    requires |name| > 0 && BraceFree(name)
    ensures Extract("{" + name + "}") == {name}
  {
    var s := "{" + name + "}";
    var n := |name|;
    assert forall m :: 1 <= m <= n ==> s[m] == name[m - 1];
    assert PlaceholderAt(s, 0, n + 1);
    assert s[1..n + 1] == name;
    ExtractSpec(s, name);
    forall x | x in Extract(s)
      ensures x == name
    {
      ExtractSpec(s, x);
      var i, j :| PlaceholderAt(s, i, j) && x == s[i + 1..j];
      assert s[i] == '{';
      assert i == 0;
      PlaceholderClosesAtNextBrace(s, 0, j);
      assert NextBrace(s, 1) == n + 1 by {
        assert PlaceholderAt(s, 0, n + 1);
        PlaceholderClosesAtNextBrace(s, 0, n + 1);
      }
    }
  }

  lemma NoPlaceholderInEscaped(name: string, i: int, j: int)
    requires BraceFree(name)
    ensures !PlaceholderAt("{{" + name + "}}", i, j)
  {
    var s := "{{" + name + "}}";
    var n := |name|;
    assert forall m :: 2 <= m < n + 2 ==> s[m] == name[m - 2];
    assert s[0] == '{' && s[1] == '{' && s[n + 2] == '}' && s[n + 3] == '}';
  }

  /** `{{name}}` is an escaped literal and yields no placeholder. */
  lemma EscapedPlaceholder(name: string)
    requires BraceFree(name)
    ensures Extract("{{" + name + "}}") == {}
  {
    var s := "{{" + name + "}}";
    forall x
      ensures x !in Extract(s)
    {
      ExtractSpec(s, x);
      forall i, j
        ensures !PlaceholderAt(s, i, j)
      {
        NoPlaceholderInEscaped(name, i, j);
      }
    }
  }
}
