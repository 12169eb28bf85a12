/** Fitting an oversized text into the model's prompt budget, either by
    truncating it to a prefix of its words (`truncate_text_to_max_size`) or by
    splitting it recursively into overlapping halves
    (`split_text_to_max_size`).

    The token counter and the prompt formatter belong to the language model
    and the prompt template; both are parameters here (`count` and
    `format`). Neither recursion is bounded in the source, so both carry a
    `fuel` bound; running out of fuel is reported explicitly and stands for
    the `RecursionError` CPython raises. Lemmas below exhibit inputs on
    which the source recursion calls itself on the same text again, without
    bound. */
module TextChunking {
  import opened Wrappers
  import opened Words
  import opened TokenBudget

  /** The default number of words two neighbouring halves share. */
  const OverlapSize: int := 50

  /** A slice bound normalised as Python does for a list of length `n`:
      negative bounds count from the end, out-of-range ones are clamped. */
  function PySliceBound(n: nat, k: int): (b: nat)
    ensures b <= n
    ensures 0 <= k <= n ==> b == k
    ensures k > n ==> b == n
    ensures k < 0 ==> b == if n + k < 0 then 0 else n + k
  {
    if k < 0 then (if n + k < 0 then 0 else n + k)
    else if k > n then n
    else k
  }

  datatype Halves = Halves(left: seq<string>, right: seq<string>)

  /** `words[:mid + overlap // 2]` and `words[mid - (overlap - overlap // 2):]`
      with `mid = len(words) // 2`. (Dafny's `/` by 2 is Python's `//` by 2,
      negative operands included.) */
  function SplitHalves(words: seq<string>, overlap: int): (h: Halves)
    ensures h.left <= words
    ensures |h.right| <= |words| && h.right == words[|words| - |h.right|..]
    ensures overlap >= 0 ==> |h.left| + |h.right| >= |words|
  {
    var n := |words|;
    var mid := n / 2;
    var overlapLeft := overlap / 2;
    var overlapRight := overlap - overlapLeft;
    Halves(words[..PySliceBound(n, mid + overlapLeft)], words[PySliceBound(n, mid - overlapRight)..])
  }

  /** Exactly when both halves of a non-empty text are shorter than it. The right half's
      start may be negative and then wraps around from the end, which can
      shorten it even when the overlap exceeds the midpoint. */
  lemma HalvesShrinkIff(words: seq<string>, overlap: int)
    ensures var n := |words|;
            var mid := n / 2;
            var overlapLeft := overlap / 2;
            var overlapRight := overlap - overlapLeft;
            var h := SplitHalves(words, overlap);
            (|h.left| < n && |h.right| < n) <==>
              (0 < n && overlapLeft < n - mid && (overlapRight < mid || (mid < overlapRight < n + mid)))
  {
    var n := |words|;
    var mid := n / 2;
    var overlapLeft := overlap / 2;
    var overlapRight := overlap - overlapLeft;
    var h := SplitHalves(words, overlap);
    assert |h.left| == PySliceBound(n, mid + overlapLeft);
    assert |h.right| == n - PySliceBound(n, mid - overlapRight);
  }

  /** With the default overlap of 50 words, both halves are shorter than the
      text iff it has at least 52 words. */
  lemma DefaultOverlapShrinkIff(words: seq<string>)
    ensures var h := SplitHalves(words, OverlapSize);
            (|h.left| < |words| && |h.right| < |words|) <==> |words| >= 52
  {
    HalvesShrinkIff(words, OverlapSize);
    var n := |words|;
    assert OverlapSize / 2 == 25 && OverlapSize - OverlapSize / 2 == 25;
    assert 2 * (n / 2) <= n < 2 * (n / 2) + 2;
  }

  /** Does the text, formatted into the prompt, fit strictly under the
      token threshold? */
  predicate FitsStrictly(count: string -> nat, format: string -> string, text: string, totalMax: int, maxOutput: int) {
    count(format(text)) < MaxAllowedTokens(totalMax, maxOutput)
  }

  /** `a` is a contiguous run of `b`. */
  predicate IsInfix(a: seq<string>, b: seq<string>) {
    exists i, j :: 0 <= i <= j <= |b| && a == b[i..j]
  }

  lemma InfixOfSelf(a: seq<string>)
    ensures IsInfix(a, a)
  {
    assert a == a[0..|a|];
  }

  lemma InfixOfPrefix(a: seq<string>, b: seq<string>, c: seq<string>)
    requires IsInfix(a, b) && b <= c
    ensures IsInfix(a, c)
  {
    var i, j :| 0 <= i <= j <= |b| && a == b[i..j];
    assert a == c[i..j];
  }

  lemma InfixOfSuffix(a: seq<string>, b: seq<string>, c: seq<string>)
    requires IsInfix(a, b) && |b| <= |c| && b == c[|c| - |b|..]
    ensures IsInfix(a, c)
  {
    var i, j :| 0 <= i <= j <= |b| && a == b[i..j];
    var d := |c| - |b|;
    assert forall m :: 0 <= m < j - i ==> a[m] == b[i + m] == c[d + i + m];
    assert a == c[d + i..d + j];
  }

  lemma HalfIsWords(half: seq<string>, words: seq<string>, isLeft: bool)
    requires AllWords(words)
    requires isLeft ==> half <= words
    requires !isLeft ==> |half| <= |words| && half == words[|words| - |half|..]
    ensures AllWords(half)
  {
    if isLeft {
      assert forall i :: 0 <= i < |half| ==> half[i] == words[i];
    } else {
      assert forall i :: 0 <= i < |half| ==> half[i] == words[|words| - |half| + i];
    }
  }

  /** A chunk of a half of `words` is a run of `words` too. */
  lemma ChunkOfHalfIsRun(c: string, half: seq<string>, words: seq<string>, isLeft: bool)
    requires AllWords(half)
    requires IsInfix(Split(c), Split(Join(half)))
    requires isLeft ==> half <= words
    requires !isLeft ==> |half| <= |words| && half == words[|words| - |half|..]
    ensures IsInfix(Split(c), words)
  {
    SplitJoin(half);
    if isLeft {
      InfixOfPrefix(Split(c), half, words);
    } else {
      InfixOfSuffix(Split(c), half, words);
    }
  }

  /** Chunks of a half of `words` are runs of `words` too. */
  lemma SubChunksAreRuns(cs: seq<string>, half: seq<string>, words: seq<string>, isLeft: bool)
    requires AllWords(words)
    requires forall c <- cs :: IsInfix(Split(c), Split(Join(half)))
    requires isLeft ==> half <= words
    requires !isLeft ==> |half| <= |words| && half == words[|words| - |half|..]
    ensures forall c <- cs :: IsInfix(Split(c), words)
  {
    HalfIsWords(half, words, isLeft);
    forall c <- cs
      ensures IsInfix(Split(c), words)
    {
      ChunkOfHalfIsRun(c, half, words, isLeft);
    }
  }

  lemma SubChunksAreNormalised(cs: seq<string>, half: seq<string>)
    requires AllWords(half)
    requires forall c <- cs :: c == Join(half) || Normalised(c)
    ensures forall c <- cs :: Normalised(c)
  {
    JoinIsNormalised(half);
  }

  /** What a half's chunks inherit: each is normalised and a run of the
      whole text's words. */
  lemma HalfChunksProperties(cs: seq<string>, half: seq<string>, words: seq<string>, isLeft: bool)
    requires AllWords(words)
    requires isLeft ==> half <= words
    requires !isLeft ==> |half| <= |words| && half == words[|words| - |half|..]
    requires forall c <- cs :: c == Join(half) || Normalised(c)
    requires forall c <- cs :: IsInfix(Split(c), Split(Join(half)))
    ensures forall c <- cs :: Normalised(c)
    ensures forall c <- cs :: IsInfix(Split(c), words)
  {
    HalfIsWords(half, words, isLeft);
    SubChunksAreNormalised(cs, half);
    SubChunksAreRuns(cs, half, words, isLeft);
  }

  /** The chunks of the two halves, each with what splitting a half
      promises, together have what splitting the whole text promises. */
  lemma ChunksOfHalves(count: string -> nat, format: string -> string, text: string,
                       totalMax: int, maxOutput: int, overlap: int, l: seq<string>, r: seq<string>)
    requires var h := SplitHalves(Split(text), overlap);
             && |l| > 0
             && (forall c <- l :: FitsStrictly(count, format, c, totalMax, maxOutput))
             && (forall c <- l :: c == Join(h.left) || Normalised(c))
             && (forall c <- l :: IsInfix(Split(c), Split(Join(h.left))))
             && Covers(SplitEach(l), Split(Join(h.left)))
    requires var h := SplitHalves(Split(text), overlap);
             && (forall c <- r :: FitsStrictly(count, format, c, totalMax, maxOutput))
             && (forall c <- r :: c == Join(h.right) || Normalised(c))
             && (forall c <- r :: IsInfix(Split(c), Split(Join(h.right))))
             && Covers(SplitEach(r), Split(Join(h.right)))
    ensures |l + r| > 0
    ensures forall c <- l + r :: FitsStrictly(count, format, c, totalMax, maxOutput)
    ensures forall c <- l + r :: c == text || Normalised(c)
    ensures forall c <- l + r :: IsInfix(Split(c), Split(text))
    ensures overlap >= 0 ==> Covers(SplitEach(l + r), Split(text))
  {
    var words := Split(text);
    var h := SplitHalves(words, overlap);
    HalfChunksProperties(l, h.left, words, true);
    HalfChunksProperties(r, h.right, words, false);
    if overlap >= 0 {
      CoverStep(words, overlap, l, r);
    }
  }

  /** `split_text_to_max_size`. A text that fits is returned as its only
      chunk; otherwise its words are cut into two overlapping halves and
      each half is split again, with the default overlap (the caller's
      overlap is not passed down). `None` means the fuel ran out. */
  function SplitText(count: string -> nat, format: string -> string, text: string,
                     totalMax: int, maxOutput: int, overlap: int, fuel: nat): (chunks: Option<seq<string>>)
    ensures FitsStrictly(count, format, text, totalMax, maxOutput) ==> chunks == Some([text])
    ensures chunks.Some? ==> |chunks.value| > 0
    ensures chunks.Some? ==> forall c <- chunks.value :: FitsStrictly(count, format, c, totalMax, maxOutput)
    ensures chunks.Some? ==> forall c <- chunks.value :: c == text || Normalised(c)
    ensures chunks.Some? ==> forall c <- chunks.value :: IsInfix(Split(c), Split(text))
    ensures chunks.Some? && overlap >= 0 ==> Covers(SplitEach(chunks.value), Split(text))
    decreases fuel
  {
    if FitsStrictly(count, format, text, totalMax, maxOutput) then
      InfixOfSelf(Split(text));
      CoversWhole(text);
      Some([text])
    else if fuel == 0 then None
    else
      var words := Split(text);
      var h := SplitHalves(words, overlap);
      var left := SplitText(count, format, Join(h.left), totalMax, maxOutput, OverlapSize, fuel - 1);
      var right := SplitText(count, format, Join(h.right), totalMax, maxOutput, OverlapSize, fuel - 1);
      if left.Some? && right.Some? then
        ChunksOfHalves(count, format, text, totalMax, maxOutput, overlap, left.value, right.value);
        Some(left.value + right.value)
      else None
  }

  /** A text that does not fit is split into the chunks of its left half
      followed by the chunks of its right half, each half split with the
      default overlap; it fails exactly when the fuel is spent or one of
      the halves fails. */
  lemma SplitTextHalves(count: string -> nat, format: string -> string, text: string,
                        totalMax: int, maxOutput: int, overlap: int, fuel: nat)
    requires !FitsStrictly(count, format, text, totalMax, maxOutput)
    ensures fuel == 0 ==> SplitText(count, format, text, totalMax, maxOutput, overlap, fuel).None?
    ensures fuel > 0 ==>
              var h := SplitHalves(Split(text), overlap);
              var chunks := SplitText(count, format, text, totalMax, maxOutput, overlap, fuel);
              var left := SplitText(count, format, Join(h.left), totalMax, maxOutput, OverlapSize, fuel - 1);
              var right := SplitText(count, format, Join(h.right), totalMax, maxOutput, OverlapSize, fuel - 1);
              && (chunks.Some? <==> left.Some? && right.Some?)
              && (chunks.Some? ==> chunks.value == left.value + right.value)
  {
  }

  /** The words of each chunk. */
  function SplitEach(chunks: seq<string>): (ws: seq<seq<string>>)
    ensures |ws| == |chunks|
    ensures forall k :: 0 <= k < |chunks| ==> ws[k] == Split(chunks[k])
  {
    seq(|chunks|, k requires 0 <= k < |chunks| => Split(chunks[k]))
  }

  /** Lists of words laid end to end, one after the other. */
  function Flatten(lists: seq<seq<string>>): seq<string>
  {
    if |lists| == 0 then [] else lists[0] + Flatten(lists[1..])
  }

  lemma {:induction false} FlattenAppend(a: seq<seq<string>>, b: seq<seq<string>>)
    ensures Flatten(a + b) == Flatten(a) + Flatten(b)
    decreases |a|
  {
    if |a| == 0 {
      assert a + b == b;
    } else {
      assert (a + b)[1..] == a[1..] + b;
      FlattenAppend(a[1..], b);
    }
  }

  /** The word lists `ws` of some chunks cover `words`: the first one
      starts them, the last one ends them, and every word occurs among
      them. */
  predicate Covers(ws: seq<seq<string>>, words: seq<string>) {
    && |ws| > 0
    && ws[0] <= words
    && |ws[|ws| - 1]| <= |words|
    && ws[|ws| - 1] == words[|words| - |ws[|ws| - 1]|..]
    && forall i :: 0 <= i < |words| ==> words[i] in Flatten(ws)
  }

  /** An element of a suffix is the element of the whole at the shifted
      index. */
  lemma SuffixIndex(right: seq<string>, words: seq<string>, i: int)
    requires |right| <= |words| && right == words[|words| - |right|..]
    requires |words| - |right| <= i < |words|
    ensures words[i] == right[i - (|words| - |right|)]
  {
  }

  /** A suffix of a suffix is a suffix. */
  lemma SuffixOfSuffix(last: seq<string>, right: seq<string>, words: seq<string>)
    requires |last| <= |right| && last == right[|right| - |last|..]
    requires |right| <= |words| && right == words[|words| - |right|..]
    ensures |last| <= |words| && last == words[|words| - |last|..]
  {
    var d := |words| - |right|;
    assert forall m :: 0 <= m < |last| ==> last[m] == right[|right| - |last| + m] == words[d + |right| - |last| + m];
  }

  /** Word lists covering two halves that together span `words` cover
      `words`. */
  lemma CoversHalves(l: seq<seq<string>>, r: seq<seq<string>>, left: seq<string>, right: seq<string>,
                     words: seq<string>)
    requires Covers(l, left) && Covers(r, right)
    requires left <= words && |right| <= |words| && right == words[|words| - |right|..]
    requires |left| + |right| >= |words|
    ensures Covers(l + r, words)
  {
    var cs := l + r;
    assert cs[0] == l[0];
    assert cs[|cs| - 1] == r[|r| - 1];
    SuffixOfSuffix(r[|r| - 1], right, words);
    FlattenAppend(l, r);
    forall i | 0 <= i < |words|
      ensures words[i] in Flatten(cs)
    {
      if i < |left| {
        assert words[i] == left[i];
        assert left[i] in Flatten(l);
      } else {
        SuffixIndex(right, words, i);
        assert right[i - (|words| - |right|)] in Flatten(r);
      }
    }
  }

  lemma SplitEachAppend(l: seq<string>, r: seq<string>)
    ensures SplitEach(l + r) == SplitEach(l) + SplitEach(r)
  {
    assert forall k :: 0 <= k < |l| ==> (l + r)[k] == l[k];
    assert forall k :: |l| <= k < |l| + |r| ==> (l + r)[k] == r[k - |l|];
  }

  /** The halves of a list of words are words again, each is given back by
      splitting its join, and together they span the list. */
  lemma HalvesRejoin(words: seq<string>, overlap: int)
    requires AllWords(words) && overlap >= 0
    ensures var h := SplitHalves(words, overlap);
            && Split(Join(h.left)) == h.left && Split(Join(h.right)) == h.right
            && h.left <= words && |h.right| <= |words| && h.right == words[|words| - |h.right|..]
            && |h.left| + |h.right| >= |words|
  {
    var h := SplitHalves(words, overlap);
    HalfIsWords(h.left, words, true);
    HalfIsWords(h.right, words, false);
    SplitJoin(h.left);
    SplitJoin(h.right);
  }

  /** Chunks covering the two halves of `words` cover `words`. */
  lemma CoverStep(words: seq<string>, overlap: int, l: seq<string>, r: seq<string>)
    requires AllWords(words) && overlap >= 0
    requires Covers(SplitEach(l), Split(Join(SplitHalves(words, overlap).left)))
    requires Covers(SplitEach(r), Split(Join(SplitHalves(words, overlap).right)))
    ensures Covers(SplitEach(l + r), words)
  {
    var h := SplitHalves(words, overlap);
    HalvesRejoin(words, overlap);
    var wl, wr := SplitEach(l), SplitEach(r);
    assert Covers(wl, h.left);
    assert Covers(wr, h.right);
    CoversHalves(wl, wr, h.left, h.right, words);
    SplitEachAppend(l, r);
  }

  /** A text is covered by itself as the only chunk. */
  lemma CoversWhole(text: string)
    ensures Covers(SplitEach([text]), Split(text))
  {
    assert Flatten([Split(text)]) == Split(text) + Flatten([]);
  }

  /** A text that does not fit and is its own left half cannot be split
      with one more unit of fuel than it could not be split with. */
  lemma WholeLeftHalfStep(count: string -> nat, format: string -> string, text: string,
                          totalMax: int, maxOutput: int, fuel: nat)
    requires !FitsStrictly(count, format, text, totalMax, maxOutput) && fuel > 0
    requires Join(SplitHalves(Split(text), OverlapSize).left) == text
    requires SplitText(count, format, text, totalMax, maxOutput, OverlapSize, fuel - 1).None?
    ensures SplitText(count, format, text, totalMax, maxOutput, OverlapSize, fuel).None?
  {
    var left := Join(SplitHalves(Split(text), OverlapSize).left);
    assert SplitText(count, format, left, totalMax, maxOutput, OverlapSize, fuel - 1).None?;
  }

  /** Chunks that are the concatenation of two singleton results. */
  lemma ConcatOfSingletons(chunks: Option<seq<string>>, left: Option<seq<string>>, right: Option<seq<string>>, a: string, b: string)
    requires chunks.Some? <==> left.Some? && right.Some?
    requires chunks.Some? ==> chunks.value == left.value + right.value
    requires left == Some([a]) && right == Some([b])
    ensures chunks == Some([a, b])
  {
    assert [a] + [b] == [a, b];
  }

  /** A text that does not fit, whose two halves both fit, is split into
      exactly those two halves. */
  lemma SplitIntoTwoFittingHalves(count: string -> nat, format: string -> string, text: string,
                                  totalMax: int, maxOutput: int, overlap: int, fuel: nat)
    requires !FitsStrictly(count, format, text, totalMax, maxOutput) && fuel > 0
    requires var h := SplitHalves(Split(text), overlap);
             FitsStrictly(count, format, Join(h.left), totalMax, maxOutput)
             && FitsStrictly(count, format, Join(h.right), totalMax, maxOutput)
    ensures var h := SplitHalves(Split(text), overlap);
            SplitText(count, format, text, totalMax, maxOutput, overlap, fuel) == Some([Join(h.left), Join(h.right)])
  {
    var h := SplitHalves(Split(text), overlap);
    var a, b := Join(h.left), Join(h.right);
    SplitTextHalves(count, format, text, totalMax, maxOutput, overlap, fuel);
    ConcatOfSingletons(SplitText(count, format, text, totalMax, maxOutput, overlap, fuel),
                       SplitText(count, format, a, totalMax, maxOutput, OverlapSize, fuel - 1),
                       SplitText(count, format, b, totalMax, maxOutput, OverlapSize, fuel - 1), a, b);
  }

  /** On a normalised text of at most 50 words that does not fit, the
      source recursion is unbounded (CPython ends it with a
      `RecursionError`): the left half is the whole text again. Whatever the fuel, the model reports running out of it. */
  lemma SplitDivergesOnShortText(count: string -> nat, format: string -> string, text: string,
                                 totalMax: int, maxOutput: int, fuel: nat)
    requires Normalised(text) && |Split(text)| <= 50
    requires !FitsStrictly(count, format, text, totalMax, maxOutput)
    ensures SplitText(count, format, text, totalMax, maxOutput, OverlapSize, fuel).None?
  {
    ShortLeftHalfIsWhole(text);
    SplitDivergesWhenLeftIsWhole(count, format, text, totalMax, maxOutput, fuel);
  }

  /** A fuel-indexed computation that fails without fuel, and fails with
      one more unit of fuel whenever it failed with one less, fails for
      every fuel. */
  lemma {:induction false} NoneForEveryFuel<T>(f: nat -> Option<T>, fuel: nat)
    requires f(0).None?
    requires forall k: nat :: f(k).None? ==> f(k + 1).None?
    ensures f(fuel).None?
    decreases fuel
  {
    if fuel > 0 {
      NoneForEveryFuel(f, fuel - 1);
    }
  }

  /** A text that does not fit and whose left half is the text itself is
      split forever. */
  lemma SplitDivergesWhenLeftIsWhole(count: string -> nat, format: string -> string, text: string,
                                     totalMax: int, maxOutput: int, fuel: nat)
    requires !FitsStrictly(count, format, text, totalMax, maxOutput)
    requires Join(SplitHalves(Split(text), OverlapSize).left) == text
    ensures SplitText(count, format, text, totalMax, maxOutput, OverlapSize, fuel).None?
  {
    var f := (k: nat) => SplitText(count, format, text, totalMax, maxOutput, OverlapSize, k);
    SplitTextHalves(count, format, text, totalMax, maxOutput, OverlapSize, 0);
    forall k: nat | f(k).None?
      ensures f(k + 1).None?
    {
      WholeLeftHalfStep(count, format, text, totalMax, maxOutput, k + 1);
    }
    NoneForEveryFuel(f, fuel);
  }


  /** For at most 50 words the default left half keeps every word. */
  lemma ShortLeftHalfIsWhole(text: string)
    requires Normalised(text) && |Split(text)| <= 50
    ensures Join(SplitHalves(Split(text), OverlapSize).left) == text
  {
    var words := Split(text);
    assert PySliceBound(|words|, |words| / 2 + OverlapSize / 2) == |words|;
    assert SplitHalves(words, OverlapSize).left == words;
  }

  datatype TruncateError =
    | InstructionTooLong   // the prompt without the text already exceeds the threshold
    | TextHasNoTokens      // the ratio is zero and the word count is divided by it
    | FuelExhausted        // the recursion did not finish within the fuel

  /** The word count kept by one truncation step: `len(words)` scaled by the
      tokens left for the text over the text's tokens. The source computes
      `int(len(words) / (text_tokens / tokens_left))` in floating point; here
      it is the exact integer quotient. */
  function KeptWords(wordCount: nat, tokensLeft: int, textTokens: nat): (k: nat)
    requires tokensLeft > 0 && textTokens > 0
    ensures k * textTokens <= wordCount * tokensLeft < (k + 1) * textTokens
  {
    (wordCount * tokensLeft) / textTokens
  }

  /** `truncate_text_to_max_size`. A text within the threshold (`<=`, unlike
      the splitter's `<`) is returned unchanged; otherwise a prefix of its
      words, sized by the token ratio, is tried again. */
  function Truncate(count: string -> nat, format: string -> string, text: string,
                    totalMax: int, maxOutput: int, fuel: nat): (r: Result<string, TruncateError>)
    ensures count(format(text)) <= MaxAllowedTokens(totalMax, maxOutput) ==> r == Success(text)
    ensures (count(format(text)) > MaxAllowedTokens(totalMax, maxOutput)
             && MaxAllowedTokens(totalMax, maxOutput) - count(format("text")) <= 0) ==> r == Failure(InstructionTooLong)
    ensures (count(format(text)) > MaxAllowedTokens(totalMax, maxOutput)
             && MaxAllowedTokens(totalMax, maxOutput) - count(format("text")) > 0
             && count(text) == 0) ==> r == Failure(TextHasNoTokens)
    ensures (count(format(text)) > MaxAllowedTokens(totalMax, maxOutput)
             && MaxAllowedTokens(totalMax, maxOutput) - count(format("text")) > 0
             && count(text) > 0 && fuel == 0) ==> r == Failure(FuelExhausted)
    ensures r.Success? ==> count(format(r.value)) <= MaxAllowedTokens(totalMax, maxOutput)
    ensures r.Success? ==> Split(r.value) <= Split(text) && (r.value == text || Normalised(r.value))
    decreases fuel
  {
    var limit := MaxAllowedTokens(totalMax, maxOutput);
    if count(format(text)) <= limit then Success(text)
    else
      var tokensLeft := limit - count(format("text"));
      var textTokens := count(text);
      if tokensLeft <= 0 then Failure(InstructionTooLong)
      else if textTokens == 0 then Failure(TextHasNoTokens)
      else if fuel == 0 then Failure(FuelExhausted)
      else
        var words := Split(text);
        var k := KeptWords(|words|, tokensLeft, textTokens);
        var kept := words[..if k < |words| then k else |words|];
        assert AllWords(kept) by {
          assert forall i :: 0 <= i < |kept| ==> kept[i] == words[i];
        }
        SplitJoin(kept);
        JoinIsNormalised(kept);
        Truncate(count, format, Join(kept), totalMax, maxOutput, fuel - 1)
  }

  /** One truncation step strictly reduces the word count exactly when the
      ratio-scaled count is below the current one. */
  lemma TruncateStepShrinks(text: string, tokensLeft: int, textTokens: nat)
    requires tokensLeft > 0 && textTokens > 0
    ensures var words := Split(text);
            var k := KeptWords(|words|, tokensLeft, textTokens);
            var kept := words[..if k < |words| then k else |words|];
            |Split(Join(kept))| < |words| <==> k < |words|
  {
    var words := Split(text);
    var k := KeptWords(|words|, tokensLeft, textTokens);
    var kept := words[..if k < |words| then k else |words|];
    assert AllWords(kept) by {
      assert forall i :: 0 <= i < |kept| ==> kept[i] == words[i];
    }
    SplitJoin(kept);
  }

  /** A text over the threshold, with room left for it and a positive token
      count, whose ratio-sized word prefix fits is truncated to exactly that
      prefix, re-joined by single spaces, in one step. */
  lemma TruncateInOneStep(count: string -> nat, format: string -> string, text: string,
                          totalMax: int, maxOutput: int, fuel: nat)
    requires count(format(text)) > MaxAllowedTokens(totalMax, maxOutput)
    requires MaxAllowedTokens(totalMax, maxOutput) - count(format("text")) > 0
    requires count(text) > 0 && fuel > 0
    requires var words := Split(text);
             var k := KeptWords(|words|, MaxAllowedTokens(totalMax, maxOutput) - count(format("text")), count(text));
             count(format(Join(words[..if k < |words| then k else |words|]))) <= MaxAllowedTokens(totalMax, maxOutput)
    ensures var words := Split(text);
            var k := KeptWords(|words|, MaxAllowedTokens(totalMax, maxOutput) - count(format("text")), count(text));
            Truncate(count, format, text, totalMax, maxOutput, fuel) == Success(Join(words[..if k < |words| then k else |words|]))
  {
  }

  /** The re-run: a text over the threshold, with room left for it and a
      positive token count, is truncated exactly as its ratio-sized word
      prefix, re-joined by single spaces, is with one less unit of fuel. */
  lemma TruncateStep(count: string -> nat, format: string -> string, text: string,
                     totalMax: int, maxOutput: int, fuel: nat)
    requires count(format(text)) > MaxAllowedTokens(totalMax, maxOutput)
    requires MaxAllowedTokens(totalMax, maxOutput) - count(format("text")) > 0
    requires count(text) > 0 && fuel > 0
    ensures var words := Split(text);
            var k := KeptWords(|words|, MaxAllowedTokens(totalMax, maxOutput) - count(format("text")), count(text));
            var kept := words[..if k < |words| then k else |words|];
            Truncate(count, format, text, totalMax, maxOutput, fuel)
              == Truncate(count, format, Join(kept), totalMax, maxOutput, fuel - 1)
  {
  }

  lemma MulMonotone(a: int, b: int, c: nat)
    requires a <= b
    ensures a * c <= b * c
  {
  }

  /** The source recursion is unbounded (CPython ends it with a
      `RecursionError`) when a normalised text does not fit but the ratio
      keeps all of its words (its token count is at
      most the tokens left for it): the same text is tried again. */
  lemma {:induction false} TruncateDivergesWhenNothingIsCut(count: string -> nat, format: string -> string, text: string,
                                                            totalMax: int, maxOutput: int, fuel: nat)
    requires Normalised(text)
    requires count(format(text)) > MaxAllowedTokens(totalMax, maxOutput)
    requires 0 < count(text) <= MaxAllowedTokens(totalMax, maxOutput) - count(format("text"))
    ensures Truncate(count, format, text, totalMax, maxOutput, fuel) == Failure(FuelExhausted)
    decreases fuel
  {
    if fuel > 0 {
      var words := Split(text);
      var tokensLeft := MaxAllowedTokens(totalMax, maxOutput) - count(format("text"));
      var k := KeptWords(|words|, tokensLeft, count(text));
      MulMonotone(count(text), tokensLeft, |words|);
      if k < |words| {
        MulMonotone(k + 1, |words|, count(text));
      }
      assert k >= |words|;
      assert words[..|words|] == words;
      TruncateDivergesWhenNothingIsCut(count, format, text, totalMax, maxOutput, fuel - 1);
    }
  }
}
