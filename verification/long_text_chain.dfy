/** The long-text processing chain: the text is split into chunks that fit
    the prompt budget, every chunk is sent through the map chain (one
    response per chunk, in chunk order), and the responses are reduced
    either by simple concatenation (summaries joined with a space, keyword
    lists flattened) or by one more language-model call.

    The map chain, the reduce chain and the per-task response
    deserialisers are parameters. The `.json()` rendering of the reduced
    value is not part of this model: the reduced value itself is returned. */
module LongTextChain {
  import opened Wrappers
  import opened Domain
  import opened Words
  import TextChunking

  /** `_map_step`: the map chain applied to every chunk. `asyncio.gather`
      returns the results in the order of its arguments, so the step is an
      order-preserving map. */
  function MapStep<D, R>(run: D -> R, docs: seq<D>): (rs: seq<R>)
    ensures |rs| == |docs|
    ensures forall k :: 0 <= k < |docs| ==> rs[k] == run(docs[k])
  {
    if |docs| == 0 then [] else [run(docs[0])] + MapStep(run, docs[1..])
  }

  /** Mapping a concatenation maps each part in place. */
  lemma MapStepAppend<D, R>(run: D -> R, a: seq<D>, b: seq<D>)
    ensures MapStep(run, a + b) == MapStep(run, a) + MapStep(run, b)
  {
    var lhs, rhs := MapStep(run, a + b), MapStep(run, a) + MapStep(run, b);
    assert forall k :: 0 <= k < |a| + |b| ==> lhs[k] == rhs[k];
  }

  /** Every response deserialised in order; the first one the deserialiser
      rejects aborts the list comprehension. */
  function ParseAll<T>(parse: string -> Result<T, string>, responses: seq<string>): (r: Result<seq<T>, ReduceError>)
    ensures r.Success? <==> forall k :: 0 <= k < |responses| ==> parse(responses[k]).Success?
    ensures r.Success? ==> |r.value| == |responses|
    ensures r.Success? ==> forall k :: 0 <= k < |responses| ==> r.value[k] == parse(responses[k]).value
    ensures r.Failure? ==>
              var k := r.error.index;
              && 0 <= k < |responses|
              && (forall m :: 0 <= m < k ==> parse(responses[m]).Success?)
              && parse(responses[k]) == Failure(r.error.message)
  {
    if |responses| == 0 then Success([])
    else match parse(responses[0])
      case Failure(message) => Failure(ChunkNotParsable(0, message))
      case Success(v) =>
        match ParseAll(parse, responses[1..])
        case Failure(e) => Failure(ChunkNotParsable(e.index + 1, e.message))
        case Success(vs) => Success([v] + vs)
  }

  datatype ReduceError = ChunkNotParsable(index: nat, message: string)

  /** `_aggregate_results_for_summary`: the chunk summaries joined with a
      single space. */
  function ConcatenateSummaries(summaries: seq<string>): (r: string)
    ensures |summaries| == 0 ==> r == ""
    ensures |summaries| == 1 ==> r == summaries[0]
    ensures |summaries| > 0 ==> |r| == TotalLength(summaries) + |summaries| - 1
  {
    var r := Join(summaries);
    assert |summaries| > 0 ==> |r| == TotalLength(summaries) + |summaries| - 1 by {
      if |summaries| > 0 {
        JoinLength(summaries);
      }
    }
    r
  }

  /** Concatenating the summaries of two runs of chunks puts exactly one
      space between the two results. */
  lemma ConcatenateSummariesAppend(a: seq<string>, b: seq<string>)
    requires |a| > 0 && |b| > 0
    ensures ConcatenateSummaries(a + b) == ConcatenateSummaries(a) + " " + ConcatenateSummaries(b)
  {
    JoinAppend(a, b);
  }

  /** `reduce(lambda x, y: x + y, lists, acc)`: a left fold of list
      concatenation. */
  function FoldConcat(acc: seq<string>, lists: seq<seq<string>>): (r: seq<string>)
    ensures |r| == |acc| + SumOfLengths(lists)
    ensures r[..|acc|] == acc
    ensures |lists| > 0 ==> r[|acc|..|acc| + |lists[0]|] == lists[0]
    decreases |lists|
  {
    if |lists| == 0 then acc
    else
      var r := FoldConcat(acc + lists[0], lists[1..]);
      assert r[..|acc|] == (acc + lists[0])[..|acc|];
      assert r[|acc|..|acc| + |lists[0]|] == (acc + lists[0])[|acc|..];
      r
  }

  function SumOfLengths(lists: seq<seq<string>>): nat
  {
    if |lists| == 0 then 0 else |lists[0]| + SumOfLengths(lists[1..])
  }

  lemma {:induction false} FoldConcatIsFlatten(acc: seq<string>, lists: seq<seq<string>>)
    ensures FoldConcat(acc, lists) == acc + TextChunking.Flatten(lists)
    decreases |lists|
  {
    if |lists| > 0 {
      FoldConcatIsFlatten(acc + lists[0], lists[1..]);
      assert acc + lists[0] + TextChunking.Flatten(lists[1..]) == acc + (lists[0] + TextChunking.Flatten(lists[1..]));
    }
  }

  lemma {:induction false} FlattenLength(lists: seq<seq<string>>)
    ensures |TextChunking.Flatten(lists)| == SumOfLengths(lists)
    decreases |lists|
  {
    if |lists| > 0 {
      FlattenLength(lists[1..]);
    }
  }

  lemma {:induction false} FlattenMembership(lists: seq<seq<string>>, x: string)
    ensures x in TextChunking.Flatten(lists) <==> exists i :: 0 <= i < |lists| && x in lists[i]
    decreases |lists|
  {
    if |lists| > 0 {
      FlattenMembership(lists[1..], x);
      if x in TextChunking.Flatten(lists[1..]) {
        var i :| 0 <= i < |lists[1..]| && x in lists[1..][i];
        assert x in lists[i + 1];
      }
      forall i | 0 < i < |lists| && x in lists[i]
        ensures x in TextChunking.Flatten(lists[1..])
      {
        assert lists[i] == lists[1..][i - 1];
      }
    }
  }

  /** `_aggregate_results_for_keywords`: the keyword lists of the chunks
      concatenated in chunk order, each keyword kept with its multiplicity. */
  function ConcatenateKeywords(lists: seq<seq<string>>): (r: seq<string>)
    ensures r == TextChunking.Flatten(lists)
    ensures |r| == SumOfLengths(lists)
    ensures forall x :: x in r <==> exists i :: 0 <= i < |lists| && x in lists[i]
    ensures |lists| == 1 ==> r == lists[0]
  {
    FoldConcatIsFlatten([], lists);
    FlattenLength(lists);
    forall x
      ensures x in TextChunking.Flatten(lists) <==> exists i :: 0 <= i < |lists| && x in lists[i]
    {
      FlattenMembership(lists, x);
    }
    assert |lists| == 1 ==> TextChunking.Flatten(lists) == lists[0] + [];
    FoldConcat([], lists)
  }

  /** A chunk's deserialised output, by task. */
  datatype ChunkOutput = SummaryOutput(summary: string) | KeywordsOutput(keywords: seq<string>)

  /** The value the reduce step produces. */
  datatype Reduced =
    | SummaryOf(summary: string)
    | KeywordsOf(keywords: seq<string>)
    | ReducedByLlm(text: string)

  /** `_deserialize_response` over all responses, by task. */
  function DeserialiseAll(task: LanguageModelTask, responses: seq<string>,
                          parseSummary: string -> Result<string, string>,
                          parseKeywords: string -> Result<seq<string>, string>): (r: Result<seq<ChunkOutput>, ReduceError>)
    ensures r.Success? ==> |r.value| == |responses|
    ensures r.Success? && task == Summary ==> forall k :: 0 <= k < |responses| ==> r.value[k].SummaryOutput?
    ensures r.Success? && task == Keywords ==> forall k :: 0 <= k < |responses| ==> r.value[k].KeywordsOutput?
    ensures task == Summary ==> (r.Success? <==> forall k :: 0 <= k < |responses| ==> parseSummary(responses[k]).Success?)
    ensures task == Keywords ==> (r.Success? <==> forall k :: 0 <= k < |responses| ==> parseKeywords(responses[k]).Success?)
    ensures r.Success? && task == Summary ==>
              forall k :: 0 <= k < |responses| ==> r.value[k] == SummaryOutput(parseSummary(responses[k]).value)
    ensures r.Success? && task == Keywords ==>
              forall k :: 0 <= k < |responses| ==> r.value[k] == KeywordsOutput(parseKeywords(responses[k]).value)
    ensures r.Failure? && task == Summary ==> r == Failure(ParseAll(parseSummary, responses).error)
    ensures r.Failure? && task == Keywords ==> r == Failure(ParseAll(parseKeywords, responses).error)
  {
    if task == Summary then
      var ss :- ParseAll(parseSummary, responses);
      Success(MapStep((s: string) => SummaryOutput(s), ss))
    else
      var ks :- ParseAll(parseKeywords, responses);
      Success(MapStep((k: seq<string>) => KeywordsOutput(k), ks))
  }

  /** `_reduce_step`: the language-model reduce when so configured,
      otherwise simple concatenation by task. */
  function ReduceStep(strategy: AggregationLogic, task: LanguageModelTask, responses: seq<string>,
                      parseSummary: string -> Result<string, string>,
                      parseKeywords: string -> Result<seq<string>, string>,
                      reduceByLlm: seq<ChunkOutput> -> string): (r: Result<Reduced, ReduceError>)
    ensures r.Success? && r.value.ReducedByLlm? <==> strategy == ReduceByLlmPrompting && r.Success?
    ensures strategy == SimpleConcatenation && task == Summary ==>
              match ParseAll(parseSummary, responses)
              case Success(ss) => r == Success(SummaryOf(ConcatenateSummaries(ss)))
              case Failure(e) => r == Failure(e)
    ensures strategy == SimpleConcatenation && task == Keywords ==>
              match ParseAll(parseKeywords, responses)
              case Success(ks) => r == Success(KeywordsOf(TextChunking.Flatten(ks)))
              case Failure(e) => r == Failure(e)
  {
    match strategy
    case ReduceByLlmPrompting =>
      var outputs :- DeserialiseAll(task, responses, parseSummary, parseKeywords);
      Success(ReducedByLlm(reduceByLlm(outputs)))
    case SimpleConcatenation =>
      if task == Summary then
        var ss :- ParseAll(parseSummary, responses);
        Success(SummaryOf(ConcatenateSummaries(ss)))
      else
        var ks :- ParseAll(parseKeywords, responses);
        Success(KeywordsOf(ConcatenateKeywords(ks)))
  }

  datatype ChainError = ChunkingFuelExhausted | Reduce(error: ReduceError)

  /** A reduce error reported as an error of the whole chain. */
  function LiftReduce(res: Result<Reduced, ReduceError>): Result<Reduced, ChainError>
  {
    match res
    case Success(v) => Success(v)
    case Failure(e) => Failure(Reduce(e))
  }

  /** `combine_docs`: chunk with the default overlap, map, reduce. */
  function CombineDocs(count: string -> nat, format: string -> string, text: string,
                       totalMax: int, maxOutput: int, fuel: nat,
                       run: string -> string, strategy: AggregationLogic, task: LanguageModelTask,
                       parseSummary: string -> Result<string, string>,
                       parseKeywords: string -> Result<seq<string>, string>,
                       reduceByLlm: seq<ChunkOutput> -> string): (r: Result<Reduced, ChainError>)
    ensures TextChunking.SplitText(count, format, text, totalMax, maxOutput, TextChunking.OverlapSize, fuel).None?
            <==> r == Failure(ChunkingFuelExhausted)
    ensures TextChunking.FitsStrictly(count, format, text, totalMax, maxOutput) ==>
              r == LiftReduce(ReduceStep(strategy, task, [run(text)], parseSummary, parseKeywords, reduceByLlm))
    ensures var split := TextChunking.SplitText(count, format, text, totalMax, maxOutput, TextChunking.OverlapSize, fuel);
            split.Some? ==>
              r == LiftReduce(ReduceStep(strategy, task, MapStep(run, split.value), parseSummary, parseKeywords, reduceByLlm))
  {
    var split := TextChunking.SplitText(count, format, text, totalMax, maxOutput, TextChunking.OverlapSize, fuel);
    if split.None? then Failure(ChunkingFuelExhausted)
    else
      var responses := MapStep(run, split.value);
      assert TextChunking.FitsStrictly(count, format, text, totalMax, maxOutput) ==> responses == [run(text)];
      LiftReduce(ReduceStep(strategy, task, responses, parseSummary, parseKeywords, reduceByLlm))
  }

  /** A text split into `chunks`, whose responses parse to `summaries`,
      summarised and concatenated gives the summaries in chunk order joined
      with single spaces. */
  lemma ChunkSummariesJoined(count: string -> nat, format: string -> string, text: string,
                             totalMax: int, maxOutput: int, fuel: nat, run: string -> string,
                             parseSummary: string -> Result<string, string>,
                             parseKeywords: string -> Result<seq<string>, string>,
                             reduceByLlm: seq<ChunkOutput> -> string,
                             chunks: seq<string>, summaries: seq<string>)
    requires |summaries| == |chunks|
    requires forall k :: 0 <= k < |chunks| ==> parseSummary(run(chunks[k])) == Success(summaries[k])
    ensures TextChunking.SplitText(count, format, text, totalMax, maxOutput, TextChunking.OverlapSize, fuel) == Some(chunks) ==>
              CombineDocs(count, format, text, totalMax, maxOutput, fuel, run, SimpleConcatenation, Summary,
                          parseSummary, parseKeywords, reduceByLlm)
              == Success(SummaryOf(Join(summaries)))
  {
    var responses := MapStep(run, chunks);
    var ps := ParseAll(parseSummary, responses);
    assert ps.Success?;
    assert ps.value == summaries;
  }

  /** A text that fits, summarised and concatenated, gives back exactly the
      one chunk's summary. */
  lemma SingleChunkSummaryUnchanged(count: string -> nat, format: string -> string, text: string,
                                    totalMax: int, maxOutput: int, fuel: nat, run: string -> string,
                                    parseSummary: string -> Result<string, string>,
                                    parseKeywords: string -> Result<seq<string>, string>,
                                    reduceByLlm: seq<ChunkOutput> -> string)
    requires TextChunking.FitsStrictly(count, format, text, totalMax, maxOutput)
    requires parseSummary(run(text)).Success?
    ensures CombineDocs(count, format, text, totalMax, maxOutput, fuel, run, SimpleConcatenation, Summary,
                        parseSummary, parseKeywords, reduceByLlm)
            == Success(SummaryOf(parseSummary(run(text)).value))
  {
    var ps := ParseAll(parseSummary, [run(text)]);
    assert ps.Success? && |ps.value| == 1;
  }
}
