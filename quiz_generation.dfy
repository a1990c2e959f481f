/** `generate_quiz_using_llm` and `generate_mcq_quiz_using_llm`
    (GuruCool-API/utils/quiz.py): split the documents into chunks, ask the
    model for one question per chunk, parse each reply and merge the dicts
    with `update`; any exception anywhere turns the whole result into `{}`.
    The model is a parameter: `reply(chunk, number)` is the text
    `generate_single_question` (or `generate_single_mcq`) returns for that
    chunk and question number, or `None` when the call raised. */
module QuizGeneration {
  import opened Wrappers
  import opened Text
  import opened Chunking
  import opened QuizParser

  /** `num_questions` defaults: 10 in utils/quiz.py and the archived API,
      5 in the ML API and the QuizGuru script; 5 for every MCQ variant. */
  const DefaultQuestionsApi: nat := 10
  const DefaultQuestionsMl: nat := 5
  const DefaultMcqQuestions: nat := 5

  type Model = (string, nat) -> Option<string>

  /** `len(range(min(num_questions, available)))`. */
  function RoundCount(numQuestions: int, available: nat): (c: nat)
    ensures c <= available
    ensures numQuestions <= 0 ==> c == 0
    ensures numQuestions > 0 ==> c == Min(numQuestions, available)
  {
    if numQuestions <= 0 then 0 else Min(numQuestions, available)
  }

  /** What round `i` (0-based, question number `i + 1`) yields: the parsed
      dict, or the exception raised by the model call or by the parser. */
  function Round<V>(chunks: seq<string>, reply: Model, parse: string -> Result<map<string, V>>, i: nat)
    : Result<map<string, V>>
    requires i < |chunks|
  {
    match reply(chunks[i], i + 1)
    case None => Err(ModelFailure)
    case Some(text) => parse(text)
  }

  /** The dict after the first `count` rounds of the loop, or the first exception. */
  function Rounds<V>(chunks: seq<string>, reply: Model, parse: string -> Result<map<string, V>>, count: nat)
    : Result<map<string, V>>
    requires count <= |chunks|
  {
    if count == 0 then Ok(map[])
    else
      match Rounds(chunks, reply, parse, count - 1)
      case Err(e) => Err(e)
      case Ok(acc) =>
        match Round(chunks, reply, parse, count - 1)
        case Err(e) => Err(e)
        case Ok(m) => Ok(acc + m)
  }

  /** The `try`/`except` around the loop: an exception yields `{}`. */
  function OrEmpty<V>(r: Result<map<string, V>>): map<string, V> {
    if r.Ok? then r.value else map[]
  }

  /** The chunk list `doc_chunking` returns; its `{}` has no elements. */
  function ChunkListOf(c: Chunked): (chunks: seq<string>)
    ensures |chunks| == c.Length()
  {
    if c.ChunkList? then c.chunks else []
  }

  /** `generate_quiz_using_llm` in GuruCool-API/utils/quiz.py. */
  function GenerateQuiz(pages: seq<string>, reply: Model, numQuestions: int): map<string, string> {
    var chunks := ChunkListOf(DocChunking(pages));
    OrEmpty(Rounds(chunks, reply, ExtractQuestions, RoundCount(numQuestions, |chunks|)))
  }

  /** The copies in the ML API, the QuizGuru script and the archived API test
      for an empty document list themselves and call `chunk_content`. */
  function GenerateQuizChecked(pages: seq<string>, reply: Model, numQuestions: int): map<string, string> {
    if pages == [] then map[]
    else
      var chunks := ChunkContent(Join(PageSeparator, pages), DefaultChunkSize).value;
      OrEmpty(Rounds(chunks, reply, ExtractQuestions, RoundCount(numQuestions, |chunks|)))
  }

  /** `generate_mcq_quiz_using_llm`: every copy tests for an empty document list. */
  function GenerateMcq(pages: seq<string>, reply: Model, numQuestions: int): map<string, Mcq> {
    if pages == [] then map[]
    else
      var chunks := ChunkContent(Join(PageSeparator, pages), DefaultChunkSize).value;
      OrEmpty(Rounds(chunks, reply, ExtractMcq, RoundCount(numQuestions, |chunks|)))
  }

  /** Once a round has failed, the loop never recovers. */
  lemma {:induction false} RoundsErrPersists<V>(chunks: seq<string>, reply: Model,
                                                parse: string -> Result<map<string, V>>, i: nat, count: nat)
    requires i <= count <= |chunks|
    requires Rounds(chunks, reply, parse, i).Err?
    ensures Rounds(chunks, reply, parse, count).Err?
    decreases count - i
  {
    if i < count {
      RoundsErrPersists(chunks, reply, parse, i + 1, count);
    }
  }

  /** One more round, as the loop body takes it: the failure of the model
      call or of the parser, or the dict merged so far updated with the
      round's dict. */
  lemma RoundsNext<V>(chunks: seq<string>, reply: Model, parse: string -> Result<map<string, V>>,
                      i: nat, acc: map<string, V>)
    requires i < |chunks| && Rounds(chunks, reply, parse, i) == Ok(acc)
    ensures reply(chunks[i], i + 1).None? ==> Rounds(chunks, reply, parse, i + 1) == Err(ModelFailure)
    ensures reply(chunks[i], i + 1).Some? && parse(reply(chunks[i], i + 1).value).Err? ==>
      Rounds(chunks, reply, parse, i + 1) == Err(parse(reply(chunks[i], i + 1).value).error)
    ensures reply(chunks[i], i + 1).Some? && parse(reply(chunks[i], i + 1).value).Ok? ==>
      Rounds(chunks, reply, parse, i + 1) == Ok(acc + parse(reply(chunks[i], i + 1).value).value)
  {
  }

  /** The `for` loop both generators share, with its `try`: round `i` asks
      the model about chunk `i` for question `i + 1`, parses the reply with
      `parse` and merges the dict with `update`; the first exception ends
      the loop with `{}`. */
  method AskRounds<V>(chunks: seq<string>, reply: Model, parse: string -> Result<map<string, V>>, count: nat)
    returns (quiz: map<string, V>)
    requires count <= |chunks|
    ensures quiz == OrEmpty(Rounds(chunks, reply, parse, count))
  {
    quiz := map[];
    var i := 0;
    while i < count
      invariant 0 <= i <= count
      invariant Rounds(chunks, reply, parse, i) == Ok(quiz)
    {
      RoundsNext(chunks, reply, parse, i, quiz);
      var text := reply(chunks[i], i + 1);
      if text.None? {
        RoundsErrPersists(chunks, reply, parse, i + 1, count);
        return map[];
      }
      var parsed := parse(text.value);
      if parsed.Err? {
        RoundsErrPersists(chunks, reply, parse, i + 1, count);
        return map[];
      }
      quiz := quiz + parsed.value;
      i := i + 1;
    }
  }

  /** `generate_quiz_using_llm` in GuruCool-API/utils/quiz.py. */
  method GenerateQuizUsingLlm(pages: seq<string>, reply: Model, numQuestions: int)
    returns (quiz: map<string, string>)
    ensures quiz == GenerateQuiz(pages, reply, numQuestions)
  {
    var chunks := ChunkListOf(DocChunking(pages));
    quiz := AskRounds(chunks, reply, ExtractQuestions, RoundCount(numQuestions, |chunks|));
  }

  /** `generate_mcq_quiz_using_llm` in GuruCool-API/utils/quiz.py. */
  method GenerateMcqQuizUsingLlm(pages: seq<string>, reply: Model, numQuestions: int)
    returns (quiz: map<string, Mcq>)
    ensures quiz == GenerateMcq(pages, reply, numQuestions)
  {
    if pages == [] {
      return map[];
    }
    var chunks := ChunkContent(Join(PageSeparator, pages), DefaultChunkSize).value;
    quiz := AskRounds(chunks, reply, ExtractMcq, RoundCount(numQuestions, |chunks|));
  }

  // ---------------------------------------------------------------------
  // Properties

  /** Both ways of reaching the chunk list agree, so every copy of the
      question generator computes the same quiz. */
  lemma CopiesAgree(pages: seq<string>, reply: Model, numQuestions: int)
    ensures GenerateQuizChecked(pages, reply, numQuestions) == GenerateQuiz(pages, reply, numQuestions)
  {
  }

  /** No documents, or a non-positive number of questions: `{}` and no model call. */
  lemma NothingToAsk(pages: seq<string>, reply: Model, numQuestions: int)
    requires pages == [] || numQuestions <= 0
    ensures GenerateQuiz(pages, reply, numQuestions) == map[]
    ensures GenerateMcq(pages, reply, numQuestions) == map[]
  {
  }

  /** A failed round: the model call raised or its reply did not parse. */
  predicate RoundFails<V>(chunks: seq<string>, reply: Model, parse: string -> Result<map<string, V>>, i: nat)
    requires i < |chunks|
  {
    Round(chunks, reply, parse, i).Err?
  }

  /** All or nothing: the loop fails exactly when one of its rounds does. */
  lemma {:induction false} RoundsFailIff<V>(chunks: seq<string>, reply: Model,
                                            parse: string -> Result<map<string, V>>, count: nat)
    requires count <= |chunks|
    ensures Rounds(chunks, reply, parse, count).Err? <==>
      exists i :: 0 <= i < count && RoundFails(chunks, reply, parse, i)
  {
    if count > 0 {
      var c := count - 1;
      RoundsFailIff(chunks, reply, parse, c);
      if exists i :: 0 <= i < count && RoundFails(chunks, reply, parse, i) {
        var i :| 0 <= i < count && RoundFails(chunks, reply, parse, i);
        if i < c {
          assert Rounds(chunks, reply, parse, c).Err?;
        }
      }
      if Rounds(chunks, reply, parse, c).Ok? && RoundFails(chunks, reply, parse, c) {
        assert Rounds(chunks, reply, parse, count).Err?;
      }
    }
  }

  /** The dict round `i` contributes when it succeeds. */
  function RoundDict<V>(chunks: seq<string>, reply: Model, parse: string -> Result<map<string, V>>, i: nat)
    : map<string, V>
    requires i < |chunks|
  {
    OrEmpty(Round(chunks, reply, parse, i))
  }

  /** The loop's dict when every round so far succeeded, otherwise `{}`. */
  lemma RoundsOkStep<V>(chunks: seq<string>, reply: Model, parse: string -> Result<map<string, V>>, count: nat)
    requires 0 < count <= |chunks| && Rounds(chunks, reply, parse, count).Ok?
    ensures Rounds(chunks, reply, parse, count - 1).Ok?
    ensures Round(chunks, reply, parse, count - 1).Ok?
    ensures Rounds(chunks, reply, parse, count).value
      == Rounds(chunks, reply, parse, count - 1).value + RoundDict(chunks, reply, parse, count - 1)
  {
  }

  /** `update` keeps every key: a key is in the merged dict exactly when some
      round produced it. */
  lemma {:induction false} RoundsKeys<V>(chunks: seq<string>, reply: Model,
                                         parse: string -> Result<map<string, V>>, count: nat, k: string)
    requires count <= |chunks| && Rounds(chunks, reply, parse, count).Ok?
    ensures k in Rounds(chunks, reply, parse, count).value <==>
      exists i :: 0 <= i < count && k in RoundDict(chunks, reply, parse, i)
  {
    if count > 0 {
      var c := count - 1;
      RoundsOkStep(chunks, reply, parse, count);
      RoundsKeys(chunks, reply, parse, c, k);
      if exists i :: 0 <= i < count && k in RoundDict(chunks, reply, parse, i) {
        var i :| 0 <= i < count && k in RoundDict(chunks, reply, parse, i);
        if i < c {
          assert k in Rounds(chunks, reply, parse, c).value;
        }
      }
    }
  }

  /** The last of the first `count` rounds whose dict holds `k`, or -1. */
  function LastRound<V>(chunks: seq<string>, reply: Model, parse: string -> Result<map<string, V>>,
                        count: nat, k: string): int
    requires count <= |chunks|
  {
    if count == 0 then -1
    else if k in RoundDict(chunks, reply, parse, count - 1) then count - 1
    else LastRound(chunks, reply, parse, count - 1, k)
  }

  /** `update` lets the last round win: a key of the merged dict holds the
      value the last round producing it gave. */
  lemma {:induction false} RoundsLastWins<V>(chunks: seq<string>, reply: Model,
                                             parse: string -> Result<map<string, V>>, count: nat, k: string)
    requires count <= |chunks| && Rounds(chunks, reply, parse, count).Ok?
    requires k in Rounds(chunks, reply, parse, count).value
    ensures var i := LastRound(chunks, reply, parse, count, k);
      0 <= i < count && k in RoundDict(chunks, reply, parse, i)
      && Rounds(chunks, reply, parse, count).value[k] == RoundDict(chunks, reply, parse, i)[k]
      && forall j :: i < j < count ==> k !in RoundDict(chunks, reply, parse, j)
  {
    var c := count - 1;
    RoundsOkStep(chunks, reply, parse, count);
    var acc := Rounds(chunks, reply, parse, c).value;
    var m := RoundDict(chunks, reply, parse, c);
    if k in m {
      assert (acc + m)[k] == m[k];
    } else {
      RoundsLastWins(chunks, reply, parse, c, k);
      assert (acc + m)[k] == acc[k];
    }
  }

  /** Every question and answer in a generated quiz is non-empty, stripped
      and colon-free. */
  lemma GeneratedQuizClean(pages: seq<string>, reply: Model, numQuestions: int)
    ensures forall k :: k in GenerateQuiz(pages, reply, numQuestions) ==>
      CleanEntry(k) && CleanEntry(GenerateQuiz(pages, reply, numQuestions)[k])
  {
    var chunks := ChunkListOf(DocChunking(pages));
    var count := RoundCount(numQuestions, |chunks|);
    var r := Rounds(chunks, reply, ExtractQuestions, count);
    forall k | k in GenerateQuiz(pages, reply, numQuestions)
      ensures CleanEntry(k) && CleanEntry(GenerateQuiz(pages, reply, numQuestions)[k])
    {
      RoundsLastWins(chunks, reply, ExtractQuestions, count, k);
      var i := LastRound(chunks, reply, ExtractQuestions, count, k);
      var text := reply(chunks[i], i + 1);
      StoredPairsAreClean(text.value);
    }
  }

  /** The model is shown exactly the first `1000 * rounds` characters of the
      documents joined with blank lines (or all of them), one chunk per round. */
  lemma PromptedContent(pages: seq<string>, numQuestions: int)
    requires pages != []
    ensures var chunks := ChunkListOf(DocChunking(pages));
      var text := Join(PageSeparator, pages);
      Flatten(chunks[..RoundCount(numQuestions, |chunks|)])
        == text[..Covered(RoundCount(numQuestions, |chunks|), DefaultChunkSize, |text|)]
  {
    var text := Join(PageSeparator, pages);
    var chunks := ChunkListOf(DocChunking(pages));
    ChunkPrefix(text, DefaultChunkSize, RoundCount(numQuestions, |chunks|));
  }
}
