/** The line-oriented parsers that turn a model's reply into a quiz:
    `extract_questions_from_response` and `extract_mcq_from_response`
    (GuruCool-API/utils/quiz.py). What each loop iteration does with a line
    depends on the line alone (strip it, test its lower-cased prefix, split it
    on ':'), so the model first classifies every line and then folds a small
    state machine over the classified lines; each parser is also written as
    the loop the source has and proved equal to that fold. A Python `None`
    and `""` are both falsy and are only ever used as conditions, so `""`
    stands for `None`. */
module QuizParser {
  import opened Wrappers
  import opened Text

  // ---------------------------------------------------------------------
  // Classifying one line

  predicate IsQuestionLine(line: string) { StartsWithLower(line, "question") }
  predicate IsAnswerLine(line: string) { StartsWithLower(line, "answer") }

  /** `line.lower().startswith(x)` for x in "a)", "b)", "c)", "d)". */
  predicate IsOptionLine(line: string) {
    StartsWithLower(line, "a)") || StartsWithLower(line, "b)")
    || StartsWithLower(line, "c)") || StartsWithLower(line, "d)")
  }

  /** `line.split(":")[1].strip()`: the text between the first and the second
      colon, stripped; a line without a colon raises IndexError. */
  function Field(line: string): (r: Result<string>)
    ensures r.Err? <==> ':' !in line
    ensures r.Err? ==> r.error == IndexError
    ensures r.Ok? ==> IsStripped(r.value) && ':' !in r.value
  {
    SplitHasTwoPartsIff(line, ':');
    var parts := Split(line, ':');
    if |parts| < 2 then Err(IndexError)
    else
      StripKeepsChars(parts[1]);
      Ok(Strip(parts[1]))
  }

  /** The field of `prefix + ": " + value`, for a colon-free prefix. */
  lemma FieldOfTagged(prefix: string, value: string)
    requires ':' !in prefix && ':' !in value && IsStripped(value)
    ensures Field(prefix + ": " + value) == Ok(value)
  {
    var rest := " " + value;
    assert prefix + ": " + value == prefix + [':'] + rest;
    SplitCons(prefix, ':', rest);
    IndexAbsent(rest, ':');
    assert Split(rest, ':') == [rest];
    StripAfterSpace(' ', value);
    StripOfStripped(value);
  }

  /** What an iteration does with a line: a question line and an answer line
      carry their field (or the IndexError computing it raises), an option
      line is kept whole after stripping, any other line is skipped. */
  datatype LineKind =
    | QuestionLine(field: Result<string>)
    | OptionLine(text: string)
    | AnswerLine(field: Result<string>)
    | OtherLine

  /** The branches of the question/answer loop, in their order. */
  function ClassifyQa(raw: string): LineKind {
    var line := Strip(raw);
    if IsQuestionLine(line) then QuestionLine(Field(line))
    else if IsAnswerLine(line) then AnswerLine(Field(line))
    else OtherLine
  }

  /** The branches of the multiple-choice loop, in their order. */
  function ClassifyMcq(raw: string): LineKind {
    var line := Strip(raw);
    if IsQuestionLine(line) then QuestionLine(Field(line))
    else if IsOptionLine(line) then OptionLine(line)
    else if IsAnswerLine(line) then AnswerLine(Field(line))
    else OtherLine
  }

  function QaKinds(lines: seq<string>): (ks: seq<LineKind>)
    ensures |ks| == |lines|
    decreases |lines|
  {
    if lines == [] then [] else [ClassifyQa(lines[0])] + QaKinds(lines[1..])
  }

  lemma {:induction false} QaKindsAt(lines: seq<string>, k: nat)
    requires k < |lines|
    ensures QaKinds(lines)[k] == ClassifyQa(lines[k])
    decreases |lines|
  {
    if k > 0 {
      QaKindsAt(lines[1..], k - 1);
    }
  }

  function McqKinds(lines: seq<string>): (ks: seq<LineKind>)
    ensures |ks| == |lines|
    decreases |lines|
  {
    if lines == [] then [] else [ClassifyMcq(lines[0])] + McqKinds(lines[1..])
  }

  lemma {:induction false} McqKindsAt(lines: seq<string>, k: nat)
    requires k < |lines|
    ensures McqKinds(lines)[k] == ClassifyMcq(lines[k])
    decreases |lines|
  {
    if k > 0 {
      McqKindsAt(lines[1..], k - 1);
    }
  }

  /** What classification guarantees about a line's payload: a field is
      stripped and colon-free or is an IndexError, an option is a whole
      stripped option line. */
  predicate WellClassified(k: LineKind) {
    && ((k.QuestionLine? || k.AnswerLine?) ==>
          (k.field.Err? ==> k.field.error == IndexError)
          && (k.field.Ok? ==> IsStripped(k.field.value) && ':' !in k.field.value))
    && (k.OptionLine? ==> k.text != "" && IsStripped(k.text) && IsOptionLine(k.text))
  }

  predicate AllWellClassified(ks: seq<LineKind>) {
    forall j :: 0 <= j < |ks| ==> WellClassified(ks[j])
  }

  lemma ClassifiesWellQa(raw: string)
    ensures WellClassified(ClassifyQa(raw))
  {
  }

  lemma ClassifiesWellMcq(raw: string)
    ensures WellClassified(ClassifyMcq(raw))
  {
    var line := Strip(raw);
    if IsOptionLine(line) {
      assert |line| >= 2;
    }
  }

  lemma QaKindsWell(lines: seq<string>)
    ensures AllWellClassified(QaKinds(lines))
  {
    forall j | 0 <= j < |lines|
      ensures WellClassified(QaKinds(lines)[j])
    {
      QaKindsAt(lines, j);
      ClassifiesWellQa(lines[j]);
    }
  }

  lemma McqKindsWell(lines: seq<string>)
    ensures AllWellClassified(McqKinds(lines))
  {
    forall j | 0 <= j < |lines|
      ensures WellClassified(McqKinds(lines)[j])
    {
      McqKindsAt(lines, j);
      ClassifiesWellMcq(lines[j]);
    }
  }

  lemma AllWellClassifiedTail(ks: seq<LineKind>)
    requires ks != [] && AllWellClassified(ks)
    ensures WellClassified(ks[0]) && AllWellClassified(ks[1..])
  {
    assert forall j :: 0 <= j < |ks[1..]| ==> ks[1..][j] == ks[j + 1];
  }

  /** A classified line whose field could not be computed. */
  predicate Broken(k: LineKind) {
    (k.QuestionLine? || k.AnswerLine?) && k.field.Err?
  }

  // ---------------------------------------------------------------------
  // Question/answer parser

  /** The loop variables `quiz`, `current_question`, `current_answer`. */
  datatype QaState = QaState(quiz: map<string, string>, question: string, answer: string)

  const QaStart := QaState(map[], "", "")

  /** `if current_question and current_answer: quiz[current_question] = current_answer` */
  function CommitQa(st: QaState): (m: map<string, string>)
    ensures st.question != "" && st.answer != "" ==> m == st.quiz[st.question := st.answer]
    ensures st.question == "" || st.answer == "" ==> m == st.quiz
  {
    if st.question != "" && st.answer != "" then st.quiz[st.question := st.answer] else st.quiz
  }

  /** One iteration of the loop. */
  function QaStep(st: QaState, k: LineKind): Result<QaState> {
    match k
    case QuestionLine(f) =>
      if f.Err? then Err(f.error) else Ok(QaState(CommitQa(st), f.value, ""))
    case AnswerLine(f) =>
      if f.Err? then Err(f.error) else Ok(st.(answer := f.value))
    case _ => Ok(st)
  }

  function QaRun(st: QaState, ks: seq<LineKind>): Result<QaState>
    decreases |ks|
  {
    if ks == [] then Ok(st)
    else
      match QaStep(st, ks[0])
      case Err(e) => Err(e)
      case Ok(next) => QaRun(next, ks[1..])
  }

  /** `extract_questions_from_response(text)`: the dict, or the exception. */
  function ExtractQuestions(text: string): Result<map<string, string>> {
    match QaRun(QaStart, QaKinds(SplitLines(text)))
    case Err(e) => Err(e)
    case Ok(st) => Ok(CommitQa(st))
  }

  /** The fold from position `i` on is one step followed by the rest. */
  lemma QaRunAt(st: QaState, ks: seq<LineKind>, i: nat)
    requires i < |ks|
    ensures QaStep(st, ks[i]).Err? ==> QaRun(st, ks[i..]) == Err(QaStep(st, ks[i]).error)
    ensures QaStep(st, ks[i]).Ok? ==> QaRun(st, ks[i..]) == QaRun(QaStep(st, ks[i]).value, ks[i + 1..])
  {
    assert ks[i..][0] == ks[i] && ks[i..][1..] == ks[i + 1..];
  }

  /** The body of the source's loop for one line: the new `quiz`,
      `current_question` and `current_answer`, or the IndexError raised. */
  method QaLine(quiz: map<string, string>, question: string, answer: string, raw: string)
    returns (r: Result<QaState>)
    ensures r == QaStep(QaState(quiz, question, answer), ClassifyQa(raw))
  {
    var line := Strip(raw);
    if IsQuestionLine(line) {
      var quiz' := quiz;
      if question != "" && answer != "" {
        quiz' := quiz[question := answer];
      }
      var parts := Split(line, ':');
      if |parts| < 2 {
        return Err(IndexError);
      }
      return Ok(QaState(quiz', Strip(parts[1]), ""));
    } else if IsAnswerLine(line) {
      var parts := Split(line, ':');
      if |parts| < 2 {
        return Err(IndexError);
      }
      return Ok(QaState(quiz, question, Strip(parts[1])));
    }
    return Ok(QaState(quiz, question, answer));
  }

  /** The source's loop. */
  method ExtractQuestionsFromResponse(text: string) returns (r: Result<map<string, string>>)
    ensures r == ExtractQuestions(text)
  {
    var lines := SplitLines(text);
    ghost var ks := QaKinds(lines);
    var quiz: map<string, string> := map[];
    var question, answer := "", "";
    var i := 0;
    while i < |lines|
      invariant 0 <= i <= |lines|
      invariant QaRun(QaStart, ks) == QaRun(QaState(quiz, question, answer), ks[i..])
    {
      QaKindsAt(lines, i);
      QaRunAt(QaState(quiz, question, answer), ks, i);
      var step := QaLine(quiz, question, answer, lines[i]);
      if step.Err? {
        return Err(step.error);
      }
      quiz, question, answer := step.value.quiz, step.value.question, step.value.answer;
      i := i + 1;
    }
    assert ks[i..] == [];
    if question != "" && answer != "" {
      quiz := quiz[question := answer];
    }
    return Ok(quiz);
  }

  /** Non-empty, stripped and colon-free. */
  predicate CleanEntry(s: string) { s != "" && IsStripped(s) && ':' !in s }

  /** Fields are stripped and colon-free, as `Field` makes them. */
  predicate CleanField(s: string) { s == "" || (IsStripped(s) && ':' !in s) }

  predicate QaInvariant(st: QaState) {
    && CleanField(st.question) && CleanField(st.answer)
    && forall q :: q in st.quiz ==> CleanEntry(q) && CleanEntry(st.quiz[q])
  }

  lemma {:induction false} QaRunKeepsInvariant(st: QaState, ks: seq<LineKind>)
    requires QaInvariant(st) && AllWellClassified(ks)
    ensures QaRun(st, ks).Ok? ==> QaInvariant(QaRun(st, ks).value)
    decreases |ks|
  {
    if ks != [] {
      AllWellClassifiedTail(ks);
      var s := QaStep(st, ks[0]);
      if s.Ok? {
        QaRunKeepsInvariant(s.value, ks[1..]);
      }
    }
  }

  /** A pair is stored only when its question and its answer are both
      non-empty; both are stripped, colon-free text. */
  lemma StoredPairsAreClean(text: string)
    ensures ExtractQuestions(text).Ok? ==>
      forall q :: q in ExtractQuestions(text).value ==>
        CleanEntry(q) && CleanEntry(ExtractQuestions(text).value[q])
  {
    QaKindsWell(SplitLines(text));
    QaRunKeepsInvariant(QaStart, QaKinds(SplitLines(text)));
  }

  lemma {:induction false} QaRunFailsIff(st: QaState, ks: seq<LineKind>)
    requires AllWellClassified(ks)
    ensures QaRun(st, ks).Err? <==> exists k :: 0 <= k < |ks| && Broken(ks[k])
    ensures QaRun(st, ks).Err? ==> QaRun(st, ks).error == IndexError
    decreases |ks|
  {
    if ks != [] {
      AllWellClassifiedTail(ks);
      var s := QaStep(st, ks[0]);
      if s.Ok? {
        QaRunFailsIff(s.value, ks[1..]);
        if exists k :: 0 <= k < |ks| && Broken(ks[k]) {
          var k :| 0 <= k < |ks| && Broken(ks[k]);
          assert ks[1..][k - 1] == ks[k];
        }
        if exists k :: 0 <= k < |ks[1..]| && Broken(ks[1..][k]) {
          var k :| 0 <= k < |ks[1..]| && Broken(ks[1..][k]);
          assert ks[k + 1] == ks[1..][k];
        }
      } else {
        assert Broken(ks[0]) && ks[0].field.error == IndexError;
      }
    }
  }

  /** A question or answer line of the reply, after `strip()`, without a colon. */
  predicate QaColonMissing(raw: string) {
    (IsQuestionLine(Strip(raw)) || IsAnswerLine(Strip(raw))) && ':' !in Strip(raw)
  }

  lemma QaBrokenIff(raw: string)
    ensures Broken(ClassifyQa(raw)) <==> QaColonMissing(raw)
  {
  }

  /** A line classifies as broken exactly when it lacks its colon. */
  lemma QaKindsBrokenIff(lines: seq<string>)
    ensures (exists k :: 0 <= k < |QaKinds(lines)| && Broken(QaKinds(lines)[k]))
        <==> (exists k :: 0 <= k < |lines| && QaColonMissing(lines[k]))
  {
    if exists k :: 0 <= k < |QaKinds(lines)| && Broken(QaKinds(lines)[k]) {
      QaBrokenToMissing(lines);
    }
    if exists k :: 0 <= k < |lines| && QaColonMissing(lines[k]) {
      QaMissingToBroken(lines);
    }
  }

  lemma QaBrokenToMissing(lines: seq<string>)
    requires exists k :: 0 <= k < |QaKinds(lines)| && Broken(QaKinds(lines)[k])
    ensures exists k :: 0 <= k < |lines| && QaColonMissing(lines[k])
  {
    var k :| 0 <= k < |QaKinds(lines)| && Broken(QaKinds(lines)[k]);
    QaKindsAt(lines, k);
    QaBrokenIff(lines[k]);
  }

  lemma QaMissingToBroken(lines: seq<string>)
    requires exists k :: 0 <= k < |lines| && QaColonMissing(lines[k])
    ensures exists k :: 0 <= k < |QaKinds(lines)| && Broken(QaKinds(lines)[k])
  {
    var k :| 0 <= k < |lines| && QaColonMissing(lines[k]);
    QaKindsAt(lines, k);
    QaBrokenIff(lines[k]);
  }

  /** The whole reply is rejected, with IndexError, exactly when some
      question or answer line has no colon. */
  lemma ExtractFailsIffColonMissing(text: string)
    ensures ExtractQuestions(text).Err? <==>
      exists k :: 0 <= k < |SplitLines(text)| && QaColonMissing(SplitLines(text)[k])
    ensures ExtractQuestions(text).Err? ==> ExtractQuestions(text).error == IndexError
  {
    var lines := SplitLines(text);
    QaKindsWell(lines);
    QaRunFailsIff(QaStart, QaKinds(lines));
    QaKindsBrokenIff(lines);
    ExtractQuestionsFailsAsRun(text);
  }

  /** The parser fails exactly when the fold does, with the fold's error. */
  lemma ExtractQuestionsFailsAsRun(text: string)
    ensures ExtractQuestions(text).Err? <==> QaRun(QaStart, QaKinds(SplitLines(text))).Err?
    ensures ExtractQuestions(text).Err? ==>
      ExtractQuestions(text).error == QaRun(QaStart, QaKinds(SplitLines(text))).error
  {
  }

  lemma {:induction false} QaRunWithoutQuestions(st: QaState, ks: seq<LineKind>)
    requires st.question == ""
    requires forall k :: 0 <= k < |ks| ==> !ks[k].QuestionLine?
    ensures QaRun(st, ks).Ok? ==>
      QaRun(st, ks).value.quiz == st.quiz && QaRun(st, ks).value.question == ""
    decreases |ks|
  {
    if ks != [] {
      var s := QaStep(st, ks[0]);
      if s.Ok? {
        QaRunWithoutQuestions(s.value, ks[1..]);
      }
    }
  }

  /** Answers seen before any question are discarded: a reply with no
      question line yields no pair at all. */
  lemma NoQuestionNoPairs(text: string)
    requires forall k :: 0 <= k < |SplitLines(text)| ==> !IsQuestionLine(Strip(SplitLines(text)[k]))
    ensures ExtractQuestions(text).Ok? ==> ExtractQuestions(text).value == map[]
  {
    var lines := SplitLines(text);
    forall k | 0 <= k < |lines|
      ensures !QaKinds(lines)[k].QuestionLine?
    {
      QaKindsAt(lines, k);
    }
    QaRunWithoutQuestions(QaStart, QaKinds(lines));
  }

  // ---------------------------------------------------------------------
  // The reply format the prompts ask for

  /** The decimal digits of `n`, as the prompts' f-strings print a number. */
  function Decimal(n: nat): (s: string)
    ensures s != [] && forall c :: c in s ==> '0' <= c <= '9'
  {
    if n < 10 then [('0' as int + n) as char]
    else Decimal(n / 10) + [('0' as int + n % 10) as char]
  }

  /** Text that can stand after "Question n: " or "Answer n: ". */
  predicate Payload(s: string) {
    CleanEntry(s) && NoBreaks(s)
  }

  lemma NoBreaksConcat(a: string, b: string)
    requires NoBreaks(a) && NoBreaks(b)
    ensures NoBreaks(a + b)
  {
    assert forall c :: c in a + b ==> c in a || c in b;
  }

  /** "Question n" or "Answer n": the part of a formatted line before its colon. */
  predicate Label(p: string) {
    p != [] && !IsSpace(p[0]) && ':' !in p && NoBreaks(p)
  }

  lemma LabelOf(tag: string, n: nat)
    requires tag == "Question " || tag == "Answer "
    ensures Label(tag + Decimal(n))
  {
    var d := Decimal(n);
    assert (tag + d)[0] == tag[0];
    assert forall c :: c in tag + d ==> c in tag || c in d;
  }

  /** A formatted line is left alone by `strip()`, has no line break, and
      its field is the payload. */
  lemma LabelledLine(p: string, v: string)
    requires Label(p) && Payload(v)
    ensures Strip(p + ": " + v) == p + ": " + v
    ensures Field(p + ": " + v) == Ok(v)
    ensures NoBreaks(p + ": " + v) && p + ": " + v != []
  {
    var line := p + ": " + v;
    assert line[0] == p[0];
    assert line[|line| - 1] == v[|v| - 1];
    StripOfStripped(line);
    FieldOfTagged(p, v);
    NoBreaksConcat(p, ": ");
    NoBreaksConcat(p + ": ", v);
  }

  lemma StartsWithLowerExtend(s: string, t: string, prefix: string)
    requires StartsWithLower(s, prefix)
    ensures StartsWithLower(s + t, prefix)
  {
    assert forall k :: 0 <= k < |s| ==> (s + t)[k] == s[k];
  }

  /** A stripped question line with a computable field. */
  lemma ClassifyQuestionQa(line: string, q: string)
    requires Strip(line) == line && IsQuestionLine(line) && Field(line) == Ok(q)
    ensures ClassifyQa(line) == QuestionLine(Ok(q))
  {
  }

  lemma ClassifyQuestionMcq(line: string, q: string)
    requires Strip(line) == line && IsQuestionLine(line) && Field(line) == Ok(q)
    ensures ClassifyMcq(line) == QuestionLine(Ok(q))
  {
  }

  /** A stripped answer line with a computable field: its second letter is
      "n", so it is neither a question nor an option line. */
  lemma AnswerNotQuestion(line: string)
    requires IsAnswerLine(line)
    ensures !IsQuestionLine(line) && !IsOptionLine(line)
  {
    assert LowerAscii(line[0]) == 'a' && LowerAscii(line[1]) == 'n';
  }

  lemma ClassifyAnswerQa(line: string, a: string)
    requires Strip(line) == line && !IsQuestionLine(line) && IsAnswerLine(line) && Field(line) == Ok(a)
    ensures ClassifyQa(line) == AnswerLine(Ok(a))
  {
  }

  lemma ClassifyAnswerMcq(line: string, a: string)
    requires Strip(line) == line && !IsQuestionLine(line) && !IsOptionLine(line)
    requires IsAnswerLine(line) && Field(line) == Ok(a)
    ensures ClassifyMcq(line) == AnswerLine(Ok(a))
  {
  }

  /** "Question n: q". */
  function QuestionText(n: nat, q: string): string { "Question " + Decimal(n) + ": " + q }

  /** "Answer n: a". */
  function AnswerText(n: nat, a: string): string { "Answer " + Decimal(n) + ": " + a }

  lemma QuestionTextFacts(n: nat, q: string)
    requires Payload(q)
    ensures Strip(QuestionText(n, q)) == QuestionText(n, q)
    ensures Field(QuestionText(n, q)) == Ok(q)
    ensures IsQuestionLine(QuestionText(n, q))
    ensures NoBreaks(QuestionText(n, q)) && QuestionText(n, q) != []
  {
    QuestionTextShape(n, q);
    QuestionTextTagged(n, q);
  }

  lemma QuestionTextShape(n: nat, q: string)
    requires Payload(q)
    ensures Strip(QuestionText(n, q)) == QuestionText(n, q)
    ensures Field(QuestionText(n, q)) == Ok(q)
    ensures NoBreaks(QuestionText(n, q)) && QuestionText(n, q) != []
  {
    LabelOf("Question ", n);
    LabelledLine("Question " + Decimal(n), q);
  }

  lemma QuestionTextTagged(n: nat, q: string)
    ensures IsQuestionLine(QuestionText(n, q))
  {
    assert StartsWithLower("Question ", "question");
    StartsWithLowerExtend("Question ", Decimal(n) + ": " + q, "question");
    assert QuestionText(n, q) == "Question " + (Decimal(n) + ": " + q);
  }

  lemma AnswerTextFacts(n: nat, a: string)
    requires Payload(a)
    ensures Strip(AnswerText(n, a)) == AnswerText(n, a)
    ensures Field(AnswerText(n, a)) == Ok(a)
    ensures IsAnswerLine(AnswerText(n, a))
    ensures NoBreaks(AnswerText(n, a)) && AnswerText(n, a) != []
  {
    AnswerTextShape(n, a);
    AnswerTextTagged(n, a);
  }

  lemma AnswerTextShape(n: nat, a: string)
    requires Payload(a)
    ensures Strip(AnswerText(n, a)) == AnswerText(n, a)
    ensures Field(AnswerText(n, a)) == Ok(a)
    ensures NoBreaks(AnswerText(n, a)) && AnswerText(n, a) != []
  {
    LabelOf("Answer ", n);
    LabelledLine("Answer " + Decimal(n), a);
  }

  lemma AnswerTextTagged(n: nat, a: string)
    ensures IsAnswerLine(AnswerText(n, a))
  {
    assert StartsWithLower("Answer ", "answer");
    StartsWithLowerExtend("Answer ", Decimal(n) + ": " + a, "answer");
    assert AnswerText(n, a) == "Answer " + (Decimal(n) + ": " + a);
  }

  lemma QuestionTextKindQa(n: nat, q: string)
    requires Payload(q)
    ensures ClassifyQa(QuestionText(n, q)) == QuestionLine(Ok(q))
  {
    QuestionTextFacts(n, q);
    ClassifyQuestionQa(QuestionText(n, q), q);
  }

  lemma QuestionTextKindMcq(n: nat, q: string)
    requires Payload(q)
    ensures ClassifyMcq(QuestionText(n, q)) == QuestionLine(Ok(q))
  {
    QuestionTextFacts(n, q);
    ClassifyQuestionMcq(QuestionText(n, q), q);
  }

  lemma AnswerTextKindQa(n: nat, a: string)
    requires Payload(a)
    ensures ClassifyQa(AnswerText(n, a)) == AnswerLine(Ok(a))
  {
    AnswerTextFacts(n, a);
    AnswerNotQuestion(AnswerText(n, a));
    ClassifyAnswerQa(AnswerText(n, a), a);
  }

  lemma AnswerTextKindMcq(n: nat, a: string)
    requires Payload(a)
    ensures ClassifyMcq(AnswerText(n, a)) == AnswerLine(Ok(a))
  {
    AnswerTextFacts(n, a);
    AnswerNotQuestion(AnswerText(n, a));
    ClassifyAnswerMcq(AnswerText(n, a), a);
  }

  /** The two lines of pair number `n`. */
  function QaPairLines(n: nat, q: string, a: string): seq<string> {
    [QuestionText(n, q), AnswerText(n, a)]
  }

  /** "Question n: q" and "Answer n: a" for every pair, numbered from `n`. */
  function QaLines(pairs: seq<(string, string)>, n: nat): seq<string>
    decreases |pairs|
  {
    if pairs == [] then [] else QaPairLines(n, pairs[0].0, pairs[0].1) + QaLines(pairs[1..], n + 1)
  }

  /** The text a model writes when it follows the prompt exactly. */
  function QaReply(pairs: seq<(string, string)>): string {
    Join("\n", QaLines(pairs, 1))
  }

  /** How the parser sees those lines. */
  function PairKinds(pairs: seq<(string, string)>): seq<LineKind>
    decreases |pairs|
  {
    if pairs == [] then []
    else [QuestionLine(Ok(pairs[0].0)), AnswerLine(Ok(pairs[0].1))] + PairKinds(pairs[1..])
  }

  /** The dict built by assigning the pairs in order: a repeated question
      keeps the answer given last. */
  function AssignAll(m: map<string, string>, pairs: seq<(string, string)>): map<string, string>
    decreases |pairs|
  {
    if pairs == [] then m else AssignAll(m[pairs[0].0 := pairs[0].1], pairs[1..])
  }

  predicate PayloadPairs(pairs: seq<(string, string)>) {
    forall k :: 0 <= k < |pairs| ==> Payload(pairs[k].0) && Payload(pairs[k].1)
  }

  lemma PayloadPairsTail(pairs: seq<(string, string)>)
    requires pairs != [] && PayloadPairs(pairs)
    ensures Payload(pairs[0].0) && Payload(pairs[0].1) && PayloadPairs(pairs[1..])
  {
    assert forall k :: 0 <= k < |pairs[1..]| ==> pairs[1..][k] == pairs[k + 1];
  }

  lemma {:induction false} QaKindsAppend(a: seq<string>, b: seq<string>)
    ensures QaKinds(a + b) == QaKinds(a) + QaKinds(b)
    decreases |a|
  {
    if a == [] {
      assert a + b == b;
    } else {
      assert (a + b)[0] == a[0] && (a + b)[1..] == a[1..] + b;
      QaKindsAppend(a[1..], b);
    }
  }

  lemma QaPairKinds(n: nat, q: string, a: string)
    requires Payload(q) && Payload(a)
    ensures QaKinds(QaPairLines(n, q, a)) == [QuestionLine(Ok(q)), AnswerLine(Ok(a))]
  {
    QaKindsOfTwo(QuestionText(n, q), AnswerText(n, a));
    QuestionTextKindQa(n, q);
    AnswerTextKindQa(n, a);
  }

  lemma QaKindsOfTwo(x: string, y: string)
    ensures QaKinds([x, y]) == [ClassifyQa(x), ClassifyQa(y)]
  {
    var ls := [x, y];
    assert ls[1..] == [y] && ls[1..][1..] == [];
  }

  lemma {:induction false} QaKindsOfLines(pairs: seq<(string, string)>, n: nat)
    requires PayloadPairs(pairs)
    ensures QaKinds(QaLines(pairs, n)) == PairKinds(pairs)
    decreases |pairs|
  {
    if pairs != [] {
      PayloadPairsTail(pairs);
      QaPairKinds(n, pairs[0].0, pairs[0].1);
      QaKindsAppend(QaPairLines(n, pairs[0].0, pairs[0].1), QaLines(pairs[1..], n + 1));
      QaKindsOfLines(pairs[1..], n + 1);
    }
  }

  lemma {:induction false} QaRunAppend(st: QaState, a: seq<LineKind>, b: seq<LineKind>)
    ensures QaRun(st, a + b) ==
      match QaRun(st, a) case Err(e) => Err(e) case Ok(s) => QaRun(s, b)
    decreases |a|
  {
    if a == [] {
      assert a + b == b;
    } else {
      assert (a + b)[0] == a[0];
      assert (a + b)[1..] == a[1..] + b;
      var s := QaStep(st, a[0]);
      if s.Ok? {
        QaRunAppend(s.value, a[1..], b);
      }
    }
  }

  lemma {:induction false} QaRunOfPairs(st: QaState, pairs: seq<(string, string)>)
    requires PayloadPairs(pairs)
    ensures QaRun(st, PairKinds(pairs)).Ok?
    ensures CommitQa(QaRun(st, PairKinds(pairs)).value) == AssignAll(CommitQa(st), pairs)
    decreases |pairs|
  {
    if pairs != [] {
      PayloadPairsTail(pairs);
      var q, a := pairs[0].0, pairs[0].1;
      var mid := QaState(CommitQa(st), q, a);
      QaRunPair(st, q, a);
      QaRunAppend(st, [QuestionLine(Ok(q)), AnswerLine(Ok(a))], PairKinds(pairs[1..]));
      assert PairKinds(pairs) == [QuestionLine(Ok(q)), AnswerLine(Ok(a))] + PairKinds(pairs[1..]);
      QaRunOfPairs(mid, pairs[1..]);
      assert CommitQa(mid) == CommitQa(st)[q := a];
    }
  }

  lemma QaRunPair(st: QaState, q: string, a: string)
    ensures QaRun(st, [QuestionLine(Ok(q)), AnswerLine(Ok(a))]) == Ok(QaState(CommitQa(st), q, a))
  {
    var head := [QuestionLine(Ok(q)), AnswerLine(Ok(a))];
    var s1 := QaState(CommitQa(st), q, "");
    var tail := head[1..];
    assert tail == [AnswerLine(Ok(a))] && tail[1..] == [];
    assert QaRun(s1, tail) == Ok(s1.(answer := a));
    assert QaStep(st, head[0]) == Ok(s1);
  }

  /** Of two answer lines in a row the second replaces the first. */
  lemma LastAnswerWins(st: QaState, a1: string, a2: string)
    ensures QaRun(st, [AnswerLine(Ok(a1)), AnswerLine(Ok(a2))]) == Ok(st.(answer := a2))
  {
    var ks := [AnswerLine(Ok(a1)), AnswerLine(Ok(a2))];
    var s1 := st.(answer := a1);
    var tail := ks[1..];
    assert tail == [AnswerLine(Ok(a2))] && tail[1..] == [];
    assert QaRun(s1, tail) == Ok(s1.(answer := a2));
    assert QaStep(st, ks[0]) == Ok(s1);
  }

  /** A question followed directly by another question is dropped: only
      what was pending before it is committed, and the new one starts with
      no answer. */
  lemma UnansweredQuestionDropped(st: QaState, q1: string, q2: string)
    ensures QaRun(st, [QuestionLine(Ok(q1)), QuestionLine(Ok(q2))])
      == Ok(QaState(CommitQa(st), q2, ""))
  {
    var ks := [QuestionLine(Ok(q1)), QuestionLine(Ok(q2))];
    var s1 := QaState(CommitQa(st), q1, "");
    var tail := ks[1..];
    assert tail == [QuestionLine(Ok(q2))] && tail[1..] == [];
    assert CommitQa(s1) == CommitQa(st);
    assert QaRun(s1, tail) == Ok(QaState(CommitQa(st), q2, ""));
    assert QaStep(st, ks[0]) == Ok(s1);
  }

  /** Lines that `splitlines()` gives back unchanged after a "\n" join. */
  predicate WholeLines(ls: seq<string>) {
    forall k :: 0 <= k < |ls| ==> ls[k] != [] && NoBreaks(ls[k])
  }

  lemma WholeLinesConcat(a: seq<string>, b: seq<string>)
    requires WholeLines(a) && WholeLines(b)
    ensures WholeLines(a + b)
  {
    assert forall k :: 0 <= k < |a + b| ==> (a + b)[k] == (if k < |a| then a[k] else b[k - |a|]);
  }

  lemma {:induction false} QaLinesWhole(pairs: seq<(string, string)>, n: nat)
    requires PayloadPairs(pairs)
    ensures WholeLines(QaLines(pairs, n))
    decreases |pairs|
  {
    if pairs != [] {
      PayloadPairsTail(pairs);
      QaPairLinesWhole(n, pairs[0].0, pairs[0].1);
      QaLinesWhole(pairs[1..], n + 1);
      WholeLinesConcat(QaPairLines(n, pairs[0].0, pairs[0].1), QaLines(pairs[1..], n + 1));
    }
  }

  lemma QaPairLinesWhole(n: nat, q: string, a: string)
    requires Payload(q) && Payload(a)
    ensures WholeLines(QaPairLines(n, q, a))
  {
    QuestionTextShape(n, q);
    AnswerTextShape(n, a);
  }

  /** Round trip: parsing a reply in the requested format gives back every
      pair, a repeated question keeping its last answer. */
  lemma ExtractQuestionsOfReply(pairs: seq<(string, string)>)
    requires PayloadPairs(pairs)
    ensures ExtractQuestions(QaReply(pairs)) == Ok(AssignAll(map[], pairs))
  {
    QaLinesWhole(pairs, 1);
    SplitLinesOfJoin(QaLines(pairs, 1));
    QaKindsOfLines(pairs, 1);
    QaRunOfPairs(QaStart, pairs);
  }

  // ---------------------------------------------------------------------
  // Multiple-choice parser

  /** The value stored under a question: `{"options": ..., "answer": ...}`. */
  datatype Mcq = Mcq(options: seq<string>, answer: string)

  /** The loop variables `mcq`, `current_question`, `current_options`,
      `current_answer`. */
  datatype McqState = McqState(mcq: map<string, Mcq>, question: string, options: seq<string>, answer: string)

  const McqStart := McqState(map[], "", [], "")

  /** Stores the pending question when it has a text, options and an answer. */
  function CommitMcq(st: McqState): (m: map<string, Mcq>)
    ensures st.question != "" && st.options != [] && st.answer != "" ==>
      m == st.mcq[st.question := Mcq(st.options, st.answer)]
    ensures st.question == "" || st.options == [] || st.answer == "" ==> m == st.mcq
  {
    if st.question != "" && st.options != [] && st.answer != "" then
      st.mcq[st.question := Mcq(st.options, st.answer)]
    else st.mcq
  }

  /** One iteration: a question starts afresh, an option is appended, an
      answer replaces the pending one. */
  function McqStep(st: McqState, k: LineKind): Result<McqState> {
    match k
    case QuestionLine(f) =>
      if f.Err? then Err(f.error) else Ok(McqState(CommitMcq(st), f.value, [], ""))
    case OptionLine(line) => Ok(st.(options := st.options + [line]))
    case AnswerLine(f) =>
      if f.Err? then Err(f.error) else Ok(st.(answer := f.value))
    case OtherLine => Ok(st)
  }

  function McqRun(st: McqState, ks: seq<LineKind>): Result<McqState>
    decreases |ks|
  {
    if ks == [] then Ok(st)
    else
      match McqStep(st, ks[0])
      case Err(e) => Err(e)
      case Ok(next) => McqRun(next, ks[1..])
  }

  /** `extract_mcq_from_response(text)`: the dict, or the exception. */
  function ExtractMcq(text: string): Result<map<string, Mcq>> {
    match McqRun(McqStart, McqKinds(SplitLines(text)))
    case Err(e) => Err(e)
    case Ok(st) => Ok(CommitMcq(st))
  }

  /** The fold from position `i` on is one step followed by the rest. */
  lemma McqRunAt(st: McqState, ks: seq<LineKind>, i: nat)
    requires i < |ks|
    ensures McqStep(st, ks[i]).Err? ==> McqRun(st, ks[i..]) == Err(McqStep(st, ks[i]).error)
    ensures McqStep(st, ks[i]).Ok? ==>
      McqRun(st, ks[i..]) == McqRun(McqStep(st, ks[i]).value, ks[i + 1..])
  {
    assert ks[i..][0] == ks[i] && ks[i..][1..] == ks[i + 1..];
  }

  /** The body of the source's loop for one line: the new `mcq`,
      `current_question`, `current_options` and `current_answer`, or the
      IndexError raised. */
  method McqLine(mcq: map<string, Mcq>, question: string, options: seq<string>, answer: string,
                 raw: string)
    returns (r: Result<McqState>)
    ensures r == McqStep(McqState(mcq, question, options, answer), ClassifyMcq(raw))
  {
    var line := Strip(raw);
    if IsQuestionLine(line) {
      var mcq' := mcq;
      if question != "" && options != [] && answer != "" {
        mcq' := mcq[question := Mcq(options, answer)];
      }
      var parts := Split(line, ':');
      if |parts| < 2 {
        return Err(IndexError);
      }
      return Ok(McqState(mcq', Strip(parts[1]), [], ""));
    } else if IsOptionLine(line) {
      assert ClassifyMcq(raw) == OptionLine(line);
      return Ok(McqState(mcq, question, options + [line], answer));
    } else if IsAnswerLine(line) {
      assert ClassifyMcq(raw) == AnswerLine(Field(line));
      var parts := Split(line, ':');
      if |parts| < 2 {
        return Err(IndexError);
      }
      return Ok(McqState(mcq, question, options, Strip(parts[1])));
    }
    assert ClassifyMcq(raw) == OtherLine;
    return Ok(McqState(mcq, question, options, answer));
  }

  /** The source's loop. */
  method ExtractMcqFromResponse(text: string) returns (r: Result<map<string, Mcq>>)
    ensures r == ExtractMcq(text)
  {
    var lines := SplitLines(text);
    ghost var ks := McqKinds(lines);
    var mcq: map<string, Mcq> := map[];
    var question, options, answer := "", [], "";
    var i := 0;
    while i < |lines|
      invariant 0 <= i <= |lines|
      invariant McqRun(McqStart, ks) == McqRun(McqState(mcq, question, options, answer), ks[i..])
    {
      McqKindsAt(lines, i);
      McqRunAt(McqState(mcq, question, options, answer), ks, i);
      var step := McqLine(mcq, question, options, answer, lines[i]);
      if step.Err? {
        return Err(step.error);
      }
      mcq, question, options, answer :=
        step.value.mcq, step.value.question, step.value.options, step.value.answer;
      i := i + 1;
    }
    assert ks[i..] == [];
    if question != "" && options != [] && answer != "" {
      mcq := mcq[question := Mcq(options, answer)];
    }
    return Ok(mcq);
  }

  /** An option as stored: a whole stripped line starting with a), b), c) or d). */
  predicate OptionEntry(line: string) { line != "" && IsStripped(line) && IsOptionLine(line) }

  predicate OptionEntries(opts: seq<string>) {
    forall k :: 0 <= k < |opts| ==> OptionEntry(opts[k])
  }

  predicate McqInvariant(st: McqState) {
    && CleanField(st.question) && CleanField(st.answer) && OptionEntries(st.options)
    && forall q :: q in st.mcq ==>
         CleanEntry(q) && CleanEntry(st.mcq[q].answer) && st.mcq[q].options != []
         && OptionEntries(st.mcq[q].options)
  }

  lemma McqStepKeepsInvariant(st: McqState, k: LineKind)
    requires McqInvariant(st) && WellClassified(k)
    ensures McqStep(st, k).Ok? ==> McqInvariant(McqStep(st, k).value)
  {
    if k.OptionLine? {
      var opts := st.options + [k.text];
      assert forall j :: 0 <= j < |opts| ==> opts[j] == k.text || opts[j] == st.options[j];
    }
  }

  lemma {:induction false} McqRunKeepsInvariant(st: McqState, ks: seq<LineKind>)
    requires McqInvariant(st) && AllWellClassified(ks)
    ensures McqRun(st, ks).Ok? ==> McqInvariant(McqRun(st, ks).value)
    decreases |ks|
  {
    if ks != [] {
      AllWellClassifiedTail(ks);
      McqStepKeepsInvariant(st, ks[0]);
      var s := McqStep(st, ks[0]);
      if s.Ok? {
        McqRunKeepsInvariant(s.value, ks[1..]);
      }
    }
  }

  /** Every stored question has a clean text, at least one option, every
      option a whole stripped line starting with a), b), c) or d), and a
      clean answer. */
  lemma StoredMcqsAreClean(text: string)
    ensures ExtractMcq(text).Ok? ==>
      forall q :: q in ExtractMcq(text).value ==>
        && CleanEntry(q) && CleanEntry(ExtractMcq(text).value[q].answer)
        && ExtractMcq(text).value[q].options != []
        && OptionEntries(ExtractMcq(text).value[q].options)
  {
    McqKindsWell(SplitLines(text));
    McqRunKeepsInvariant(McqStart, McqKinds(SplitLines(text)));
  }

  lemma {:induction false} McqRunFailsIff(st: McqState, ks: seq<LineKind>)
    requires AllWellClassified(ks)
    ensures McqRun(st, ks).Err? <==> exists k :: 0 <= k < |ks| && Broken(ks[k])
    ensures McqRun(st, ks).Err? ==> McqRun(st, ks).error == IndexError
    decreases |ks|
  {
    if ks != [] {
      AllWellClassifiedTail(ks);
      var s := McqStep(st, ks[0]);
      if s.Ok? {
        McqRunFailsIff(s.value, ks[1..]);
        if exists k :: 0 <= k < |ks| && Broken(ks[k]) {
          var k :| 0 <= k < |ks| && Broken(ks[k]);
          assert ks[1..][k - 1] == ks[k];
        }
        if exists k :: 0 <= k < |ks[1..]| && Broken(ks[1..][k]) {
          var k :| 0 <= k < |ks[1..]| && Broken(ks[1..][k]);
          assert ks[k + 1] == ks[1..][k];
        }
      } else {
        assert Broken(ks[0]) && ks[0].field.error == IndexError;
      }
    }
  }

  /** A line the multiple-choice loop splits on ':' although it has no colon:
      a question line, or an answer line that is not an option line. */
  predicate McqColonMissing(raw: string) {
    var line := Strip(raw);
    (IsQuestionLine(line) || (!IsOptionLine(line) && IsAnswerLine(line))) && ':' !in line
  }

  lemma McqBrokenIff(raw: string)
    ensures Broken(ClassifyMcq(raw)) <==> McqColonMissing(raw)
  {
  }

  /** A line classifies as broken exactly when it lacks its colon. */
  lemma McqKindsBrokenIff(lines: seq<string>)
    ensures (exists k :: 0 <= k < |McqKinds(lines)| && Broken(McqKinds(lines)[k]))
        <==> (exists k :: 0 <= k < |lines| && McqColonMissing(lines[k]))
  {
    if exists k :: 0 <= k < |McqKinds(lines)| && Broken(McqKinds(lines)[k]) {
      McqBrokenToMissing(lines);
    }
    if exists k :: 0 <= k < |lines| && McqColonMissing(lines[k]) {
      McqMissingToBroken(lines);
    }
  }

  lemma McqBrokenToMissing(lines: seq<string>)
    requires exists k :: 0 <= k < |McqKinds(lines)| && Broken(McqKinds(lines)[k])
    ensures exists k :: 0 <= k < |lines| && McqColonMissing(lines[k])
  {
    var k :| 0 <= k < |McqKinds(lines)| && Broken(McqKinds(lines)[k]);
    McqKindsAt(lines, k);
    McqBrokenIff(lines[k]);
  }

  lemma McqMissingToBroken(lines: seq<string>)
    requires exists k :: 0 <= k < |lines| && McqColonMissing(lines[k])
    ensures exists k :: 0 <= k < |McqKinds(lines)| && Broken(McqKinds(lines)[k])
  {
    var k :| 0 <= k < |lines| && McqColonMissing(lines[k]);
    McqKindsAt(lines, k);
    McqBrokenIff(lines[k]);
  }

  /** The reply is rejected, with IndexError, exactly when such a line exists. */
  lemma ExtractMcqFailsIffColonMissing(text: string)
    ensures ExtractMcq(text).Err? <==>
      exists k :: 0 <= k < |SplitLines(text)| && McqColonMissing(SplitLines(text)[k])
    ensures ExtractMcq(text).Err? ==> ExtractMcq(text).error == IndexError
  {
    var lines := SplitLines(text);
    McqKindsWell(lines);
    McqRunFailsIff(McqStart, McqKinds(lines));
    McqKindsBrokenIff(lines);
    ExtractMcqFailsAsRun(text);
  }

  /** The parser fails exactly when the fold does, with the fold's error. */
  lemma ExtractMcqFailsAsRun(text: string)
    ensures ExtractMcq(text).Err? <==> McqRun(McqStart, McqKinds(SplitLines(text))).Err?
    ensures ExtractMcq(text).Err? ==>
      ExtractMcq(text).error == McqRun(McqStart, McqKinds(SplitLines(text))).error
  {
  }

  // Round trip on the multiple-choice format

  /** One question in the shape the prompt asks for; the options are whole
      lines such as "A) Paris". */
  datatype McqItem = McqItem(question: string, options: seq<string>, answer: string)

  predicate WellFormedItem(it: McqItem) {
    && Payload(it.question) && Payload(it.answer) && it.options != []
    && OptionEntries(it.options) && WholeLines(it.options)
  }

  predicate WellFormedItems(items: seq<McqItem>) {
    forall k :: 0 <= k < |items| ==> WellFormedItem(items[k])
  }

  lemma WellFormedItemsTail(items: seq<McqItem>)
    requires items != [] && WellFormedItems(items)
    ensures WellFormedItem(items[0]) && WellFormedItems(items[1..])
  {
    assert forall k :: 0 <= k < |items[1..]| ==> items[1..][k] == items[k + 1];
  }

  /** "Question n: q", the option lines, "Answer n: a". */
  function McqItemLines(n: nat, it: McqItem): seq<string> {
    [QuestionText(n, it.question)] + it.options + [AnswerText(n, it.answer)]
  }

  function McqLines(items: seq<McqItem>, n: nat): seq<string>
    decreases |items|
  {
    if items == [] then [] else McqItemLines(n, items[0]) + McqLines(items[1..], n + 1)
  }

  function McqReply(items: seq<McqItem>): string {
    Join("\n", McqLines(items, 1))
  }

  /** How the parser sees option lines. */
  function OptionKinds(opts: seq<string>): (ks: seq<LineKind>)
    ensures |ks| == |opts|
    decreases |opts|
  {
    if opts == [] then [] else [OptionLine(opts[0])] + OptionKinds(opts[1..])
  }

  /** How the parser sees the lines of the items. */
  function ItemKinds(items: seq<McqItem>): seq<LineKind>
    decreases |items|
  {
    if items == [] then []
    else [QuestionLine(Ok(items[0].question))] + OptionKinds(items[0].options)
         + [AnswerLine(Ok(items[0].answer))] + ItemKinds(items[1..])
  }

  /** The dict built by storing the items in order; a repeated question keeps
      the item given last. */
  function StoreAll(m: map<string, Mcq>, items: seq<McqItem>): map<string, Mcq>
    decreases |items|
  {
    if items == [] then m
    else StoreAll(m[items[0].question := Mcq(items[0].options, items[0].answer)], items[1..])
  }

  lemma {:induction false} McqKindsAppend(a: seq<string>, b: seq<string>)
    ensures McqKinds(a + b) == McqKinds(a) + McqKinds(b)
    decreases |a|
  {
    if a == [] {
      assert a + b == b;
    } else {
      assert (a + b)[0] == a[0] && (a + b)[1..] == a[1..] + b;
      McqKindsAppend(a[1..], b);
    }
  }

  lemma OptionKind(line: string)
    requires OptionEntry(line)
    ensures ClassifyMcq(line) == OptionLine(line)
  {
    StripOfStripped(line);
    assert LowerAscii(line[0]) != 'q';
  }

  lemma {:induction false} OptionLinesKinds(opts: seq<string>)
    requires OptionEntries(opts)
    ensures McqKinds(opts) == OptionKinds(opts)
    decreases |opts|
  {
    if opts != [] {
      OptionKind(opts[0]);
      assert OptionEntries(opts[1..]) by {
        assert forall k :: 0 <= k < |opts[1..]| ==> opts[1..][k] == opts[k + 1];
      }
      OptionLinesKinds(opts[1..]);
    }
  }

  lemma McqItemKinds(n: nat, it: McqItem)
    requires WellFormedItem(it)
    ensures McqKinds(McqItemLines(n, it))
      == [QuestionLine(Ok(it.question))] + OptionKinds(it.options) + [AnswerLine(Ok(it.answer))]
  {
    var ql: seq<string> := [QuestionText(n, it.question)];
    var al: seq<string> := [AnswerText(n, it.answer)];
    QuestionTextKindMcq(n, it.question);
    AnswerTextKindMcq(n, it.answer);
    OptionLinesKinds(it.options);
    assert McqKinds(ql) == [QuestionLine(Ok(it.question))];
    assert McqKinds(al) == [AnswerLine(Ok(it.answer))];
    McqKindsAppend(ql, it.options);
    McqKindsAppend(ql + it.options, al);
  }

  lemma {:induction false} McqKindsOfLines(items: seq<McqItem>, n: nat)
    requires WellFormedItems(items)
    ensures McqKinds(McqLines(items, n)) == ItemKinds(items)
    decreases |items|
  {
    if items != [] {
      WellFormedItemsTail(items);
      McqItemKinds(n, items[0]);
      McqKindsAppend(McqItemLines(n, items[0]), McqLines(items[1..], n + 1));
      McqKindsOfLines(items[1..], n + 1);
    }
  }

  lemma {:induction false} McqRunAppend(st: McqState, a: seq<LineKind>, b: seq<LineKind>)
    ensures McqRun(st, a + b) ==
      match McqRun(st, a) case Err(e) => Err(e) case Ok(s) => McqRun(s, b)
    decreases |a|
  {
    if a == [] {
      assert a + b == b;
    } else {
      assert (a + b)[0] == a[0];
      assert (a + b)[1..] == a[1..] + b;
      var s := McqStep(st, a[0]);
      if s.Ok? {
        McqRunAppend(s.value, a[1..], b);
      }
    }
  }

  lemma {:induction false} McqRunOptions(st: McqState, opts: seq<string>)
    ensures McqRun(st, OptionKinds(opts)) == Ok(st.(options := st.options + opts))
    decreases |opts|
  {
    if opts == [] {
      assert st.options + opts == st.options;
    } else {
      var next := st.(options := st.options + [opts[0]]);
      McqRunOptions(next, opts[1..]);
      assert next.options + opts[1..] == st.options + opts;
    }
  }

  /** Reading one item commits the pending question and holds the new one. */
  lemma McqItemRun(st: McqState, it: McqItem)
    ensures McqRun(st, [QuestionLine(Ok(it.question))] + OptionKinds(it.options) + [AnswerLine(Ok(it.answer))])
      == Ok(McqState(CommitMcq(st), it.question, it.options, it.answer))
  {
    var qk: seq<LineKind> := [QuestionLine(Ok(it.question))];
    var ak: seq<LineKind> := [AnswerLine(Ok(it.answer))];
    var s1 := McqState(CommitMcq(st), it.question, [], "");
    var s2 := s1.(options := it.options);
    assert McqRun(st, qk) == Ok(s1) by {
      assert qk[1..] == [];
    }
    McqRunOptions(s1, it.options);
    assert [] + it.options == it.options;
    assert McqRun(s2, ak) == Ok(s2.(answer := it.answer)) by {
      assert ak[1..] == [];
    }
    McqRunAppend(st, qk, OptionKinds(it.options));
    McqRunAppend(st, qk + OptionKinds(it.options), ak);
  }

  lemma {:induction false} McqRunOfItems(st: McqState, items: seq<McqItem>)
    requires WellFormedItems(items)
    ensures McqRun(st, ItemKinds(items)).Ok?
    ensures CommitMcq(McqRun(st, ItemKinds(items)).value) == StoreAll(CommitMcq(st), items)
    decreases |items|
  {
    if items != [] {
      WellFormedItemsTail(items);
      var it := items[0];
      var head := [QuestionLine(Ok(it.question))] + OptionKinds(it.options) + [AnswerLine(Ok(it.answer))];
      var mid := McqState(CommitMcq(st), it.question, it.options, it.answer);
      McqItemRun(st, it);
      McqRunAppend(st, head, ItemKinds(items[1..]));
      McqRunOfItems(mid, items[1..]);
      assert CommitMcq(mid) == CommitMcq(st)[it.question := Mcq(it.options, it.answer)];
    }
  }

  lemma McqItemLinesWhole(n: nat, it: McqItem)
    requires WellFormedItem(it)
    ensures WholeLines(McqItemLines(n, it))
  {
    QuestionTextShape(n, it.question);
    AnswerTextShape(n, it.answer);
    var ql: seq<string> := [QuestionText(n, it.question)];
    var al: seq<string> := [AnswerText(n, it.answer)];
    WholeLinesConcat(ql, it.options);
    WholeLinesConcat(ql + it.options, al);
  }

  lemma {:induction false} McqLinesWhole(items: seq<McqItem>, n: nat)
    requires WellFormedItems(items)
    ensures WholeLines(McqLines(items, n))
    decreases |items|
  {
    if items != [] {
      WellFormedItemsTail(items);
      McqItemLinesWhole(n, items[0]);
      McqLinesWhole(items[1..], n + 1);
      WholeLinesConcat(McqItemLines(n, items[0]), McqLines(items[1..], n + 1));
    }
  }

  /** Round trip: parsing a reply in the requested multiple-choice format
      gives back every item, with its option lines in order. */
  lemma ExtractMcqOfReply(items: seq<McqItem>)
    requires WellFormedItems(items)
    ensures ExtractMcq(McqReply(items)) == Ok(StoreAll(map[], items))
  {
    McqLinesWhole(items, 1);
    SplitLinesOfJoin(McqLines(items, 1));
    McqKindsOfLines(items, 1);
    McqRunOfItems(McqStart, items);
  }
}
