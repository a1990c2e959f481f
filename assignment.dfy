/** `parse_question_and_answer` and the reply check of
    `generate_long_answer_question` / `generate_short_answer_question`
    (GuruCool-API/utils/assignment.py). The two patterns
    `(?i)question\s*\d*:\s*(.*)` and `(?i)answer\s*\d*:\s*(.*)` are written
    out as the search `re.search` performs: the leftmost position where the
    keyword starts, followed by whitespace, digits and a colon; the captured
    group is what follows the whitespace after the colon (line breaks
    included) up to the next "\n". */
module AssignmentParser {
  import opened Wrappers
  import opened Text
  import Chunking

  /** The end of the run of whitespace (`\s`) starting at `i`. */
  function SpacesEnd(s: string, i: nat): (e: nat)
    requires i <= |s|
    ensures i <= e <= |s|
    decreases |s| - i
  {
    if i < |s| && IsSpace(s[i]) then SpacesEnd(s, i + 1) else i
  }

  predicate IsDigit(c: char) { '0' <= c <= '9' }

  /** The end of the run of digits (`\d`) starting at `i`. */
  function DigitsEnd(s: string, i: nat): (e: nat)
    requires i <= |s|
    ensures i <= e <= |s|
    decreases |s| - i
  {
    if i < |s| && IsDigit(s[i]) then DigitsEnd(s, i + 1) else i
  }

  /** `s[p..].lower().startswith(key)`, position by position. */
  predicate KeyAt(s: string, p: nat, key: string) {
    p + |key| <= |s| && forall k :: 0 <= k < |key| ==> LowerAscii(s[p + k]) == key[k]
  }

  lemma KeyAtIff(s: string, p: nat, key: string)
    requires p <= |s|
    ensures KeyAt(s, p, key) <==> StartsWithLower(s[p..], key)
  {
    if StartsWithLower(s[p..], key) {
      forall k | 0 <= k < |key| ensures LowerAscii(s[p + k]) == key[k] {
        assert s[p..][k] == s[p + k];
      }
    }
    if KeyAt(s, p, key) {
      forall k | 0 <= k < |key| ensures LowerAscii(s[p..][k]) == key[k] {
        assert s[p..][k] == s[p + k];
      }
    }
  }

  /** Where the pattern for `key` matches when tried at `p`: the index of its
      colon. `\s*` and `\d*` take maximal runs, since giving back a space or
      a digit can never be followed by the colon. */
  function MatchAt(s: string, p: nat, key: string): (colon: Option<nat>)
    requires p <= |s|
    ensures colon.Some? ==> p + |key| <= colon.value < |s| && s[colon.value] == ':'
  {
    if !KeyAt(s, p, key) then None
    else
      var i := DigitsEnd(s, SpacesEnd(s, p + |key|));
      if i < |s| && s[i] == ':' then Some(i) else None
  }

  /** `re.search`: the first position at or after `from` where the pattern
      matches. */
  function Search(s: string, key: string, from: nat): (p: Option<nat>)
    requires from <= |s|
    ensures p.Some? ==> from <= p.value <= |s| && MatchAt(s, p.value, key).Some?
    decreases |s| - from
  {
    if MatchAt(s, from, key).Some? then Some(from)
    else if from == |s| then None
    else Search(s, key, from + 1)
  }

  /** The search finds the leftmost match, and finds none only when there is
      none. */
  lemma {:induction false} SearchIsLeftmost(s: string, key: string, from: nat)
    requires from <= |s|
    ensures Search(s, key, from).Some? ==>
      forall q :: from <= q < Search(s, key, from).value ==> MatchAt(s, q, key).None?
    ensures Search(s, key, from).None? ==> forall q :: from <= q <= |s| ==> MatchAt(s, q, key).None?
    decreases |s| - from
  {
    if MatchAt(s, from, key).None? && from < |s| {
      SearchIsLeftmost(s, key, from + 1);
    }
  }

  /** `match.group(1)` for a match whose colon is at `colon`: `\s*` skips
      whitespace, line breaks included, and `(.*)` runs to the next "\n". */
  function Captured(s: string, colon: nat): (g: string)
    requires colon < |s|
    ensures '\n' !in g
  {
    var start := SpacesEnd(s, colon + 1);
    var stop := IndexFrom(s, '\n', start);
    assert forall k :: 0 <= k < stop - start ==> s[start..stop][k] == s[start + k];
    s[start..stop]
  }

  /** The stripped group of the first match, or "" without a match. */
  function Find(s: string, key: string): string {
    match Search(s, key, 0)
    case None => ""
    case Some(p) => Strip(Captured(s, MatchAt(s, p, key).value))
  }

  /** `parse_question_and_answer(response_text)`. */
  function ParseQuestionAndAnswer(text: string): (r: map<string, string>)
    ensures r.Keys == {"question", "answer"}
  {
    map["question" := Find(text, "question"), "answer" := Find(text, "answer")]
  }

  /** Without a match the value is ""; the search finds nothing exactly
      when the pattern matches at no position; whatever is found is stripped
      and lies within one line. */
  lemma FindShape(s: string, key: string)
    ensures Search(s, key, 0).None? ==> Find(s, key) == ""
    ensures (forall p :: 0 <= p <= |s| ==> MatchAt(s, p, key).None?) <==> Search(s, key, 0).None?
    ensures IsStripped(Find(s, key)) && '\n' !in Find(s, key)
  {
    SearchIsLeftmost(s, key, 0);
    if Search(s, key, 0).Some? {
      var p := Search(s, key, 0).value;
      var g := Captured(s, MatchAt(s, p, key).value);
      StripKeepsChars(g);
    }
  }

  /** `re.search` returns the leftmost match: a match at `p` with none
      before it is the one found. */
  lemma SearchIsFirstMatch(s: string, key: string, p: nat)
    requires p <= |s| && MatchAt(s, p, key).Some?
    requires forall q :: 0 <= q < p ==> MatchAt(s, q, key).None?
    ensures Search(s, key, 0) == Some(p)
  {
    SearchFrom(s, key, 0, p);
  }

  lemma {:induction false} SearchFrom(s: string, key: string, from: nat, p: nat)
    requires from <= p <= |s| && MatchAt(s, p, key).Some?
    requires forall q :: from <= q < p ==> MatchAt(s, q, key).None?
    ensures Search(s, key, from) == Some(p)
    decreases p - from
  {
    if from < p {
      SearchFrom(s, key, from + 1, p);
    }
  }

  // ---------------------------------------------------------------------
  // The reply format the prompts ask for

  /** One line in the requested format: "Question n: q", "Answer n: a" or
      "Answer: a". `n` is what stands between the keyword and the colon: a
      space and the number, or nothing. */
  function Line(word: string, n: string, v: string): string {
    word + n + ": " + v
  }

  /** A reply's text when the model answers in the requested format. */
  function Reply(qn: string, q: string, an: string, a: string): string {
    Line("Question", qn, q) + "\n" + Line("Answer", an, a)
  }

  /** What may stand between a keyword and its colon in the prompts. */
  predicate Numbering(x: string) {
    x == [] || (|x| >= 2 && x[0] == ' ' && forall k :: 1 <= k < |x| ==> IsDigit(x[k]))
  }

  /** Text the parser gives back unchanged: one non-empty stripped line. */
  predicate LineValue(v: string) {
    v != [] && IsStripped(v) && '\n' !in v
  }

  /** No case-insensitive occurrence of `key` inside `v`. */
  predicate Avoids(v: string, key: string) {
    forall p :: 0 <= p <= |v| ==> !StartsWithLower(v[p..], key)
  }

  /** The keywords as the prompts capitalise them. */
  predicate Keyword(word: string, key: string) {
    (word == "Question" && key == "question") || (word == "Answer" && key == "answer")
  }

  /** Round trip: a reply in the requested format parses back into its
      question and answer, provided the question text does not itself
      contain the word "answer" (which would be matched first). */
  lemma ParseOfReply(qn: string, q: string, an: string, a: string)
    requires Numbering(qn) && Numbering(an) && LineValue(q) && LineValue(a)
    requires Avoids(q, "answer")
    ensures ParseQuestionAndAnswer(Reply(qn, q, an, a)) == map["question" := q, "answer" := a]
  {
    var s := Reply(qn, q, an, a);
    FirstLineFound(s, "Question", "question", qn, q, Line("Answer", an, a));
    KeywordsDiffer();
    TagAvoids("Question", qn, 'a');
    SecondLineFound(s, "Question", qn, q, "Answer", "answer", an, a);
  }

  /** The two searches are independent: with the answer line first, the
      reply parses the same way, provided the answer does not contain the
      word "question". */
  lemma ParseOfAnswerFirst(qn: string, q: string, an: string, a: string)
    requires Numbering(qn) && Numbering(an) && LineValue(q) && LineValue(a)
    requires Avoids(a, "question")
    ensures ParseQuestionAndAnswer(Line("Answer", an, a) + "\n" + Line("Question", qn, q))
      == map["question" := q, "answer" := a]
  {
    var s := Line("Answer", an, a) + "\n" + Line("Question", qn, q);
    FirstLineFound(s, "Answer", "answer", an, a, Line("Question", qn, q));
    KeywordsDiffer();
    TagAvoids("Answer", an, 'q');
    SecondLineFound(s, "Answer", an, a, "Question", "question", qn, q);
  }

  /** `\s*` after the colon runs across line breaks: a reply whose question
      line is blank after its colon takes the next non-blank line, here the
      answer line itself, as the question. */
  lemma BlankQuestionTakesNextLine(qn: string, an: string, a: string)
    requires Numbering(qn) && Numbering(an) && LineValue(a)
    ensures Find(Line("Question", qn, "") + "\n" + Line("Answer", an, a), "question")
      == Line("Answer", an, a)
  {
    var next := Line("Answer", an, a);
    var s := Line("Question", qn, "") + "\n" + next;
    var rest := qn + ":" + " \n" + next + [];
    assert s == "Question" + rest;
    CapitalisedKey("Question", "question", rest);
    assert s[0..] == s && s[8..] == rest;
    LineOfValue("Answer", an, a);
    FindTagged(s, 0, "question", qn, " \n", next, []);
  }

  /** A line in the requested format is itself a one-line value. */
  lemma LineOfValue(word: string, n: string, v: string)
    requires word == "Question" || word == "Answer"
    requires Numbering(n) && LineValue(v)
    ensures LineValue(Line(word, n, v))
  {
    var l := Line(word, n, v);
    assert l[0] == word[0] && l[|l| - 1] == v[|v| - 1];
    assert forall k :: 0 <= k < |l| ==> l[k] != '\n' by {
      forall k | 0 <= k < |l| ensures l[k] != '\n' {
        if k < |word| {
          assert l[k] == word[k];
        } else if k < |word| + |n| {
          assert l[k] == n[k - |word|];
        } else if k < |word| + |n| + 2 {
          assert l[k] == ": "[k - |word| - |n|];
        } else {
          assert l[k] == v[k - |word| - |n| - 2];
        }
      }
    }
  }

  /** Neither keyword contains the first letter of the other, nor a line break. */
  lemma KeywordsDiffer()
    ensures forall k :: 0 <= k < |"Question"| ==> LowerAscii("Question"[k]) != 'a'
    ensures forall k :: 0 <= k < |"Answer"| ==> LowerAscii("Answer"[k]) != 'q'
    ensures "answer"[0] == 'a' && '\n' !in "answer"
    ensures "question"[0] == 'q' && '\n' !in "question"
  {
  }

  /** No character of the tag `word + n + ": "` lower-cases to the letter `c`. */
  lemma TagAvoids(word: string, n: string, c: char)
    requires Numbering(n) && 'a' <= c <= 'z'
    requires forall k :: 0 <= k < |word| ==> LowerAscii(word[k]) != c
    ensures forall k :: 0 <= k < |word + n + ": "| ==> LowerAscii((word + n + ": ")[k]) != c
  {
    var tag := word + n + ": ";
    forall k | 0 <= k < |tag| ensures LowerAscii(tag[k]) != c {
      if k < |word| {
        assert tag[k] == word[k];
      } else if k < |word| + |n| {
        assert tag[k] == n[k - |word|];
      } else {
        assert tag[k] == ": "[k - |word| - |n|];
      }
    }
  }

  /** The value of the reply's first line, whose keyword matches at 0. */
  lemma FirstLineFound(s: string, word: string, key: string, n: string, v: string, tail: string)
    requires Keyword(word, key) && Numbering(n) && LineValue(v)
    requires s == Line(word, n, v) + "\n" + tail
    ensures Find(s, key) == v
  {
    var rest := n + ":" + " " + v + ("\n" + tail);
    assert ": " == ":" + " ";
    assert s == word + rest;
    CapitalisedKey(word, key, rest);
    assert s[0..] == s && s[|word|..] == rest;
    FindTagged(s, 0, key, n, " ", v, "\n" + tail);
  }

  /** The value of the reply's second line, when the first line holds no
      match for its keyword. */
  lemma SecondLineFound(s: string, word1: string, n1: string, v1: string,
                        word: string, key: string, n: string, v: string)
    requires Keyword(word, key) && Numbering(n1) && Numbering(n) && LineValue(v)
    requires s == Line(word1, n1, v1) + "\n" + Line(word, n, v)
    requires Avoids(v1, key) && '\n' !in key && key != []
    requires forall k :: 0 <= k < |word1 + n1 + ": "| ==> LowerAscii((word1 + n1 + ": ")[k]) != key[0]
    ensures Find(s, key) == v
  {
    var tag := word1 + n1 + ": ";
    var h := |tag| + |v1| + 1;
    assert s == tag + v1 + "\n" + Line(word, n, v);
    NoMatchBefore(s, tag, v1, Line(word, n, v), key);
    var rest := n + ":" + " " + v;
    assert s[h..] == word + rest;
    CapitalisedKey(word, key, rest);
    assert s[h + |key|..] == rest + [];
    FindTagged(s, h, key, n, " ", v, []);
  }

  /** Nothing on the first line matches `key`: its tag has no character
      starting `key`, its value avoids the word, and a match cannot run
      across the line break. */
  lemma NoMatchBefore(s: string, tag: string, v: string, tail: string, key: string)
    requires s == tag + v + "\n" + tail && Avoids(v, key) && '\n' !in key && key != []
    requires forall k :: 0 <= k < |tag| ==> LowerAscii(tag[k]) != key[0]
    ensures forall p :: 0 <= p < |tag| + |v| + 1 ==> MatchAt(s, p, key).None?
  {
    forall p | 0 <= p < |tag| + |v| + 1
      ensures !KeyAt(s, p, key)
    {
      KeyAtIff(s, p, key);
      if p < |tag| {
        assert s[p..][0] == tag[p];
      } else if p + |key| <= |tag| + |v| {
        var i := p - |tag|;
        assert forall k :: 0 <= k < |key| ==> s[p..][k] == v[i..][k];
        assert !StartsWithLower(v[i..], key);
      } else {
        var k := |tag| + |v| - p;
        assert s[p..][k] == '\n';
        assert key[k] in key;
      }
    }
  }

  /** The value read for `key` from a line that has `key` at `p`, then the
      numbering, ": " and a one-line value, when nothing before `p` matches. */
  lemma FindTagged(s: string, p: nat, key: string, n: string, ws: string, v: string, more: string)
    requires Numbering(n) && AllSpace(ws) && LineValue(v) && (more == [] || more[0] == '\n')
    requires p + |key| <= |s| && StartsWithLower(s[p..], key)
    requires s[p + |key|..] == n + ":" + ws + v + more
    requires forall q :: 0 <= q < p ==> MatchAt(s, q, key).None?
    ensures Find(s, key) == v
  {
    var colon := p + |key| + |n|;
    var rest := ":" + ws + v + more;
    MatchTagged(s, p, key, n, rest);
    FindFirst(s, key, p, colon);
    assert |s| == colon + |rest|;
    CapturedLine(s, colon, ws, v, more);
  }

  /** The value comes from the leftmost match. */
  lemma FindFirst(s: string, key: string, p: nat, colon: nat)
    requires p <= |s| && MatchAt(s, p, key) == Some(colon)
    requires forall q :: 0 <= q < p ==> MatchAt(s, q, key).None?
    ensures Find(s, key) == Strip(Captured(s, colon))
  {
    SearchIsFirstMatch(s, key, p);
  }

  lemma MatchTagged(s: string, p: nat, key: string, n: string, rest: string)
    requires Numbering(n) && rest != [] && rest[0] == ':'
    requires p + |key| <= |s| && StartsWithLower(s[p..], key)
    requires s[p + |key|..] == n + rest
    ensures MatchAt(s, p, key) == Some(p + |key| + |n|)
    ensures s[p + |key| + |n|..] == rest
  {
    var i := p + |key|;
    KeyAtIff(s, p, key);
    AfterKey(s, i, n, rest);
    DropAfter(s, i, n, rest);
    assert s[i + |n|] == rest[0];
    MatchAtColon(s, p, key, i + |n|);
  }

  lemma MatchAtColon(s: string, p: nat, key: string, colon: nat)
    requires p <= |s| && KeyAt(s, p, key) && colon < |s| && s[colon] == ':'
    requires DigitsEnd(s, SpacesEnd(s, p + |key|)) == colon
    ensures MatchAt(s, p, key) == Some(colon)
  {
  }

  lemma DropAfter(s: string, i: nat, n: string, rest: string)
    requires i <= |s| && s[i..] == n + rest
    ensures s[i + |n|..] == rest
  {
    assert s[i + |n|..] == s[i..][|n|..];
  }

  /** The keyword written with a capital first letter matches `key`. */
  lemma CapitalisedKey(word: string, key: string, rest: string)
    requires Keyword(word, key)
    ensures StartsWithLower(word + rest, key)
  {
    assert forall k :: 0 <= k < |word| ==> (word + rest)[k] == word[k];
  }

  /** Skipping the numbering between a keyword and its colon. */
  lemma AfterKey(s: string, i: nat, n: string, t: string)
    requires Numbering(n) && i + |n| < |s| && s[i..] == n + t && t != [] && t[0] == ':'
    ensures DigitsEnd(s, SpacesEnd(s, i)) == i + |n|
  {
    assert s[i + |n|] == t[0];
    if n == [] {
      assert s[i] == ':';
    } else {
      assert s[i] == ' ' && s[i + 1] == n[1];
      SpacesEndAt(s, i, i + 1);
      DigitsEndAt(s, i + 1, i + |n|);
    }
  }

  lemma {:induction false} SpacesEndAt(s: string, i: nat, e: nat)
    requires i <= e < |s| && !IsSpace(s[e]) && forall k :: i <= k < e ==> IsSpace(s[k])
    ensures SpacesEnd(s, i) == e
    decreases e - i
  {
    if i < e {
      SpacesEndAt(s, i + 1, e);
    }
  }

  lemma {:induction false} DigitsEndAt(s: string, i: nat, e: nat)
    requires i <= e < |s| && !IsDigit(s[e]) && forall k :: i <= k < e ==> IsDigit(s[k])
    ensures DigitsEnd(s, i) == e
    decreases e - i
  {
    if i < e {
      DigitsEndAt(s, i + 1, e);
    }
  }

  /** ": " then a one-line value: the group is exactly the value. */
  lemma CapturedLine(s: string, colon: nat, ws: string, v: string, more: string)
    requires colon + 1 + |ws| + |v| + |more| == |s| && AllSpace(ws) && LineValue(v)
    requires more == [] || more[0] == '\n'
    requires s[colon..] == ":" + ws + v + more
    ensures Strip(Captured(s, colon)) == v
  {
    var start := colon + 1 + |ws|;
    assert forall k :: colon + 1 <= k < start ==> s[k] == ws[k - colon - 1];
    assert s[start] == v[0];
    SpacesEndAt(s, colon + 1, start);
    var stop := start + |v|;
    assert forall k :: start <= k < stop ==> s[k] == v[k - start];
    if more != [] {
      assert s[stop] == more[0];
    }
    IndexAt(s, start, stop);
    assert s[start..stop] == v;
    StripOfStripped(v);
  }

  /** Whitespace only, as `\s*` consumes it. */
  predicate AllSpace(ws: string) {
    forall k :: 0 <= k < |ws| ==> IsSpace(ws[k])
  }

  lemma {:induction false} IndexAt(s: string, i: nat, e: nat)
    requires i <= e <= |s| && (e < |s| ==> s[e] == '\n') && forall k :: i <= k < e ==> s[k] != '\n'
    ensures IndexFrom(s, '\n', i) == e
    decreases e - i
  {
    if i < e {
      IndexAt(s, i + 1, e);
    }
  }

  // ---------------------------------------------------------------------
  // The reply check of the two generators

  /** The text of a model reply: `"".join(chunk.text for chunk in
      generations[0])`. `generations` is None when it is not a list; each
      inner sequence holds the texts of one generation's chunks. A missing or
      empty list raises ValueError. */
  function GeneratedText(generations: Option<seq<seq<string>>>): (r: Result<string>)
    ensures r.Err? <==> generations.None? || generations.value == []
    ensures r.Err? ==> r.error == ValueError
  {
    if generations.None? || generations.value == [] then Err(ValueError)
    else Ok(Chunking.Flatten(generations.value[0]))
  }

  /** `generate_long_answer_question` and `generate_short_answer_question`
      once the model has replied: the two differ only in the prompt. */
  function GenerateAnswerQuestion(generations: Option<seq<seq<string>>>): (r: Result<map<string, string>>)
    ensures r.Err? <==> GeneratedText(generations).Err?
    ensures r.Err? ==> r.error == ValueError
    ensures r.Ok? ==> r.value.Keys == {"question", "answer"}
  {
    match GeneratedText(generations)
    case Err(e) => Err(e)
    case Ok(text) => Ok(ParseQuestionAndAnswer(text))
  }

  /** A reply in the requested format, however the model splits it into
      chunks, gives back its question and answer. */
  lemma GenerateOfReply(chunks: seq<string>, more: seq<seq<string>>,
                        qn: string, q: string, an: string, a: string)
    requires Numbering(qn) && Numbering(an) && LineValue(q) && LineValue(a)
    requires Avoids(q, "answer")
    requires Chunking.Flatten(chunks) == Reply(qn, q, an, a)
    ensures GenerateAnswerQuestion(Some([chunks] + more)) == Ok(map["question" := q, "answer" := a])
  {
    ParseOfReply(qn, q, an, a);
  }
}
