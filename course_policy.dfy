/** The topic list of the course planner: `ensure_topic_count`,
    `inject_review_and_exploration` and the post-processing of
    `generate_topics_using_llm` (GuruCool-API/utils/coursepolicy.py, its copy
    GuruCool-ML/API/utils/coursePolicy.py and the script variant
    GuruCool-ML/Scripts/GuruCoursePlanner/CoursePolicy.py).

    A Python list that these functions change in place is a `TopicList`
    object; the lists they return are new objects, except where the script
    variant hands back its argument. `random.sample` and `random.choice` are
    parameters: the sampled positions (already sorted in descending order, as
    the code sorts them) and a function saying which review topic the
    `i`-th `random.choice` call returns. */
module CoursePolicy {
  import opened Wrappers
  import opened Text

  const ReviewSession: string := "Review or assignment session"
  const DeeperExploration: string := "Deeper exploration of earlier topics"

  /** One of the two entries of `review_topics`. */
  predicate IsReviewTopic(x: string) {
    x == ReviewSession || x == DeeperExploration
  }

  /** The `i`-th call of `random.choice(review_topics)`. */
  function Draw(pick: nat -> bool, i: nat): (x: string)
    ensures IsReviewTopic(x)
  {
    if pick(i) then DeeperExploration else ReviewSession
  }

  /** Python's `s[:n]`: a negative bound counts from the end. */
  function PyPrefix<T>(s: seq<T>, n: int): (r: seq<T>)
    ensures 0 <= n ==> |r| == (if n < |s| then n else |s|)
    ensures n < 0 ==> |r| == (if -n < |s| then |s| + n else 0)
    ensures r == s[..|r|]
  {
    if 0 <= n then (if n < |s| then s[..n] else s)
    else if -n < |s| then s[..|s| + n]
    else []
  }

  // ---------------------------------------------------------------------
  // ensure_topic_count

  /** The list after `while len(topics) < n: topics.append(ReviewSession)`. */
  function Padded(t: seq<string>, n: int): (r: seq<string>)
    ensures |r| == if |t| < n then n else |t|
    ensures r[..|t|] == t
    ensures forall i :: |t| <= i < |r| ==> r[i] == ReviewSession
    decreases n - |t|
  {
    if |t| < n then Padded(t + [ReviewSession], n) else t
  }

  /** What `ensure_topic_count(t, n)` returns (every variant). */
  function Ensured(t: seq<string>, n: int): seq<string> {
    PyPrefix(Padded(t, n), n)
  }

  /** Exactly `n` topics: the given ones first, in order, then review
      sessions; a negative `n` drops that many topics from the end. */
  lemma EnsuredShape(t: seq<string>, n: int)
    ensures 0 <= n ==> |Ensured(t, n)| == n
    ensures 0 <= n ==> forall i :: 0 <= i < n ==>
      Ensured(t, n)[i] == if i < |t| then t[i] else ReviewSession
    ensures n < 0 ==> Ensured(t, n) == PyPrefix(t, n)
  {
    var p := Padded(t, n);
    if 0 <= n {
      forall i | 0 <= i < n && i < |t|
        ensures Ensured(t, n)[i] == t[i]
      {
        assert p[..|t|][i] == t[i];
      }
    }
  }

  /** A padded list has room for nothing more: padding again changes nothing,
      and ensuring the count twice gives the same list. */
  lemma EnsuredIdempotent(t: seq<string>, n: int)
    requires 0 <= n
    ensures Ensured(Ensured(t, n), n) == Ensured(t, n)
  {
    EnsuredShape(t, n);
  }

  class TopicList {
    var items: seq<string>

    constructor (topics: seq<string>)
      ensures items == topics
    {
      items := topics;
    }

    /** `ensure_topic_count` of the two utils copies: appends the padding to
        this list, then returns the first `n` items as a new list. */
    method EnsureTopicCount(n: int) returns (r: TopicList)
      modifies this
      ensures items == Padded(old(items), n)
      ensures fresh(r) && r.items == Ensured(old(items), n)
    {
      while |items| < n
        invariant Padded(items, n) == Padded(old(items), n)
        decreases n - |items|
      {
        items := items + [ReviewSession];
      }
      r := new TopicList(PyPrefix(items, n));
    }

    /** `ensure_topic_count` of the script: a shorter list is padded in
        place, a longer one yields a new prefix list, and a list of the
        right length is returned itself. */
    method EnsureTopicCountScript(n: int) returns (r: TopicList)
      modifies this
      ensures r.items == Ensured(old(items), n)
      ensures |old(items)| <= n ==> r == this && items == Padded(old(items), n)
      ensures |old(items)| > n ==> fresh(r) && items == old(items)
    {
      if |items| < n {
        while |items| < n
          invariant Padded(items, n) == Padded(old(items), n)
          decreases n - |items|
        {
          items := items + [ReviewSession];
        }
        r := this;
      } else if |items| > n {
        r := new TopicList(items[..if 0 <= n then n else if -n < |items| then |items| + n else 0]);
      } else {
        r := this;
      }
    }

    /** `inject_review_and_exploration(topics, n)`: inserts one drawn review
        topic at each sampled position (descending), pads with drawn review
        topics to `n`, and returns the first `n` as a new list. A negative `n`
        makes `random.sample` raise ValueError before the list is touched. */
    method InjectReviewAndExploration(n: int, positions: seq<nat>, pick: nat -> bool)
      returns (r: Result<TopicList>)
      requires 0 <= n ==> SampledPositions(positions, n)
      modifies this
      ensures n < 0 ==> r == Err(ValueError) && items == old(items)
      ensures 0 <= n ==>
        items == PadDraws(InsertAll(old(items), positions, pick, 0), n, pick, |positions|)
      ensures 0 <= n ==>
        r.Ok? && fresh(r.value) && r.value.items == Injected(old(items), n, positions, pick)
    {
      if n < 0 {
        return Err(ValueError);
      }
      for i := 0 to |positions|
        invariant InsertAll(items, positions[i..], pick, i) == InsertAll(old(items), positions, pick, 0)
      {
        assert positions[i..][1..] == positions[i + 1..];
        items := Insert(items, positions[i], Draw(pick, i));
      }
      ghost var inserted := items;
      var j: nat := |positions|;
      while |items| < n
        invariant PadDraws(items, n, pick, j) == PadDraws(inserted, n, pick, |positions|)
        decreases n - |items|
      {
        items := items + [Draw(pick, j)];
        j := j + 1;
      }
      var result := new TopicList(PyPrefix(items, n));
      return Ok(result);
    }
  }

  // ---------------------------------------------------------------------
  // inject_review_and_exploration

  /** What `sorted(random.sample(range(1, n), k=n // 5), reverse=True)`
      yields: `n // 5` distinct positions in 1 .. n-1, in descending order. */
  predicate SampledPositions(positions: seq<nat>, n: int) {
    0 <= n && |positions| == n / 5
    && (forall i :: 0 <= i < |positions| ==> 1 <= positions[i] < n)
    && (forall i, j :: 0 <= i < j < |positions| ==> positions[i] > positions[j])
  }

  /** Python's `s.insert(p, x)` for `p >= 0`: past the end it appends. */
  function Insert<T>(s: seq<T>, p: nat, x: T): (r: seq<T>)
    ensures |r| == |s| + 1
  {
    if p < |s| then s[..p] + [x] + s[p..] else s + [x]
  }

  /** The insertion loop; the `j`-th draw goes to the `j`-th position. */
  function InsertAll(s: seq<string>, positions: seq<nat>, pick: nat -> bool, j: nat): (r: seq<string>)
    ensures |r| == |s| + |positions|
    decreases |positions|
  {
    if positions == [] then s
    else InsertAll(Insert(s, positions[0], Draw(pick, j)), positions[1..], pick, j + 1)
  }

  /** The padding loop, drawing from the `j`-th call on. */
  function PadDraws(s: seq<string>, n: int, pick: nat -> bool, j: nat): (r: seq<string>)
    ensures |r| == if |s| < n then n else |s|
    decreases n - |s|
  {
    if |s| < n then PadDraws(s + [Draw(pick, j)], n, pick, j + 1) else s
  }

  /** What `inject_review_and_exploration(t, n)` returns for `n >= 0`. */
  function Injected(t: seq<string>, n: int, positions: seq<nat>, pick: nat -> bool): seq<string> {
    PyPrefix(PadDraws(InsertAll(t, positions, pick, 0), n, pick, |positions|), n)
  }

  /** `b` is `a` with review topics put in between: the items of `a` appear
      in `b` in order, and every other item of `b` is a review topic. */
  predicate Embeds(a: seq<string>, b: seq<string>)
    decreases |b|
  {
    if b == [] then a == []
    else
      (IsReviewTopic(b[0]) && Embeds(a, b[1..]))
      || (a != [] && a[0] == b[0] && Embeds(a[1..], b[1..]))
  }

  /** The injected list has exactly `n` topics; a prefix of the original
      topics survives in it in order, among review topics; and when the
      topics and the inserted reviews fit in `n`, no topic is cut. */
  lemma InjectedShape(t: seq<string>, n: int, positions: seq<nat>, pick: nat -> bool)
    requires SampledPositions(positions, n)
    ensures |Injected(t, n, positions, pick)| == n
    ensures exists j :: 0 <= j <= |t| && Embeds(t[..j], Injected(t, n, positions, pick))
    ensures |t| + n / 5 <= n ==> Embeds(t, Injected(t, n, positions, pick))
    ensures forall i :: 0 <= i < n ==>
      Injected(t, n, positions, pick)[i] in t || IsReviewTopic(Injected(t, n, positions, pick)[i])
  {
    var inserted := InsertAll(t, positions, pick, 0);
    var full := PadDraws(inserted, n, pick, |positions|);
    var r := Injected(t, n, positions, pick);
    EmbedsSelf(t);
    EmbedsInsertAll(t, t, positions, pick, 0);
    EmbedsPadDraws(t, inserted, n, pick, |positions|);
    EmbedsPrefix(t, full, n);
    if |t| + n / 5 <= n {
      assert r == full;
    }
    var j :| 0 <= j <= |t| && Embeds(t[..j], r);
    EmbedsMembers(t[..j], r);
    forall i | 0 <= i < n && r[i] in t[..j]
      ensures r[i] in t
    {
      var k :| 0 <= k < j && t[..j][k] == r[i];
      assert t[k] == r[i];
    }
  }

  lemma {:induction false} EmbedsSelf(a: seq<string>)
    ensures Embeds(a, a)
    decreases |a|
  {
    if a != [] {
      EmbedsSelf(a[1..]);
    }
  }

  /** Inserting into a non-empty list past its head keeps the head. */
  lemma InsertCons<T>(b: seq<T>, p: nat, x: T)
    requires b != [] && 0 < p
    ensures Insert(b, p, x) == [b[0]] + Insert(b[1..], p - 1, x)
  {
    if p < |b| {
      assert b[..p] == [b[0]] + b[1..][..p - 1];
      assert b[p..] == b[1..][p - 1..];
    }
  }

  lemma {:induction false} EmbedsInsert(a: seq<string>, b: seq<string>, p: nat, x: string)
    requires Embeds(a, b) && IsReviewTopic(x)
    ensures Embeds(a, Insert(b, p, x))
    decreases |b|
  {
    var r := Insert(b, p, x);
    if b == [] {
      assert r == [x] && r[1..] == [];
    } else if p == 0 {
      assert r == [x] + b && r[1..] == b;
    } else {
      InsertCons(b, p, x);
      assert r[0] == b[0] && r[1..] == Insert(b[1..], p - 1, x);
      if IsReviewTopic(b[0]) && Embeds(a, b[1..]) {
        EmbedsInsert(a, b[1..], p - 1, x);
      } else {
        EmbedsInsert(a[1..], b[1..], p - 1, x);
      }
    }
  }

  lemma {:induction false} EmbedsInsertAll(a: seq<string>, b: seq<string>, positions: seq<nat>,
                                           pick: nat -> bool, j: nat)
    requires Embeds(a, b)
    ensures Embeds(a, InsertAll(b, positions, pick, j))
    decreases |positions|
  {
    if positions != [] {
      EmbedsInsert(a, b, positions[0], Draw(pick, j));
      EmbedsInsertAll(a, Insert(b, positions[0], Draw(pick, j)), positions[1..], pick, j + 1);
    }
  }

  lemma {:induction false} EmbedsPadDraws(a: seq<string>, b: seq<string>, n: int,
                                          pick: nat -> bool, j: nat)
    requires Embeds(a, b)
    ensures Embeds(a, PadDraws(b, n, pick, j))
    decreases n - |b|
  {
    if |b| < n {
      EmbedsInsert(a, b, |b|, Draw(pick, j));
      EmbedsPadDraws(a, b + [Draw(pick, j)], n, pick, j + 1);
    }
  }

  /** Cutting the longer list keeps a prefix of the shorter one embedded. */
  lemma {:induction false} EmbedsPrefix(a: seq<string>, b: seq<string>, m: int)
    requires Embeds(a, b)
    ensures exists j :: 0 <= j <= |a| && Embeds(a[..j], PyPrefix(b, m))
    decreases |b|
  {
    var c := PyPrefix(b, m);
    if c == [] {
      assert Embeds(a[..0], c);
    } else {
      var m' := |c| - 1;
      assert c[0] == b[0] && c[1..] == PyPrefix(b[1..], m');
      if IsReviewTopic(b[0]) && Embeds(a, b[1..]) {
        EmbedsPrefix(a, b[1..], m');
        var j :| 0 <= j <= |a| && Embeds(a[..j], PyPrefix(b[1..], m'));
        assert Embeds(a[..j], c);
      } else {
        EmbedsPrefix(a[1..], b[1..], m');
        var j :| 0 <= j <= |a[1..]| && Embeds(a[1..][..j], PyPrefix(b[1..], m'));
        assert a[..j + 1][0] == a[0] && a[..j + 1][1..] == a[1..][..j];
        assert Embeds(a[..j + 1], c);
      }
    }
  }

  /** Every item of the longer list is an item of the shorter one or a
      review topic. */
  lemma {:induction false} EmbedsMembers(a: seq<string>, b: seq<string>)
    requires Embeds(a, b)
    ensures forall i :: 0 <= i < |b| ==> b[i] in a || IsReviewTopic(b[i])
    decreases |b|
  {
    if b != [] {
      if IsReviewTopic(b[0]) && Embeds(a, b[1..]) {
        EmbedsMembers(a, b[1..]);
      } else {
        EmbedsMembers(a[1..], b[1..]);
        assert forall x :: x in a[1..] ==> x in a;
      }
      assert forall i :: 1 <= i < |b| ==> b[i] == b[1..][i - 1];
    }
  }

  // ---------------------------------------------------------------------
  // generate_topics_using_llm

  /** `[topic.strip() for topic in response.split("\n") if topic.strip()]`. */
  function CleanTopics(response: string): (r: seq<string>)
    ensures forall i :: 0 <= i < |r| ==> r[i] != [] && IsStripped(r[i]) && '\n' !in r[i]
  {
    KeepNonBlank(Split(response, '\n'))
  }

  function KeepNonBlank(parts: seq<string>): (r: seq<string>)
    requires forall k :: 0 <= k < |parts| ==> '\n' !in parts[k]
    ensures forall i :: 0 <= i < |r| ==> r[i] != [] && IsStripped(r[i]) && '\n' !in r[i]
    ensures |r| <= |parts|
    decreases |parts|
  {
    if parts == [] then []
    else
      var t := Strip(parts[0]);
      StripKeepsChars(parts[0]);
      var rest := KeepNonBlank(parts[1..]);
      if t != [] then [t] + rest else rest
  }

  /** The topic list `generate_topics_using_llm` returns. `response` is the
      model's reply to the topic prompt; `refine(topics)` is its reply to the
      prompt asking it to refine `topics`. */
  function GenerateTopics(response: string, refine: seq<string> -> string, n: int,
                          positions: seq<nat>, pick: nat -> bool): seq<string>
  {
    var topics := CleanTopics(response);
    var shaped := if |topics| > n then PyPrefix(topics, n) else Injected(topics, n, positions, pick);
    Ensured(CleanTopics(refine(shaped)), n)
  }

  /** Whatever the model replies: exactly `n` topics, each one a non-blank
      stripped line. */
  lemma GeneratedTopicsShape(response: string, refine: seq<string> -> string, n: int,
                             positions: seq<nat>, pick: nat -> bool)
    requires 0 <= n
    ensures |GenerateTopics(response, refine, n, positions, pick)| == n
    ensures forall i :: 0 <= i < n ==>
      TopicLine(GenerateTopics(response, refine, n, positions, pick)[i])
  {
    var topics := CleanTopics(response);
    var shaped := if |topics| > n then PyPrefix(topics, n) else Injected(topics, n, positions, pick);
    EnsuredLines(CleanTopics(refine(shaped)), n);
  }

  /** A topic as the planner hands it on: one non-blank stripped line. */
  predicate TopicLine(x: string) {
    x != [] && IsStripped(x) && '\n' !in x
  }

  lemma EnsuredLines(t: seq<string>, n: int)
    requires 0 <= n
    requires forall i :: 0 <= i < |t| ==> TopicLine(t[i])
    ensures |Ensured(t, n)| == n
    ensures forall i :: 0 <= i < n ==> TopicLine(Ensured(t, n)[i])
  {
    EnsuredShape(t, n);
    ReviewSessionLine();
  }

  lemma ReviewSessionLine()
    ensures TopicLine(ReviewSession)
  {
    assert ReviewSession[0] == 'R' && ReviewSession[|ReviewSession| - 1] == 'n';
  }
}
