/** Grouping topics into lectures and laying the lectures out on calendar
    days: `group_topics_into_lectures`, `generate_schedule` and the
    lecture-count arithmetic of `generate_lecture_schedule` (the same code in
    GuruCool-API/utils/coursepolicy.py, GuruCool-ML/API/utils/coursePolicy.py
    and GuruCool-ML/Scripts/GuruCoursePlanner/CoursePolicy.py).

    Dates are day ordinals as Python's `date.toordinal()` counts them (day 1
    is Monday 1 January of year 1); the holiday calendar is a predicate on
    them. */
module LecturePlan {
  import opened Wrappers
  import opened Chunking
  import opened CoursePolicy

  // ---------------------------------------------------------------------
  // group_topics_into_lectures

  /** `max(2, len(topics) // n)` for a positive `n`. */
  function Width(count: nat, n: nat): (w: nat)
    requires n >= 1
    ensures w >= 2
  {
    if count / n > 2 then count / n else 2
  }

  /** One round of the first loop: the last group is popped and appended
      to the one before it. */
  function MergeLast(g: seq<seq<string>>): (r: seq<seq<string>>)
    requires |g| >= 2
    ensures |r| == |g| - 1
  {
    g[..|g| - 2] + [g[|g| - 2] + g[|g| - 1]]
  }

  /** The first loop: merging while there are more than `n` groups. */
  function MergeDown(g: seq<seq<string>>, n: nat): (r: seq<seq<string>>)
    requires n >= 1
    decreases |g|
  {
    if |g| <= n then g else MergeDown(MergeLast(g), n)
  }

  /** The second loop: one review session per missing group. */
  function PadGroups(g: seq<seq<string>>, n: int): (r: seq<seq<string>>)
    decreases n - |g|
  {
    if |g| < n then PadGroups(g + [[ReviewSession]], n) else g
  }

  /** The groups `group_topics_into_lectures(topics, n)` returns for a
      positive `n`. */
  function GroupsOf(topics: seq<string>, n: nat): seq<seq<string>>
    requires n >= 1
  {
    PadGroups(MergeDown(Chunks(topics, Width(|topics|, n)), n), n)
  }

  /** What `group_topics_into_lectures(topics, n)` returns or raises: `n`
      of 0 divides by zero; a negative `n` leaves fewer than two groups for
      `grouped_lectures[-2]` and raises IndexError. */
  function Grouped(topics: seq<string>, n: int): Result<seq<seq<string>>> {
    if n == 0 then Err(ZeroDivisionError)
    else if n < 0 then Err(IndexError)
    else Ok(GroupsOf(topics, n))
  }

  /** `seq(k, _ => ReviewSession)`: what `k` padding groups hold together. */
  function Reviews(k: nat): (r: seq<string>)
    ensures |r| == k && forall i :: 0 <= i < k ==> r[i] == ReviewSession
  {
    seq(k, _ => ReviewSession)
  }

  lemma FlattenPair<T>(a: seq<T>, b: seq<T>)
    ensures Flatten([a, b]) == a + b
  {
    assert [a, b][1..] == [b];
    FlattenOne(b);
  }

  /** Merging the last two groups keeps the groups before them, and what the
      groups from any `j <= |g| - 2` on hold together. */
  lemma MergeLastKeeps(g: seq<seq<string>>, j: nat)
    requires |g| >= 2 && j <= |g| - 2
    ensures MergeLast(g)[..j] == g[..j]
    ensures Flatten(MergeLast(g)[j..]) == Flatten(g[j..])
  {
    var k := |g| - 2;
    var h := MergeLast(g);
    assert h[j..] == g[j..k] + [g[k] + g[k + 1]];
    assert g[j..] == g[j..k] + [g[k], g[k + 1]];
    FlattenAppend(g[j..k], [g[k] + g[k + 1]]);
    FlattenAppend(g[j..k], [g[k], g[k + 1]]);
    FlattenOne(g[k] + g[k + 1]);
    FlattenPair(g[k], g[k + 1]);
  }

  /** Merging keeps the topics and their order, leaves `min(|g|, n)`
      groups, keeps the first `n - 1` groups as they were and puts
      everything else into the last one. */
  lemma {:induction false} MergeDownShape(g: seq<seq<string>>, n: nat)
    requires n >= 1
    ensures |MergeDown(g, n)| == if |g| <= n then |g| else n
    ensures Flatten(MergeDown(g, n)) == Flatten(g)
    ensures |g| > n ==> MergeDown(g, n)[..n - 1] == g[..n - 1]
    ensures |g| > n ==> MergeDown(g, n)[n - 1] == Flatten(g[n - 1..])
    decreases |g|
  {
    if |g| > n {
      var h := MergeLast(g);
      MergeLastKeeps(g, 0);
      MergeLastKeeps(g, n - 1);
      assert g[0..] == g && h[0..] == h;
      MergeDownShape(h, n);
      if |h| == n {
        FlattenOne(h[n - 1]);
        assert h[n - 1..] == [h[n - 1]];
      }
    }
  }

  /** Merging never produces an empty group out of non-empty ones. */
  lemma {:induction false} MergeDownNonEmpty(g: seq<seq<string>>, n: nat)
    requires n >= 1
    requires forall i :: 0 <= i < |g| ==> g[i] != []
    ensures forall i :: 0 <= i < |MergeDown(g, n)| ==> MergeDown(g, n)[i] != []
    decreases |g|
  {
    if |g| > n {
      MergeDownNonEmpty(MergeLast(g), n);
    }
  }

  /** Padding appends `n - |g|` single review sessions and nothing else. */
  lemma {:induction false} PadGroupsShape(g: seq<seq<string>>, n: int)
    ensures |PadGroups(g, n)| == if |g| < n then n else |g|
    ensures PadGroups(g, n)[..|g|] == g
    ensures forall i :: |g| <= i < |PadGroups(g, n)| ==> PadGroups(g, n)[i] == [ReviewSession]
    ensures Flatten(PadGroups(g, n)) == Flatten(g) + Reviews(if |g| < n then n - |g| else 0)
    decreases n - |g|
  {
    if |g| < n {
      var h := g + [[ReviewSession]];
      PadGroupsShape(h, n);
      assert PadGroups(h, n)[..|g|] == PadGroups(h, n)[..|h|][..|g|];
      FlattenAppend(g, [[ReviewSession]]);
      FlattenOne([ReviewSession]);
      assert Reviews(n - |g|) == [ReviewSession] + Reviews(n - |h|);
    } else {
      assert Reviews(0) == [];
    }
  }

  /** For `n >= 1`: exactly `n` non-empty groups. */
  lemma GroupsCount(topics: seq<string>, n: nat)
    requires n >= 1
    ensures |GroupsOf(topics, n)| == n
    ensures forall i :: 0 <= i < n ==> GroupsOf(topics, n)[i] != []
  {
    var g := Chunks(topics, Width(|topics|, n));
    ChunksNonEmpty(topics, Width(|topics|, n));
    MergeDownShape(g, n);
    MergeDownNonEmpty(g, n);
    var m := MergeDown(g, n);
    PadGroupsShape(m, n);
    forall i | 0 <= i < n
      ensures GroupsOf(topics, n)[i] != []
    {
      if i < |m| {
        assert GroupsOf(topics, n)[i] == GroupsOf(topics, n)[..|m|][i];
      }
    }
  }

  /** Together the groups hold the topics in order, then one review session
      per padding group; there are `ceil(|topics| / width)` slices. */
  lemma GroupsFlatten(topics: seq<string>, n: nat)
    requires n >= 1
    ensures var w := Width(|topics|, n);
      var c := (|topics| + w - 1) / w;
      Flatten(GroupsOf(topics, n)) == topics + Reviews(if c < n then n - c else 0)
  {
    var w := Width(|topics|, n);
    var g := Chunks(topics, w);
    ChunkCount(topics, w);
    MergeDownShape(g, n);
    PadGroupsShape(MergeDown(g, n), n);
  }

  /** Every group before the last one that comes from a slice is the slice
      of `width` consecutive topics at `i * width`. */
  lemma GroupsSlices(topics: seq<string>, n: nat, i: nat)
    requires n >= 1
    requires i < n - 1 && i < |Chunks(topics, Width(|topics|, n))|
    ensures |GroupsOf(topics, n)| == n
    ensures var w := Width(|topics|, n);
      i * w < |topics| && GroupsOf(topics, n)[i] == topics[i * w .. SliceEnd(|topics|, w, i)]
  {
    GroupsCount(topics, n);
    var w := Width(|topics|, n);
    var g := Chunks(topics, w);
    ChunkAt(topics, w, i);
    MergeDownShape(g, n);
    var m := MergeDown(g, n);
    PadGroupsShape(m, n);
    assert GroupsOf(topics, n)[i] == GroupsOf(topics, n)[..|m|][i];
    if |g| > n {
      assert m[i] == m[..n - 1][i];
    }
  }

  /** When there are more slices than lectures, the last group holds all the
      topics from `(n - 1) * width` on. */
  lemma GroupsOverflow(topics: seq<string>, n: nat)
    requires n >= 1
    requires |Chunks(topics, Width(|topics|, n))| > n
    ensures |GroupsOf(topics, n)| == n
    ensures var w := Width(|topics|, n);
      Offset(n - 1, w) <= |topics| && GroupsOf(topics, n)[n - 1] == topics[Offset(n - 1, w)..]
  {
    GroupsCount(topics, n);
    var w := Width(|topics|, n);
    var g := Chunks(topics, w);
    MergeDownShape(g, n);
    var m := MergeDown(g, n);
    PadGroupsShape(m, n);
    assert GroupsOf(topics, n)[n - 1] == GroupsOf(topics, n)[..|m|][n - 1];
    FlattenFrom(g, topics, w, n - 1);
  }

  /** Where slice `k` of width `w` starts. */
  function Offset(k: nat, w: nat): nat {
    k * w
  }

  /** Parts that flatten to `t`, all but the last of which hold `w`
      elements: the parts from `k` on flatten to `t` from `k * w` on. */
  lemma FlattenFrom<T>(g: seq<seq<T>>, t: seq<T>, w: nat, k: nat)
    requires Flatten(g) == t && k < |g| && forall i :: 0 <= i < |g| - 1 ==> |g[i]| == w
    ensures Offset(k, w) <= |t| && Flatten(g[k..]) == t[Offset(k, w)..]
  {
    FullPrefixLength(g, w, k);
    FlattenSplit(g, k);
    AfterPrefix(Flatten(g[..k]), Flatten(g[k..]), t);
  }

  /** Parts that all hold `w` elements flatten to `k * w` of them. */
  lemma {:induction false} FullPrefixLength<T>(g: seq<seq<T>>, w: nat, k: nat)
    requires k < |g| && forall i :: 0 <= i < |g| - 1 ==> |g[i]| == w
    ensures |Flatten(g[..k])| == Offset(k, w)
  {
    if k > 0 {
      FullPrefixLength(g, w, k - 1);
      assert g[..k] == g[..k - 1] + [g[k - 1]];
      FlattenAppend(g[..k - 1], [g[k - 1]]);
      assert Offset(k, w) == Offset(k - 1, w) + w;
    }
  }

  lemma FlattenSplit<T>(g: seq<seq<T>>, k: nat)
    requires k <= |g|
    ensures Flatten(g) == Flatten(g[..k]) + Flatten(g[k..])
  {
    assert g == g[..k] + g[k..];
    FlattenAppend(g[..k], g[k..]);
  }

  /** What follows a prefix of a sequence is the rest of it. */
  lemma AfterPrefix<T>(a: seq<T>, b: seq<T>, t: seq<T>)
    requires a + b == t
    ensures b == t[|a|..]
  {
    assert forall i :: 0 <= i < |b| ==> b[i] == (a + b)[|a| + i];
  }

  /** The shared tail of both versions of `group_topics_into_lectures`:
      the merge loop, then the padding loop. `n` is not 0. */
  method MergeAndPad(chunks: seq<seq<string>>, n: int) returns (r: Result<seq<seq<string>>>)
    requires n != 0
    ensures n < 0 ==> r == Err(IndexError)
    ensures n > 0 ==> r == Ok(PadGroups(MergeDown(chunks, n), n))
  {
    var grouped := chunks;
    while |grouped| > n
      invariant n > 0 ==> MergeDown(grouped, n) == MergeDown(chunks, n)
      decreases |grouped|
    {
      if |grouped| < 2 {
        return Err(IndexError);
      }
      grouped := grouped[..|grouped| - 2] + [grouped[|grouped| - 2] + grouped[|grouped| - 1]];
    }
    if n < 0 {
      // leaving the loop needs |grouped| <= n < 0
      assert false;
    }
    while |grouped| < n
      invariant PadGroups(grouped, n) == PadGroups(MergeDown(chunks, n), n)
      decreases n - |grouped|
    {
      grouped := grouped + [[ReviewSession]];
    }
    return Ok(grouped);
  }

  /** `group_topics_into_lectures` of the utils copies (a comprehension of
      slices, then the two loops). */
  method GroupTopicsIntoLectures(topics: seq<string>, n: int) returns (r: Result<seq<seq<string>>>)
    ensures r == Grouped(topics, n)
  {
    if n == 0 {
      return Err(ZeroDivisionError);
    }
    // for a negative n, `len(topics) // n` is at most 0, so the width is 2
    var w := if n > 0 then Width(|topics|, n) else 2;
    r := MergeAndPad(Chunks(topics, w), n);
  }

  /** `group_topics_into_lectures` of the script: the slices are appended
      one by one in a `for` loop over `range(0, len(topics), width)`. */
  method GroupTopicsIntoLecturesLoop(topics: seq<string>, n: int) returns (r: Result<seq<seq<string>>>)
    ensures r == Grouped(topics, n)
  {
    if n == 0 {
      return Err(ZeroDivisionError);
    }
    var w := if n > 0 then Width(|topics|, n) else 2;
    var grouped := SliceLoop(topics, w);
    r := MergeAndPad(grouped, n);
  }

  /** The script's `for i in range(0, len(topics), width)` loop appending
      `topics[i:i + width]`. */
  method SliceLoop(topics: seq<string>, w: nat) returns (grouped: seq<seq<string>>)
    requires w > 0
    ensures grouped == Chunks(topics, w)
  {
    grouped := [];
    var i := 0;
    assert topics[0..] == topics;
    while i < |topics|
      invariant i <= |topics|
      invariant grouped + Chunks(topics[i..], w) == Chunks(topics, w)
      decreases |topics| - i
    {
      // the next start is i + w; past the end it only stops the loop
      var stop := Min(i + w, |topics|);
      SliceLoopStep(topics, w, i, grouped);
      grouped := grouped + [topics[i..stop]];
      i := stop;
    }
    assert grouped + [] == grouped;
  }

  lemma SliceLoopStep(topics: seq<string>, w: nat, i: nat, grouped: seq<seq<string>>)
    requires w > 0 && i < |topics|
    requires grouped + Chunks(topics[i..], w) == Chunks(topics, w)
    ensures (grouped + [topics[i..Min(i + w, |topics|)]]) + Chunks(topics[Min(i + w, |topics|)..], w)
      == Chunks(topics, w)
  {
    var stop := Min(i + w, |topics|);
    ChunkLoopStep(topics, w, i);
    AppendAssoc(grouped, [topics[i..stop]], Chunks(topics[stop..], w));
  }

  lemma AppendAssoc<T>(a: seq<T>, b: seq<T>, c: seq<T>)
    ensures (a + b) + c == a + (b + c)
  {
  }

  /** One round of the script's loop: the slice at `i`, then the slices of
      what follows it. */
  lemma ChunkLoopStep(topics: seq<string>, w: nat, i: nat)
    requires w > 0 && i < |topics|
    ensures Chunks(topics[i..], w)
      == [topics[i..Min(i + w, |topics|)]] + Chunks(topics[Min(i + w, |topics|)..], w)
  {
    var s := topics[i..];
    if |s| <= w {
      assert topics[i..|topics|] == s;
      assert topics[|topics|..] == [];
    } else {
      assert s[..w] == topics[i..i + w];
      assert s[w..] == topics[i + w..];
    }
  }

  // ---------------------------------------------------------------------
  // generate_schedule

  /** Python's `date.weekday()` of the date with ordinal `day`: 0 is
      Monday, 6 is Sunday. */
  function Weekday(day: int): (w: int)
    ensures 0 <= w < 7
  {
    (day + 6) % 7
  }

  /** A day a lecture may fall on: not a Sunday, not a holiday. */
  predicate LectureDay(day: int, holiday: int -> bool) {
    Weekday(day) < 6 && !holiday(day)
  }

  /** The lecture days from `start` to `end`, in order. */
  function LectureDays(start: int, end: int, holiday: int -> bool): (r: seq<int>)
    decreases end - start + 1
  {
    if end < start then []
    else LectureDays(start, end - 1, holiday) + (if LectureDay(end, holiday) then [end] else [])
  }

  datatype Entry = Entry(date: int, topics: seq<string>)

  /** What `generate_schedule(start, end, n, groups)` returns or raises:
      entry `i` pairs the `i`-th lecture day with group `i`, for as many days
      as there are lecture days and lectures; running out of groups first
      raises IndexError. */
  function Schedule(start: int, end: int, n: int, groups: seq<seq<string>>,
                    holiday: int -> bool): Result<seq<Entry>>
  {
    var days := LectureDays(start, end, holiday);
    var m := if n <= 0 then 0 else if n < |days| then n else |days|;
    if |groups| < m then Err(IndexError)
    else Ok(seq(m, i requires 0 <= i < m => Entry(days[i], groups[i])))
  }

  /** The lecture days are exactly the non-Sunday, non-holiday days of
      the range, in strictly increasing order. */
  lemma {:induction false} LectureDaysShape(start: int, end: int, holiday: int -> bool)
    ensures forall i :: 0 <= i < |LectureDays(start, end, holiday)| ==>
      var d := LectureDays(start, end, holiday)[i];
      start <= d <= end && LectureDay(d, holiday)
    ensures forall i, j :: 0 <= i < j < |LectureDays(start, end, holiday)| ==>
      LectureDays(start, end, holiday)[i] < LectureDays(start, end, holiday)[j]
    ensures forall d :: start <= d <= end && LectureDay(d, holiday) ==> d in LectureDays(start, end, holiday)
    decreases end - start + 1
  {
    if start <= end {
      LectureDaysShape(start, end - 1, holiday);
    }
  }

  /** Extending the range only adds days at the end. */
  lemma {:induction false} LectureDaysPrefix(start: int, mid: int, end: int, holiday: int -> bool)
    requires mid <= end
    ensures LectureDays(start, mid, holiday) <= LectureDays(start, end, holiday)
    decreases end - mid
  {
    if mid < end {
      LectureDaysPrefix(start, mid, end - 1, holiday);
    }
  }

  /** Every entry falls on a lecture day within the range, dates strictly
      increase, entry `i` carries group `i`, and there are as many entries as
      the smaller of `n` and the number of lecture days. */
  lemma ScheduleShape(start: int, end: int, n: int, groups: seq<seq<string>>, holiday: int -> bool)
    requires Schedule(start, end, n, groups, holiday).Ok?
    ensures var r := Schedule(start, end, n, groups, holiday).value;
      var c := |LectureDays(start, end, holiday)|;
      |r| == (if n <= 0 then 0 else if n < c then n else c)
      && (forall i :: 0 <= i < |r| ==>
            start <= r[i].date <= end && LectureDay(r[i].date, holiday) && r[i].topics == groups[i])
      && (forall i, j :: 0 <= i < j < |r| ==> r[i].date < r[j].date)
  {
    LectureDaysShape(start, end, holiday);
  }

  lemma EmptySchedule(start: int, end: int, n: int, groups: seq<seq<string>>, holiday: int -> bool)
    requires end < start
    ensures Schedule(start, end, n, groups, holiday) == Ok([])
  {
    assert LectureDays(start, end, holiday) == [];
    assert |Schedule(start, end, n, groups, holiday).value| == 0;
  }

  /** `generate_schedule`: walks the days from `start`, giving each lecture
      day the next group, until `end` is passed or `n` lectures are placed. */
  method GenerateSchedule(start: int, end: int, n: int, groups: seq<seq<string>>,
                          holiday: int -> bool) returns (r: Result<seq<Entry>>)
    ensures r == Schedule(start, end, n, groups, holiday)
  {
    var current := start;
    var schedule: seq<Entry> := [];
    var count := 0;
    if end < start {
      assert LectureDays(start, end, holiday) == [];
    }
    while current <= end && count < n
      invariant start <= current && (current <= end + 1 || current == start)
      invariant count == |schedule| == |LectureDays(start, current - 1, holiday)|
      invariant count <= |groups| && (count == 0 || count <= n)
      invariant forall i :: 0 <= i < count ==>
        schedule[i] == Entry(LectureDays(start, current - 1, holiday)[i], groups[i])
      decreases end - current
    {
      assert LectureDays(start, current, holiday)
        == LectureDays(start, current - 1, holiday) + (if LectureDay(current, holiday) then [current] else []);
      if LectureDay(current, holiday) {
        if count >= |groups| {
          LectureDaysPrefix(start, current, end, holiday);
          return Err(IndexError);
        }
        schedule := schedule + [Entry(current, groups[count])];
        count := count + 1;
      }
      current := current + 1;
    }
    var days := LectureDays(start, end, holiday);
    if end < start {
      assert current == start && LectureDays(start, current - 1, holiday) == [];
      assert schedule == [];
      EmptySchedule(start, end, n, groups, holiday);
      return Ok(schedule);
    }
    LectureDaysPrefix(start, current - 1, end, holiday);
    var m := if n <= 0 then 0 else if n < |days| then n else |days|;
    assert m == count;
    assert forall i :: 0 <= i < count ==> days[i] == LectureDays(start, current - 1, holiday)[i];
    assert schedule == seq(m, i requires 0 <= i < m => Entry(days[i], groups[i]));
    return Ok(schedule);
  }

  // ---------------------------------------------------------------------
  // generate_lecture_schedule

  /** `num_lectures = (num_days // 7) * (hours_per_week // 1)`, where
      `num_days` is `(end - start).days`. */
  function NumLectures(start: int, end: int, hoursPerWeek: int): int {
    ((end - start) / 7) * hoursPerWeek
  }

  /** The lecture count is the number of whole weeks between the dates
      (rounded down, also when `end` comes first) times the hours per week. */
  lemma NumLecturesWeeks(start: int, end: int, hoursPerWeek: int)
    ensures exists weeks ::
      (7 * weeks <= end - start < 7 * weeks + 7
       && NumLectures(start, end, hoursPerWeek) == weeks * hoursPerWeek)
  {
    var weeks := (end - start) / 7;
    assert 7 * weeks <= end - start < 7 * weeks + 7;
  }

  /** The planner script's pipeline: topics from the model, grouped into
      `NumLectures` lectures, laid out on the calendar. */
  function PlanLectures(response: string, refine: seq<string> -> string,
                        start: int, end: int, hoursPerWeek: int,
                        positions: seq<nat>, pick: nat -> bool,
                        holiday: int -> bool): Result<seq<Entry>>
  {
    var n := NumLectures(start, end, hoursPerWeek);
    var topics := GenerateTopics(response, refine, n, positions, pick);
    match Grouped(topics, n)
    case Err(e) => Err(e)
    case Ok(groups) => Schedule(start, end, n, groups, holiday)
  }

  /** A course with lectures to give is always scheduled, one entry per
      lecture day up to the lecture count, each with a non-empty group; with
      no lectures (less than a week, or no hours) grouping divides by zero,
      and with a negative count (end before start) it raises IndexError. */
  lemma PlanShape(response: string, refine: seq<string> -> string,
                  start: int, end: int, hoursPerWeek: int,
                  positions: seq<nat>, pick: nat -> bool, holiday: int -> bool)
    ensures var n := NumLectures(start, end, hoursPerWeek);
      var r := PlanLectures(response, refine, start, end, hoursPerWeek, positions, pick, holiday);
      var c := |LectureDays(start, end, holiday)|;
      (n == 0 ==> r == Err(ZeroDivisionError))
      && (n < 0 ==> r == Err(IndexError))
      && (n > 0 ==>
            r.Ok? && |r.value| == (if n < c then n else c)
            && forall i :: 0 <= i < |r.value| ==> r.value[i].topics != [])
  {
    var n := NumLectures(start, end, hoursPerWeek);
    if n > 0 {
      var topics := GenerateTopics(response, refine, n, positions, pick);
      GroupsCount(topics, n);
      var groups := Grouped(topics, n).value;
      ScheduleShape(start, end, n, groups, holiday);
    }
  }
}
