/** The Firestore side of the Aura rating (src/components/Aura.jsx): the
    collections the three `calculateEloFor…` functions read and write, kept
    as maps in one object, and the writes they perform in order.

    The documents are reduced to the fields the functions use. `new Date()`
    is a parameter (the audit entry and the recent entry each take their
    own), and so is `Math.pow(10, ·)`. */
module AuraStore {
  import opened Wrappers
  import opened Elo

  /** One element of a user's `recentAuras` list. */
  datatype RecentAura = RecentAura(subjectId: string, activityType: string, auraChange: int,
                                   timestamp: int)

  /** A `users/{id}` document: its `aura` (numeric) and its `recentAuras`
      (an absent list reads as empty). */
  datatype UserDoc = UserDoc(aura: real, recentAuras: seq<RecentAura>)

  /** A document added to `subjects/{subjectId}/{kind}Auras`. */
  datatype AuditEntry = AuditEntry(userId: string, activityId: string, auraGained: int,
                                   timestamp: int)

  /** The writes, in the order they reach the database. */
  datatype Write =
    | SetAura(userId: string, aura: int)
    | AddAudit(subjectId: string, kind: Activity, entry: AuditEntry)
    | SetRecent(userId: string, recentAuras: seq<RecentAura>)

  /** The `activityType` recorded in a recent entry. */
  function ActivityType(a: Activity): string {
    match a
    case Quiz => "quiz"
    case Assignment => "assignment"
    case Attendance => "attendance"
  }

  /** The list after `shift` (only when it already holds two or more) and
      `push`. */
  function Pushed(recent: seq<RecentAura>, e: RecentAura): seq<RecentAura> {
    (if |recent| >= 2 then recent[1..] else recent) + [e]
  }

  /** The last (at most) two elements of a list. */
  function LastTwo<T>(s: seq<T>): (r: seq<T>)
    ensures |r| <= 2 && |r| <= |s| && r == s[|s| - |r|..]
  {
    if |s| <= 2 then s else s[|s| - 2..]
  }

  /** The new entry comes last and the rest keep their order; exactly the
      oldest entry goes when two or more were kept; and a list of at most
      two becomes the two most recent changes. */
  lemma PushedShape(recent: seq<RecentAura>, e: RecentAura)
    ensures var r := Pushed(recent, e);
      r[|r| - 1] == e
      && (|recent| >= 2 ==> |r| == |recent| && r[..|r| - 1] == recent[1..])
      && (|recent| < 2 ==> |r| == |recent| + 1 && r[..|r| - 1] == recent)
      && (|recent| <= 2 ==> r == LastTwo(recent + [e]))
  {
    var r := Pushed(recent, e);
    if |recent| == 2 {
      assert r == [recent[1], e];
      assert (recent + [e])[1..] == [recent[1], e];
    }
  }

  /** The Firestore collections touched by the rating functions. */
  class Database {
    /** `users`. */
    var users: map<string, UserDoc>
    /** `quizzes`, `assignments` and `attendances`, by kind: the
        `averageElo` of each document, when it has one. */
    var activities: map<(Activity, string), Option<real>>
    /** The ids of the documents in `subjects`. */
    var subjects: set<string>
    /** `subjects/{id}/quizAuras` and its siblings, as the entries added
        to each, oldest first. */
    var auditLogs: map<(string, Activity), seq<AuditEntry>>
    /** Every write performed, oldest first. */
    var journal: seq<Write>

    constructor(users: map<string, UserDoc>, activities: map<(Activity, string), Option<real>>,
                subjects: set<string>)
      ensures this.users == users && this.activities == activities && this.subjects == subjects
      ensures auditLogs == map[] && journal == []
    {
      this.users := users;
      this.activities := activities;
      this.subjects := subjects;
      auditLogs := map[];
      journal := [];
    }

    /** Every user keeps at most two recent changes. */
    predicate RecentBounded()
      reads this
    {
      forall u :: u in users ==> |users[u].recentAuras| <= 2
    }

    /** The entries added so far to one audit collection. */
    function AuditLog(subjectId: string, kind: Activity): seq<AuditEntry>
      reads this
    {
      if (subjectId, kind) in auditLogs then auditLogs[(subjectId, kind)] else []
    }

    /** `updateRecentAuras`: nothing happens for a missing user; otherwise
        the user's list is shifted when full, the change is pushed, and the
        list is written back. */
    method UpdateRecentAuras(userId: string, subjectId: string, activityType: string,
                             auraChange: int, now: int)
      modifies this
      ensures activities == old(activities) && subjects == old(subjects)
      ensures auditLogs == old(auditLogs)
      ensures userId !in old(users) ==> users == old(users) && journal == old(journal)
      ensures userId in old(users) ==>
        var recent := Pushed(old(users)[userId].recentAuras,
                             RecentAura(subjectId, activityType, auraChange, now));
        users == old(users)[userId := old(users)[userId].(recentAuras := recent)]
        && journal == old(journal) + [SetRecent(userId, recent)]
      ensures old(RecentBounded()) ==> RecentBounded()
    {
      if userId in users {
        var recent := users[userId].recentAuras;
        if |recent| >= 2 {
          recent := recent[1..];
        }
        recent := recent + [RecentAura(subjectId, activityType, auraChange, now)];
        users := users[userId := users[userId].(recentAuras := recent)];
        journal := journal + [SetRecent(userId, recent)];
      }
    }

    /** `calculateEloForQuiz`, `calculateEloForAssignment` and
        `calculateEloForAttendance`, which differ only in the kind. With the
        user, the activity and the subject all present, the rating becomes
        `AuraChange(…).stored`, the rounded gain is logged in the subject's
        audit collection and pushed onto the recent list, in that order;
        otherwise nothing is written. */
    method CalculateElo(kind: Activity, userId: string, activityId: string, score: real,
                        subjectId: string, auditTime: int, recentTime: int, pow: real -> real)
      requires IsExp10(pow)
      modifies this
      ensures activities == old(activities) && subjects == old(subjects)
      ensures (userId !in old(users) || (kind, activityId) !in old(activities)
               || subjectId !in old(subjects)) ==>
        users == old(users) && auditLogs == old(auditLogs) && journal == old(journal)
      ensures userId in old(users) && (kind, activityId) in old(activities)
              && subjectId in old(subjects) ==>
        var c := AuraChange(kind, old(users)[userId].aura, old(activities)[(kind, activityId)],
                            score, pow);
        var entry := AuditEntry(userId, activityId, c.logged, auditTime);
        var recent := Pushed(old(users)[userId].recentAuras,
                             RecentAura(subjectId, ActivityType(kind), c.logged, recentTime));
        users == old(users)[userId := UserDoc(c.stored as real, recent)]
        && auditLogs == old(auditLogs)[(subjectId, kind) := old(AuditLog(subjectId, kind)) + [entry]]
        && journal == old(journal) + [SetAura(userId, c.stored), AddAudit(subjectId, kind, entry),
                                      SetRecent(userId, recent)]
      ensures old(RecentBounded()) ==> RecentBounded()
    {
      if userId !in users || (kind, activityId) !in activities || subjectId !in subjects {
        return;
      }
      var current := users[userId].aura;
      var reference := ReferenceRating(activities[(kind, activityId)]);
      var e := Expected(current, reference, pow);
      var r := Outcome(kind, score);
      var gained := Gain(kind, r, e);

      users := users[userId := users[userId].(aura := Round(current + gained) as real)];
      journal := journal + [SetAura(userId, Round(current + gained))];

      var entry := AuditEntry(userId, activityId, Round(gained), auditTime);
      auditLogs := auditLogs[(subjectId, kind) := AuditLog(subjectId, kind) + [entry]];
      journal := journal + [AddAudit(subjectId, kind, entry)];

      UpdateRecentAuras(userId, subjectId, ActivityType(kind), Round(gained), recentTime);
    }

    /** `calculateEloForQuiz`: `CalculateElo` for quizzes, whose logged
        change lies within ±16. */
    method CalculateEloForQuiz(userId: string, quizId: string, normalizedScore: real,
                               subjectId: string, auditTime: int, recentTime: int, pow: real -> real)
      requires IsExp10(pow)
      modifies this
      ensures activities == old(activities) && subjects == old(subjects)
      ensures (userId !in old(users) || (Quiz, quizId) !in old(activities)
               || subjectId !in old(subjects)) ==>
        users == old(users) && auditLogs == old(auditLogs) && journal == old(journal)
      ensures userId in old(users) && (Quiz, quizId) in old(activities)
              && subjectId in old(subjects) ==>
        var c := AuraChange(Quiz, old(users)[userId].aura, old(activities)[(Quiz, quizId)],
                            normalizedScore, pow);
        var entry := AuditEntry(userId, quizId, c.logged, auditTime);
        var recent := Pushed(old(users)[userId].recentAuras,
                             RecentAura(subjectId, ActivityType(Quiz), c.logged, recentTime));
        -16 <= c.logged <= 16
        && users == old(users)[userId := UserDoc(c.stored as real, recent)]
        && auditLogs == old(auditLogs)[(subjectId, Quiz) := old(AuditLog(subjectId, Quiz)) + [entry]]
        && journal == old(journal) + [SetAura(userId, c.stored), AddAudit(subjectId, Quiz, entry),
                                      SetRecent(userId, recent)]
      ensures old(RecentBounded()) ==> RecentBounded()
    {
      CalculateElo(Quiz, userId, quizId, normalizedScore, subjectId, auditTime, recentTime, pow);
      if userId in old(users) && (Quiz, quizId) in old(activities) && subjectId in old(subjects) {
        AuraChangeShape(Quiz, old(users)[userId].aura, old(activities)[(Quiz, quizId)],
                        normalizedScore, pow);
      }
    }

    /** `calculateEloForAssignment`: `CalculateElo` for assignments, whose logged
        change lies within ±10. */
    method CalculateEloForAssignment(userId: string, assignmentId: string, normalizedScore: real,
                               subjectId: string, auditTime: int, recentTime: int, pow: real -> real)
      requires IsExp10(pow)
      modifies this
      ensures activities == old(activities) && subjects == old(subjects)
      ensures (userId !in old(users) || (Assignment, assignmentId) !in old(activities)
               || subjectId !in old(subjects)) ==>
        users == old(users) && auditLogs == old(auditLogs) && journal == old(journal)
      ensures userId in old(users) && (Assignment, assignmentId) in old(activities)
              && subjectId in old(subjects) ==>
        var c := AuraChange(Assignment, old(users)[userId].aura, old(activities)[(Assignment, assignmentId)],
                            normalizedScore, pow);
        var entry := AuditEntry(userId, assignmentId, c.logged, auditTime);
        var recent := Pushed(old(users)[userId].recentAuras,
                             RecentAura(subjectId, ActivityType(Assignment), c.logged, recentTime));
        -10 <= c.logged <= 10
        && users == old(users)[userId := UserDoc(c.stored as real, recent)]
        && auditLogs == old(auditLogs)[(subjectId, Assignment) := old(AuditLog(subjectId, Assignment)) + [entry]]
        && journal == old(journal) + [SetAura(userId, c.stored), AddAudit(subjectId, Assignment, entry),
                                      SetRecent(userId, recent)]
      ensures old(RecentBounded()) ==> RecentBounded()
    {
      CalculateElo(Assignment, userId, assignmentId, normalizedScore, subjectId, auditTime, recentTime, pow);
      if userId in old(users) && (Assignment, assignmentId) in old(activities) && subjectId in old(subjects) {
        AuraChangeShape(Assignment, old(users)[userId].aura, old(activities)[(Assignment, assignmentId)],
                        normalizedScore, pow);
      }
    }

    /** `calculateEloForAttendance`: `CalculateElo` for attendances, whose logged
        change lies within ±6. */
    method CalculateEloForAttendance(userId: string, attendanceId: string, attendanceRate: real,
                               subjectId: string, auditTime: int, recentTime: int, pow: real -> real)
      requires IsExp10(pow)
      modifies this
      ensures activities == old(activities) && subjects == old(subjects)
      ensures (userId !in old(users) || (Attendance, attendanceId) !in old(activities)
               || subjectId !in old(subjects)) ==>
        users == old(users) && auditLogs == old(auditLogs) && journal == old(journal)
      ensures userId in old(users) && (Attendance, attendanceId) in old(activities)
              && subjectId in old(subjects) ==>
        var c := AuraChange(Attendance, old(users)[userId].aura, old(activities)[(Attendance, attendanceId)],
                            attendanceRate, pow);
        var entry := AuditEntry(userId, attendanceId, c.logged, auditTime);
        var recent := Pushed(old(users)[userId].recentAuras,
                             RecentAura(subjectId, ActivityType(Attendance), c.logged, recentTime));
        -6 <= c.logged <= 6
        && users == old(users)[userId := UserDoc(c.stored as real, recent)]
        && auditLogs == old(auditLogs)[(subjectId, Attendance) := old(AuditLog(subjectId, Attendance)) + [entry]]
        && journal == old(journal) + [SetAura(userId, c.stored), AddAudit(subjectId, Attendance, entry),
                                      SetRecent(userId, recent)]
      ensures old(RecentBounded()) ==> RecentBounded()
    {
      CalculateElo(Attendance, userId, attendanceId, attendanceRate, subjectId, auditTime, recentTime, pow);
      if userId in old(users) && (Attendance, attendanceId) in old(activities) && subjectId in old(subjects) {
        AuraChangeShape(Attendance, old(users)[userId].aura, old(activities)[(Attendance, attendanceId)],
                        attendanceRate, pow);
      }
    }
  }
}
