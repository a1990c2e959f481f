/** The resource inventory: the admin handlers of
    src/modules/admin/pages/AdminResource.jsx and the request handlers and
    expiry sweep of GuruCool/src/modules/teacher/pages/TeacherResources.jsx
    and src/modules/student/pages/StudentResource.jsx, lifted out of the
    React components into one object over the `resources`,
    `resourceRequests` and `users` collections.

    Quantities are integers (the values `parseInt` gives); a form field left
    empty is `None`. Document ids chosen by `addDoc` are parameters. */
module Inventory {
  import opened Wrappers
  import Text

  datatype Status = Pending | Approved | Rejected | Completed

  /** The `userType` of a request. */
  datatype Role = Teacher | Student

  /** A time of day, as `durationTo` ("HH:MM") holds it. */
  datatype Clock = Clock(hour: int, minute: int)

  /** A `resources` document. */
  datatype Resource = Resource(id: string, kind: string, description: string, quantity: int,
                               available: int, borrowed: int)

  /** A `resourceRequests` document. */
  datatype Request = Request(name: string, classroom: string, subject: string,
                             resourceType: string, quantity: int, durationTo: Option<Clock>,
                             status: Status, userType: Role)

  /** The request form of the teacher and student pages. */
  datatype Form = Form(name: string, classroom: string, subject: string, resourceType: string,
                       otherResource: string, quantity: Option<int>, durationTo: Option<Clock>)

  /** What a handler did: wrote, refused with the message it shows, or
      failed with an exception that it caught and logged. */
  datatype Outcome = Written | Refused(message: string) | Failed

  // ---------------------------------------------------------------------
  // Resource counts

  /** The units a resource accounts for. */
  function Total(r: Resource): int {
    r.available + r.borrowed
  }

  /** Counts that are consistent: nothing negative, and available and
      borrowed units make up the quantity. */
  predicate Balanced(r: Resource) {
    0 <= r.available && 0 <= r.borrowed && Total(r) == r.quantity
  }

  /** Lending `q` units (approval). */
  function Lent(r: Resource, q: int): Resource {
    r.(available := r.available - q, borrowed := r.borrowed + q)
  }

  /** Giving `q` units back (the expiry sweep). */
  function Returned(r: Resource, q: int): Resource {
    r.(available := r.available + q, borrowed := r.borrowed - q)
  }

  /** Lending and giving back are inverse, both keep the total, and each
      keeps the counts consistent under the guard its handler checks. */
  lemma LendReturn(r: Resource, q: int)
    ensures Returned(Lent(r, q), q) == r && Lent(Returned(r, q), q) == r
    ensures Total(Lent(r, q)) == Total(r) && Total(Returned(r, q)) == Total(r)
    ensures Balanced(r) && 0 < q <= r.available ==> Balanced(Lent(r, q))
    ensures Balanced(r) && 0 < q && r.borrowed - q >= 0 ==> Balanced(Returned(r, q))
  {
  }

  /** `docs.find(d => d.data().type === t)`: the index of the first
      resource of type `t`. */
  function FirstOfType(resources: seq<Resource>, t: string): (k: Option<nat>)
    ensures k.Some? ==> k.value < |resources| && resources[k.value].kind == t
                        && forall j :: 0 <= j < k.value ==> resources[j].kind != t
    ensures k.None? <==> forall j :: 0 <= j < |resources| ==> resources[j].kind != t
  {
    if |resources| == 0 then None
    else if resources[0].kind == t then Some(0)
    else match FirstOfType(resources[1..], t)
      case None => None
      case Some(k) => Some(k + 1)
  }

  /** `ids.filter(x => x !== id)`. */
  function Without(ids: seq<string>, id: string): (r: seq<string>)
    ensures multiset(r) == multiset(ids)[id := 0]
  {
    if |ids| == 0 then []
    else
      assert ids == [ids[0]] + ids[1..];
      if ids[0] == id then Without(ids[1..], id) else [ids[0]] + Without(ids[1..], id)
  }

  /** Filtering keeps the order: it distributes over concatenation, and
      leaves a list without `id` as it is. */
  lemma {:induction false} WithoutAppend(a: seq<string>, b: seq<string>, id: string)
    ensures Without(a + b, id) == Without(a, id) + Without(b, id)
    decreases |a|
  {
    if |a| > 0 {
      assert (a + b)[1..] == a[1..] + b;
      WithoutAppend(a[1..], b, id);
    } else {
      assert a + b == b;
    }
  }

  lemma WithoutAbsent(ids: seq<string>, id: string)
    requires id !in ids
    ensures Without(ids, id) == ids
  {
    assert multiset(ids)[id] == 0;
    if |ids| > 0 {
      WithoutAbsent(ids[1..], id);
    }
  }

  /** The sweep's due test: the current (hour, minute) is at or after the
      `durationTo` (hour, minute); the date plays no part. */
  predicate Due(now: Clock, to: Clock) {
    now.hour > to.hour || (now.hour == to.hour && now.minute >= to.minute)
  }

  /** For proper times of day, due means at least as many minutes past
      midnight. */
  lemma DueAsMinutes(now: Clock, to: Clock)
    requires 0 <= now.minute < 60 && 0 <= to.minute < 60
    ensures Due(now, to) <==> now.hour * 60 + now.minute >= to.hour * 60 + to.minute
  {
    if now.hour > to.hour {
      assert now.hour * 60 >= to.hour * 60 + 60;
    } else if now.hour < to.hour {
      assert to.hour * 60 >= now.hour * 60 + 60;
    }
  }

  // ---------------------------------------------------------------------
  // The expiry sweep, as a function of the collections

  /** The `resources` and `resourceRequests` collections. */
  datatype Stock = Stock(resources: seq<Resource>, requests: map<string, Request>)

  /** One request of the sweep: an approved, due request whose resource
      type exists gives its units back and becomes completed, unless that
      would make the borrowed count negative. */
  function SweepStep(st: Stock, id: string, now: Clock): Stock {
    if id in st.requests && st.requests[id].status == Approved
       && st.requests[id].durationTo.Some? && Due(now, st.requests[id].durationTo.value) then
      var req := st.requests[id];
      match FirstOfType(st.resources, req.resourceType)
      case None => st
      case Some(k) =>
        if st.resources[k].borrowed - req.quantity >= 0 then
          Stock(st.resources[k := Returned(st.resources[k], req.quantity)],
                st.requests[id := req.(status := Completed)])
        else st
    else st
  }

  /** The sweep over the request ids of one snapshot, in order. */
  function Sweep(st: Stock, ids: seq<string>, now: Clock): Stock
    decreases |ids|
  {
    if |ids| == 0 then st else Sweep(SweepStep(st, ids[0], now), ids[1..], now)
  }

  /** What one step changes: the resources keep their ids, types and
      totals, and a request's status only moves from approved to
      completed. */
  predicate Settles(before: Stock, after: Stock) {
    |after.resources| == |before.resources|
    && (forall k :: 0 <= k < |before.resources| ==>
          after.resources[k].id == before.resources[k].id
          && after.resources[k].kind == before.resources[k].kind
          && after.resources[k].quantity == before.resources[k].quantity
          && Total(after.resources[k]) == Total(before.resources[k]))
    && after.requests.Keys == before.requests.Keys
    && (forall id :: id in before.requests ==>
          after.requests[id] == before.requests[id]
          || (after.requests[id] == before.requests[id].(status := Completed)
              && before.requests[id].status == Approved))
  }

  /** Every resource whose counts were consistent stays so, provided the
      requests ask for positive quantities. */
  predicate Consistent(st: Stock) {
    (forall k :: 0 <= k < |st.resources| ==> Balanced(st.resources[k]))
    && (forall id :: id in st.requests ==> st.requests[id].quantity > 0)
  }

  lemma StepSettles(st: Stock, id: string, now: Clock)
    ensures Settles(st, SweepStep(st, id, now))
    ensures Consistent(st) ==> Consistent(SweepStep(st, id, now))
  {
    var after := SweepStep(st, id, now);
    if after != st {
      var req := st.requests[id];
      var k := FirstOfType(st.resources, req.resourceType).value;
      LendReturn(st.resources[k], req.quantity);
    }
  }

  lemma SettlesTrans(a: Stock, b: Stock, c: Stock)
    requires Settles(a, b) && Settles(b, c)
    ensures Settles(a, c)
  {
  }

  /** The whole sweep conserves every resource's total, never touches a
      request that was not approved, and keeps the counts consistent. */
  lemma {:induction false} SweepSettles(st: Stock, ids: seq<string>, now: Clock)
    ensures Settles(st, Sweep(st, ids, now))
    ensures Consistent(st) ==> Consistent(Sweep(st, ids, now))
    decreases |ids|
  {
    if |ids| > 0 {
      var next := SweepStep(st, ids[0], now);
      StepSettles(st, ids[0], now);
      SweepSettles(next, ids[1..], now);
      SettlesTrans(st, next, Sweep(next, ids[1..], now));
    }
  }

  /** A request the sweep cannot complete (not approved, not due, of an
      unknown type, or with too few units borrowed) leaves everything as
      it is. */
  lemma SweepStepUnchanged(st: Stock, id: string, now: Clock)
    requires id in st.requests
    requires var req := st.requests[id];
      req.status != Approved || req.durationTo.None? || !Due(now, req.durationTo.value)
      || FirstOfType(st.resources, req.resourceType).None?
      || st.resources[FirstOfType(st.resources, req.resourceType).value].borrowed < req.quantity
    ensures SweepStep(st, id, now) == st
  {
  }

  // ---------------------------------------------------------------------
  // Listing requests by status

  /** A fetched request document with its id. */
  datatype Listed = Listed(id: string, request: Request)

  /** The requests of one status and role, in order. */
  function WithStatus(fetched: seq<Listed>, status: Status, role: Role): (r: seq<Listed>)
    ensures |r| <= |fetched|
    ensures forall x :: x in r <==> x in fetched && x.request.status == status
                                                  && x.request.userType == role
  {
    if |fetched| == 0 then []
    else
      var rest := WithStatus(fetched[1..], status, role);
      assert forall x :: x in fetched <==> x == fetched[0] || x in fetched[1..];
      if fetched[0].request.status == status && fetched[0].request.userType == role
      then [fetched[0]] + rest else rest
  }

  /** The requests of one role, in order. */
  function OfRole(fetched: seq<Listed>, role: Role): seq<Listed> {
    if |fetched| == 0 then []
    else (if fetched[0].request.userType == role then [fetched[0]] else [])
         + OfRole(fetched[1..], role)
  }

  /** The four lists a page shows. */
  datatype Lists = Lists(pending: seq<Listed>, approved: seq<Listed>, rejected: seq<Listed>,
                         completed: seq<Listed>)

  function Partition(fetched: seq<Listed>, role: Role): Lists {
    Lists(WithStatus(fetched, Pending, role), WithStatus(fetched, Approved, role),
          WithStatus(fetched, Rejected, role), WithStatus(fetched, Completed, role))
  }

  /** The four lists split the requests of the role: every one of them is
      in exactly one list, so their lengths add up. */
  lemma {:induction false} PartitionCounts(fetched: seq<Listed>, role: Role)
    ensures var p := Partition(fetched, role);
      |p.pending| + |p.approved| + |p.rejected| + |p.completed| == |OfRole(fetched, role)|
  {
    if |fetched| > 0 {
      PartitionCounts(fetched[1..], role);
    }
  }

  /** The request documents that exist among `ids`, in the order of `ids`. */
  function Fetched(requests: map<string, Request>, ids: seq<string>): (r: seq<Listed>)
    ensures |r| <= |ids|
    ensures forall x :: x in r ==> x.id in ids && x.id in requests
                                   && x.request == requests[x.id]
  {
    if |ids| == 0 then []
    else
      var rest := Fetched(requests, ids[1..]);
      if ids[0] in requests then [Listed(ids[0], requests[ids[0]])] + rest else rest
  }

  /** Every existing request among the ids is fetched. */
  lemma {:induction false} FetchedComplete(requests: map<string, Request>, ids: seq<string>, id: string)
    requires id in ids && id in requests
    ensures Listed(id, requests[id]) in Fetched(requests, ids)
  {
    if ids[0] != id {
      FetchedComplete(requests, ids[1..], id);
    }
  }

  lemma FetchedAppend(requests: map<string, Request>, ids: seq<string>, id: string)
    ensures Fetched(requests, ids + [id])
            == Fetched(requests, ids) + (if id in requests then [Listed(id, requests[id])] else [])
    decreases |ids|
  {
    if |ids| > 0 {
      assert (ids + [id])[1..] == ids[1..] + [id];
      FetchedAppend(requests, ids[1..], id);
    } else {
      assert ids + [id] == [id];
    }
  }

  // ---------------------------------------------------------------------
  // Form checks

  /** `!s.trim()`. */
  predicate Blank(s: string) {
    Text.Strip(s) == []
  }

  /** The required-field check of the request form. */
  predicate FormComplete(f: Form) {
    f.name != [] && f.subject != [] && f.classroom != [] && f.resourceType != []
    && (f.resourceType == "Other" ==> f.otherResource != [])
    && f.quantity.Some?
  }

  /** The request a valid form creates: "Other" is replaced by the typed
      name, the status is pending and the role is the page's. */
  function NewRequest(f: Form, role: Role): (r: Request)
    requires f.quantity.Some?
    ensures r.status == Pending && r.userType == role && r.quantity == f.quantity.value
    ensures r.resourceType == (if f.resourceType == "Other" then f.otherResource else f.resourceType)
  {
    Request(f.name, f.classroom, f.subject,
            if f.resourceType == "Other" then f.otherResource else f.resourceType,
            f.quantity.value, f.durationTo, Pending, role)
  }

  /** The resources other than the one with this id, in order. */
  function WithoutResource(resources: seq<Resource>, id: string): (r: seq<Resource>)
    ensures |r| <= |resources|
    ensures forall x :: x in r <==> x in resources && x.id != id
  {
    if |resources| == 0 then []
    else
      var rest := WithoutResource(resources[1..], id);
      assert forall x :: x in resources <==> x == resources[0] || x in resources[1..];
      if resources[0].id == id then rest else [resources[0]] + rest
  }

  /** Removing an id that no resource has changes nothing. */
  lemma {:induction false} WithoutResourceAbsent(resources: seq<Resource>, id: string)
    ensures (forall k :: 0 <= k < |resources| ==> resources[k].id != id) ==>
      WithoutResource(resources, id) == resources
  {
    if |resources| > 0 {
      WithoutResourceAbsent(resources[1..], id);
    }
  }

  /** The collections of the inventory pages. */
  class Store {
    /** `resources`, in the order the collection lists them. */
    var resources: seq<Resource>
    /** `resourceRequests`. */
    var requests: map<string, Request>
    /** The `requests` list of each user document (an absent list reads as
        empty). */
    var users: map<string, seq<string>>

    constructor(resources: seq<Resource>, requests: map<string, Request>,
                users: map<string, seq<string>>)
      ensures this.resources == resources && this.requests == requests && this.users == users
    {
      this.resources := resources;
      this.requests := requests;
      this.users := users;
    }

    /** The counts of every resource are consistent and every request asks
        for a positive quantity. */
    predicate Valid()
      reads this
    {
      Consistent(Stock(resources, requests))
    }

    /** Whether a resource with this id exists. */
    predicate HasResource(id: string)
      reads this
    {
      exists k :: 0 <= k < |resources| && resources[k].id == id
    }

    /** `handleAddResource`: a quantity of at most 0 is refused; otherwise a
        resource with nothing borrowed is added. `getDocs` lists the
        resources by document id and `addDoc` draws the id at random, so
        the new resource's place `at` in the listing is a parameter. */
    method AddResource(newId: string, at: nat, name: string, description: string, quantity: int)
      returns (outcome: Outcome)
      requires !HasResource(newId) && at <= |resources|
      modifies this
      ensures requests == old(requests) && users == old(users)
      ensures quantity <= 0 ==>
        outcome == Refused("Quantity must be greater than 0") && resources == old(resources)
      ensures quantity > 0 ==>
        outcome == Written
        && resources == old(resources)[..at] + [Resource(newId, name, description, quantity, quantity, 0)]
                        + old(resources)[at..]
      ensures old(Valid()) ==> Valid()
    {
      if quantity <= 0 {
        return Refused("Quantity must be greater than 0");
      }
      resources := resources[..at] + [Resource(newId, name, description, quantity, quantity, 0)]
                   + resources[at..];
      outcome := Written;
    }

    /** `handleAddNewResource`: as `AddResource`, after refusing a blank
        name, description or quantity. */
    method AddNewResource(newId: string, at: nat, name: string, description: string,
                          quantity: Option<int>)
      returns (outcome: Outcome)
      requires !HasResource(newId) && at <= |resources|
      modifies this
      ensures requests == old(requests) && users == old(users)
      ensures Blank(name) || Blank(description) || quantity.None? ==>
        outcome == Refused("All fields are required.") && resources == old(resources)
      ensures !Blank(name) && !Blank(description) && quantity.Some? ==>
        (quantity.value <= 0 ==>
          outcome == Refused("Quantity must be greater than 0") && resources == old(resources))
        && (quantity.value > 0 ==>
          outcome == Written
          && resources == old(resources)[..at]
                          + [Resource(newId, name, description, quantity.value, quantity.value, 0)]
                          + old(resources)[at..])
      ensures old(Valid()) ==> Valid()
    {
      if Blank(name) || Blank(description) || quantity.None? {
        return Refused("All fields are required.");
      }
      outcome := AddResource(newId, at, name, description, quantity.value);
    }

    /** `handleDeleteResource`: the resource document goes; deleting an id
        that is not there changes nothing. */
    method DeleteResource(resourceId: string)
      modifies this
      ensures requests == old(requests) && users == old(users)
      ensures resources == WithoutResource(old(resources), resourceId)
      ensures !HasResource(resourceId)
      ensures !old(HasResource(resourceId)) ==> resources == old(resources)
      ensures old(Valid()) ==> Valid()
    {
      WithoutResourceAbsent(resources, resourceId);
      resources := WithoutResource(resources, resourceId);
    }

    /** `handleUpdateResource`: refuses a quantity of at most 0, a negative
        borrowed count, or more borrowed than the quantity; otherwise
        rewrites the resource with `available = quantity - borrowed`. An
        unknown id makes the write throw. */
    method UpdateResource(id: string, name: string, description: string, quantity: int,
                          borrowed: int)
      returns (outcome: Outcome)
      modifies this
      ensures requests == old(requests) && users == old(users)
      ensures quantity <= 0 || borrowed < 0 ==>
        outcome == Refused("Invalid quantities") && resources == old(resources)
      ensures quantity > 0 && borrowed >= 0 && quantity < borrowed ==>
        outcome == Refused("Borrowed quantity cannot exceed total quantity")
        && resources == old(resources)
      ensures 0 <= borrowed <= quantity && 0 < quantity ==>
        |resources| == |old(resources)|
        && (outcome == Written <==> old(HasResource(id)))
        && (outcome == Failed <==> !old(HasResource(id)))
        && forall k :: 0 <= k < |resources| ==>
             resources[k] == if old(resources)[k].id == id
                             then Resource(id, name, description, quantity, quantity - borrowed, borrowed)
                             else old(resources)[k]
      ensures old(Valid()) ==> Valid()
    {
      if quantity <= 0 || borrowed < 0 {
        return Refused("Invalid quantities");
      }
      if quantity < borrowed {
        return Refused("Borrowed quantity cannot exceed total quantity");
      }
      var updated := Resource(id, name, description, quantity, quantity - borrowed, borrowed);
      var found := false;
      var i := 0;
      while i < |resources|
        invariant 0 <= i <= |resources| == |old(resources)|
        invariant requests == old(requests) && users == old(users)
        invariant found <==> exists k :: 0 <= k < i && old(resources)[k].id == id
        invariant forall k :: 0 <= k < |resources| ==>
          resources[k] == if k < i && old(resources)[k].id == id then updated else old(resources)[k]
      {
        if resources[i].id == id {
          resources := resources[i := updated];
          found := true;
        }
        i := i + 1;
      }
      outcome := if found then Written else Failed;
    }

    /** `handleRequestApproval`: a missing request or a missing resource of
        its type throws before any write. The first resource of the type
        lends the requested units when it has that many available and the
        request becomes approved; otherwise nothing changes and an error is
        shown. The request's current status is not checked. */
    method RequestApproval(requestId: string) returns (outcome: Outcome)
      modifies this
      ensures users == old(users)
      ensures requestId !in old(requests) ==>
        outcome == Failed && resources == old(resources) && requests == old(requests)
      ensures requestId in old(requests) ==>
        var req := old(requests)[requestId];
        var k := FirstOfType(old(resources), req.resourceType);
        (k.None? ==> outcome == Failed && resources == old(resources) && requests == old(requests))
        && (k.Some? && old(resources)[k.value].available < req.quantity ==>
              outcome == Refused("Not enough available resources")
              && resources == old(resources) && requests == old(requests))
        && (k.Some? && old(resources)[k.value].available >= req.quantity ==>
              outcome == Written
              && resources == old(resources)[k.value := Lent(old(resources)[k.value], req.quantity)]
              && requests == old(requests)[requestId := req.(status := Approved)])
      ensures old(Valid()) ==> Valid()
    {
      if requestId !in requests {
        return Failed;
      }
      var req := requests[requestId];
      var k := FirstOfType(resources, req.resourceType);
      if k.None? {
        return Failed;
      }
      var r := resources[k.value];
      if r.available >= req.quantity {
        LendReturn(r, req.quantity);
        resources := resources[k.value := Lent(r, req.quantity)];
        requests := requests[requestId := req.(status := Approved)];
        outcome := Written;
      } else {
        outcome := Refused("Not enough available resources");
      }
    }

    /** `handleRequestRejection`: whatever its status, an existing request
        becomes rejected; a missing one makes the write throw. */
    method RequestRejection(requestId: string) returns (outcome: Outcome)
      modifies this
      ensures resources == old(resources) && users == old(users)
      ensures requestId in old(requests) ==>
        outcome == Written
        && requests == old(requests)[requestId := old(requests)[requestId].(status := Rejected)]
      ensures requestId !in old(requests) ==> outcome == Failed && requests == old(requests)
      ensures old(Valid()) ==> Valid()
    {
      if requestId !in requests {
        return Failed;
      }
      requests := requests[requestId := requests[requestId].(status := Rejected)];
      outcome := Written;
    }

    /** The admin `handleDelete`: the request is deleted and its id is
        removed from every user's list, the other ids keeping their order. */
    method DeleteRequest(id: string)
      modifies this
      ensures resources == old(resources)
      ensures requests == old(requests) - {id}
      ensures users.Keys == old(users).Keys
      ensures forall u :: u in users ==> users[u] == Without(old(users)[u], id)
      ensures old(Valid()) ==> Valid()
    {
      requests := requests - {id};
      var pending := users.Keys;
      while pending != {}
        invariant pending <= users.Keys == old(users).Keys
        invariant resources == old(resources) && requests == old(requests) - {id}
        invariant forall u :: u in users ==>
          users[u] == if u in pending then old(users)[u] else Without(old(users)[u], id)
        decreases pending
      {
        var u :| u in pending;
        if id in users[u] {
          users := users[u := Without(users[u], id)];
        } else {
          WithoutAbsent(users[u], id);
        }
        pending := pending - {u};
      }
    }

    /** `checkForExpiredRequests` (both pages): each request of the snapshot,
        in order, goes through one step of `Sweep`. The pages pass the ids of
        every `resourceRequests` document, in listing order; the contract
        holds for any list of ids, including ones with no document. */
    method CheckForExpiredRequests(now: Clock, snapshot: seq<string>)
      modifies this
      ensures users == old(users)
      ensures Stock(resources, requests) == Sweep(Stock(old(resources), old(requests)), snapshot, now)
      ensures old(Valid()) ==> Valid()
    {
      ghost var start := Stock(resources, requests);
      var i := 0;
      while i < |snapshot|
        invariant 0 <= i <= |snapshot|
        invariant users == old(users)
        invariant Sweep(Stock(resources, requests), snapshot[i..], now) == Sweep(start, snapshot, now)
      {
        ghost var before := Stock(resources, requests);
        var id := snapshot[i];
        if id in requests && requests[id].status == Approved && requests[id].durationTo.Some?
           && Due(now, requests[id].durationTo.value) {
          var k := FirstOfType(resources, requests[id].resourceType);
          if k.Some? {
            var r := resources[k.value];
            var q := requests[id].quantity;
            if r.borrowed - q >= 0 {
              resources := resources[k.value := Returned(r, q)];
              requests := requests[id := requests[id].(status := Completed)];
            }
          }
        }
        assert Stock(resources, requests) == SweepStep(before, id, now);
        assert snapshot[i..][1..] == snapshot[i + 1..];
        i := i + 1;
      }
      SweepSettles(start, snapshot, now);
    }

    /** `handleSubmit`: an incomplete form or a quantity of at most 0 is
        refused. Otherwise the request is created; the teacher page then
        appends its id to the user's list (creating the user document if
        need be), the student page only when the user document exists. */
    method Submit(role: Role, userId: string, newId: string, form: Form) returns (outcome: Outcome)
      requires newId !in requests
      modifies this
      ensures resources == old(resources)
      ensures !FormComplete(form) ==>
        outcome == Refused("Please fill in all required fields.")
        && requests == old(requests) && users == old(users)
      ensures FormComplete(form) && form.quantity.value <= 0 ==>
        outcome == Refused("Quantity must be greater than 0.")
        && requests == old(requests) && users == old(users)
      ensures FormComplete(form) && form.quantity.value > 0 ==>
        outcome == Written
        && requests == old(requests)[newId := NewRequest(form, role)]
        && (role == Teacher ==>
              users == old(users)[userId := (if userId in old(users) then old(users)[userId] else [])
                                            + [newId]])
        && (role == Student && userId in old(users) ==>
              users == old(users)[userId := old(users)[userId] + [newId]])
        && (role == Student && userId !in old(users) ==> users == old(users))
      ensures old(Valid()) ==> Valid()
    {
      if !FormComplete(form) {
        return Refused("Please fill in all required fields.");
      }
      if form.quantity.value <= 0 {
        return Refused("Quantity must be greater than 0.");
      }
      requests := requests[newId := NewRequest(form, role)];
      if role == Teacher || userId in users {
        var current := if userId in users then users[userId] else [];
        users := users[userId := current + [newId]];
      }
      outcome := Written;
    }

    /** `handleDelete` of the teacher and student pages: the request is
        deleted and its id removed from the user's own list; the teacher
        page writes the list even for a missing user document, the student
        page only for an existing one. */
    method DeleteOwnRequest(role: Role, userId: string, id: string)
      modifies this
      ensures resources == old(resources)
      ensures requests == old(requests) - {id}
      ensures role == Teacher ==>
        users == old(users)[userId := Without(if userId in old(users) then old(users)[userId] else [], id)]
      ensures role == Student ==>
        users == if userId in old(users) then old(users)[userId := Without(old(users)[userId], id)]
                 else old(users)
      ensures old(Valid()) ==> Valid()
    {
      requests := requests - {id};
      if role == Teacher || userId in users {
        var current := if userId in users then users[userId] else [];
        users := users[userId := Without(current, id)];
      }
    }

    /** `fetchRequests`: nothing for a missing user; otherwise the user's
        request documents that exist, in the order of the user's list, split
        by status among those of the page's role. */
    method FetchRequests(role: Role, userId: string) returns (r: Option<Lists>)
      ensures userId !in users ==> r == None
      ensures userId in users ==> r == Some(Partition(Fetched(requests, users[userId]), role))
    {
      if userId !in users {
        return None;
      }
      var ids := users[userId];
      var fetched: seq<Listed> := [];
      var i := 0;
      while i < |ids|
        invariant 0 <= i <= |ids|
        invariant fetched == Fetched(requests, ids[..i])
      {
        FetchedAppend(requests, ids[..i], ids[i]);
        assert ids[..i + 1] == ids[..i] + [ids[i]];
        if ids[i] in requests {
          fetched := fetched + [Listed(ids[i], requests[ids[i]])];
        }
        i := i + 1;
      }
      assert ids[..|ids|] == ids;
      r := Some(Partition(fetched, role));
    }
  }
}
