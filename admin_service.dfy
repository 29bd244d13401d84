/** The administrator's operations on categories, counters, staff profiles and
    tickets: the priority a form or JSON body supplies, new categories and
    counters, the active flag, the counter–category and user–counter
    associations, and cancelling a ticket from the admin pages. Database
    failures of the association writes are inputs: `Some(message)` for a write
    the database refuses. */
module AdminService {
  import opened Wrappers
  import opened Text
  import opened Sql
  import opened Dynamic
  import opened Entities
  import opened Associations
  import opened TicketQueries
  import opened TicketRepository
  import opened Store
  import StaffService

  // ---------------------------------------------------------------------------
  // The priority field.

  /** getPriorityFromInterface: an integer is taken as is, a string is read as
      a decimal (the empty or unreadable string gives 0), anything else gives 0. */
  function PriorityOf(v: Value): (p: int)
    ensures v.VInt? ==> p == v.i
    ensures v.VString? && Atoi(v.s).Some? ==> p == Atoi(v.s).value
    ensures v.VString? && Atoi(v.s).None? ==> p == 0
    ensures !v.VInt? && !v.VString? ==> p == 0
  {
    match v
    case VInt(i) => i
    case VString(s) =>
      if s == "" then 0
      else (
        match Atoi(s)
        case Some(parsed) => parsed
        case None => 0)
    case _ => 0
  }

  /** A form that posts the priority as text gets the same priority as a JSON body that posts the number. */
  lemma PriorityFormMatchesJson(i: int)
    requires IsInt64(i)
    ensures PriorityOf(VString(IntToDecimal(i))) == PriorityOf(VInt(i)) == i
  {
    AtoiRoundTrip(i);
  }

  /** No priority, an empty one and a non-number all fall back to 0. */
  lemma PriorityDefaultsToZero()
    ensures PriorityOf(VNull) == 0 && PriorityOf(VString("")) == 0 && PriorityOf(VString("high")) == 0
    ensures PriorityOf(VBool(true)) == 0
  {
    assert Atoi("high").None? by {
      assert !IsDigit('h');
    }
  }

  /** `sql.NullString{String: s, Valid: s != ""}`. */
  function NullIfEmpty(s: string): (n: NullString)
    ensures n.str == s && (n.valid <==> s != "")
  {
    NullString(s, s != "")
  }

  // ---------------------------------------------------------------------------
  // Categories.

  datatype CreateCategoryRequest = CreateCategoryRequest(
    name: string, prefix: string, priority: Value, colorCode: string, description: string, icon: string)

  /** The category CreateCategory hands to the repository. */
  function NewCategory(req: CreateCategoryRequest): (c: Category)
    ensures c.isActive && c.priority == PriorityOf(req.priority)
    ensures c.name == req.name && c.prefix == req.prefix && c.colorCode == req.colorCode
    ensures c.description == NullIfEmpty(req.description) && c.icon == NullIfEmpty(req.icon)
  {
    Category(0, req.name, req.prefix, PriorityOf(req.priority), req.colorCode,
             NullIfEmpty(req.description), NullIfEmpty(req.icon), true)
  }

  method CreateCategory(store: Store, req: CreateCategoryRequest) returns (created: Category)
    modifies store
    ensures (store.State(), created) == InsertedCategory(old(store.State()), NewCategory(req))
  {
    created := store.CreateCategory(NewCategory(req));
  }

  /** A new category is active, gets a fresh id, keeps every other category and
      leaves the store consistent. */
  lemma CreatedCategoryIsActive(db: DB, req: CreateCategoryRequest)
    requires Consistent(db)
    ensures var (db', c) := InsertedCategory(db, NewCategory(req));
      && c.isActive && c.priority == PriorityOf(req.priority)
      && c.id !in db.categories && db'.categories == db.categories[c.id := c]
      && db'.(categories := db.categories, nextCategoryId := db.nextCategoryId) == db
      && Consistent(db')
  {
  }

  /** UpdateCategoryStatus: look the category up, then write it back with only the flag changed. */
  function UpdateCategoryStatusSpec(db: DB, id: int, isActive: bool): (o: (Result<Category>, DB))
    ensures o.0.Err? <==> id !in db.categories
    ensures o.0.Err? ==> o == (Err(NoRowsMessage), db)
    ensures o.0.Ok? ==> o.0.value.isActive == isActive && o.0.value.(isActive := db.categories[id].isActive) == db.categories[id]
    ensures o.1.tickets == db.tickets && o.1.counters == db.counters && o.1.users == db.users
    ensures o.1.categories.Keys == db.categories.Keys
  {
    match CategoryLookup(db, id)
    case Err(e) => (Err(e), db)
    case Ok(c) =>
      var updated := c.(isActive := isActive);
      (Ok(updated), WithCategory(db, updated))
  }

  method UpdateCategoryStatus(store: Store, id: int, isActive: bool) returns (r: Result<Category>)
    modifies store
    ensures (r, store.State()) == UpdateCategoryStatusSpec(old(store.State()), id, isActive)
  {
    var category := store.GetCategory(id);
    if category.Err? {
      return Err(category.error);
    }
    var updated := category.value.(isActive := isActive);
    store.UpdateCategory(updated);
    r := Ok(updated);
  }

  /** A missing category is an error and nothing changes; otherwise only the
      category's active flag changes, and nothing else in the store. */
  lemma StatusChangesOnlyFlag(db: DB, id: int, isActive: bool)
    requires Consistent(db)
    ensures var (r, db') := UpdateCategoryStatusSpec(db, id, isActive);
      && (id !in db.categories ==> r.Err? && db' == db)
      && (id in db.categories ==>
            r == Ok(db.categories[id].(isActive := isActive))
            && db' == db.(categories := db.categories[id := db.categories[id].(isActive := isActive)]))
  {
  }

  /** Switching a category off and back to its old flag restores the store. */
  lemma StatusToggleRestores(db: DB, id: int, isActive: bool)
    requires Consistent(db) && id in db.categories
    ensures var db' := UpdateCategoryStatusSpec(db, id, isActive).1;
      UpdateCategoryStatusSpec(db', id, db.categories[id].isActive).1 == db
  {
    var db' := UpdateCategoryStatusSpec(db, id, isActive).1;
    StatusChangesOnlyFlag(db, id, isActive);
    assert db'.categories[id].id == id;
    assert db'.categories[id := db.categories[id]] == db.categories;
  }

  // ---------------------------------------------------------------------------
  // Counters and their categories.

  datatype CreateCounterRequest = CreateCounterRequest(number: string, name: string, location: string, categoryIds: seq<int>)

  /** The counter CreateCounter hands to the repository: always offline. */
  function NewCounter(req: CreateCounterRequest): (c: Counter)
    ensures c.status == Offline && c.number == req.number
    ensures c.name == NullIfEmpty(req.name) && c.location == NullIfEmpty(req.location)
    ensures c.categoryId.None? && c.currentStaffId.None?
  {
    Counter(0, req.number, NullIfEmpty(req.name), NullIfEmpty(req.location), Offline, None, None)
  }

  /** The category ids whose association insert the database accepts, in list order. */
  function AcceptedIds(counterId: int, ids: seq<int>, rejects: Association -> Option<string>): (r: seq<int>)
    ensures |r| <= |ids|
    ensures (forall j | 0 <= j < |ids| :: rejects(Association(counterId, ids[j])).None?) ==> r == ids
  {
    if |ids| == 0 then []
    else
      var n := |ids| - 1;
      var front := AcceptedIds(counterId, ids[..n], rejects);
      assert ids[..n] + [ids[n]] == ids;
      front + (if rejects(Association(counterId, ids[n])).None? then [ids[n]] else [])
  }

  /** Only ids of the list whose insert the database accepts are kept. */
  lemma {:induction false} AcceptedAreAccepted(counterId: int, ids: seq<int>, rejects: Association -> Option<string>)
    ensures forall k | k in AcceptedIds(counterId, ids, rejects) :: k in ids && rejects(Association(counterId, k)).None?
  {
    if |ids| > 0 {
      var n := |ids| - 1;
      AcceptedAreAccepted(counterId, ids[..n], rejects);
      assert forall k | k in ids[..n] :: k in ids;
    }
  }

  /** CreateCounter: the new counter, then one association insert per category
      id whose failure is ignored. */
  function CreateCounterSpec(db: DB, req: CreateCounterRequest, rejects: Association -> Option<string>): (o: (Counter, DB))
    ensures o.0.id == db.nextCounterId && o.0.status == Offline && o.0.number == req.number
    ensures o.1.counters == db.counters[o.0.id := o.0] && o.1.nextCounterId == db.nextCounterId + 1
    ensures o.1.tickets == db.tickets && o.1.categories == db.categories && o.1.users == db.users
    ensures |db.counterCategories| <= |o.1.counterCategories| <= |db.counterCategories| + |req.categoryIds|
    ensures o.1.counterCategories[..|db.counterCategories|] == db.counterCategories
  {
    var (db1, created) := InsertedCounter(db, NewCounter(req));
    (created, db1.(counterCategories := db1.counterCategories + Links(created.id, AcceptedIds(created.id, req.categoryIds, rejects))))
  }

  lemma AcceptedSnoc(counterId: int, ids: seq<int>, rejects: Association -> Option<string>, i: int)
    requires 0 <= i < |ids|
    ensures AcceptedIds(counterId, ids[..i + 1], rejects)
      == AcceptedIds(counterId, ids[..i], rejects) + (if rejects(Association(counterId, ids[i])).None? then [ids[i]] else [])
  {
    assert ids[..i + 1][..i] == ids[..i];
  }

  lemma LinksSnoc(counterId: int, a: seq<int>, x: int)
    ensures Links(counterId, a + [x]) == Links(counterId, a) + [Association(counterId, x)]
  {
  }

  method CreateCounter(store: Store, req: CreateCounterRequest, rejects: Association -> Option<string>)
    returns (created: Counter)
    modifies store
    ensures (created, store.State()) == CreateCounterSpec(old(store.State()), req, rejects)
  {
    created := store.CreateCounter(NewCounter(req));
    AddCategories(store, created.id, req.categoryIds, rejects);
  }

  /** The association loop of CreateCounter: one insert per id, a refused insert skipped. */
  method AddCategories(store: Store, counterId: int, ids: seq<int>, rejects: Association -> Option<string>)
    modifies store
    ensures store.State() == old(store.State()).(counterCategories := old(store.counterCategories) + Links(counterId, AcceptedIds(counterId, ids, rejects)))
  {
    ghost var db1 := store.State();
    ghost var accepted: seq<int> := [];
    var i := 0;
    while i < |ids|
      invariant 0 <= i <= |ids|
      invariant accepted == AcceptedIds(counterId, ids[..i], rejects)
      invariant store.State() == db1.(counterCategories := db1.counterCategories + Links(counterId, accepted))
    {
      AcceptedSnoc(counterId, ids, rejects, i);
      if rejects(Association(counterId, ids[i])).None? {
        LinksSnoc(counterId, accepted, ids[i]);
        store.CreateCounterCategory(counterId, ids[i]);
        accepted := accepted + [ids[i]];
      }
      i := i + 1;
    }
    assert ids[..|ids|] == ids;
  }

  /** No counter_category row names a counter id that has not been handed out yet. */
  lemma {:induction false} FreshCounterHasNoCategories(rows: seq<Association>, counterId: int)
    requires forall i | 0 <= i < |rows| :: rows[i].owner < counterId
    ensures LinkedIds(rows, counterId) == []
  {
    if |rows| > 0 {
      FreshCounterHasNoCategories(rows[..|rows| - 1], counterId);
    }
  }

  /** A new counter is offline under a fresh id, serves exactly the accepted
      category ids (all of them when no insert fails), and the store stays consistent. */
  lemma CreatedCounterIsOffline(db: DB, req: CreateCounterRequest, rejects: Association -> Option<string>)
    requires Consistent(db)
    ensures var (c, db') := CreateCounterSpec(db, req, rejects);
      && c.status == Offline && c.id !in db.counters && db'.counters == db.counters[c.id := c]
      && LinkedIds(db'.counterCategories, c.id) == AcceptedIds(c.id, req.categoryIds, rejects)
      && ((forall k | k in req.categoryIds :: rejects(Association(c.id, k)).None?) ==>
            LinkedIds(db'.counterCategories, c.id) == req.categoryIds)
      && Consistent(db')
  {
    var (c, db') := CreateCounterSpec(db, req, rejects);
    var accepted := AcceptedIds(c.id, req.categoryIds, rejects);
    NewCounterReadsBack(db.counterCategories, c.id, accepted);
    NewRowsBelowSerial(db.counterCategories, c.id, accepted);
  }

  lemma NewCounterReadsBack(rows: seq<Association>, counterId: int, accepted: seq<int>)
    requires forall i | 0 <= i < |rows| :: rows[i].owner < counterId
    ensures LinkedIds(rows + Links(counterId, accepted), counterId) == accepted
  {
    FreshCounterHasNoCategories(rows, counterId);
    LinkedIdsConcat(rows, Links(counterId, accepted), counterId);
    LinksReadBack(counterId, accepted, counterId + 1);
  }

  lemma NewRowsBelowSerial(rows: seq<Association>, counterId: int, accepted: seq<int>)
    requires forall i | 0 <= i < |rows| :: rows[i].owner < counterId
    ensures var all := rows + Links(counterId, accepted);
      forall i | 0 <= i < |all| :: all[i].owner < counterId + 1
  {
    var all := rows + Links(counterId, accepted);
    forall i | 0 <= i < |all|
      ensures all[i].owner < counterId + 1
    {
      if i >= |rows| {
        assert all[i] == Links(counterId, accepted)[i - |rows|];
      }
    }
  }

  /** The index of the first category id whose insert is refused, or the list's length. */
  function FirstRejected(counterId: int, ids: seq<int>, rejects: Association -> Option<string>): (k: nat)
    ensures k <= |ids|
    ensures forall j | 0 <= j < k :: rejects(Association(counterId, ids[j])).None?
    ensures k < |ids| ==> rejects(Association(counterId, ids[k])).Some?
  {
    if |ids| == 0 || rejects(Association(counterId, ids[0])).Some? then 0
    else 1 + FirstRejected(counterId, ids[1..], rejects)
  }

  lemma {:induction false} FirstRejectedAt(counterId: int, ids: seq<int>, rejects: Association -> Option<string>, i: nat)
    requires i <= |ids|
    requires forall j | 0 <= j < i :: rejects(Association(counterId, ids[j])).None?
    requires i < |ids| ==> rejects(Association(counterId, ids[i])).Some?
    ensures FirstRejected(counterId, ids, rejects) == i
  {
    if i > 0 {
      assert forall j | 0 <= j < i - 1 :: ids[1..][j] == ids[j + 1];
      FirstRejectedAt(counterId, ids[1..], rejects, i - 1);
    }
  }

  /** AssignCategoriesToCounter: a failed delete returns its error and changes
      nothing; otherwise the counter's rows are deleted and the ids inserted in
      order until the first refused insert, whose error is returned. */
  function AssignSpec(db: DB, counterId: int, ids: seq<int>, deleteError: Option<string>,
                      rejects: Association -> Option<string>): (o: (Option<string>, DB))
    ensures deleteError.Some? ==> o == (deleteError, db)
    ensures o.1.(counterCategories := db.counterCategories) == db
    ensures deleteError.None? && o.0.Some? ==> exists j | 0 <= j < |ids| :: rejects(Association(counterId, ids[j])) == o.0
    ensures deleteError.None? && o.0.None? ==> forall j | 0 <= j < |ids| :: rejects(Association(counterId, ids[j])).None?
  {
    if deleteError.Some? then (deleteError, db)
    else
      var k := FirstRejected(counterId, ids, rejects);
      var rows := WithoutOwner(db.counterCategories, counterId) + Links(counterId, ids[..k]);
      (if k < |ids| then rejects(Association(counterId, ids[k])) else None, db.(counterCategories := rows))
  }

  method AssignCategoriesToCounter(store: Store, counterId: int, ids: seq<int>, deleteError: Option<string>,
                                   rejects: Association -> Option<string>) returns (err: Option<string>)
    modifies store
    ensures (err, store.State()) == AssignSpec(old(store.State()), counterId, ids, deleteError, rejects)
  {
    if deleteError.Some? {
      return deleteError;
    }
    store.DeleteCounterCategories(counterId);
    ghost var db1 := store.State();
    var i := 0;
    while i < |ids|
      invariant 0 <= i <= |ids|
      invariant forall j | 0 <= j < i :: rejects(Association(counterId, ids[j])).None?
      invariant store.State() == db1.(counterCategories := db1.counterCategories + Links(counterId, ids[..i]))
    {
      var e := rejects(Association(counterId, ids[i]));
      if e.Some? {
        FirstRejectedAt(counterId, ids, rejects, i);
        return e;
      }
      LinksAppend(counterId, ids, i);
      store.CreateCounterCategory(counterId, ids[i]);
      i := i + 1;
    }
    FirstRejectedAt(counterId, ids, rejects, |ids|);
    assert ids[..|ids|] == ids;
    err := None;
  }

  /** When every write succeeds the counter serves exactly the given ids, in
      order, and every other counter keeps its categories. */
  lemma AssignReplaces(db: DB, counterId: int, ids: seq<int>, rejects: Association -> Option<string>, other: int)
    requires forall k | k in ids :: rejects(Association(counterId, k)).None?
    requires other != counterId
    ensures var (err, db') := AssignSpec(db, counterId, ids, None, rejects);
      && err.None?
      && LinkedIds(db'.counterCategories, counterId) == ids
      && LinkedIds(db'.counterCategories, other) == LinkedIds(db.counterCategories, other)
      && db'.(counterCategories := db.counterCategories) == db
  {
    AssignStopsAtFirstError(db, counterId, ids, rejects, other);
    assert ids[..|ids|] == ids;
  }

  /** A refused insert stops the loop: the error is returned and the counter
      keeps just the ids before it. */
  lemma AssignStopsAtFirstError(db: DB, counterId: int, ids: seq<int>, rejects: Association -> Option<string>, other: int)
    requires other != counterId
    ensures var (err, db') := AssignSpec(db, counterId, ids, None, rejects);
      var k := FirstRejected(counterId, ids, rejects);
      && (err.Some? <==> k < |ids|)
      && (k < |ids| ==> err == rejects(Association(counterId, ids[k])))
      && LinkedIds(db'.counterCategories, counterId) == ids[..k]
      && LinkedIds(db'.counterCategories, other) == LinkedIds(db.counterCategories, other)
  {
    var k := FirstRejected(counterId, ids, rejects);
    var kept := WithoutOwner(db.counterCategories, counterId);
    WithoutOwnerReads(db.counterCategories, counterId, other);
    LinksReadBack(counterId, ids[..k], other);
    LinkedIdsConcat(kept, Links(counterId, ids[..k]), counterId);
    LinkedIdsConcat(kept, Links(counterId, ids[..k]), other);
  }

  /** Assigning the same list twice leaves the same table as assigning it once. */
  lemma AssignIdempotent(db: DB, counterId: int, ids: seq<int>, rejects: Association -> Option<string>)
    ensures var db' := AssignSpec(db, counterId, ids, None, rejects).1;
      AssignSpec(db', counterId, ids, None, rejects).1 == db'
  {
    var k := FirstRejected(counterId, ids, rejects);
    var kept := WithoutOwner(db.counterCategories, counterId);
    WithoutOwnerConcat(kept, Links(counterId, ids[..k]), counterId);
    WithoutOwnerIdempotent(db.counterCategories, counterId);
    LinksReadBack(counterId, ids[..k], counterId + 1);
    assert kept + [] == kept;
  }

  // ---------------------------------------------------------------------------
  // Staff profiles and their counter.

  datatype UpdateUserRequest = UpdateUserRequest(fullName: string, email: string, phone: string, role: string, counterId: Option<int>)

  /** The user UpdateUserProfile returns: empty texts are NULL, the role is the request's. */
  function EditedProfile(u: User, req: UpdateUserRequest): (e: User)
    ensures e.id == u.id && e.username == u.username && e.isActive == u.isActive && e.counterId == u.counterId
    ensures e.fullName == NullIfEmpty(req.fullName) && e.email == NullIfEmpty(req.email)
    ensures e.phone == NullIfEmpty(req.phone) && e.role == req.role
  {
    u.(fullName := NullIfEmpty(req.fullName), email := NullIfEmpty(req.email), phone := NullIfEmpty(req.phone), role := req.role)
  }

  /** The row UserRepository.Update writes: it passes each text's `.String`, so
      an empty text is stored as '' rather than NULL. */
  function StoredProfile(e: User): (s: User)
    ensures s.fullName == NullString(e.fullName.str, true) && s.email == NullString(e.email.str, true)
    ensures s.phone == NullString(e.phone.str, true)
    ensures s.(fullName := e.fullName, email := e.email, phone := e.phone) == e
  {
    e.(fullName := NullString(e.fullName.str, true), email := NullString(e.email.str, true),
       phone := NullString(e.phone.str, true))
  }

  /** The association writes of UpdateUserProfile, whose errors are ignored:
      a delete that fails leaves the old rows, an insert that fails adds none. */
  function ReassignedCounters(rows: seq<Association>, userId: int, counterId: Option<int>,
                              deleteFails: bool, insertFails: bool): (r: seq<Association>)
  {
    var cleared := if deleteFails then rows else WithoutOwner(rows, userId);
    if counterId.Some? && !insertFails then cleared + [Association(userId, counterId.value)] else cleared
  }

  function UpdateUserProfileSpec(db: DB, id: int, req: UpdateUserRequest, deleteFails: bool, insertFails: bool): (o: (Result<User>, DB))
    ensures o.0.Err? <==> id !in db.users
    ensures o.0.Err? ==> o == (Err(NoRowsMessage), db)
    ensures o.0.Ok? ==> o.0.value.username == db.users[id].username && o.0.value.role == req.role
    ensures o.0.Ok? && db.users[id].id == id ==>
      && id in o.1.users && o.1.users == db.users[id := o.1.users[id]]
      && o.1.users[id].fullName.str == req.fullName && o.1.users[id].email.str == req.email
      && o.1.users[id].phone.str == req.phone
    ensures o.1.tickets == db.tickets && o.1.counters == db.counters && o.1.categories == db.categories
  {
    match UserLookup(db, id)
    case Err(e) => (Err(e), db)
    case Ok(u) =>
      var edited := EditedProfile(u, req);
      var db1 := WithUser(db, StoredProfile(edited));
      (Ok(edited), db1.(userCounters := ReassignedCounters(db1.userCounters, id, req.counterId, deleteFails, insertFails)))
  }

  method UpdateUserProfile(store: Store, id: int, req: UpdateUserRequest, deleteFails: bool, insertFails: bool)
    returns (r: Result<User>)
    modifies store
    ensures (r, store.State()) == UpdateUserProfileSpec(old(store.State()), id, req, deleteFails, insertFails)
  {
    var user := store.GetUser(id);
    if user.Err? {
      return Err(user.error);
    }
    var edited := EditedProfile(user.value, req);
    store.UpdateUser(StoredProfile(edited));
    if !deleteFails {
      store.DeleteUserCounters(id);
    }
    if req.counterId.Some? && !insertFails {
      store.CreateUserCounter(id, req.counterId.value);
    }
    r := Ok(edited);
  }

  /** When the association writes succeed the user works at exactly the given
      counter, or at none without one, and every other user keeps theirs; an
      unknown user is an error and nothing changes. */
  lemma ProfileSetsCounter(db: DB, id: int, req: UpdateUserRequest, other: int)
    requires other != id
    ensures var (r, db') := UpdateUserProfileSpec(db, id, req, false, false);
      && (id !in db.users ==> r.Err? && db' == db)
      && (id in db.users ==>
            r.Ok? && r.value == EditedProfile(db.users[id], req)
            && LinkedIds(db'.userCounters, id) == (if req.counterId.Some? then [req.counterId.value] else [])
            && LinkedIds(db'.userCounters, other) == LinkedIds(db.userCounters, other))
  {
    if id in db.users {
      ReassignReads(db.userCounters, id, req.counterId, other);
    }
  }

  lemma ReassignReads(rows: seq<Association>, id: int, counterId: Option<int>, other: int)
    requires other != id
    ensures var r := ReassignedCounters(rows, id, counterId, false, false);
      && LinkedIds(r, id) == (if counterId.Some? then [counterId.value] else [])
      && LinkedIds(r, other) == LinkedIds(rows, other)
  {
    var cleared := WithoutOwner(rows, id);
    WithoutOwnerReads(rows, id, other);
    if counterId.Some? {
      LinkedIdsAppend(cleared, Association(id, counterId.value), id);
      LinkedIdsAppend(cleared, Association(id, counterId.value), other);
    }
  }

  /** Because the delete's error is ignored, a failed delete followed by a
      successful insert leaves the user with the old counters plus the new one. */
  lemma ProfileFailedDeleteAddsCounter(db: DB, id: int, req: UpdateUserRequest)
    requires id in db.users && req.counterId.Some?
    ensures var db' := UpdateUserProfileSpec(db, id, req, true, false).1;
      LinkedIds(db'.userCounters, id) == LinkedIds(db.userCounters, id) + [req.counterId.value]
  {
    LinkedIdsAppend(db.userCounters, Association(id, req.counterId.value), id);
  }

  /** The profile returned says NULL for an empty text, while the stored row holds ''. */
  lemma ProfileEmptyTextStoredAsEmpty(db: DB, id: int, req: UpdateUserRequest)
    requires id in db.users && db.users[id].id == id && req.fullName == ""
    ensures var (r, db') := UpdateUserProfileSpec(db, id, req, false, false);
      r.Ok? && !r.value.fullName.valid && db'.users[id].fullName == NullString("", true)
  {
  }

  // ---------------------------------------------------------------------------
  // Cancelling from the admin pages.

  /** CancelTicket: the status is set to cancelled, then the ticket is read back with its details. */
  function AdminCancelSpec(db: DB, id: int): (o: (Result<TicketDetails>, DB))
    ensures o.1.counters == db.counters && o.1.users == db.users && |o.1.tickets| == |db.tickets|
    ensures o.0.Ok? ==> o.0.value.ticket.id == id && o.0.value.ticket.status == Cancelled
    ensures (forall t | t in db.tickets :: t.id != id) ==> o == (Err(NoRowsMessage), db)
  {
    var db1 := WithTicketStatus(db, id, Cancelled);
    assert (forall t | t in db.tickets :: t.id != id) ==> db1.tickets == db.tickets;
    (DetailsById(db1, id), db1)
  }

  method CancelTicket(store: Store, id: int) returns (r: Result<TicketDetails>)
    modifies store
    ensures (r, store.State()) == AdminCancelSpec(old(store.State()), id)
  {
    store.UpdateStatus(id, Cancelled);
    r := store.GetWithDetails(id);
  }

  /** The admin cancel writes what the staff cancel writes; whatever the
      ticket's status was, it reads back cancelled when its category exists. */
  lemma {:induction false} AdminCancelAnyStatus(db: DB, id: int, i: int)
    requires Consistent(db) && 0 <= i < |db.tickets| && db.tickets[i].id == id
    requires db.tickets[i].categoryId.Some? && db.tickets[i].categoryId.value in db.categories
    ensures var (r, db') := AdminCancelSpec(db, id);
      && db' == StaffService.CancelSpec(db, id).db
      && r.Ok? && r.value.ticket.id == id && r.value.ticket.status == Cancelled
      && r.value.category.id == db.tickets[i].categoryId.value
  {
    var db1 := WithTicketStatus(db, id, Cancelled);
    assert UniqueIds(db1.tickets) by {
      assert forall j | 0 <= j < |db.tickets| :: db1.tickets[j].id == db.tickets[j].id;
    }
    FindUnique(db1.tickets, i);
    assert db1.tickets[i] == StatusUpdated(db.tickets[i], Cancelled, db.clock);
  }
}
