/**
 * The ticket handlers over the ticket store, with their permission rules:
 * a consultant sees and edits only tickets they created and may edit only
 * the title and description; every other role sees all tickets and may
 * also edit status, priority and category. Assignment and deletion carry
 * no check of their own (the routes gate them by role).
 */
module TicketController {
  import opened Options
  import opened JsString
  import ObjectIds
  import opened Http
  import opened TicketModel
  import opened UserModel
  import opened AuthMiddleware

  const TicketNotFound := "Ticket non trouvé"
  const ViewForbidden := "Non autorisé à voir ce ticket"
  const UpdateForbidden := "Non autorisé à modifier ce ticket"
  const AssigneeRequired := "L'ID de l'utilisateur est requis"
  const TicketDeleted := "Ticket supprimé"

  /** A user reference after `populate(path, 'name email role')`. */
  datatype UserRef = UserRef(id: string, name: string, email: string, role: Role)

  /** A ticket as list, get, update and assign return it: both user
      references populated, null where the referenced user is absent. */
  datatype TicketView = TicketView(
    id: string,
    title: string,
    description: string,
    status: Status,
    priority: Priority,
    category: Category,
    createdBy: Option<UserRef>,
    assignedTo: Option<UserRef>,
    createdAt: int,
    updatedAt: int)

  /** What create returns: the new record, references unpopulated. */
  datatype StoredTicket = StoredTicket(id: string, ticket: Ticket)

  /** The list payload `{count, tickets}`. */
  datatype Listing = Listing(count: nat, tickets: seq<TicketView>)

  /** The delete payload `{message, ticketId}`. */
  datatype Deletion = Deletion(message: string, ticketId: string)

  function Populate(users: map<string, User>, ref: Option<string>): (r: Option<UserRef>)
    ensures r.Some? <==> ref.Some? && ref.value in users
    ensures r.Some? ==>
              && r.value.id == ref.value && r.value.name == users[ref.value].name
              && r.value.email == users[ref.value].email && r.value.role == users[ref.value].role
  {
    match ref
    case None => None
    case Some(id) =>
      if id in users then Some(UserRef(id, users[id].name, users[id].email, users[id].role)) else None
  }

  function View(id: string, t: Ticket, users: map<string, User>): TicketView {
    TicketView(id, t.title, t.description, t.status, t.priority, t.category,
               Populate(users, Some(t.createdBy)), Populate(users, t.assignedTo), t.createdAt, t.updatedAt)
  }

  // ---------------------------------------------------------------------
  // Permission rules
  // ---------------------------------------------------------------------

  predicate IsConsultant(caller: Identity) {
    caller.role == "consultant"
  }

  /** The ownership test: the stored creator against the caller's id. */
  predicate Owns(caller: Identity, t: Ticket) {
    t.createdBy == caller.id
  }

  /** Who may read or edit a ticket: anyone but a consultant, or its creator. */
  predicate MayAccess(caller: Identity, t: Ticket) {
    !IsConsultant(caller) || Owns(caller, t)
  }

  /** The fields an update may change, by role. */
  function AllowedFields(caller: Identity): seq<string> {
    if IsConsultant(caller) then ["title", "description"]
    else ["title", "description", "status", "priority", "category"]
  }

  /** The update document: each allowed field that the body defines. */
  function UpdateData(caller: Identity, body: map<string, string>): (d: map<string, string>)
    ensures forall f :: f in d <==> f in AllowedFields(caller) && f in body
    ensures forall f :: f in d ==> d[f] == body[f]
  {
    map f | f in AllowedFields(caller) && f in body :: body[f]
  }

  /** A consultant's update can only ever mention title and description,
      whatever else the body holds. */
  lemma ConsultantUpdateAllowList(caller: Identity, body: map<string, string>)
    requires IsConsultant(caller)
    ensures UpdateData(caller, body).Keys <= {"title", "description"}
  {
  }

  /** `findByIdAndUpdate` with validators: the trim setter on the title, the
      required validators on title and description, the enum validators,
      and the `updatedAt` timestamp; None when a validator refuses. */
  function ApplyUpdate(t: Ticket, data: map<string, string>, now: int): (r: Option<Ticket>)
    ensures r.None? <==>
      || ("title" in data && Trim(data["title"]) == "")
      || ("description" in data && data["description"] == "")
      || ("status" in data && ParseStatus(data["status"]).None?)
      || ("priority" in data && ParsePriority(data["priority"]).None?)
      || ("category" in data && ParseCategory(data["category"]).None?)
    ensures r.Some? ==>
              && r.value.createdBy == t.createdBy && r.value.assignedTo == t.assignedTo
              && r.value.createdAt == t.createdAt && r.value.updatedAt == now
              && r.value.title == (if "title" in data then Trim(data["title"]) else t.title)
              && r.value.description == (if "description" in data then data["description"] else t.description)
              && ("status" in data ==> StatusName(r.value.status) == data["status"])
              && ("status" !in data ==> r.value.status == t.status)
              && ("priority" in data ==> PriorityName(r.value.priority) == data["priority"])
              && ("priority" !in data ==> r.value.priority == t.priority)
              && ("category" in data ==> CategoryName(r.value.category) == data["category"])
              && ("category" !in data ==> r.value.category == t.category)
    ensures r.Some? && ValidTicket(t) ==> ValidTicket(r.value)
  {
    var status := if "status" in data then ParseStatus(data["status"]) else Some(t.status);
    var priority := if "priority" in data then ParsePriority(data["priority"]) else Some(t.priority);
    var category := if "category" in data then ParseCategory(data["category"]) else Some(t.category);
    if "title" in data && Trim(data["title"]) == "" then None
    else if "description" in data && data["description"] == "" then None
    else if status.None? || priority.None? || category.None? then None
    else
      var title := if "title" in data then Trim(data["title"]) else t.title;
      TrimmedExactly(if "title" in data then data["title"] else "");
      Some(t.(title := title,
              description := if "description" in data then data["description"] else t.description,
              status := status.value, priority := priority.value, category := category.value,
              updatedAt := now))
  }

  /** Applying the same update document again changes nothing more. */
  lemma ApplyUpdateIdempotent(t: Ticket, data: map<string, string>, now: int)
    requires ApplyUpdate(t, data, now).Some?
    ensures ApplyUpdate(ApplyUpdate(t, data, now).value, data, now) == ApplyUpdate(t, data, now)
  {
  }

  /** The store after an update request. */
  function UpdatedStore(store: map<string, Ticket>, caller: Identity, rawId: string,
                        body: map<string, string>, now: int): map<string, Ticket>
  {
    match ObjectIds.Cast(rawId)
    case None => store
    case Some(k) =>
      if k !in store || !MayAccess(caller, store[k]) then store
      else match ApplyUpdate(store[k], UpdateData(caller, body), now)
        case None => store
        case Some(t) => store[k := t]
  }

  /** The answer to an update request: 404 for a malformed or unknown id,
      403 for a consultant who is not the creator, 500 when a validator
      refuses, otherwise the updated ticket. */
  function UpdateReply(store: map<string, Ticket>, caller: Identity, rawId: string,
                       body: map<string, string>, users: map<string, User>, now: int): Reply<TicketView>
  {
    match ObjectIds.Cast(rawId)
    case None => NotFound(TicketNotFound)
    case Some(k) =>
      if k !in store then NotFound(TicketNotFound)
      else if !MayAccess(caller, store[k]) then Forbidden(UpdateForbidden)
      else match ApplyUpdate(store[k], UpdateData(caller, body), now)
        case None => ServerError(ValidationFailed)
        case Some(t) => Ok(200, View(k, t, users))
  }

  /** An update is refused with 403 exactly when a consultant addresses an
      existing ticket someone else created, and then the store is unchanged. */
  lemma UpdateForbiddenExactly(store: map<string, Ticket>, caller: Identity, rawId: string,
                               body: map<string, string>, users: map<string, User>, now: int)
    ensures UpdateReply(store, caller, rawId, body, users, now).Forbidden? <==>
      exists k :: ObjectIds.Cast(rawId) == Some(k) && k in store && IsConsultant(caller) && !Owns(caller, store[k])
    ensures UpdateReply(store, caller, rawId, body, users, now).Forbidden? ==>
      UpdatedStore(store, caller, rawId, body, now) == store
  {
  }

  /** An update touches at most the addressed ticket, never its creator or
      assignee, a consultant's never its status, priority or category, and
      a consultant's on someone else's ticket nothing at all. */
  lemma UpdateFrame(store: map<string, Ticket>, caller: Identity, rawId: string,
                    body: map<string, string>, now: int)
    ensures var after := UpdatedStore(store, caller, rawId, body, now);
      && after.Keys == store.Keys
      && (forall k :: k in store && Some(k) != ObjectIds.Cast(rawId) ==> after[k] == store[k])
      && (forall k :: k in store ==>
            after[k].createdBy == store[k].createdBy && after[k].assignedTo == store[k].assignedTo)
      && (IsConsultant(caller) ==> forall k :: k in store ==>
            after[k].status == store[k].status && after[k].priority == store[k].priority
            && after[k].category == store[k].category)
      && (forall k :: k in store && !MayAccess(caller, store[k]) ==> after[k] == store[k])
  {
  }

  /** Sending the same update twice (same clock reading) leaves the store as
      the first one did. */
  lemma UpdateIdempotent(store: map<string, Ticket>, caller: Identity, rawId: string,
                         body: map<string, string>, now: int)
    ensures var once := UpdatedStore(store, caller, rawId, body, now);
      UpdatedStore(once, caller, rawId, body, now) == once
  {
    var once := UpdatedStore(store, caller, rawId, body, now);
    match ObjectIds.Cast(rawId)
    case None =>
    case Some(k) =>
      if k in store && MayAccess(caller, store[k]) {
        var d := UpdateData(caller, body);
        if ApplyUpdate(store[k], d, now).Some? {
          ApplyUpdateIdempotent(store[k], d, now);
          assert once[k] == ApplyUpdate(store[k], d, now).value;
          assert MayAccess(caller, once[k]);
          assert once[k := once[k]] == once;
        }
      }
  }

  // ---------------------------------------------------------------------
  // Create
  // ---------------------------------------------------------------------

  /** The document create builds: four body fields, creator the caller. */
  function CreateFields(caller: Identity, body: map<string, string>): TicketFields {
    TicketFields(Get(body, "title"), Get(body, "description"), None,
                 Get(body, "priority"), Get(body, "category"), Some(caller.id), None)
  }

  /** The creator is the caller and the ticket starts open and unassigned,
      whatever the body says; only title, description, priority and
      category of the body matter; a missing title or description fails. */
  lemma CreateFromCaller(caller: Identity, body: map<string, string>, other: map<string, string>, now: int)
    requires forall f :: f in ["title", "description", "priority", "category"] ==> Get(body, f) == Get(other, f)
    ensures var r := NewTicket(CreateFields(caller, body), now);
      && (r.Success? ==>
            Some(r.value.createdBy) == ObjectIds.Cast(caller.id) && r.value.status == Open && r.value.assignedTo == None)
      && ("title" !in body || "description" !in body ==> r == Failure(ValidationFailed))
      && r == NewTicket(CreateFields(caller, other), now)
  {
    assert Get(body, "title") == Get(other, "title");
    assert Get(body, "description") == Get(other, "description");
    assert Get(body, "priority") == Get(other, "priority");
    assert Get(body, "category") == Get(other, "category");
  }

  // ---------------------------------------------------------------------
  // List
  // ---------------------------------------------------------------------

  /** A query filter; None leaves a field unconstrained. */
  datatype Filter = Filter(
    createdBy: Option<string>,
    status: Option<string>,
    priority: Option<string>,
    category: Option<string>)

  /** The filter list builds: the creator forced for a consultant, then
      each truthy query parameter among status, priority and category. */
  function ListFilter(caller: Identity, query: map<string, string>): Filter {
    Filter(
      if IsConsultant(caller) then Some(caller.id) else None,
      if Truthy(Get(query, "status")) then Get(query, "status") else None,
      if Truthy(Get(query, "priority")) then Get(query, "priority") else None,
      if Truthy(Get(query, "category")) then Get(query, "category") else None)
  }

  /** The query cast: a creator constraint must be an ObjectId. */
  function CastFilter(f: Filter): Option<Filter> {
    match f.createdBy
    case None => Some(f)
    case Some(c) =>
      match ObjectIds.Cast(c)
      case None => None
      case Some(k) => Some(f.(createdBy := Some(k)))
  }

  predicate Matches(t: Ticket, f: Filter) {
    && (f.createdBy.Some? ==> t.createdBy == f.createdBy.value)
    && (f.status.Some? ==> StatusName(t.status) == f.status.value)
    && (f.priority.Some? ==> PriorityName(t.priority) == f.priority.value)
    && (f.category.Some? ==> CategoryName(t.category) == f.category.value)
  }

  /** The filter, built one field at a time. */
  method BuildFilter(caller: Identity, query: map<string, string>) returns (f: Filter)
    ensures f == ListFilter(caller, query)
  {
    var status, priority, category := Get(query, "status"), Get(query, "priority"), Get(query, "category");
    f := Filter(None, None, None, None);
    if caller.role == "consultant" {
      f := f.(createdBy := Some(caller.id));
    }
    if Truthy(status) {
      f := f.(status := status);
    }
    if Truthy(priority) {
      f := f.(priority := priority);
    }
    if Truthy(category) {
      f := f.(category := category);
    }
  }

  /** Whatever the query, a consultant's filter admits only tickets the
      consultant created; and a query only ever narrows the listing. */
  lemma ListScoping(caller: Identity, query: map<string, string>, t: Ticket)
    ensures var f := CastFilter(ListFilter(caller, query));
      && (IsConsultant(caller) && f.Some? && Matches(t, f.value) ==> Some(t.createdBy) == ObjectIds.Cast(caller.id))
      && (f.Some? && Matches(t, f.value) ==> Matches(t, CastFilter(ListFilter(caller, map[])).value))
  {
  }

  /** The identifiers a listing holds. */
  ghost function Ids(vs: seq<TicketView>): set<string> {
    set i | 0 <= i < |vs| :: vs[i].id
  }

  predicate NewestFirst(vs: seq<TicketView>) {
    forall i, j :: 0 <= i < j < |vs| ==> vs[i].createdAt >= vs[j].createdAt
  }

  predicate DistinctIds(vs: seq<TicketView>) {
    forall i, j :: 0 <= i < j < |vs| ==> vs[i].id != vs[j].id
  }

  /** A faithful answer to `find(filter).sort('-createdAt')`: every ticket
      that matches, once, newest first, each with its references populated. */
  ghost predicate IsListing(vs: seq<TicketView>, store: map<string, Ticket>, f: Filter, users: map<string, User>) {
    && (forall i :: 0 <= i < |vs| ==> vs[i].id in store && vs[i] == View(vs[i].id, store[vs[i].id], users))
    && Ids(vs) == (set k | k in store && Matches(store[k], f))
    && DistinctIds(vs)
    && NewestFirst(vs)
  }

  /** Where a ticket created at `at` goes in a newest-first listing: after
      every strictly newer entry. */
  function InsertPosition(vs: seq<TicketView>, at: int): (p: nat)
    ensures p <= |vs|
    ensures forall i :: 0 <= i < p ==> vs[i].createdAt > at
    ensures NewestFirst(vs) && p < |vs| ==> forall i :: p <= i < |vs| ==> vs[i].createdAt <= at
  {
    if vs == [] || vs[0].createdAt <= at then 0 else 1 + InsertPosition(vs[1..], at)
  }

  function InsertNewestFirst(vs: seq<TicketView>, v: TicketView): seq<TicketView> {
    var p := InsertPosition(vs, v.createdAt);
    vs[..p] + [v] + vs[p..]
  }

  /** Entry `i` of the insertion: from the front part, the new entry, or
      shifted by one from the back part. */
  lemma InsertAt(vs: seq<TicketView>, v: TicketView, i: int)
    requires 0 <= i <= |vs|
    ensures var p, r := InsertPosition(vs, v.createdAt), InsertNewestFirst(vs, v);
      |r| == |vs| + 1 && r[i] == if i < p then vs[i] else if i == p then v else vs[i - 1]
  {
  }

  lemma InsertKeepsOrder(vs: seq<TicketView>, v: TicketView)
    requires NewestFirst(vs)
    ensures NewestFirst(InsertNewestFirst(vs, v))
  {
    var r := InsertNewestFirst(vs, v);
    forall i, j | 0 <= i < j < |r| ensures r[i].createdAt >= r[j].createdAt {
      InsertAt(vs, v, i);
      InsertAt(vs, v, j);
    }
  }

  lemma InsertKeepsDistinct(vs: seq<TicketView>, v: TicketView)
    requires DistinctIds(vs) && forall i :: 0 <= i < |vs| ==> vs[i].id != v.id
    ensures DistinctIds(InsertNewestFirst(vs, v))
  {
    var r := InsertNewestFirst(vs, v);
    forall i, j | 0 <= i < j < |r| ensures r[i].id != r[j].id {
      InsertAt(vs, v, i);
      InsertAt(vs, v, j);
    }
  }

  lemma InsertIds(vs: seq<TicketView>, v: TicketView)
    ensures Ids(InsertNewestFirst(vs, v)) == Ids(vs) + {v.id}
  {
    var p, r := InsertPosition(vs, v.createdAt), InsertNewestFirst(vs, v);
    forall x | x in Ids(r) ensures x in Ids(vs) + {v.id} {
      var i :| 0 <= i < |r| && r[i].id == x;
      InsertAt(vs, v, i);
      if i < p { assert vs[i].id == x; } else if i > p { assert vs[i - 1].id == x; }
    }
    forall x | x in Ids(vs) + {v.id} ensures x in Ids(r) {
      if x == v.id {
        InsertAt(vs, v, p);
        assert r[p].id == x;
      } else {
        var i :| 0 <= i < |vs| && vs[i].id == x;
        if i < p {
          InsertAt(vs, v, i);
          assert r[i].id == x;
        } else {
          InsertAt(vs, v, i + 1);
          assert r[i + 1].id == x;
        }
      }
    }
  }

  /** Inserting keeps the order and the distinct identifiers, and adds
      exactly the new entry. */
  lemma InsertFacts(vs: seq<TicketView>, v: TicketView)
    requires NewestFirst(vs) && DistinctIds(vs) && v.id !in Ids(vs)
    ensures var r := InsertNewestFirst(vs, v);
      && NewestFirst(r) && DistinctIds(r)
      && Ids(r) == Ids(vs) + {v.id}
      && (forall i :: 0 <= i < |r| ==> r[i] == v || r[i] in vs)
  {
    var r := InsertNewestFirst(vs, v);
    assert forall i :: 0 <= i < |vs| ==> vs[i].id in Ids(vs);
    InsertKeepsOrder(vs, v);
    InsertKeepsDistinct(vs, v);
    InsertIds(vs, v);
    forall i | 0 <= i < |r| ensures r[i] == v || r[i] in vs {
      InsertAt(vs, v, i);
    }
  }

  /** A newest-first listing of the matching tickets among `done`. */
  ghost predicate PartialListing(vs: seq<TicketView>, store: map<string, Ticket>, f: Filter,
                                 users: map<string, User>, done: set<string>) {
    && (forall i :: 0 <= i < |vs| ==> vs[i].id in done && vs[i].id in store && vs[i] == View(vs[i].id, store[vs[i].id], users))
    && Ids(vs) == (set k | k in done && k in store && Matches(store[k], f))
    && DistinctIds(vs)
    && NewestFirst(vs)
  }

  /** Visiting one more key keeps a partial listing a partial listing. */
  lemma ListingStep(vs: seq<TicketView>, store: map<string, Ticket>, f: Filter,
                    users: map<string, User>, done: set<string>, k: string)
    requires PartialListing(vs, store, f, users, done)
    requires k in store && k !in done
    ensures PartialListing(if Matches(store[k], f) then InsertNewestFirst(vs, View(k, store[k], users)) else vs,
                           store, f, users, done + {k})
  {
    if Matches(store[k], f) {
      ListingInsert(vs, store, f, users, done, k);
    } else {
      var before := set x | x in done && x in store && Matches(store[x], f);
      var after := set x | x in done + {k} && x in store && Matches(store[x], f);
      assert after == before;
    }
  }

  /** A matching ticket visited is inserted at its place. */
  lemma ListingInsert(vs: seq<TicketView>, store: map<string, Ticket>, f: Filter,
                      users: map<string, User>, done: set<string>, k: string)
    requires PartialListing(vs, store, f, users, done)
    requires k in store && k !in done && Matches(store[k], f)
    ensures PartialListing(InsertNewestFirst(vs, View(k, store[k], users)), store, f, users, done + {k})
  {
    var v := View(k, store[k], users);
    assert k !in Ids(vs);
    InsertFacts(vs, v);
    var r := InsertNewestFirst(vs, v);
    forall i | 0 <= i < |r|
      ensures r[i].id in done + {k} && r[i].id in store && r[i] == View(r[i].id, store[r[i].id], users)
    {
      if r[i] != v {
        var j :| 0 <= j < |vs| && vs[j] == r[i];
      }
    }
    var before := set x | x in done && x in store && Matches(store[x], f);
    var after := set x | x in done + {k} && x in store && Matches(store[x], f);
    assert after == before + {k};
  }

  /** A set of statuses is all four. */
  const AllStatuses: set<Status> := {Open, InProgress, Resolved, Closed}

  /** The number of tickets among `keys` with status `s`. */
  ghost function Tally(store: map<string, Ticket>, keys: set<string>, s: Status): nat {
    |set k | k in keys && k in store && store[k].status == s|
  }

  /** The number of tickets in the store with status `s`. */
  ghost function StatusCount(store: map<string, Ticket>, s: Status): nat {
    Tally(store, store.Keys, s)
  }

  lemma TallyAdd(store: map<string, Ticket>, keys: set<string>, k: string, s: Status)
    requires k in store && k !in keys
    ensures Tally(store, keys + {k}, s) == Tally(store, keys, s) + (if store[k].status == s then 1 else 0)
  {
    var before := set x | x in keys && x in store && store[x].status == s;
    var after := set x | x in keys + {k} && x in store && store[x].status == s;
    if store[k].status == s {
      assert after == before + {k};
    } else {
      assert after == before;
    }
  }

  /** The tickets of the store with status `s`. */
  ghost function WithStatus(store: map<string, Ticket>, s: Status): set<string> {
    set k | k in store.Keys && k in store && store[k].status == s
  }

  lemma DisjointUnionSize(a: set<string>, b: set<string>)
    requires a * b == {}
    ensures |a + b| == |a| + |b|
  {
  }

  /** The four per-status counts add up to the number of tickets. */
  lemma StatusCountsSumToSize(store: map<string, Ticket>)
    ensures StatusCount(store, Open) + StatusCount(store, InProgress)
          + StatusCount(store, Resolved) + StatusCount(store, Closed) == |store|
  {
    var o, p, r, c := WithStatus(store, Open), WithStatus(store, InProgress),
                      WithStatus(store, Resolved), WithStatus(store, Closed);
    assert StatusCount(store, Open) == |o|;
    assert StatusCount(store, InProgress) == |p|;
    assert StatusCount(store, Resolved) == |r|;
    assert StatusCount(store, Closed) == |c|;
    DisjointUnionSize(o, p);
    DisjointUnionSize(o + p, r);
    DisjointUnionSize(o + p + r, c);
    forall k | k in store.Keys ensures k in o + p + r + c {
      match store[k].status
      case Open => assert k in o;
      case InProgress => assert k in p;
      case Resolved => assert k in r;
      case Closed => assert k in c;
    }
    assert o + p + r + c == store.Keys;
  }

  /** The `forEach` over the allowed fields: copy each one the body
      defines (is not undefined) into the update document. */
  method CollectUpdate(allowedFields: seq<string>, body: map<string, string>) returns (updateData: map<string, string>)
    ensures forall f :: f in updateData <==> f in allowedFields && f in body
    ensures forall f :: f in updateData ==> updateData[f] == body[f]
  {
    updateData := map[];
    var i := 0;
    while i < |allowedFields|
      invariant 0 <= i <= |allowedFields|
      invariant forall f :: f in updateData <==> f in allowedFields[..i] && f in body
      invariant forall f :: f in updateData ==> updateData[f] == body[f]
    {
      var field := allowedFields[i];
      if field in body {
        updateData := updateData[field := body[field]];
      }
      assert allowedFields[..i + 1] == allowedFields[..i] + [field];
      i := i + 1;
    }
    assert allowedFields[..i] == allowedFields;
  }

  // ---------------------------------------------------------------------
  // The store
  // ---------------------------------------------------------------------

  class TicketStore {
    var tickets: map<string, Ticket>

    /** Every key is a canonical ObjectId and every record passed the schema. */
    ghost predicate Valid()
      reads this
    {
      forall k :: k in tickets ==> ObjectIds.IsCanonical(k) && ValidTicket(tickets[k])
    }

    constructor ()
      ensures Valid() && tickets == map[]
    {
      tickets := map[];
    }

    /** POST /: create a ticket owned by the caller. `newId` is the
        identifier the store generates and `now` the clock reading. */
    method CreateTicket(caller: Identity, body: map<string, string>, newId: string, now: int)
      returns (r: Reply<StoredTicket>)
      requires Valid() && ObjectIds.IsCanonical(newId)
      modifies this
      ensures Valid()
      ensures match NewTicket(CreateFields(caller, body), now)
        case Failure(e) => r == ServerError(e) && tickets == old(tickets)
        case Success(t) =>
          if newId in old(tickets) then r == ServerError(DuplicateKey) && tickets == old(tickets)
          else r == Ok(201, StoredTicket(newId, t)) && tickets == old(tickets)[newId := t]
    {
      var created := NewTicket(CreateFields(caller, body), now);
      if created.Failure? {
        return ServerError(created.error);
      }
      if newId in tickets {
        return ServerError(DuplicateKey);
      }
      tickets := tickets[newId := created.value];
      r := Ok(201, StoredTicket(newId, created.value));
    }

    /** The scan and sort behind `find(filter).sort('-createdAt')`. */
    method FindNewestFirst(f: Filter, users: map<string, User>) returns (vs: seq<TicketView>)
      ensures IsListing(vs, tickets, f, users)
    {
      vs := [];
      var done: set<string> := {};
      while done != tickets.Keys
        invariant done <= tickets.Keys
        invariant PartialListing(vs, tickets, f, users, done)
        decreases |tickets.Keys - done|
      {
        var k :| k in tickets.Keys - done;
        ListingStep(vs, tickets, f, users, done, k);
        if Matches(tickets[k], f) {
          vs := InsertNewestFirst(vs, View(k, tickets[k], users));
        }
        done := done + {k};
      }
      assert (set k | k in done && Matches(tickets[k], f)) == (set k | k in tickets && Matches(tickets[k], f));
    }

    /** GET /: list the tickets the caller may see, filtered, newest first.
        A creator id that does not cast fails the query. */
    method GetTickets(caller: Identity, query: map<string, string>, users: map<string, User>)
      returns (r: Reply<Listing>)
      ensures match CastFilter(ListFilter(caller, query))
        case None => r == ServerError(CastFailed)
        case Some(f) =>
          r.Ok? && r.code == 200 && r.body.count == |r.body.tickets|
          && IsListing(r.body.tickets, tickets, f, users)
    {
      var filter := BuildFilter(caller, query);
      var cast := CastFilter(filter);
      if cast.None? {
        return ServerError(CastFailed);
      }
      var found := FindNewestFirst(cast.value, users);
      r := Ok(200, Listing(|found|, found));
    }

    /** GET /:id. A malformed id is "not found"; a consultant's check reads
        the populated creator, which is null if that user is gone. */
    method GetTicket(caller: Identity, rawId: string, users: map<string, User>) returns (r: Reply<TicketView>)
      ensures match ObjectIds.Cast(rawId)
        case None => r == NotFound(TicketNotFound)
        case Some(k) =>
          if k !in tickets then r == NotFound(TicketNotFound)
          else if IsConsultant(caller) && Populate(users, Some(tickets[k].createdBy)).None? then
            r == ServerError(NullReference)
          else if !MayAccess(caller, tickets[k]) then r == Forbidden(ViewForbidden)
          else r == Ok(200, View(k, tickets[k], users))
    {
      var key := ObjectIds.Cast(rawId);
      if key.None? || key.value !in tickets {
        return NotFound(TicketNotFound);
      }
      var ticket := View(key.value, tickets[key.value], users);
      if caller.role == "consultant" {
        if ticket.createdBy.None? {
          return ServerError(NullReference);
        }
        if ticket.createdBy.value.id != caller.id {
          return Forbidden(ViewForbidden);
        }
      }
      r := Ok(200, ticket);
    }

    /** PUT /:id: the ownership check comes before any write; the update
        document holds only the role's allowed fields that the body defines. */
    method UpdateTicket(caller: Identity, rawId: string, body: map<string, string>,
                        users: map<string, User>, now: int)
      returns (r: Reply<TicketView>)
      requires Valid()
      modifies this
      ensures Valid()
      ensures tickets == UpdatedStore(old(tickets), caller, rawId, body, now)
      ensures r == UpdateReply(old(tickets), caller, rawId, body, users, now)
    {
      var key := ObjectIds.Cast(rawId);
      if key.None? || key.value !in tickets {
        return NotFound(TicketNotFound);
      }
      var ticket := tickets[key.value];
      if caller.role == "consultant" && ticket.createdBy != caller.id {
        assert !MayAccess(caller, ticket);
        return Forbidden(UpdateForbidden);
      }
      assert MayAccess(caller, ticket);
      var allowedFields := ["title", "description", "status", "priority", "category"];
      if caller.role == "consultant" {
        allowedFields := ["title", "description"];
      }
      assert allowedFields == AllowedFields(caller);
      var updateData := CollectUpdate(allowedFields, body);
      assert updateData == UpdateData(caller, body);
      r := FindByIdAndUpdate(key.value, updateData, users, now);
    }

    /** `findByIdAndUpdate(id, data, {new: true, runValidators: true})` with
        both references populated: write the validated update and return
        the new version, or refuse it and leave the store as it was. */
    method FindByIdAndUpdate(k: string, data: map<string, string>, users: map<string, User>, now: int)
      returns (r: Reply<TicketView>)
      requires Valid() && k in tickets
      modifies this
      ensures Valid()
      ensures match ApplyUpdate(old(tickets)[k], data, now)
        case None => r == ServerError(ValidationFailed) && tickets == old(tickets)
        case Some(t) => r == Ok(200, View(k, t, users)) && tickets == old(tickets)[k := t]
    {
      var updated := ApplyUpdate(tickets[k], data, now);
      if updated.None? {
        return ServerError(ValidationFailed);
      }
      tickets := tickets[k := updated.value];
      r := Ok(200, View(k, updated.value, users));
    }

    /** PUT /:id/assign. A falsy assignee is refused before the store is
        read; a malformed ticket id or assignee id is a 500, never a 404. */
    method AssignTicket(rawId: string, body: map<string, string>, users: map<string, User>, now: int)
      returns (r: Reply<TicketView>)
      requires Valid()
      modifies this
      ensures Valid()
      ensures !Truthy(Get(body, "assignedTo")) ==> r == BadRequest(AssigneeRequired) && tickets == old(tickets)
      ensures Truthy(Get(body, "assignedTo")) ==>
        match (ObjectIds.Cast(rawId), ObjectIds.Cast(body["assignedTo"]))
        case (Some(k), Some(a)) =>
          if k !in old(tickets) then r == NotFound(TicketNotFound) && tickets == old(tickets)
          else
            var t := old(tickets)[k].(assignedTo := Some(a), updatedAt := now);
            r == Ok(200, View(k, t, users)) && tickets == old(tickets)[k := t]
        case _ => r == ServerError(CastFailed) && tickets == old(tickets)
    {
      var assignedTo := Get(body, "assignedTo");
      if !Truthy(assignedTo) {
        return BadRequest(AssigneeRequired);
      }
      var key := ObjectIds.Cast(rawId);
      var assignee := ObjectIds.Cast(assignedTo.value);
      if key.None? || assignee.None? {
        return ServerError(CastFailed);
      }
      if key.value !in tickets {
        return NotFound(TicketNotFound);
      }
      var t := tickets[key.value].(assignedTo := Some(assignee.value), updatedAt := now);
      tickets := tickets[key.value := t];
      r := Ok(200, View(key.value, t, users));
    }

    /** DELETE /:id: remove exactly the addressed ticket and echo the id
        as the request gave it. */
    method DeleteTicket(rawId: string) returns (r: Reply<Deletion>)
      requires Valid()
      modifies this
      ensures Valid()
      ensures match ObjectIds.Cast(rawId)
        case None => r == NotFound(TicketNotFound) && tickets == old(tickets)
        case Some(k) =>
          if k !in old(tickets) then r == NotFound(TicketNotFound) && tickets == old(tickets)
          else r == Ok(200, Deletion(TicketDeleted, rawId)) && tickets == old(tickets) - {k}
    {
      var key := ObjectIds.Cast(rawId);
      if key.None? || key.value !in tickets {
        return NotFound(TicketNotFound);
      }
      tickets := tickets - {key.value};
      r := Ok(200, Deletion(TicketDeleted, rawId));
    }

    /** The aggregation `$group: {_id: '$status', count: {$sum: 1}}`: one
        entry for each status that occurs, holding its count. */
    method GroupByStatus() returns (groups: map<Status, nat>)
      ensures forall s :: s in groups <==> StatusCount(tickets, s) > 0
      ensures forall s :: s in groups ==> groups[s] == StatusCount(tickets, s)
    {
      groups := map[];
      var done: set<string> := {};
      while done != tickets.Keys
        invariant done <= tickets.Keys
        invariant forall s :: s in groups <==> Tally(tickets, done, s) > 0
        invariant forall s :: s in groups ==> groups[s] == Tally(tickets, done, s)
        decreases |tickets.Keys - done|
      {
        var k :| k in tickets.Keys - done;
        var s := tickets[k].status;
        forall s' ensures Tally(tickets, done + {k}, s') == Tally(tickets, done, s') + (if s' == s then 1 else 0) {
          TallyAdd(tickets, done, k, s');
        }
        groups := groups[s := if s in groups then groups[s] + 1 else 1];
        done := done + {k};
      }
    }

    /** GET /stats: the `$group` count per status over the whole store,
        written over a record that starts with all four statuses at 0. */
    method GetStats() returns (r: Reply<map<Status, nat>>)
      ensures r.Ok? && r.code == 200
      ensures r.body.Keys == AllStatuses
      ensures forall s :: s in r.body ==> r.body[s] == StatusCount(tickets, s)
    {
      var groups := GroupByStatus();
      // formattedStats, overwritten entry by entry
      var formatted: map<Status, nat> := map[Open := 0, InProgress := 0, Resolved := 0, Closed := 0];
      var pending := groups.Keys;
      while pending != {}
        invariant pending <= groups.Keys
        invariant formatted.Keys == AllStatuses
        invariant forall s :: s in groups && s !in pending ==> formatted[s] == groups[s]
        invariant forall s :: s in formatted && s !in groups ==> formatted[s] == 0
        decreases pending
      {
        var s :| s in pending;
        formatted := formatted[s := groups[s]];
        pending := pending - {s};
      }
      r := Ok(200, formatted);
    }
  }
}
