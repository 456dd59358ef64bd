/**
 * The Ticket schema: three enumerations with their defaults, the required
 * and trimmed text fields, the creator and assignee references, and the
 * timestamps every record carries.
 */
module TicketModel {
  import opened Options
  import opened JsString
  import ObjectIds
  import opened Http

  datatype Status = Open | InProgress | Resolved | Closed
  datatype Priority = Low | Medium | High
  datatype Category = Bug | Feature | Support | Question

  const DefaultStatus := Open
  const DefaultPriority := Medium
  const DefaultCategory := Support

  /** The stored spelling of each enumeration value. */
  function StatusName(s: Status): string {
    match s
    case Open => "open"
    case InProgress => "in_progress"
    case Resolved => "resolved"
    case Closed => "closed"
  }

  function PriorityName(p: Priority): string {
    match p
    case Low => "low"
    case Medium => "medium"
    case High => "high"
  }

  function CategoryName(c: Category): string {
    match c
    case Bug => "bug"
    case Feature => "feature"
    case Support => "support"
    case Question => "question"
  }

  /** The enum validator: a string is accepted exactly when it is the
      spelling of a value. */
  function ParseStatus(v: string): (r: Option<Status>)
    ensures forall s :: r == Some(s) <==> StatusName(s) == v
  {
    if v == "open" then Some(Open)
    else if v == "in_progress" then Some(InProgress)
    else if v == "resolved" then Some(Resolved)
    else if v == "closed" then Some(Closed)
    else None
  }

  function ParsePriority(v: string): (r: Option<Priority>)
    ensures forall p :: r == Some(p) <==> PriorityName(p) == v
  {
    if v == "low" then Some(Low)
    else if v == "medium" then Some(Medium)
    else if v == "high" then Some(High)
    else None
  }

  function ParseCategory(v: string): (r: Option<Category>)
    ensures forall c :: r == Some(c) <==> CategoryName(c) == v
  {
    if v == "bug" then Some(Bug)
    else if v == "feature" then Some(Feature)
    else if v == "support" then Some(Support)
    else if v == "question" then Some(Question)
    else None
  }

  /** A stored ticket. Its identifier is the key under which the store
      holds it; `createdBy` and `assignedTo` are user identifiers. */
  datatype Ticket = Ticket(
    title: string,
    description: string,
    status: Status,
    priority: Priority,
    category: Category,
    createdBy: string,
    assignedTo: Option<string>,
    createdAt: int,
    updatedAt: int)

  /** What every stored ticket satisfies. */
  predicate ValidTicket(t: Ticket) {
    && t.title != "" && IsTrimmed(t.title)
    && t.description != ""
    && ObjectIds.IsCanonical(t.createdBy)
    && (t.assignedTo.Some? ==> ObjectIds.IsCanonical(t.assignedTo.value))
  }

  /** The document handed to `Ticket.create`; None is an undefined field. */
  datatype TicketFields = TicketFields(
    title: Option<string>,
    description: Option<string>,
    status: Option<string>,
    priority: Option<string>,
    category: Option<string>,
    createdBy: Option<string>,
    assignedTo: Option<string>)

  /** A field after its default applies: undefined takes the default,
      anything else must pass the enum validator. */
  function ResolveStatus(v: Option<string>): Option<Status> {
    if v.None? then Some(DefaultStatus) else ParseStatus(v.value)
  }

  function ResolvePriority(v: Option<string>): Option<Priority> {
    if v.None? then Some(DefaultPriority) else ParsePriority(v.value)
  }

  function ResolveCategory(v: Option<string>): Option<Category> {
    if v.None? then Some(DefaultCategory) else ParseCategory(v.value)
  }

  /** An ObjectId reference that defaults to null: undefined stays null,
      text must cast. */
  function ResolveReference(v: Option<string>): Option<Option<string>> {
    if v.None? then Some(None)
    else match ObjectIds.Cast(v.value)
      case Some(k) => Some(Some(k))
      case None => None
  }

  /** Every validator of the schema accepts the document. */
  predicate Admissible(f: TicketFields) {
    && f.title.Some? && Trim(f.title.value) != ""
    && f.description.Some? && f.description.value != ""
    && ResolveStatus(f.status).Some?
    && ResolvePriority(f.priority).Some?
    && ResolveCategory(f.category).Some?
    && f.createdBy.Some? && ObjectIds.Cast(f.createdBy.value).Some?
    && ResolveReference(f.assignedTo).Some?
  }

  /** `Ticket.create`: apply the setters and defaults, run the validators,
      and stamp both timestamps with the clock reading `now`. */
  function NewTicket(f: TicketFields, now: int): (r: Result<Ticket, Fault>)
    ensures r.Success? <==> Admissible(f)
    ensures r.Failure? ==> r.error == ValidationFailed
    ensures r.Success? ==> ValidTicket(r.value)
    ensures r.Success? ==> r.value.createdAt == now && r.value.updatedAt == now
    ensures r.Success? ==>
              && r.value.title == Trim(f.title.value)
              && r.value.description == f.description.value
              && Some(r.value.status) == ResolveStatus(f.status)
              && Some(r.value.priority) == ResolvePriority(f.priority)
              && Some(r.value.category) == ResolveCategory(f.category)
              && Some(r.value.createdBy) == ObjectIds.Cast(f.createdBy.value)
              && Some(r.value.assignedTo) == ResolveReference(f.assignedTo)
  {
    if !Admissible(f) then Failure(ValidationFailed)
    else
      TrimmedExactly(f.title.value);
      Success(Ticket(
        Trim(f.title.value),
        f.description.value,
        ResolveStatus(f.status).value,
        ResolvePriority(f.priority).value,
        ResolveCategory(f.category).value,
        ObjectIds.Cast(f.createdBy.value).value,
        ResolveReference(f.assignedTo).value,
        now, now))
  }

  /** Omitted enumerations take their defaults: open, medium, support;
      an omitted assignee is null. */
  lemma DefaultsApply(f: TicketFields, now: int)
    requires Admissible(f)
    requires f.status.None? && f.priority.None? && f.category.None? && f.assignedTo.None?
    ensures NewTicket(f, now).Success?
    ensures var t := NewTicket(f, now).value;
      t.status == Open && t.priority == Medium && t.category == Support && t.assignedTo == None
  {
  }

  /** A missing title or description, or a title that is only whitespace,
      is a validation failure. */
  lemma RequiredTextFields(f: TicketFields, now: int)
    requires f.title.None? || f.description.None? || (f.title.Some? && Trim(f.title.value) == "")
    ensures NewTicket(f, now) == Failure(ValidationFailed)
  {
  }
}
