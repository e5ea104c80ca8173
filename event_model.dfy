/** The event schema (backend/models/Event.js): a calendar entry with a
    required title and start, a category from a fixed list that defaults to
    Academic, a colour, the creating user and a creation time. Dates are
    milliseconds since the epoch. */
module EventModel {
  import opened Common
  import opened UserModel

  datatype Category = Academic | Exam | BatchEvent | General

  /** The category enum: the text a category is stored as. */
  function CategoryName(c: Category): string {
    match c
    case Academic => "Academic"
    case Exam => "Exam"
    case BatchEvent => "Batch"
    case General => "General"
  }

  /** The enum check: a text is a category exactly when it is one of the
      four names. */
  function ParseCategory(s: string): (r: Option<Category>)
    ensures r.Some? ==> CategoryName(r.value) == s
    ensures r.None? <==> s !in {"Academic", "Exam", "Batch", "General"}
  {
    if s == "Academic" then Some(Academic)
    else if s == "Exam" then Some(Exam)
    else if s == "Batch" then Some(BatchEvent)
    else if s == "General" then Some(General)
    else None
  }

  /** The names are the inverse of the parse. */
  lemma ParseCategoryName(c: Category)
    ensures ParseCategory(CategoryName(c)) == Some(c)
  {
  }

  datatype Event = Event(
    id: Id,
    title: string,
    start: int,
    category: Category,
    backgroundColor: string,
    user: Id,
    createdAt: int)

  /** The fields a new event is built from, before the schema has applied
      its casts, defaults and validators. `category` is `None` when the
      body has no category and `start` is `None` when the submitted date
      cannot be cast to a date. */
  datatype EventDraft = EventDraft(
    title: string,
    start: Option<int>,
    category: Option<string>,
    backgroundColor: string,
    user: Id)

  /** Saving a draft: `title` and `start` are required, an absent category
      becomes Academic, a present one must be in the enum, and `createdAt`
      is the time of creation. */
  function Validate(id: Id, d: EventDraft, now: int): (r: Option<Event>)
    ensures r.Some? <==> Truthy(d.title) && d.start.Some?
                         && (d.category.None? || ParseCategory(d.category.value).Some?)
    ensures r.Some? ==> r.value.id == id && r.value.title == d.title && Some(r.value.start) == d.start
    ensures r.Some? ==> r.value.user == d.user && r.value.backgroundColor == d.backgroundColor
    ensures r.Some? ==> r.value.createdAt == now
    ensures r.Some? && d.category.None? ==> r.value.category == Academic
    ensures r.Some? && d.category.Some? ==> CategoryName(r.value.category) == d.category.value
  {
    if !Truthy(d.title) || d.start.None? then None
    else
      var category := if d.category.None? then Some(Academic) else ParseCategory(d.category.value);
      if category.None? then None
      else Some(Event(id, d.title, d.start.value, category.value, d.backgroundColor, d.user, now))
  }
}
