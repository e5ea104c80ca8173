/** The event routes (backend/routes/events.js), behind `protect`: list
    every event by start date, create one with a colour derived from its
    category, and delete one by id. */
module EventRoutes {
  import opened Common
  import opened Seqs
  import opened UserModel
  import opened EventModel

  const ExamColour := "#ef4444"
  const DefaultColour := "#3b82f6"

  function Start(e: Event): int {
    e.start
  }

  /** `GET /`: every event, by start ascending. */
  function ListEvents(events: seq<Event>): (r: seq<Event>)
    ensures SortedBy(r, Start)
    ensures multiset(r) == multiset(events)
    ensures forall e :: e in r <==> e in events
  {
    var r := SortBy(events, Start);
    assert forall e :: e in r <==> e in multiset(events);
    r
  }

  /** The colour rule: red exactly for exams. */
  predicate ColourRule(e: Event) {
    e.backgroundColor == ExamColour <==> e.category == Exam
  }

  /** The route's colour choice, made on the raw body value. */
  function Colour(category: Option<string>): (r: string)
    ensures r == ExamColour <==> category == Some("Exam")
  {
    if category == Some("Exam") then ExamColour else DefaultColour
  }

  /** Every event the route builds and the schema accepts obeys the colour
      rule, whatever the category text was. */
  lemma CreatedEventColour(id: Id, d: EventDraft, now: int)
    requires d.backgroundColor == Colour(d.category)
    requires Validate(id, d, now).Some?
    ensures ColourRule(Validate(id, d, now).value)
  {
    var e := Validate(id, d, now).value;
    if d.category.Some? {
      assert CategoryName(e.category) == d.category.value;
      if e.category != Exam {
        assert CategoryName(e.category) != "Exam";
      }
    }
  }

  /** Stored events have distinct document ids and keep the colour rule. */
  predicate EventsValid(events: seq<Event>) {
    && (forall i :: 0 <= i < |events| ==> IsObjectId(events[i].id) && ColourRule(events[i]))
    && (forall i, j :: 0 <= i < j < |events| ==> events[i].id != events[j].id)
  }

  /** Removing the event at `i` keeps the store valid, and no other stored
      event has its id. */
  lemma RemoveKeepsValid(events: seq<Event>, i: nat)
    requires EventsValid(events) && i < |events|
    ensures EventsValid(events[..i] + events[i + 1..])
    ensures forall j :: 0 <= j < |events| && j != i ==> events[j].id != events[i].id
  {
    var rest := events[..i] + events[i + 1..];
    assert forall j :: 0 <= j < |rest| ==> rest[j] == events[if j < i then j else j + 1];
  }

  /** `DELETE /:id` on a store `events`: the reply and the store after it.
      Any authenticated user may delete any event. An id that cannot be cast
      to a document id makes the lookup throw, which the handler answers
      with 500. */
  function DeleteResult(events: seq<Event>, id: Id): (Reply<string>, seq<Event>) {
    if !IsObjectId(id) then (Error(500, "Server Error"), events)
    else match FirstIndex(events, (e: Event) => e.id == id)
      case None => (Error(404, "Event not found"), events)
      case Some(i) => (Ok("Event removed"), events[..i] + events[i + 1..])
  }

  /** A deletion answers 500 for a malformed id and 404 for an unknown one,
      changing nothing; otherwise it removes exactly the event with the id,
      keeping the rest in order. */
  lemma DeleteReplies(events: seq<Event>, id: Id)
    requires EventsValid(events)
    ensures var (r, after) := DeleteResult(events, id);
      && (!IsObjectId(id) ==> r == Error(500, "Server Error") && after == events)
      && (IsObjectId(id) && (forall i :: 0 <= i < |events| ==> events[i].id != id) ==>
            r == Error(404, "Event not found") && after == events)
      && (forall i :: 0 <= i < |events| && events[i].id == id ==>
            r == Ok("Event removed") && after == events[..i] + events[i + 1..])
  {
    var k := FirstIndex(events, (e: Event) => e.id == id);
    if IsObjectId(id) && k.Some? {
      RemoveKeepsValid(events, k.value);
    }
  }

  /** Whatever the reply, the store after a deletion is the stored events
      without that id, and stays valid. */
  lemma DeleteOutcomes(events: seq<Event>, id: Id)
    requires EventsValid(events)
    ensures EventsValid(DeleteResult(events, id).1)
    ensures DeleteResult(events, id).1 == Filter(events, (e: Event) => e.id != id)
  {
    var keep := (e: Event) => e.id != id;
    var k := FirstIndex(events, (e: Event) => e.id == id);
    if !IsObjectId(id) {
      assert forall i :: 0 <= i < |events| ==> events[i].id != id;
      FilterKeepsAll(events, keep);
    } else if k.None? {
      FilterKeepsAll(events, keep);
    } else {
      RemoveKeepsValid(events, k.value);
      FilterDropsOne(events, keep, k.value);
    }
  }

  /** The events collection. */
  class EventStore {
    var events: seq<Event>

    predicate Valid()
      reads this
    {
      EventsValid(events)
    }

    constructor ()
      ensures Valid() && events == []
    {
      events := [];
    }

    /** `POST /` by the requester `me`. The date enters through `parseDate`,
        the schema's cast to a date; `newId` and `now` come from the store. */
    method Create(me: Id, title: string, date: string, category: Option<string>,
                  parseDate: string -> Option<int>, newId: Id, now: int)
      returns (r: Reply<Event>)
      requires Valid()
      requires IsObjectId(newId) && forall i :: 0 <= i < |events| ==> events[i].id != newId
      modifies this
      ensures Valid()
      ensures !Truthy(title) || !Truthy(date) ==>
        r == Error(400, "Please enter title and date") && events == old(events)
      ensures Truthy(title) && Truthy(date) ==>
        var saved := Validate(newId, EventDraft(title, parseDate(date), category, Colour(category), me), now);
        if saved.Some? then r == Ok(saved.value) && events == old(events) + [saved.value]
        else r == Error(500, "Server Error") && events == old(events)
      ensures r.Ok? ==> r.value.user == me && r.value.title == title && Some(r.value.start) == parseDate(date)
    {
      if !Truthy(title) || !Truthy(date) {
        return Error(400, "Please enter title and date");
      }
      var draft := EventDraft(title, parseDate(date), category, Colour(category), me);
      var saved := Validate(newId, draft, now);
      if saved.None? {
        return Error(500, "Server Error");
      }
      CreatedEventColour(newId, draft, now);
      events := events + [saved.value];
      r := Ok(saved.value);
    }

    /** The `DELETE /:id` handler. */
    method Delete(id: Id) returns (r: Reply<string>)
      requires Valid()
      modifies this
      ensures (r, events) == DeleteResult(old(events), id)
      ensures Valid()
    {
      DeleteOutcomes(events, id);
      if !IsObjectId(id) {
        return Error(500, "Server Error");
      }
      var k := FirstIndex(events, (e: Event) => e.id == id);
      if k.None? {
        return Error(404, "Event not found");
      }
      var i := k.value;
      events := events[..i] + events[i + 1..];
      r := Ok("Event removed");
    }
  }
}
