/**
 The "overlapping holidays only" view: holidays whose start day falls inside
 some sprint, together with every event that is not a holiday.
 */
module Overlap {
  import opened Base
  import opened Seqs
  import opened Interfaces

  /**
   The loop over the sprints that stops at the first sprint whose range,
   both ends included, contains `day`. Sprint ends are compared unadjusted.
   */
  function OverlapsWithSprint(day: Day, sprints: seq<Sprint>): (r: bool)
    ensures r <==> exists i :: 0 <= i < |sprints| && sprints[i].sprintStart <= day <= sprints[i].sprintEnd
  {
    if |sprints| == 0 then false
    else if sprints[0].sprintStart <= day <= sprints[0].sprintEnd then true
    else
      assert forall i :: 1 <= i < |sprints| ==> sprints[i] == sprints[1..][i - 1];
      OverlapsWithSprint(day, sprints[1..])
  }

  /** An event survives unless it is a holiday starting outside every sprint. */
  predicate Keep(e: CalendarEvent, sprints: seq<Sprint>)
  {
    !IsHolidayEvent(e) || OverlapsWithSprint(e.start, sprints)
  }

  /** The holidays marked for removal, in event order. */
  function EventsToRemove(events: seq<CalendarEvent>, sprints: seq<Sprint>): seq<CalendarEvent>
  {
    Filter((e: CalendarEvent) => !Keep(e, sprints), events)
  }

  /**
   `events.filter(item => !eventsToRemove.includes(item))`: the events kept,
   in order. Every non-holiday stays; a holiday stays exactly when its start
   lies in some sprint; the result is an order-preserving subsequence that
   keeps every occurrence of what it keeps.
   */
  function FilterOverlapping(events: seq<CalendarEvent>, sprints: seq<Sprint>): (r: seq<CalendarEvent>)
    ensures r == Filter((e: CalendarEvent) => Keep(e, sprints), events)
    ensures IsSubsequence(r, events)
    ensures forall e :: e in events && !IsHolidayEvent(e) ==> e in r
    ensures forall e :: IsHolidayEvent(e) ==>
      (e in r <==> e in events && exists i :: 0 <= i < |sprints| && sprints[i].sprintStart <= e.start <= sprints[i].sprintEnd)
    ensures forall e :: multiset(r)[e] == if Keep(e, sprints) then multiset(events)[e] else 0
  {
    var remove := EventsToRemove(events, sprints);
    FilterCongruent((e: CalendarEvent) => e !in remove, (e: CalendarEvent) => Keep(e, sprints), events);
    FilterMultiplicity((e: CalendarEvent) => Keep(e, sprints), events);
    Filter((e: CalendarEvent) => e !in remove, events)
  }

  /** Filtering the filtered view again changes nothing. */
  lemma FilterOverlappingIdempotent(events: seq<CalendarEvent>, sprints: seq<Sprint>)
    ensures FilterOverlapping(FilterOverlapping(events, sprints), sprints) == FilterOverlapping(events, sprints)
  {
    FilterIdempotent((e: CalendarEvent) => Keep(e, sprints), events);
  }

  /** The filter works event by event, so it distributes over concatenation. */
  lemma FilterOverlappingAppend(a: seq<CalendarEvent>, b: seq<CalendarEvent>, sprints: seq<Sprint>)
    ensures FilterOverlapping(a + b, sprints) == FilterOverlapping(a, sprints) + FilterOverlapping(b, sprints)
  {
    FilterAppend((e: CalendarEvent) => Keep(e, sprints), a, b);
  }
}
