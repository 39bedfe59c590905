/**
 Turning sprints and public holidays into calendar events. An event starts on
 its source's start day and ends one day before its source's end day, since
 the feeds give the day after the last day as the end.
 */
module Materialize {
  import opened Base
  import opened Interfaces

  /** `subDays(d, 1)`. */
  function PreviousDay(d: Day): Day { d - 1 }

  /** The event `AddSprintsToCalendar` creates for one sprint. */
  function SprintEvent(s: Sprint): CalendarEvent
  {
    CalendarEvent(s.sprintStart, PreviousDay(s.sprintEnd), s.sprintName,
      EventMeta(SprintType, Some(s), None))
  }

  /**
   The event `GetPublicHolidays` creates for one holiday item fetched for a
   member from `country`; the holiday keeps the member's spelling of it.
   */
  function HolidayEvent(item: RawHoliday, country: string): CalendarEvent
  {
    var h := Holiday(item.summary, country, item.startDate, item.endDate);
    CalendarEvent(item.startDate, PreviousDay(item.endDate), item.summary,
      EventMeta(HolidayType, None, Some(h)))
  }

  /**
   An event that agrees with the record it carries: tagged with the record's
   kind, carrying only that record, starting on its start day, ending the day
   before its end day, titled with its name.
   */
  predicate WellFormed(e: CalendarEvent)
  {
    match e.meta.eventType
    case SprintType =>
      && e.meta.sprint.Some? && e.meta.holiday.None?
      && e.start == e.meta.sprint.value.sprintStart
      && e.end + 1 == e.meta.sprint.value.sprintEnd
      && e.title == e.meta.sprint.value.sprintName
    case HolidayType =>
      && e.meta.holiday.Some? && e.meta.sprint.None?
      && e.start == e.meta.holiday.value.startDate
      && e.end + 1 == e.meta.holiday.value.endDate
      && e.title == e.meta.holiday.value.holidayName
  }

  /**
   The well-formed events are exactly the materialised ones: each is the
   event its own payload materialises to, so an event can be rebuilt from
   the record it carries.
   */
  lemma WellFormedIffMaterialized(e: CalendarEvent)
    ensures WellFormed(e) <==>
      || (IsSprintEvent(e) && e.meta.sprint.Some? && e == SprintEvent(e.meta.sprint.value))
      || (IsHolidayEvent(e) && e.meta.holiday.Some? &&
          var h := e.meta.holiday.value;
          e == HolidayEvent(RawHoliday(h.holidayName, h.startDate, h.endDate), h.holidayCountry))
  {
  }

  /** One sprint event per sprint, in the sprints' order. */
  function SprintEvents(sprints: seq<Sprint>): (r: seq<CalendarEvent>)
    ensures |r| == |sprints|
    ensures forall i :: 0 <= i < |r| ==>
      IsSprintEvent(r[i]) && WellFormed(r[i]) && r[i].meta.sprint == Some(sprints[i])
  {
    seq(|sprints|, i requires 0 <= i < |sprints| => SprintEvent(sprints[i]))
  }

  /** One holiday event per item, in the items' order, all tagged with `country`. */
  function HolidayEvents(items: seq<RawHoliday>, country: string): (r: seq<CalendarEvent>)
    ensures |r| == |items|
    ensures forall i :: 0 <= i < |r| ==>
      && IsHolidayEvent(r[i]) && WellFormed(r[i])
      && r[i].meta.holiday == Some(Holiday(items[i].summary, country, items[i].startDate, items[i].endDate))
  {
    seq(|items|, i requires 0 <= i < |items| => HolidayEvent(items[i], country))
  }
}
