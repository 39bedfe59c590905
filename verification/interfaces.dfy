/**
 The records of the calendar application: the four entity interfaces, the
 calendar event with its metadata, and the raw API payloads they are built
 from. Dates are whole day numbers; a JavaScript `Date` is not modelled.
 */
module Interfaces {
  import opened Base

  type Day = int

  /** An issue-tracker item; story points are `parseInt`'s result. */
  datatype Jira = Jira(jiraId: int, jiraStoryPoints: Number, jiraSprintId: int)

  /**
   A sprint. The issue list and the story total are optional in the
   interface; every sprint the application builds carries both.
   */
  datatype Sprint = Sprint(
    sprintId: int,
    sprintName: string,
    sprintStart: Day,
    sprintEnd: Day,
    sprintJiras: Option<seq<Jira>>,
    sprintStoryTotal: Option<Number>)

  datatype Holiday = Holiday(holidayName: string, holidayCountry: string, startDate: Day, endDate: Day)

  datatype TeamMember = TeamMember(name: string, country: string, region: string)

  /** The `type` tag of an event's metadata. */
  datatype EventType = SprintType | HolidayType

  /** Extra data carried by a calendar event. */
  datatype EventMeta = EventMeta(eventType: EventType, sprint: Option<Sprint>, holiday: Option<Holiday>)

  /** A calendar event; its display colour is not modelled. */
  datatype CalendarEvent = CalendarEvent(start: Day, end: Day, title: string, meta: EventMeta)

  predicate IsHolidayEvent(e: CalendarEvent) { e.meta.eventType == HolidayType }

  predicate IsSprintEvent(e: CalendarEvent) { e.meta.eventType == SprintType }

  /** One element of the sprint feed's `values`. */
  datatype RawSprint = RawSprint(id: int, name: string, startDate: Day, endDate: Day)

  /**
   One element of the issue feed's `issues`: `storyPoints` is what `parseInt`
   makes of `fields.customfield_10016`, and `sprintRefs` lists the ids of the
   sprint objects in `fields.customfield_10020`.
   */
  datatype RawIssue = RawIssue(id: int, storyPoints: Number, sprintRefs: seq<int>)

  /** The issue feed's body; `requestSuccess` is optional. */
  datatype JiraPayload = JiraPayload(requestSuccess: Option<bool>, issues: seq<RawIssue>)

  datatype Location = Location(country: string, region: string)

  /** One element of the team-member feed; `Location` may be missing. */
  datatype RawTeamMember = RawTeamMember(name: string, location: Option<Location>)

  /** One element of the public-holiday feed's `items`. */
  datatype RawHoliday = RawHoliday(summary: string, startDate: Day, endDate: Day)
}
