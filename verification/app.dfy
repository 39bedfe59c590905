/**
 The application component's state and the transitions that change it: the
 completion of each HTTP request, the holiday toggle, and the velocity query.
 Asynchronous completions are modelled as a sequence of steps applied one at
 a time, in any order.
 */
module AppComponent {
  import opened Base
  import opened Seqs
  import opened Interfaces
  import opened Ingest
  import opened SprintJoin
  import opened Velocity
  import opened Materialize
  import opened Overlap

  /** The component's collections; `eventsTemp` is the toggle's saved copy. */
  datatype AppState = AppState(
    events: seq<CalendarEvent>,
    eventsTemp: seq<CalendarEvent>,
    sprints: seq<Sprint>,
    jiras: seq<Jira>,
    teamMembers: seq<TeamMember>)

  function Init(): AppState { AppState([], [], [], [], []) }

  /** `GetJiras`: only the jiras change. */
  function GetJiras(app: AppState, response: Response<JiraPayload>): (r: AppState)
    ensures r == app.(jiras := r.jiras)
    ensures |app.jiras| <= |r.jiras| && r.jiras[..|app.jiras|] == app.jiras
    ensures r.jiras == IngestJiras(app.jiras, response)
  {
    app.(jiras := IngestJiras(app.jiras, response))
  }

  /** `GetTeamMembers`: only the team changes. */
  function GetTeamMembers(app: AppState, response: Response<seq<RawTeamMember>>): (r: AppState)
    ensures r == app.(teamMembers := r.teamMembers)
    ensures |app.teamMembers| <= |r.teamMembers| && r.teamMembers[..|app.teamMembers|] == app.teamMembers
    ensures r.teamMembers == IngestTeamMembers(app.teamMembers, response)
  {
    app.(teamMembers := IngestTeamMembers(app.teamMembers, response))
  }

  /**
   `AddSprintsToCalendar`: one event per sprint is appended after the existing
   events, in sprint order; earlier events are unchanged.
   */
  function AddSprintsToCalendar(app: AppState): (r: AppState)
    ensures r == app.(events := r.events)
    ensures |r.events| == |app.events| + |app.sprints|
    ensures r.events[..|app.events|] == app.events
    ensures forall i :: 0 <= i < |app.sprints| ==>
      var e := r.events[|app.events| + i];
      IsSprintEvent(e) && WellFormed(e) && e.meta.sprint == Some(app.sprints[i])
  {
    app.(events := app.events + SprintEvents(app.sprints))
  }

  /**
   The sprint request's completion (`GetTeamSprints`): on success the joined
   sprints are appended in response order and then the whole sprint list is
   put on the calendar; on failure `complete` never runs and nothing changes.
   */
  function GetTeamSprints(app: AppState, response: Response<seq<RawSprint>>): (r: AppState)
    ensures response.Failed? ==> r == app
    ensures r.jiras == app.jiras && r.teamMembers == app.teamMembers && r.eventsTemp == app.eventsTemp
    ensures response.Received? ==>
      && r.sprints == app.sprints + JoinSprints(app.jiras, response.body)
      && r.events == app.events + SprintEvents(r.sprints)
  {
    match response
    case Failed => app
    case Received(raws) => AddSprintsToCalendar(app.(sprints := app.sprints + JoinSprints(app.jiras, raws)))
  }

  /**
   One member's holiday request completing (`GetPublicHolidays`): on success
   its events are appended after the existing ones, tagged with the member's
   country; on failure nothing changes.
   */
  function HolidaysArrived(app: AppState, member: TeamMember, response: Response<seq<RawHoliday>>): (r: AppState)
    ensures r == app.(events := r.events)
    ensures |app.events| <= |r.events| && r.events[..|app.events|] == app.events
    ensures response.Failed? ==> r == app
    ensures response.Received? ==> |r.events| == |app.events| + |response.body|
    ensures forall i :: |app.events| <= i < |r.events| ==>
      && IsHolidayEvent(r.events[i]) && WellFormed(r.events[i])
      && r.events[i].meta.holiday.value.holidayCountry == member.country
    ensures response.Received? ==> forall i :: 0 <= i < |response.body| ==>
      var item := response.body[i];
      r.events[|app.events| + i].meta.holiday == Some(Holiday(item.summary, member.country, item.startDate, item.endDate))
  {
    match response
    case Failed => app
    case Received(items) => app.(events := app.events + HolidayEvents(items, member.country))
  }

  /**
   `TogglePublicHolidays`. `false` puts back the saved copy (empty if nothing
   was ever saved); `true` saves the current events and keeps only those the
   overlap filter lets through.
   */
  function TogglePublicHolidays(app: AppState, toggleState: bool): (r: AppState)
    ensures r.sprints == app.sprints && r.jiras == app.jiras && r.teamMembers == app.teamMembers
    ensures !toggleState ==> r.events == app.eventsTemp && r.eventsTemp == app.eventsTemp
    ensures toggleState ==> r.eventsTemp == app.events && IsSubsequence(r.events, app.events)
    ensures toggleState ==> forall e :: e in r.events <==> e in app.events && Keep(e, app.sprints)
    ensures toggleState ==> forall e ::
      multiset(r.events)[e] == if Keep(e, app.sprints) then multiset(app.events)[e] else 0
  {
    if !toggleState then app.(events := app.eventsTemp)
    else app.(eventsTemp := app.events, events := FilterOverlapping(app.events, app.sprints))
  }

  /** Toggling to overlapping-only and back restores the events exactly. */
  lemma ToggleRoundTrip(app: AppState)
    ensures TogglePublicHolidays(TogglePublicHolidays(app, true), false) == app.(eventsTemp := app.events)
  {
  }

  /**
   Toggling to overlapping-only twice overwrites the saved copy with the
   filtered view, so toggling back then restores only the filtered events.
   */
  lemma ToggleOnTwiceLosesHiddenHolidays(app: AppState)
    ensures TogglePublicHolidays(TogglePublicHolidays(TogglePublicHolidays(app, true), true), false).events
      == FilterOverlapping(app.events, app.sprints)
  {
    FilterOverlappingIdempotent(app.events, app.sprints);
  }

  /** `CalculateSprintVelocity` reads the component's sprint list. */
  function SprintVelocity(app: AppState, event: CalendarEvent): (v: Number)
    ensures !IsSprintEvent(event) ==> v == Finite(0)
  {
    CalculateSprintVelocity(app.sprints, event)
  }

  /** The completions and user actions that change the component. */
  datatype Step =
    | JirasArrived(jiraResponse: Response<JiraPayload>)
    | TeamMembersArrived(memberResponse: Response<seq<RawTeamMember>>)
    | SprintsArrived(sprintResponse: Response<seq<RawSprint>>)
    | HolidaysFor(member: TeamMember, holidayResponse: Response<seq<RawHoliday>>)
    | Toggle(toggleState: bool)

  function Apply(app: AppState, step: Step): AppState
  {
    match step
    case JirasArrived(resp) => GetJiras(app, resp)
    case TeamMembersArrived(resp) => GetTeamMembers(app, resp)
    case SprintsArrived(resp) => GetTeamSprints(app, resp)
    case HolidaysFor(member, resp) => HolidaysArrived(app, member, resp)
    case Toggle(b) => TogglePublicHolidays(app, b)
  }

  function Run(app: AppState, steps: seq<Step>): AppState
    decreases |steps|
  {
    if |steps| == 0 then app else Run(Apply(app, steps[0]), steps[1..])
  }

  /** A sprint as `GetTeamSprints` builds it: jiras present, all its own, and summed. */
  predicate Joined(s: Sprint)
  {
    && s.sprintJiras.Some?
    && s.sprintStoryTotal == Some(StoryTotal(s.sprintJiras.value))
    && forall j :: j in s.sprintJiras.value ==> j.jiraSprintId == s.sprintId
  }

  /** An event of the component: well-formed, and a sprint event's sprint is in the list. */
  predicate GoodEvent(e: CalendarEvent, sprints: seq<Sprint>)
  {
    WellFormed(e) && (IsSprintEvent(e) ==> e.meta.sprint.value in sprints)
  }

  /** The invariant every reachable state keeps. */
  predicate Valid(app: AppState)
  {
    && (forall e :: e in app.events ==> GoodEvent(e, app.sprints))
    && (forall e :: e in app.eventsTemp ==> GoodEvent(e, app.sprints))
    && (forall s :: s in app.sprints ==> Joined(s))
  }

  /** Every step keeps the invariant. */
  lemma StepPreservesValid(app: AppState, step: Step)
    requires Valid(app)
    ensures Valid(Apply(app, step))
  {
  }

  /** Every state reached from a valid one keeps the invariant. */
  lemma {:induction false} RunPreservesValid(app: AppState, steps: seq<Step>)
    requires Valid(app)
    ensures Valid(Run(app, steps))
    decreases |steps|
  {
    if |steps| > 0 {
      StepPreservesValid(app, steps[0]);
      RunPreservesValid(Apply(app, steps[0]), steps[1..]);
    }
  }

  /** The component starts valid. */
  lemma InitValid()
    ensures Valid(Init())
  {
  }

  /** Every state reachable from the initial one keeps the invariant. */
  lemma ReachableValid(steps: seq<Step>)
    ensures Valid(Run(Init(), steps))
  {
    InitValid();
    RunPreservesValid(Init(), steps);
  }

  /**
   Until the user first asks for overlapping holidays, nothing has been saved,
   so toggling back to all holidays empties the calendar.
   */
  lemma {:induction false} NoSavedCopyBeforeToggleOn(app: AppState, steps: seq<Step>)
    requires app.eventsTemp == []
    requires forall i :: 0 <= i < |steps| ==> steps[i] != Toggle(true)
    ensures Run(app, steps).eventsTemp == []
    ensures TogglePublicHolidays(Run(app, steps), false).events == []
    decreases |steps|
  {
    if |steps| > 0 {
      NoSavedCopyBeforeToggleOn(Apply(app, steps[0]), steps[1..]);
    }
  }

  /**
   In every valid state, and so in every reachable one, each sprint event on
   the calendar finds its sprint in the list, and with distinct sprints the
   velocity shown for it is the velocity of that sprint's position.
   */
  lemma SprintEventVelocity(app: AppState, e: CalendarEvent)
    requires Valid(app)
    requires e in app.events && IsSprintEvent(e)
    ensures 0 <= FindIndex(app.sprints, e.meta.sprint)
    ensures app.sprints[FindIndex(app.sprints, e.meta.sprint)] == e.meta.sprint.value
    ensures (forall a, b :: 0 <= a < b < |app.sprints| ==> app.sprints[a] != app.sprints[b]) ==>
      forall k :: 0 <= k < |app.sprints| && app.sprints[k] == e.meta.sprint.value ==>
        SprintVelocity(app, e) == VelocityAt(app.sprints, k)
  {
    assert GoodEvent(e, app.sprints);
  }

  /**
   Per-member holiday requests may complete in any order: two completions
   applied either way round leave the same events, and when both succeed
   these are the earlier events plus each delivered item's event, once per
   delivery.
   */
  lemma HolidayCompletionsCommute(app: AppState, m1: TeamMember, r1: Response<seq<RawHoliday>>,
                                  m2: TeamMember, r2: Response<seq<RawHoliday>>)
    ensures multiset(HolidaysArrived(HolidaysArrived(app, m1, r1), m2, r2).events)
         == multiset(HolidaysArrived(HolidaysArrived(app, m2, r2), m1, r1).events)
    ensures r1.Received? && r2.Received? ==>
      multiset(HolidaysArrived(HolidaysArrived(app, m1, r1), m2, r2).events)
        == multiset(app.events) + multiset(HolidayEvents(r1.body, m1.country))
           + multiset(HolidayEvents(r2.body, m2.country))
  {
  }
}
