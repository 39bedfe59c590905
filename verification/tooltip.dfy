/**
 The tooltip component: for a holiday event it lists the team members whose
 country is the holiday's country, ignoring case; for a sprint event it
 remembers the sprint.
 */
module CustomTooltip {
  import opened Base
  import opened Seqs
  import opened Text
  import opened Interfaces

  /**
   The tooltip's inputs and fields. `absentTeamMembers` is only ever appended
   to; nothing clears it between updates. The velocity input is only
   displayed and is not modelled.
   */
  datatype Tooltip = Tooltip(
    eventInfo: Option<CalendarEvent>,
    teamMembers: seq<TeamMember>,
    holidayObject: Option<Holiday>,
    sprintObject: Option<Sprint>,
    absentTeamMembers: seq<TeamMember>)

  /** The inputs whose change Angular reports to `ngOnChanges`. */
  datatype InputName = EventInfo | TeamMembers | SprintVelocity

  /**
   `teamMember.country.toLowerCase() == this.holidayObject?.holidayCountry.toLowerCase()`:
   with no holiday the right side is `undefined` and never equals a string.
   */
  predicate SameCountry(member: TeamMember, holiday: Option<Holiday>)
  {
    holiday.Some? && EqualsIgnoringCase(member.country, holiday.value.holidayCountry)
  }

  /** The members a holiday keeps away, in team order. */
  function AbsentFor(members: seq<TeamMember>, holiday: Option<Holiday>): (r: seq<TeamMember>)
    ensures IsSubsequence(r, members)
    ensures forall m :: m in r <==> m in members && SameCountry(m, holiday)
    ensures forall m :: multiset(r)[m] == if SameCountry(m, holiday) then multiset(members)[m] else 0
  {
    FilterMultiplicity((m: TeamMember) => SameCountry(m, holiday), members);
    Filter((m: TeamMember) => SameCountry(m, holiday), members)
  }

  /**
   `UpdateTooltip`. A holiday event sets the holiday and appends its absent
   members after those already listed; a sprint event sets the sprint and
   touches nothing else; no event changes nothing.
   */
  function UpdateTooltip(t: Tooltip): (r: Tooltip)
    ensures r.eventInfo == t.eventInfo && r.teamMembers == t.teamMembers
    ensures |t.absentTeamMembers| <= |r.absentTeamMembers|
    ensures r.absentTeamMembers[..|t.absentTeamMembers|] == t.absentTeamMembers
    ensures t.eventInfo.None? ==> r == t
    ensures t.eventInfo.Some? && IsSprintEvent(t.eventInfo.value) ==>
      r == t.(sprintObject := t.eventInfo.value.meta.sprint)
    ensures t.eventInfo.Some? && IsHolidayEvent(t.eventInfo.value) ==>
      && r.holidayObject == t.eventInfo.value.meta.holiday
      && r.sprintObject == t.sprintObject
      && r.absentTeamMembers == t.absentTeamMembers + AbsentFor(t.teamMembers, r.holidayObject)
      && IsSubsequence(r.absentTeamMembers[|t.absentTeamMembers|..], t.teamMembers)
      && forall m :: m in r.absentTeamMembers[|t.absentTeamMembers|..] <==>
           m in t.teamMembers && r.holidayObject.Some?
           && EqualsIgnoringCase(m.country, r.holidayObject.value.holidayCountry)
  {
    match t.eventInfo
    case None => t
    case Some(e) =>
      if IsHolidayEvent(e) then
        var holiday := e.meta.holiday;
        var added := AbsentFor(t.teamMembers, holiday);
        assert (t.absentTeamMembers + added)[|t.absentTeamMembers|..] == added;
        t.(holidayObject := holiday, absentTeamMembers := t.absentTeamMembers + added)
      else
        t.(sprintObject := e.meta.sprint)
  }

  /** `ngOnChanges`: the tooltip is updated only when `eventInfo` changed. */
  function OnChanges(t: Tooltip, changes: set<InputName>): (r: Tooltip)
    ensures EventInfo !in changes ==> r == t
    ensures EventInfo in changes ==> r == UpdateTooltip(t)
    ensures |t.absentTeamMembers| <= |r.absentTeamMembers|
    ensures r.absentTeamMembers[..|t.absentTeamMembers|] == t.absentTeamMembers
  {
    if EventInfo in changes then UpdateTooltip(t) else t
  }

  /**
   Because the list is never cleared, showing the same holiday twice lists
   its absent members twice.
   */
  lemma RepeatedHolidayAccumulates(t: Tooltip)
    requires t.eventInfo.Some? && IsHolidayEvent(t.eventInfo.value)
    ensures var a := AbsentFor(t.teamMembers, t.eventInfo.value.meta.holiday);
      UpdateTooltip(UpdateTooltip(t)).absentTeamMembers == t.absentTeamMembers + a + a
  {
  }

  /**
   Which members a holiday selects does not depend on how either country is
   capitalised.
   */
  lemma AbsentForIgnoresCase(members: seq<TeamMember>, h1: Holiday, h2: Holiday)
    requires EqualsIgnoringCase(h1.holidayCountry, h2.holidayCountry)
    ensures AbsentFor(members, Some(h1)) == AbsentFor(members, Some(h2))
  {
    FilterCongruent((m: TeamMember) => SameCountry(m, Some(h1)), (m: TeamMember) => SameCountry(m, Some(h2)), members);
  }
}
