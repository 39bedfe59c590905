# Sprint calendar aggregation, modelled in Dafny

This project models the in-memory logic of a small Angular calendar
application. The application fetches sprints, issue-tracker items ("jiras"),
team members and public holidays. It joins jiras to sprints and totals their
story points. It derives each sprint's velocity from the sprints before it.
It turns sprints and holidays into calendar events, and it can hide holidays
that start outside every sprint. Its tooltip lists the team members a holiday
keeps away.

Dates are whole day numbers, and `subDays(d, 1)` is `d - 1`. Story points are
`parseInt` results, so they are whole numbers or `NaN` (`Base.Number`). `NaN`
poisons every sum it enters, as JavaScript `+=` does. Velocities are integer
hundredths: a velocity of 12.34 is `Finite(1234)`.

Modules:

- `Base`: optional values, the `Number` type, and HTTP responses (`Received` or `Failed`).
- `Seqs`: `Array.prototype.filter` (`Filter`) and the subsequence relation. Also a `forEach` whose body may throw (`MapUntilThrow`).
- `Text`: ASCII `toLowerCase` and case-insensitive equality.
- `Interfaces`: the records of `src/app/interfaces.ts`, the event and its metadata, and the raw payloads.
- `Ingest`: the record mapping of `GetJiras` and `GetTeamMembers`.
- `SprintJoin`: the join of jiras to sprints in `GetTeamSprints`.
- `Velocity`: `CalculateSprintVelocity`.
- `Materialize`: the sprint and holiday events.
- `Overlap`: the holiday overlap filter.
- `AppComponent`: the component state, one transition per request completion plus the toggle, and the invariant that every reachable state keeps.
- `CustomTooltip`: `UpdateTooltip` and `ngOnChanges`.

Behaviour of the code that the model keeps:

- A jira whose `customfield_10020` is empty throws at `[0].id`. The `try`
  in `GetJiras` (src/app/app.component.ts:242-260) catches the error, so
  ingestion stops at that issue and the jiras pushed before it stay. A team
  member without `Location` stops `GetTeamMembers` the same way.
- When a request fails, RxJS never calls `complete`. So a failed sprint
  request adds no sprint events, and a failed holiday request adds no
  holiday events.
- Toggling back to all holidays assigns the copy saved by the last `true`
  toggle. If nothing was saved yet, the calendar empties
  (`NoSavedCopyBeforeToggleOn`). Toggling on twice overwrites the saved copy
  (`ToggleOnTwiceLosesHiddenHolidays`). Events that arrive after the copy
  was saved are dropped when toggling back.
- Sprints are matched to jiras by id alone, so two sprints with the same id
  would both list the same jiras. A jira lands in exactly one sprint only
  when sprint ids are distinct (`JiraInAtMostOneSprint`).

## Model

| member | source | states |
|---|---|---|
| `Ingest.IngestJiras` | src/app/app.component.ts:241-261 | A failed request or an explicit `requestSuccess == false` leaves the jiras unchanged. Otherwise each new jira is built from the issue at the same position: its id, its story points, and its first sprint reference. Existing jiras are kept as a prefix. Ingestion stops only at an issue without a sprint, so when every issue has a sprint there is exactly one jira per issue. |
| `Ingest.IngestTeamMembers` | src/app/app.component.ts:263-278 | Existing members are kept as a prefix. Each new member is built from the raw record at the same position, with name, country and region copied. Ingestion stops only at a record without a `Location`, so when every record has one there is exactly one member per record. A failed request changes nothing. |
| `SprintJoin.JoinSprints` | src/app/app.component.ts:171-189 | One sprint per raw sprint, in response order, with its id, name and dates. A jira is in a sprint's list iff it is in `jiras` and carries that sprint's id. Each list is a subsequence of `jiras` that keeps every occurrence. The sprint's total is the story total of its list. |
| `SprintJoin.JiraInAtMostOneSprint` | src/app/app.component.ts:171-174 | With distinct sprint ids, a jira is in exactly the sprint its id names. It is never in two sprints, and it is in none when no sprint matches. |
| `SprintJoin.StoryTotal` | src/app/app.component.ts:177-180 | The story total is `NaN` exactly when some jira's points are `NaN`. |
| `SprintJoin.StoryTotalAppend` | src/app/app.component.ts:177-180 | The total of two concatenated jira lists is the sum of their totals. |
| `SprintJoin.SumStoryPoints` | src/app/app.component.ts:177-180 | The accumulating loop computes the left-fold story total of the jira list. |
| `Velocity.PriorSprints` | src/app/app.component.ts:92-101 | The velocity window holds at most 3 sprints. For a sprint at position k, it holds exactly the min(k,3) sprints just before k. |
| `Velocity.RoundedHundredths` | src/app/app.component.ts:102-103 | `Math.round(sum / n * 100)` is the integer h with 100·sum/n − 1/2 < h ≤ 100·sum/n + 1/2. |
| `Velocity.TrailingVelocity` | src/app/app.component.ts:92-104 | The loop over positions k−3..k−1 adds the totals of the sprints that exist and counts them. It returns their rounded mean, or 0 when none exist. |
| `Velocity.FindIndex` | src/app/app.component.ts:88-90 | Returns the first position holding the event's sprint, or −1 exactly when the event has no sprint or its sprint is not in the list. |
| `Velocity.CalculateSprintVelocity` | src/app/app.component.ts:85-107 | A holiday event, an event without a sprint, and an event whose sprint is not in the list all get velocity 0. |
| `Velocity.VelocityZeroWithoutPriorSprint` | src/app/app.component.ts:92-104 | Position 0 (the first sprint) and position −1 (a sprint not found) both have velocity 0. |
| `Velocity.VelocityIsRoundedMean` | src/app/app.component.ts:92-104 | For 0 < k ≤ the sprint count, the divisor is min(k,3). That count is between 1 and 3, not a fixed 3. The result is round(100·sum/divisor), or `NaN` when the window sum is `NaN`. |
| `Velocity.VelocityReadsOnlyPriorWindow` | src/app/app.component.ts:92-101 | Two sprint lists whose totals agree on positions k−3..k−1 give the same velocity at k. |
| `Velocity.VelocityIgnoresLaterSprints` | src/app/app.component.ts:95-101 | Removing the sprint itself and every later sprint does not change its velocity. |
| `Velocity.VelocityExample` | src/app/app.component.ts:85-107 | For totals 10, 20, 30, 40 the velocities are 0, 10.00, 15.00 and 20.00. |
| `Materialize.SprintEvents` | src/app/app.component.ts:146-160 | One sprint event per sprint, in order. Each is well-formed: start is the sprint's start, end is the sprint's end minus one day, title is its name, and it carries that sprint. |
| `Materialize.HolidayEvents` | src/app/app.component.ts:211-227 | One holiday event per item, in order. Each is well-formed and carries a holiday with the item's summary and unadjusted dates and the member's country as written. |
| `Materialize.WellFormedIffMaterialized` | src/app/app.component.ts:149-158 | An event is well-formed iff it equals the event that its own sprint or holiday payload materialises to. |
| `Overlap.OverlapsWithSprint` | src/app/app.component.ts:123-131 | The early-exit loop answers true iff some sprint has start ≤ day ≤ end. |
| `Overlap.FilterOverlapping` | src/app/app.component.ts:116-142 | Every non-holiday event is kept. A holiday is kept iff its start lies in some sprint's range, both ends included. The result is an order-preserving subsequence that keeps every occurrence of each kept event. The two-phase removal via `includes` equals a one-pass filter. |
| `Overlap.FilterOverlappingIdempotent` | src/app/app.component.ts:118-142 | Filtering the filtered view again changes nothing. |
| `Overlap.FilterOverlappingAppend` | src/app/app.component.ts:118-142 | The filter distributes over concatenation of event lists. |
| `AppComponent.GetJiras` | src/app/app.component.ts:247-256 | Only the jira list changes: it becomes the existing jiras followed by those ingested from the response. |
| `AppComponent.GetTeamMembers` | src/app/app.component.ts:268-274 | Only the team list changes: it becomes the existing members followed by those ingested from the response. |
| `AppComponent.AddSprintsToCalendar` | src/app/app.component.ts:146-163 | Appends one well-formed sprint event per sprint, in order, after the existing events. Earlier events and all other state are unchanged. |
| `AppComponent.GetTeamSprints` | src/app/app.component.ts:168-199 | On failure nothing changes. On success the joined sprints are appended to the sprint list, and then events for the whole list are appended. |
| `AppComponent.HolidaysArrived` | src/app/app.component.ts:209-236 | A failed request changes nothing. A successful one appends exactly one well-formed holiday event per item, in order, whose holiday carries the item's summary and dates and the member's country. Earlier events and all other state are unchanged. |
| `AppComponent.TogglePublicHolidays` | src/app/app.component.ts:111-144 | `false` restores the saved copy. `true` saves the current events and keeps, as a subsequence, every occurrence of each event the overlap filter lets through and nothing else. Sprints, jiras and members never change. |
| `AppComponent.ToggleRoundTrip` | src/app/app.component.ts:111-115 | Toggling on and then off restores the events exactly. |
| `AppComponent.ToggleOnTwiceLosesHiddenHolidays` | src/app/app.component.ts:111-115 | Toggling on twice and then off leaves only the filtered events. |
| `AppComponent.NoSavedCopyBeforeToggleOn` | src/app/app.component.ts:111-113 | Until a `true` toggle occurs, the saved copy stays empty, so toggling off empties the calendar. |
| `AppComponent.SprintVelocity` | src/app/app.component.ts:85-107 | Every non-sprint event has velocity 0. |
| `AppComponent.StepPreservesValid` | src/app/app.component.ts:146-189 | Every completion and toggle keeps the invariant: events and the saved copy agree with their payloads, each sprint event's sprint is in the list, and each sprint holds only its own jiras with their total. |
| `AppComponent.RunPreservesValid` | src/app/app.component.ts:32-44 | Every order of completions and toggles keeps the invariant. |
| `AppComponent.InitValid` | src/app/app.component.ts:53-57 | The component's initial empty collections satisfy the invariant. |
| `AppComponent.ReachableValid` | src/app/app.component.ts:32-44 | Every state reached from the initial one, by any order of completions and toggles, satisfies the invariant. |
| `AppComponent.SprintEventVelocity` | src/app/app.component.ts:88-90 | In every state that keeps the invariant, and so in every reachable state, `findIndex` locates the sprint of each sprint event on the calendar. With distinct sprints, the event's velocity is the velocity at that sprint's position. |
| `AppComponent.HolidayCompletionsCommute` | src/app/app.component.ts:233-236 | Two holiday completions applied in either order leave the same events. When both succeed, these are the earlier events plus each delivered item's event, once per delivery. |
| `CustomTooltip.AbsentFor` | src/app/customtooltip.component.ts:31-35 | Selects, in team order, every occurrence of every member whose country equals the holiday's country ignoring case. With no holiday, it selects nobody. |
| `CustomTooltip.UpdateTooltip` | src/app/customtooltip.component.ts:28-40 | Earlier absent members always survive as a prefix. A holiday event sets the holiday, keeps the sprint, and appends exactly the members of the holiday's country, ignoring case, in team order. A sprint event sets only the sprint. No event changes nothing. |
| `CustomTooltip.OnChanges` | src/app/customtooltip.component.ts:22-26 | The tooltip is updated exactly when `eventInfo` is among the changes, and otherwise nothing changes. |
| `CustomTooltip.RepeatedHolidayAccumulates` | src/app/customtooltip.component.ts:31-35 | Showing the same holiday twice lists its absent members twice, because the list is never cleared. |
| `CustomTooltip.AbsentForIgnoresCase` | src/app/customtooltip.component.ts:32-32 | Holiday countries that differ only in capitalisation select the same members. |
| `Text.ToLowerIdempotent` | src/app/customtooltip.component.ts:32-32 | Lower-casing twice is the same as lower-casing once. |
| `Text.EqualsIgnoringCaseCharwise` | src/app/customtooltip.component.ts:32-32 | Two strings are equal ignoring case iff they have the same length and agree character by character after folding. |

## Left out

- HTTP transport, the Basic-auth header, and `window.btoa` (`src/app/api.service.ts`). Each request appears only as its outcome (`Response`).
- Angular module wiring (`src/app/calendar/calendar.module.ts`), templates, and rendering.
- The two `async` pipelines in `ngOnInit` and the interleaving of subscription callbacks. Completions are modelled as steps applied one after another, in any order (`AppComponent.Run`).
- The lower-cased `countryName` request parameter of the holiday request. It is only sent to the server.
- Month navigation and the month/year getters. They depend on `Date.setMonth`.
- Event colours, `console.error` logging, and the velocity input of the tooltip, which is only displayed.
- `Date` objects, time of day, time zones and `date-fns`. A date is a day number.
- `parseInt`'s parsing of strings. A raw issue carries its result, a whole number or `NaN`.
- Velocity.RoundedHundredths: the division and rounding are done in exact rational arithmetic, not in doubles. This gives the same result as the double computation for integer sums of ordinary size, because 100·sum/n never ends in exactly one half when n ≤ 3.
- Velocity.FindIndex: `findIndex` compares sprints by object identity. The model compares by value, so two sprints with equal fields are treated as one, and `SprintEventVelocity` assumes distinct sprints.
- Full Unicode `toLowerCase`. Only the ASCII letters A–Z are folded.
