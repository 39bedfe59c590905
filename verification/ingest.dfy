/**
 Turning the raw issue and team-member payloads into the application's
 `Jira` and `TeamMember` records.
 */
module Ingest {
  import opened Base
  import opened Seqs
  import opened Interfaces

  /**
   One issue's `Jira`. Reading `customfield_10020[0].id` throws a TypeError
   when the issue lists no sprint.
   */
  function IssueToJira(raw: RawIssue): Option<Jira>
  {
    if |raw.sprintRefs| == 0 then None
    else Some(Jira(raw.id, raw.storyPoints, raw.sprintRefs[0]))
  }

  /**
   The jiras after one issue request: unchanged on a transport failure or an
   explicit `requestSuccess == false`; otherwise one jira per issue, in order,
   appended until an issue without a sprint throws.
   */
  function IngestJiras(jiras: seq<Jira>, response: Response<JiraPayload>): (r: seq<Jira>)
    ensures |jiras| <= |r| && r[..|jiras|] == jiras
    ensures response.Failed? ==> r == jiras
    ensures response.Received? && response.body.requestSuccess == Some(false) ==> r == jiras
    ensures response.Received? ==> |r| <= |jiras| + |response.body.issues|
    ensures forall i :: |jiras| <= i < |r| ==>
      && response.Received?
      && var raw := response.body.issues[i - |jiras|];
      && |raw.sprintRefs| > 0
      && r[i] == Jira(raw.id, raw.storyPoints, raw.sprintRefs[0])
    ensures response.Received? && response.body.requestSuccess != Some(false)
      && (forall k :: 0 <= k < |response.body.issues| ==> |response.body.issues[k].sprintRefs| > 0)
      ==> |r| == |jiras| + |response.body.issues|
    ensures response.Received? && response.body.requestSuccess != Some(false)
      && |r| < |jiras| + |response.body.issues|
      ==> |response.body.issues[|r| - |jiras|].sprintRefs| == 0
  {
    match response
    case Failed => jiras
    case Received(payload) =>
      if payload.requestSuccess == Some(false) then jiras
      else jiras + MapUntilThrow(IssueToJira, payload.issues)
  }

  /** One member's record; reading `Location.Country` throws when `Location` is missing. */
  function ToTeamMember(raw: RawTeamMember): Option<TeamMember>
  {
    match raw.location
    case None => None
    case Some(loc) => Some(TeamMember(raw.name, loc.country, loc.region))
  }

  /**
   The team after one team-member request: unchanged on a transport failure;
   otherwise one member per record, in order, appended until a record without
   a `Location` throws.
   */
  function IngestTeamMembers(members: seq<TeamMember>, response: Response<seq<RawTeamMember>>): (r: seq<TeamMember>)
    ensures |members| <= |r| && r[..|members|] == members
    ensures response.Failed? ==> r == members
    ensures response.Received? ==> |r| <= |members| + |response.body|
    ensures forall i :: |members| <= i < |r| ==>
      && response.Received?
      && var raw := response.body[i - |members|];
      && raw.location.Some?
      && r[i] == TeamMember(raw.name, raw.location.value.country, raw.location.value.region)
    ensures response.Received?
      && (forall k :: 0 <= k < |response.body| ==> response.body[k].location.Some?)
      ==> |r| == |members| + |response.body|
    ensures response.Received? && |r| < |members| + |response.body|
      ==> response.body[|r| - |members|].location.None?
  {
    match response
    case Failed => members
    case Received(raws) => members + MapUntilThrow(ToTeamMember, raws)
  }
}
