/**
 Joining issues to sprints: each sprint collects the jiras that carry its id
 and sums their story points.
 */
module SprintJoin {
  import opened Base
  import opened Seqs
  import opened Interfaces

  /**
   The running `sprintStoryTotal += jira.jiraStoryPoints` over `jiras`, from 0.
   It is `NaN` exactly when some jira's points are `NaN`.
   */
  function StoryTotal(jiras: seq<Jira>): (r: Number)
    ensures r.NaN? <==> exists i :: 0 <= i < |jiras| && jiras[i].jiraStoryPoints.NaN?
  {
    if |jiras| == 0 then Finite(0)
    else Add(StoryTotal(jiras[..|jiras| - 1]), jiras[|jiras| - 1].jiraStoryPoints)
  }

  /** The total of a concatenation is the sum of the totals. */
  lemma {:induction false} StoryTotalAppend(a: seq<Jira>, b: seq<Jira>)
    ensures StoryTotal(a + b) == Add(StoryTotal(a), StoryTotal(b))
    decreases |b|
  {
    if |b| == 0 {
      assert a + b == a;
    } else {
      var b' := b[..|b| - 1];
      assert (a + b)[..|a + b| - 1] == a + b';
      StoryTotalAppend(a, b');
    }
  }

  /** The `forEach` that accumulates a sprint's story points. */
  method SumStoryPoints(jiras: seq<Jira>) returns (total: Number)
    ensures total == StoryTotal(jiras)
  {
    total := Finite(0);
    var i := 0;
    while i < |jiras|
      invariant 0 <= i <= |jiras|
      invariant total == StoryTotal(jiras[..i])
    {
      assert jiras[..i + 1][..i] == jiras[..i];
      total := Add(total, jiras[i].jiraStoryPoints);
      i := i + 1;
    }
    assert jiras[..i] == jiras;
  }

  /** `jiras.filter(jira => jira.jiraSprintId === id)`. */
  function JirasOfSprint(jiras: seq<Jira>, id: int): seq<Jira>
  {
    Filter((j: Jira) => j.jiraSprintId == id, jiras)
  }

  /** The sprint built from one raw sprint and the jiras known at that time. */
  function BuildSprint(jiras: seq<Jira>, raw: RawSprint): Sprint
  {
    var mine := JirasOfSprint(jiras, raw.id);
    Sprint(raw.id, raw.name, raw.startDate, raw.endDate, Some(mine), Some(StoryTotal(mine)))
  }

  /**
   One sprint per raw sprint, in response order. Each sprint's jira list is
   exactly the subsequence of `jiras` carrying its id, with every occurrence
   kept, and its story total is their sum.
   */
  function JoinSprints(jiras: seq<Jira>, raws: seq<RawSprint>): (r: seq<Sprint>)
    ensures |r| == |raws|
    ensures forall i :: 0 <= i < |r| ==>
      && r[i].sprintId == raws[i].id
      && r[i].sprintName == raws[i].name
      && r[i].sprintStart == raws[i].startDate
      && r[i].sprintEnd == raws[i].endDate
      && r[i].sprintJiras.Some?
      && IsSubsequence(r[i].sprintJiras.value, jiras)
      && r[i].sprintStoryTotal == Some(StoryTotal(r[i].sprintJiras.value))
    ensures forall i, j :: 0 <= i < |r| ==>
      (j in r[i].sprintJiras.value <==> j in jiras && j.jiraSprintId == raws[i].id)
    ensures forall i, j :: 0 <= i < |r| ==>
      multiset(r[i].sprintJiras.value)[j] == if j.jiraSprintId == raws[i].id then multiset(jiras)[j] else 0
  {
    JoinedJirasMultiplicity(jiras, raws);
    seq(|raws|, i requires 0 <= i < |raws| => BuildSprint(jiras, raws[i]))
  }

  lemma JoinedJirasMultiplicity(jiras: seq<Jira>, raws: seq<RawSprint>)
    ensures forall i, j :: 0 <= i < |raws| ==>
      multiset(JirasOfSprint(jiras, raws[i].id))[j]
        == if j.jiraSprintId == raws[i].id then multiset(jiras)[j] else 0
  {
    forall i | 0 <= i < |raws| {
      JirasOfSprintMultiplicity(jiras, raws[i].id);
    }
  }

  lemma JirasOfSprintMultiplicity(jiras: seq<Jira>, id: int)
    ensures forall j :: multiset(JirasOfSprint(jiras, id))[j] == if j.jiraSprintId == id then multiset(jiras)[j] else 0
  {
    FilterMultiplicity((j: Jira) => j.jiraSprintId == id, jiras);
  }

  /**
   When sprint ids are distinct, a jira whose sprint id names one of the raw
   sprints lands in that sprint's list and in no other; a jira naming none
   lands nowhere.
   */
  lemma JiraInAtMostOneSprint(jiras: seq<Jira>, raws: seq<RawSprint>, j: Jira)
    requires forall a, b :: 0 <= a < b < |raws| ==> raws[a].id != raws[b].id
    requires j in jiras
    ensures var r := JoinSprints(jiras, raws);
      forall i :: 0 <= i < |r| ==> (j in r[i].sprintJiras.value <==> raws[i].id == j.jiraSprintId)
    ensures var r := JoinSprints(jiras, raws);
      forall a, b :: 0 <= a < b < |r| ==> !(j in r[a].sprintJiras.value && j in r[b].sprintJiras.value)
  {
  }
}
