/**
 Sprint velocity: the average story total of the (up to three) sprints that
 precede a sprint by position in the sprint list, rounded to two decimals.
 Results are in hundredths, so a velocity of 12.34 is `Finite(1234)`.
 */
module Velocity {
  import opened Base
  import opened Interfaces

  /** How many sprints back the average looks. */
  const SprintCount := 3

  /** `sprint.sprintStoryTotal!`: an absent total adds as `undefined`, that is `NaN`. */
  function TotalOf(s: Sprint): Number
  {
    match s.sprintStoryTotal
    case None => NaN
    case Some(n) => n
  }

  /** The sprints at positions `lo` up to (excluding) `hi` that exist, in order. */
  function Existing(sprints: seq<Sprint>, lo: int, hi: int): (r: seq<Sprint>)
    ensures |r| <= Max(0, hi - lo)
    ensures forall x :: x in r ==> exists i :: lo <= i < hi && 0 <= i < |sprints| && sprints[i] == x
  {
    var a := Max(0, lo);
    var b := Min(|sprints|, hi);
    if a < b then sprints[a..b] else []
  }

  /** Extending the scanned range by one position adds that sprint if it exists. */
  lemma ExistingStep(sprints: seq<Sprint>, lo: int, i: int)
    requires lo <= i
    ensures Existing(sprints, lo, i + 1) ==
      Existing(sprints, lo, i) + (if 0 <= i < |sprints| then [sprints[i]] else [])
  {
  }

  /** The sprints the average reads for the sprint at position `current`. */
  function PriorSprints(sprints: seq<Sprint>, current: int): (r: seq<Sprint>)
    ensures |r| <= SprintCount
    ensures 0 <= current <= |sprints| ==> r == sprints[current - Min(current, SprintCount)..current]
  {
    Existing(sprints, current - SprintCount, current)
  }

  /** The running `totalStoryPoints += ...` from 0 over `ss`. */
  function SumTotals(ss: seq<Sprint>): (r: Number)
    ensures r.NaN? <==> exists i :: 0 <= i < |ss| && TotalOf(ss[i]).NaN?
  {
    if |ss| == 0 then Finite(0)
    else Add(SumTotals(ss[..|ss| - 1]), TotalOf(ss[|ss| - 1]))
  }

  /** Sprints with the same totals, position by position, have the same sum. */
  lemma {:induction false} SumTotalsPointwise(a: seq<Sprint>, b: seq<Sprint>)
    requires |a| == |b|
    requires forall i :: 0 <= i < |a| ==> TotalOf(a[i]) == TotalOf(b[i])
    ensures SumTotals(a) == SumTotals(b)
    decreases |a|
  {
    if |a| > 0 {
      SumTotalsPointwise(a[..|a| - 1], b[..|b| - 1]);
    }
  }

  /**
   `Math.round(sum / count * 100)`: the integer nearest to `100 * sum / count`,
   a tie going up.
   */
  function RoundedHundredths(sum: int, count: int): (h: int)
    requires count > 0
    ensures 200 * sum - count < 2 * count * h <= 200 * sum + count
  {
    var n := 200 * sum + count;
    var d := 2 * count;
    assert n == d * (n / d) + n % d;
    n / d
  }

  /**
   The velocity of the sprint at position `current`: 0 when no earlier sprint
   exists, otherwise the rounded mean over the sprints found, or `NaN` when
   one of their totals is `NaN`.
   */
  function VelocityAt(sprints: seq<Sprint>, current: int): (v: Number)
  {
    var prior := PriorSprints(sprints, current);
    if |prior| == 0 then Finite(0)
    else match SumTotals(prior)
      case NaN => NaN
      case Finite(t) => Finite(RoundedHundredths(t, |prior|))
  }

  /**
   The loop of `CalculateSprintVelocity`: scan positions `current - 3` to
   `current - 1`, adding the total of every sprint that exists and counting
   it, then divide by the count found.
   */
  method TrailingVelocity(sprints: seq<Sprint>, current: int) returns (v: Number)
    ensures v == VelocityAt(sprints, current)
  {
    var start := current - SprintCount;
    var total := Finite(0);
    var found := 0;
    var i := start;
    while i < start + SprintCount
      invariant start <= i <= start + SprintCount
      invariant found == |Existing(sprints, start, i)|
      invariant total == SumTotals(Existing(sprints, start, i))
    {
      ExistingStep(sprints, start, i);
      if 0 <= i < |sprints| {
        var seen := Existing(sprints, start, i);
        assert (seen + [sprints[i]])[..|seen|] == seen;
        total := Add(total, TotalOf(sprints[i]));
        found := found + 1;
      } else {
        assert Existing(sprints, start, i + 1) == Existing(sprints, start, i);
      }
      i := i + 1;
    }
    if found > 0 {
      match total
      case NaN => v := NaN;
      case Finite(t) => v := Finite(RoundedHundredths(t, found));
    } else {
      v := Finite(0);
    }
  }

  /** Position of the first sprint equal to `target`, or -1 (`findIndex`). */
  function FindIndex(sprints: seq<Sprint>, target: Option<Sprint>): (r: int)
    ensures -1 <= r < |sprints|
    ensures r == -1 <==> target.None? || target.value !in sprints
    ensures 0 <= r ==> target == Some(sprints[r]) && forall j :: 0 <= j < r ==> sprints[j] != target.value
  {
    if target.None? || |sprints| == 0 then -1
    else if sprints[0] == target.value then 0
    else
      var k := FindIndex(sprints[1..], target);
      if k < 0 then -1 else k + 1
  }

  /**
   The velocity shown for a calendar event: the velocity of the position the
   event's sprint has in the sprint list, and 0 for a holiday.
   */
  function CalculateSprintVelocity(sprints: seq<Sprint>, event: CalendarEvent): (v: Number)
    ensures !IsSprintEvent(event) ==> v == Finite(0)
    ensures event.meta.sprint.None? || event.meta.sprint.value !in sprints ==> v == Finite(0)
  {
    if IsSprintEvent(event) then VelocityAt(sprints, FindIndex(sprints, event.meta.sprint))
    else Finite(0)
  }

  /**
   The first sprint, and a position before it (the -1 of a sprint that was not
   found), have velocity 0.
   */
  lemma VelocityZeroWithoutPriorSprint(sprints: seq<Sprint>, current: int)
    requires current <= 0
    ensures VelocityAt(sprints, current) == Finite(0)
  {
  }

  /**
   For a sprint at position `current` > 0 the divisor is the number of prior
   sprints that exist, `min(current, 3)`, and the result is the rounded mean
   of their totals.
   */
  lemma VelocityIsRoundedMean(sprints: seq<Sprint>, current: int)
    requires 0 < current <= |sprints|
    ensures var n := Min(current, SprintCount);
      var prior := sprints[current - n..current];
      && PriorSprints(sprints, current) == prior
      && 1 <= n <= SprintCount
      && (SumTotals(prior).NaN? ==> VelocityAt(sprints, current).NaN?)
      && (SumTotals(prior).Finite? ==>
            var t := SumTotals(prior).value;
            && VelocityAt(sprints, current).Finite?
            && 200 * t - n < 2 * n * VelocityAt(sprints, current).value <= 200 * t + n)
  {
  }

  /**
   The velocity of the sprint at `current` reads only the totals at positions
   `current - 3` to `current - 1`: the sprint itself, later sprints, and
   sprints further back never contribute.
   */
  lemma VelocityReadsOnlyPriorWindow(s: seq<Sprint>, t: seq<Sprint>, current: int)
    requires 0 <= current <= |s| && current <= |t|
    requires forall i :: current - SprintCount <= i < current && 0 <= i ==> TotalOf(s[i]) == TotalOf(t[i])
    ensures VelocityAt(s, current) == VelocityAt(t, current)
  {
    var n := Min(current, SprintCount);
    var ps, pt := s[current - n..current], t[current - n..current];
    assert forall i :: 0 <= i < n ==> ps[i] == s[current - n + i] && pt[i] == t[current - n + i];
    SumTotalsPointwise(ps, pt);
  }

  /** In particular, dropping the sprint itself and every later sprint changes nothing. */
  lemma VelocityIgnoresLaterSprints(s: seq<Sprint>, current: int)
    requires 0 <= current <= |s|
    ensures VelocityAt(s, current) == VelocityAt(s[..current], current)
  {
    VelocityReadsOnlyPriorWindow(s, s[..current], current);
  }

  /** A sprint that only carries an id and a story total. */
  function SprintWithTotal(id: int, total: int): Sprint
  {
    Sprint(id, "", 0, 0, Some([]), Some(Finite(total)))
  }

  /** Sprints with story totals 10, 20, 30 and 40: velocities 0, 10, 15 and 20. */
  lemma VelocityExample()
    ensures var s := [SprintWithTotal(0, 10), SprintWithTotal(1, 20), SprintWithTotal(2, 30), SprintWithTotal(3, 40)];
      && VelocityAt(s, 0) == Finite(0)
      && VelocityAt(s, 1) == Finite(1000)
      && VelocityAt(s, 2) == Finite(1500)
      && VelocityAt(s, 3) == Finite(2000)
  {
    var a, b, c, d := SprintWithTotal(0, 10), SprintWithTotal(1, 20), SprintWithTotal(2, 30), SprintWithTotal(3, 40);
    var s := [a, b, c, d];
    assert SumTotals([a]) == Finite(10) by { assert [a][..0] == []; }
    assert SumTotals([a, b]) == Finite(30) by { assert [a, b][..1] == [a]; }
    assert SumTotals([a, b, c]) == Finite(60) by { assert [a, b, c][..2] == [a, b]; }
    assert PriorSprints(s, 1) == [a] by { assert s[0..1] == [a]; }
    assert PriorSprints(s, 2) == [a, b] by { assert s[0..2] == [a, b]; }
    assert PriorSprints(s, 3) == [a, b, c] by { assert s[0..3] == [a, b, c]; }
  }
}
