/**
 Perceptron.train: `range(1, epochs)` steps, each sampling one point from an
 injected draw and applying Step, with a progress report at every tenth step
 index when reporting is switched on. Randomness is the `draws` argument:
 the k-th draw is consumed by step k + 1.
 */
module Training {
  import opened Geometry
  import opened Perceptrons

  /** The report cadence of train: a report at every step index divisible by this. */
  const ReportEvery: int := 10

  /** A progress report: after step `step`, `incorrect` of `total` points are misclassified. */
  datatype Report = Report(step: int, incorrect: nat, total: nat)

  /** One executed step: its index, the sampled point, and the line before and after the update. */
  datatype StepRecord = StepRecord(index: int, point: Point, before: Line, after: Line)

  /** How a run ended: all steps done, or a draw chose from an empty list at step `index`. */
  datatype Status = Completed | FailedAt(index: int)

  /** The outcome of training: the final state, the executed steps, the reports made, and how it ended. */
  datatype Run = Run(final: Perceptron, steps: seq<StepRecord>, reports: seq<Report>, status: Status)

  /** The number of loop iterations of `range(1, epochs)`. */
  function StepCount(epochs: int): (n: nat)
    ensures epochs >= 1 ==> n == epochs - 1
    ensures epochs <= 1 ==> n == 0
  {
    if epochs > 1 then epochs - 1 else 0
  }

  predicate AllDrawable(pc: Perceptron, draws: seq<Draw>)
  {
    forall k :: 0 <= k < |draws| ==> Drawable(pc, draws[k])
  }

  /** No draw chooses from an empty list. */
  predicate NoEmptyChoice(pc: Perceptron, draws: seq<Draw>)
    requires AllDrawable(pc, draws)
  {
    forall k :: 0 <= k < |draws| ==> |PointsOf(pc, draws[k].color)| > 0
  }

  /** The step indices in [lo, hi) that are multiples of ReportEvery, ascending. */
  function TensIn(lo: int, hi: int): seq<int>
    decreases hi - lo
  {
    if lo >= hi then []
    else (if lo % ReportEvery == 0 then [lo] else []) + TensIn(lo + 1, hi)
  }

  /** The step index of every report, in order. */
  function ReportIndices(reports: seq<Report>): (s: seq<int>)
    ensures |s| == |reports|
    ensures forall k :: 0 <= k < |s| ==> s[k] == reports[k].step
  {
    if |reports| == 0 then [] else [reports[0].step] + ReportIndices(reports[1..])
  }

  /** The reports a run with reporting on makes for the given steps: one at every step whose index is a multiple of ReportEvery, for the line after that step. */
  function ReportsOf(pc: Perceptron, steps: seq<StepRecord>): (r: seq<Report>)
    ensures |r| <= |steps|
  {
    if |steps| == 0 then []
    else
      var s := steps[0];
      (if s.index % ReportEvery == 0
       then [Report(s.index, IncorrectCount(pc.(line := s.after)), TotalCount(pc))]
       else [])
      + ReportsOf(pc, steps[1..])
  }

  /** The reports depend on the point lists and the step records, not on the line the perceptron held before. */
  lemma {:induction false} ReportsOfIgnoresLine(pc: Perceptron, line: Line, steps: seq<StepRecord>)
    ensures ReportsOf(pc.(line := line), steps) == ReportsOf(pc, steps)
    decreases |steps|
  {
    if |steps| > 0 {
      ReportsOfIgnoresLine(pc, line, steps[1..]);
      assert pc.(line := line).(line := steps[0].after) == pc.(line := steps[0].after);
    }
  }

  /** Putting two blocks of steps in front of a run is putting their concatenation in front. */
  lemma PrependTwice(s1: seq<StepRecord>, r1: seq<Report>, s2: seq<StepRecord>, r2: seq<Report>, rest: Run)
    ensures Prepend(s1, r1, Prepend(s2, r2, rest)) == Prepend(s1 + s2, r1 + r2, rest)
  {
    assert s1 + (s2 + rest.steps) == (s1 + s2) + rest.steps;
    assert r1 + (r2 + rest.reports) == (r1 + r2) + rest.reports;
  }

  /** A suffix of valid draws stays valid whatever the line. */
  lemma AllDrawableSuffix(pc: Perceptron, line: Line, draws: seq<Draw>, j: int)
    requires AllDrawable(pc, draws) && 0 <= j <= |draws|
    ensures AllDrawable(pc.(line := line), draws[j..])
  {
    forall k | 0 <= k < |draws[j..]|
      ensures Drawable(pc.(line := line), draws[j..][k])
    {
      assert draws[j..][k] == draws[j + k];
      SampleIgnoresLine(pc, line, draws[j + k]);
    }
  }

  /** Puts already executed steps and reports in front of a run. */
  function Prepend(steps: seq<StepRecord>, reports: seq<Report>, rest: Run): Run
  {
    Run(rest.final, steps + rest.steps, reports + rest.reports, rest.status)
  }

  /** Training leaves everything but the line as it was. */
  predicate KeepsSetup(pc: Perceptron, r: Run)
  {
    r.final == pc.(line := r.final.line)
  }

  /** One step per draw up to the first draw from an empty list, where the run stops and fails. */
  predicate StopsAtEmptyChoice(pc: Perceptron, draws: seq<Draw>, i: int, r: Run)
    requires AllDrawable(pc, draws)
  {
    && |r.steps| <= |draws|
    && (r.status == Completed <==> NoEmptyChoice(pc, draws))
    && (r.status == Completed ==> |r.steps| == |draws|)
    && (r.status.FailedAt? ==>
          && r.status.index == i + |r.steps|
          && |r.steps| < |draws|
          && Sample(pc, draws[|r.steps|]) == EmptyChoice)
  }

  /** Consecutive step indices from i, each step sampling its own draw and starting from the line the previous step left. */
  predicate FollowsDraws(pc: Perceptron, draws: seq<Draw>, i: int, r: Run)
    requires AllDrawable(pc, draws) && |r.steps| <= |draws|
  {
    && (forall k :: 0 <= k < |r.steps| ==>
          r.steps[k].index == i + k && Sample(pc, draws[k]) == Picked(r.steps[k].point))
    && (forall k :: 0 < k < |r.steps| ==> r.steps[k].before == r.steps[k - 1].after)
    && (|r.steps| == 0 ==> r.final.line == pc.line)
    && (|r.steps| > 0 ==> r.steps[0].before == pc.line && r.final.line == r.steps[|r.steps| - 1].after)
  }

  /** With reporting on, exactly the reports ReportsOf gives for the steps; with it off, none. */
  predicate ReportsAsSteps(pc: Perceptron, showInfo: bool, r: Run)
  {
    && (showInfo ==> r.reports == ReportsOf(pc, r.steps))
    && (!showInfo ==> r.reports == [])
  }

  /** What a run of `draws` from step index i must look like. */
  predicate IsRunOf(pc: Perceptron, draws: seq<Draw>, i: int, showInfo: bool, r: Run)
    requires AllDrawable(pc, draws)
  {
    && KeepsSetup(pc, r)
    && StopsAtEmptyChoice(pc, draws, i, r)
    && FollowsDraws(pc, draws, i, r)
    && ReportsAsSteps(pc, showInfo, r)
  }

  /** The report a step at index i makes for the line `after`, if any. */
  function StepReport(pc: Perceptron, i: int, showInfo: bool, after: Line): seq<Report>
  {
    if i % ReportEvery == 0 && showInfo
    then [Report(i, IncorrectCount(pc.(line := after)), TotalCount(pc))]
    else []
  }

  /** A step reports at most once, exactly when reporting is on and its index is a multiple of 10, and the report stays within the number of points. */
  lemma StepReportMeaning(pc: Perceptron, i: int, showInfo: bool, after: Line)
    ensures |StepReport(pc, i, showInfo, after)| <= 1
    ensures |StepReport(pc, i, showInfo, after)| == 1 <==> showInfo && i % 10 == 0
    ensures var r := StepReport(pc, i, showInfo, after);
            |r| == 1 ==> r[0].step == i && r[0].total == TotalCount(pc) && r[0].incorrect <= r[0].total
  {
  }

  lemma StepReportIgnoresLine(pc: Perceptron, line: Line, i: int, showInfo: bool, after: Line)
    ensures StepReport(pc.(line := line), i, showInfo, after) == StepReport(pc, i, showInfo, after)
  {
    assert pc.(line := line).(line := after) == pc.(line := after);
  }

  lemma PrependKeepsSetup(pc: Perceptron, after: Line, head: seq<StepRecord>, report: seq<Report>, rest: Run)
    requires KeepsSetup(pc.(line := after), rest)
    ensures KeepsSetup(pc, Prepend(head, report, rest))
  {
  }

  lemma {:induction false} PrependStopsAtEmptyChoice(pc: Perceptron, draws: seq<Draw>, i: int,
                                                     p: Point, after: Line, report: seq<Report>, rest: Run)
    requires AllDrawable(pc, draws) && |draws| > 0
    requires Sample(pc, draws[0]) == Picked(p)
    requires AllDrawable(pc.(line := after), draws[1..])
    requires StopsAtEmptyChoice(pc.(line := after), draws[1..], i + 1, rest)
    ensures StopsAtEmptyChoice(pc, draws, i, Prepend([StepRecord(i, p, pc.line, after)], report, rest))
  {
    var next := pc.(line := after);
    forall k | 0 <= k < |draws[1..]|
      ensures Sample(next, draws[1..][k]) == Sample(pc, draws[k + 1])
      ensures |PointsOf(next, draws[1..][k].color)| == |PointsOf(pc, draws[k + 1].color)|
    {
      assert draws[1..][k] == draws[k + 1];
      SampleIgnoresLine(pc, after, draws[k + 1]);
    }
    if rest.status == Completed {
      assert NoEmptyChoice(pc, draws) by {
        forall k | 0 <= k < |draws|
          ensures |PointsOf(pc, draws[k].color)| > 0
        {
          if k > 0 {
            assert |PointsOf(next, draws[1..][k - 1].color)| > 0;
          }
        }
      }
    } else {
      var m := |rest.steps|;
      assert |PointsOf(next, draws[1..][m].color)| == 0;
      assert |PointsOf(pc, draws[m + 1].color)| == 0;
    }
  }

  lemma {:induction false} PrependFollowsDraws(pc: Perceptron, draws: seq<Draw>, i: int,
                                               p: Point, after: Line, report: seq<Report>, rest: Run)
    requires AllDrawable(pc, draws) && |draws| > 0
    requires Sample(pc, draws[0]) == Picked(p)
    requires AllDrawable(pc.(line := after), draws[1..]) && |rest.steps| <= |draws[1..]|
    requires FollowsDraws(pc.(line := after), draws[1..], i + 1, rest)
    ensures FollowsDraws(pc, draws, i, Prepend([StepRecord(i, p, pc.line, after)], report, rest))
  {
    var r := Prepend([StepRecord(i, p, pc.line, after)], report, rest);
    forall k | 0 < k < |r.steps|
      ensures r.steps[k].index == i + k && Sample(pc, draws[k]) == Picked(r.steps[k].point)
      ensures r.steps[k].before == r.steps[k - 1].after
    {
      assert r.steps[k] == rest.steps[k - 1];
      assert draws[1..][k - 1] == draws[k];
      SampleIgnoresLine(pc, after, draws[k]);
      if k > 1 {
        assert r.steps[k - 1] == rest.steps[k - 2];
      }
    }
  }

  lemma PrependReportsAsSteps(pc: Perceptron, i: int, showInfo: bool, p: Point, after: Line, rest: Run)
    requires ReportsAsSteps(pc.(line := after), showInfo, rest)
    ensures ReportsAsSteps(pc, showInfo, Prepend([StepRecord(i, p, pc.line, after)], StepReport(pc, i, showInfo, after), rest))
  {
    var r := Prepend([StepRecord(i, p, pc.line, after)], StepReport(pc, i, showInfo, after), rest);
    assert r.steps[1..] == rest.steps;
    ReportsOfIgnoresLine(pc, after, rest.steps);
  }

  /** A step record and its report in front of a run of the remaining draws make a run of all the draws. */
  lemma PrependStepIsRun(pc: Perceptron, draws: seq<Draw>, i: int, showInfo: bool,
                         p: Point, after: Line, rest: Run)
    requires AllDrawable(pc, draws) && |draws| > 0
    requires Sample(pc, draws[0]) == Picked(p)
    requires AllDrawable(pc.(line := after), draws[1..])
    requires IsRunOf(pc.(line := after), draws[1..], i + 1, showInfo, rest)
    ensures IsRunOf(pc, draws, i, showInfo,
                    Prepend([StepRecord(i, p, pc.line, after)], StepReport(pc, i, showInfo, after), rest))
  {
    var report := StepReport(pc, i, showInfo, after);
    PrependKeepsSetup(pc, after, [StepRecord(i, p, pc.line, after)], report, rest);
    PrependStopsAtEmptyChoice(pc, draws, i, p, after, report, rest);
    PrependFollowsDraws(pc, draws, i, p, after, report, rest);
    PrependReportsAsSteps(pc, i, showInfo, p, after, rest);
  }

  /** Runs steps i, i + 1, ..., one per draw, stopping at the first draw from an empty list. */
  function RunFrom(pc: Perceptron, draws: seq<Draw>, i: int, showInfo: bool): Run
    requires AllDrawable(pc, draws)
    decreases |draws|
  {
    if |draws| == 0 then Run(pc, [], [], Completed)
    else
      match Sample(pc, draws[0])
      case EmptyChoice => Run(pc, [], [], FailedAt(i))
      case Picked(p) =>
        var after := Step(pc.line, p, pc.learningRate);
        AllDrawableSuffix(pc, after, draws, 1);
        Prepend([StepRecord(i, p, pc.line, after)], StepReport(pc, i, showInfo, after),
                RunFrom(pc.(line := after), draws[1..], i + 1, showInfo))
  }

  /** Every run RunFrom produces has the shape IsRunOf describes. */
  lemma {:induction false} RunFromIsRun(pc: Perceptron, draws: seq<Draw>, i: int, showInfo: bool)
    requires AllDrawable(pc, draws)
    ensures IsRunOf(pc, draws, i, showInfo, RunFrom(pc, draws, i, showInfo))
    decreases |draws|
  {
    if |draws| > 0 && Sample(pc, draws[0]).Picked? {
      var p := Sample(pc, draws[0]).point;
      var after := Step(pc.line, p, pc.learningRate);
      AllDrawableSuffix(pc, after, draws, 1);
      RunFromIsRun(pc.(line := after), draws[1..], i + 1, showInfo);
      PrependStepIsRun(pc, draws, i, showInfo, p, after, RunFrom(pc.(line := after), draws[1..], i + 1, showInfo));
    }
  }

  /** One step of RunFrom: a successful draw yields one step record and the run of the remaining draws. */
  lemma RunFromUnfold(pc: Perceptron, draws: seq<Draw>, i: int, showInfo: bool)
    requires AllDrawable(pc, draws) && |draws| > 0
    ensures Sample(pc, draws[0]) == EmptyChoice ==> RunFrom(pc, draws, i, showInfo) == Run(pc, [], [], FailedAt(i))
    ensures Sample(pc, draws[0]).Picked? ==>
              var p := Sample(pc, draws[0]).point;
              var after := Step(pc.line, p, pc.learningRate);
              && AllDrawable(pc.(line := after), draws[1..])
              && RunFrom(pc, draws, i, showInfo)
                 == Prepend([StepRecord(i, p, pc.line, after)], StepReport(pc, i, showInfo, after),
                            RunFrom(pc.(line := after), draws[1..], i + 1, showInfo))
  {
    if Sample(pc, draws[0]).Picked? {
      AllDrawableSuffix(pc, Step(pc.line, Sample(pc, draws[0]).point, pc.learningRate), draws, 1);
    }
  }

  /** Every executed step applies the training update to the line it started from. */
  lemma {:induction false} RunAppliesStep(pc: Perceptron, draws: seq<Draw>, i: int, showInfo: bool)
    requires AllDrawable(pc, draws)
    ensures var r := RunFrom(pc, draws, i, showInfo);
            forall k :: 0 <= k < |r.steps| ==>
              r.steps[k].after == Step(r.steps[k].before, r.steps[k].point, pc.learningRate)
    decreases |draws|
  {
    if |draws| > 0 {
      RunFromUnfold(pc, draws, i, showInfo);
      if Sample(pc, draws[0]).Picked? {
        var next := pc.(line := Step(pc.line, Sample(pc, draws[0]).point, pc.learningRate));
        AllDrawableSuffix(pc, next.line, draws, 1);
        RunAppliesStep(next, draws[1..], i + 1, showInfo);
        var r := RunFrom(pc, draws, i, showInfo);
        var rest := RunFrom(next, draws[1..], i + 1, showInfo);
        forall k | 0 < k < |r.steps|
          ensures r.steps[k].after == Step(r.steps[k].before, r.steps[k].point, pc.learningRate)
        {
          assert r.steps[k] == rest.steps[k - 1];
        }
      }
    }
  }

  /** Perceptron.train: the run of `range(1, epochs)`, one draw per loop iteration. */
  function Train(pc: Perceptron, draws: seq<Draw>, showInfo: bool): (r: Run)
    requires AllDrawable(pc, draws) && |draws| == StepCount(pc.epochs)
    ensures IsRunOf(pc, draws, 1, showInfo, r)
    ensures r.status == Completed ==> |r.steps| == StepCount(pc.epochs)
  {
    RunFromIsRun(pc, draws, 1, showInfo);
    RunFrom(pc, draws, 1, showInfo)
  }

  /** Every step of train applies the update rule to the line the previous step left. */
  lemma TrainAppliesStep(pc: Perceptron, draws: seq<Draw>, showInfo: bool)
    requires AllDrawable(pc, draws) && |draws| == StepCount(pc.epochs)
    ensures var r := Train(pc, draws, showInfo);
            forall k :: 0 <= k < |r.steps| ==>
              r.steps[k].after == Step(r.steps[k].before, r.steps[k].point, pc.learningRate)
  {
    assert Train(pc, draws, showInfo) == RunFrom(pc, draws, 1, showInfo);
    RunAppliesStep(pc, draws, 1, showInfo);
  }

  /** With reporting on, train reports at exactly the executed step indices divisible by ReportEvery:
      (epochs - 1) / ReportEvery reports when every draw succeeds and epochs >= 1. With it off, none. */
  lemma TrainReportCadence(pc: Perceptron, draws: seq<Draw>, showInfo: bool)
    requires AllDrawable(pc, draws) && |draws| == StepCount(pc.epochs)
    ensures var r := Train(pc, draws, showInfo);
            showInfo ==> ReportIndices(r.reports) == TensIn(1, 1 + |r.steps|)
    ensures var r := Train(pc, draws, showInfo);
            showInfo && r.status == Completed ==>
              |r.reports| == if pc.epochs >= 1 then (pc.epochs - 1) / ReportEvery else 0
    ensures var r := Train(pc, draws, showInfo);
            showInfo ==> forall x :: x in ReportIndices(r.reports) <==> 1 <= x <= |r.steps| && x % ReportEvery == 0
    ensures !showInfo ==> Train(pc, draws, showInfo).reports == []
  {
    var r := Train(pc, draws, showInfo);
    ReportsAtMultiples(pc, r.steps, 1);
    TensInLength(1, 1 + |r.steps|);
    if showInfo {
      forall x
        ensures x in ReportIndices(r.reports) <==> 1 <= x <= |r.steps| && x % ReportEvery == 0
      {
        TensInMembers(1, 1 + |r.steps|, x);
      }
    }
  }

  /** The reports for consecutively numbered steps fall exactly on the multiples of ReportEvery among their indices. */
  lemma {:induction false} ReportsAtMultiples(pc: Perceptron, steps: seq<StepRecord>, i: int)
    requires forall k :: 0 <= k < |steps| ==> steps[k].index == i + k
    ensures ReportIndices(ReportsOf(pc, steps)) == TensIn(i, i + |steps|)
    decreases |steps|
  {
    if |steps| > 0 {
      ReportsAtMultiples(pc, steps[1..], i + 1);
      var head := if steps[0].index % ReportEvery == 0
                  then [Report(steps[0].index, IncorrectCount(pc.(line := steps[0].after)), TotalCount(pc))]
                  else [];
      ReportIndicesAppend(head, ReportsOf(pc, steps[1..]));
    }
  }

  lemma {:induction false} ReportIndicesAppend(a: seq<Report>, b: seq<Report>)
    ensures ReportIndices(a + b) == ReportIndices(a) + ReportIndices(b)
  {
    var l, r := ReportIndices(a + b), ReportIndices(a) + ReportIndices(b);
    assert |l| == |r|;
    forall k | 0 <= k < |l|
      ensures l[k] == r[k]
    {
      if k < |a| {
        assert (a + b)[k] == a[k];
      } else {
        assert (a + b)[k] == b[k - |a|];
      }
    }
  }

  /** A report index is exactly a multiple of ReportEvery inside the range. */
  lemma {:induction false} TensInMembers(lo: int, hi: int, x: int)
    ensures x in TensIn(lo, hi) <==> lo <= x < hi && x % ReportEvery == 0
    decreases hi - lo
  {
    if lo < hi {
      TensInMembers(lo + 1, hi, x);
    }
  }

  /** Counting the multiples of ReportEvery in [lo, hi). */
  lemma {:induction false} TensInLength(lo: int, hi: int)
    requires 1 <= lo <= hi
    ensures |TensIn(lo, hi)| == (hi - 1) / ReportEvery - (lo - 1) / ReportEvery
    decreases hi - lo
  {
    if lo < hi {
      TensInLength(lo + 1, hi);
      assert lo / ReportEvery - (lo - 1) / ReportEvery == if lo % ReportEvery == 0 then 1 else 0;
    }
  }

  /** Every report's error count lies between 0 and the number of points, which training never changes. */
  lemma ReportsWithinBounds(pc: Perceptron, draws: seq<Draw>)
    requires AllDrawable(pc, draws) && |draws| == StepCount(pc.epochs)
    ensures forall k :: 0 <= k < |Train(pc, draws, true).reports| ==>
              && Train(pc, draws, true).reports[k].total == TotalCount(pc)
              && Train(pc, draws, true).reports[k].incorrect <= TotalCount(pc)
  {
    var r := Train(pc, draws, true);
    ReportsBounded(pc, r.steps);
  }

  lemma {:induction false} ReportsBounded(pc: Perceptron, steps: seq<StepRecord>)
    ensures forall k :: 0 <= k < |ReportsOf(pc, steps)| ==>
              ReportsOf(pc, steps)[k].total == TotalCount(pc) && ReportsOf(pc, steps)[k].incorrect <= TotalCount(pc)
    decreases |steps|
  {
    if |steps| > 0 {
      ReportsBounded(pc, steps[1..]);
      IncorrectCountMeaning(pc.(line := steps[0].after));
    }
  }

  /** One iteration of the training loop: a successful draw at index i adds one step record and its report in front of the run of the remaining draws. */
  lemma LoopStep(pc: Perceptron, draws: seq<Draw>, showInfo: bool, i: int, line: Line, p: Point, after: Line)
    requires AllDrawable(pc, draws) && 1 <= i <= |draws|
    requires Sample(pc, draws[i - 1]) == Picked(p)
    requires after == Step(line, p, pc.learningRate)
    ensures AllDrawable(pc.(line := line), draws[i - 1..])
    ensures AllDrawable(pc.(line := after), draws[i..])
    ensures RunFrom(pc.(line := line), draws[i - 1..], i, showInfo)
            == Prepend([StepRecord(i, p, line, after)], StepReport(pc, i, showInfo, after),
                       RunFrom(pc.(line := after), draws[i..], i + 1, showInfo))
  {
    var cur := pc.(line := line);
    AllDrawableSuffix(pc, line, draws, i - 1);
    AllDrawableSuffix(pc, after, draws, i);
    assert draws[i - 1..][0] == draws[i - 1];
    assert draws[i - 1..][1..] == draws[i..];
    SampleIgnoresLine(pc, line, draws[i - 1]);
    RunFromUnfold(cur, draws[i - 1..], i, showInfo);
    StepReportIgnoresLine(pc, line, i, showInfo, after);
  }

  /** The loop of Perceptron.train, updating the line in place and stopping where a draw chooses from an empty list. */
  method TrainLoop(pc: Perceptron, draws: seq<Draw>, showInfo: bool) returns (r: Run)
    requires AllDrawable(pc, draws) && |draws| == StepCount(pc.epochs)
    ensures r == RunFrom(pc, draws, 1, showInfo)
  {
    var line := pc.line;
    var steps: seq<StepRecord> := [];
    var reports: seq<Report> := [];
    var status := Completed;
    var i := 1;
    assert pc.(line := line) == pc && draws[i - 1..] == draws;
    assert Prepend(steps, reports, RunFrom(pc, draws, 1, showInfo)) == RunFrom(pc, draws, 1, showInfo);
    while i < pc.epochs
      invariant 1 <= i <= |draws| + 1
      invariant i < pc.epochs <==> i <= |draws|
      invariant AllDrawable(pc.(line := line), draws[i - 1..])
      invariant RunFrom(pc, draws, 1, showInfo)
                == Prepend(steps, reports, RunFrom(pc.(line := line), draws[i - 1..], i, showInfo))
      decreases pc.epochs - i
    {
      var sampled := Sample(pc.(line := line), draws[i - 1]);
      if sampled.EmptyChoice? {
        RunFromUnfold(pc.(line := line), draws[i - 1..], i, showInfo);
        status := FailedAt(i);
        break;
      }
      var p := sampled.point;
      var after := Step(line, p, pc.learningRate);
      SampleIgnoresLine(pc, line, draws[i - 1]);
      LoopStep(pc, draws, showInfo, i, line, p, after);
      PrependTwice(steps, reports, [StepRecord(i, p, line, after)], StepReport(pc, i, showInfo, after),
                   RunFrom(pc.(line := after), draws[i..], i + 1, showInfo));
      ghost var reportsBefore := reports;
      steps := steps + [StepRecord(i, p, line, after)];
      line := after;
      if i % ReportEvery == 0 && showInfo {
        reports := reports + [Report(i, IncorrectCount(pc.(line := line)), TotalCount(pc))];
      }
      assert reports == reportsBefore + StepReport(pc, i, showInfo, after);
      assert draws[i..] == draws[(i + 1) - 1..];
      i := i + 1;
    }
    r := Run(pc.(line := line), steps, reports, status);
  }
}
