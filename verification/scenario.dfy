/**
 The worked example around the module script's starting line 2x + 3y - 6 = 0
 with learning rate 0.01: one red point at (10, 10) and one blue point at
 (0, 0), and the same points with (10, 10) relabelled blue.
 */
module Scenario {
  import opened Geometry
  import opened Perceptrons
  import opened Training

  /** The script's starting line, 2x + 3y - 6 = 0. */
  const StartLine: Line := Line(2.0, 3.0, -6.0)

  /** The script's learning rate. */
  const Rate: real := 0.01

  /** Red (10, 10) above the line and blue (0, 0) below it. */
  function Separated(epochs: int): Perceptron
  {
    Perceptron(StartLine, [(10.0, 10.0)], [(0.0, 0.0)], epochs, Rate)
  }

  /** The same two points, both labelled blue: (10, 10) is now on the wrong side. */
  function Relabelled(epochs: int): Perceptron
  {
    Perceptron(StartLine, [], [(10.0, 10.0), (0.0, 0.0)], epochs, Rate)
  }

  /** The value 44 at (10, 10) and -6 at (0, 0) put both points on their own side: no errors. */
  lemma SeparatedHasNoErrors(epochs: int)
    ensures Value(StartLine, Point(10.0, 10.0, Red)) == 44.0
    ensures Value(StartLine, Point(0.0, 0.0, Blue)) == -6.0
    ensures IncorrectCount(Separated(epochs)) == 0
  {
  }

  /** Relabelling (10, 10) blue makes exactly one error. */
  lemma RelabelledHasOneError(epochs: int)
    ensures IncorrectCount(Relabelled(epochs)) == 1
  {
  }

  /** With epochs = 2 train makes one step; sampling the misclassified blue (10, 10) moves the line to (1.9, 2.9, -6.01). */
  lemma OneStepOnMisclassifiedPoint()
    ensures AllDrawable(Relabelled(2), [Draw(Blue, 0)])
    ensures var r := Train(Relabelled(2), [Draw(Blue, 0)], false);
            && r.status == Completed
            && |r.steps| == 1
            && r.final.line == Line(1.9, 2.9, -6.01)
  {
  }

  /** Sampling the correctly placed blue (0, 0) leaves the line where it was. */
  lemma StepOnCorrectPointKeepsLine()
    ensures AllDrawable(Relabelled(2), [Draw(Blue, 1)])
    ensures Train(Relabelled(2), [Draw(Blue, 1)], false).final.line == StartLine
  {
  }

  /** Choosing red when there are no red points fails at the first step and changes nothing. */
  lemma RedDrawWithoutRedPointsFails()
    ensures AllDrawable(Relabelled(2), [Draw(Red, 0)])
    ensures var r := Train(Relabelled(2), [Draw(Red, 0)], false);
            r.status == FailedAt(1) && r.steps == [] && r.final == Relabelled(2)
  {
  }

  /** epochs = 1 runs no step at all: `range(1, 1)` is empty. */
  lemma OneEpochRunsNoStep(pc: Perceptron, showInfo: bool)
    requires pc.epochs == 1
    ensures Train(pc, [], showInfo) == Run(pc, [], [], Completed)
  {
  }

  /** epochs = 11 with reporting on and every draw succeeding: ten steps and a single report, after step 10. */
  lemma ElevenEpochsReportOnce(pc: Perceptron, draws: seq<Draw>)
    requires pc.epochs == 11 && |draws| == 10
    requires AllDrawable(pc, draws) && NoEmptyChoice(pc, draws)
    ensures |Train(pc, draws, true).steps| == 10
    ensures ReportIndices(Train(pc, draws, true).reports) == [10]
  {
    TrainReportCadence(pc, draws, true);
    assert TensIn(1, 11) == [10];
  }
}
