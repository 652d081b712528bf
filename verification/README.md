# Perceptron: a Dafny model

This project models the single-layer perceptron in `perceptron.py`. The perceptron learns a line
`a*x + b*y + c = 0` that separates red points from blue points. The model covers:

- the line and its signed value at a point;
- the three-way half-plane test (red area, blue area, on the line);
- sampling one point from the red or the blue list;
- the training update, and the `train` loop with its progress reports;
- the count of misclassified points.

Modules follow the source's classes:

- `Geometry` (`geometry.dfy`): `Color`, `Line`, `Point`, `Line.value` as `Value`, and the
  coefficient nudge `Shift`.
- `Perceptrons` (`perceptron.dfy`): the `Perceptron` state and its methods `point_is_in_area`
  (`Location`, `InArea`), `get_random_point` (`Sample`), one loop body of `train` (`Step`) and
  `incorrect_point_count` (`IncorrectCount`, `IncorrectPointCount`).
- `Training` (`training.dfy`): `train`, as the recursive fold `RunFrom`/`Train` and as the loop
  `TrainLoop`. Also its reports and the step and report counts.
- `Scenario` (`scenario.dfy`): the worked example built on the module script's line `2x + 3y - 6 = 0`
  and learning rate 0.01.

Modelling decisions:

- Coordinates and coefficients are mathematical `real`s, not IEEE doubles.
- The two calls to `random.choice` are replaced by an injected `Draw(color, index)`.
  `train` takes one draw per loop iteration. A draw must be one the random choices could produce:
  colour red or blue, and an index inside the chosen list when that list is non-empty.
- `random.choice` raises `IndexError` on an empty list. This is modelled as `EmptyChoice`.
  `train` then stops with status `FailedAt(i)`. Updates made before step `i` are kept,
  because the source mutates the line in place.
- `train` returns a `Run`. It holds the final state, one `StepRecord` per executed step (index,
  sampled point, line before and after) and the reports made. A report is modelled as the event
  `Report(step, incorrect, total)` instead of the printed line.
- In the source the training step is two independent `if`s. `Step` writes it as `if … else if …`.
  `StepIsSequentialStep` proves the two forms equal: a point has one colour, so at most one update fires.
- `point_is_in_area(p, NONE)` is true exactly for points on the line, because `point_location` starts as
  `NONE` and is compared with the requested area (perceptron.py:90, 99). The source itself only ever asks
  about `RED` and `BLUE` (perceptron.py:54, 59, 127, 131), so this case never arises in training or counting.

## Model

| member | source | states |
|---|---|---|
| `Geometry.Value` | perceptron.py:12-14 | the line's signed value a·x + b·y + c at a point; ValueIsAffine and DefaultLineValue state what it means |
| `Geometry.DefaultLineValue` | perceptron.py:7-14 | the default line (1, 1, 0) gives every point the value x + y |
| `Geometry.Shift` | perceptron.py:55-62 | the coefficients with s·(x, y, 1) added: the update's nudge along the sampled point; ValueOfShift states its effect on values |
| `Geometry.ValueIsAffine` | perceptron.py:12-14 | the value is affine in the point: its constant term is c, its slopes are a and b, and the point's colour plays no part |
| `Geometry.DegenerateLineIsConstant` | perceptron.py:12-14 | a line with a = b = 0 gives every point the value c |
| `Geometry.ValueOfShift` | perceptron.py:55-62 | adding s·(qx, qy, 1) to the coefficients changes the value at p by s·(qx·px + qy·py + 1) |
| `Geometry.ShiftMovesOwnValue` | perceptron.py:55-62 | a nudge along p moves the value at p itself by s·(x² + y² + 1) |
| `Perceptrons.Location` | perceptron.py:87-97 | the area a point lies in: RED iff the value is > 0, BLUE iff it is < 0, NONE iff it is exactly 0 |
| `Perceptrons.InArea` | perceptron.py:82-99 | in the red area iff the value is > 0; in the blue area iff it is < 0; "in" the NONE area iff it is exactly 0 |
| `Perceptrons.AreasPartitionPlane` | perceptron.py:87-99 | every point is in exactly one of red area, blue area, line; no point is in both areas; a point on the line is in neither area |
| `Perceptrons.AsPoint` | perceptron.py:80 | a stored (x, y) pair turned into a point of the given colour, as `Point(point[0], point[1], color)`; the counting loops build points the same way (perceptron.py:127, 131) |
| `Perceptrons.PointsOf` | perceptron.py:74-78 | the list a colour is sampled from: the red points for RED, the blue points for BLUE |
| `Perceptrons.Sample` | perceptron.py:67-80 | fails exactly when the chosen colour's list is empty; otherwise the point carries the drawn colour and the coordinates of the drawn index of that list |
| `Perceptrons.SampledPointIsListed` | perceptron.py:74-80 | a sampled point's coordinates are one of the stored points of its colour |
| `Perceptrons.SampleIgnoresLine` | perceptron.py:67-80 | sampling reads only the point lists, never the line |
| `Perceptrons.Step` | perceptron.py:54-62 | blue point in the red area: (a, b, c) − η·(x, y, 1); red point in the blue area: (a, b, c) + η·(x, y, 1); any other point, including one on the line: the line unchanged |
| `Perceptrons.SequentialStep` | perceptron.py:54-62 | the source's update written as its two independent `if`s, the second testing the line the first may have changed; the reference form for Step |
| `Perceptrons.StepIsSequentialStep` | perceptron.py:54-62 | the two independent `if`s of the source, the second seeing the line the first may have changed, compute the same line as Step |
| `Perceptrons.StepCorrectsSampledPoint` | perceptron.py:54-62 | after an update the misclassified point's value moves by exactly η·(x² + y² + 1) towards its own side |
| `Perceptrons.StepImprovesSampledPoint` | perceptron.py:54-62 | with η > 0 the misclassified point's value strictly decreases (blue) or increases (red) |
| `Perceptrons.CountInArea` | perceptron.py:126-132 | counting the points of a list that lie in an area never exceeds the list's length |
| `Perceptrons.CountInAreaIsCardinality` | perceptron.py:126-132 | CountInArea's count equals the number of indices whose point lies in the area |
| `Perceptrons.IncorrectCount` | perceptron.py:123-134 | red points in the blue area plus blue points in the red area, never more than the number of points |
| `Perceptrons.TotalCount` | perceptron.py:142 | the number of points, red plus blue: the denominator of a progress report |
| `Perceptrons.IncorrectCountMeaning` | perceptron.py:123-134 | the error count is the number of red points with value < 0 plus the number of blue points with value > 0, and lies in [0, red + blue] |
| `Perceptrons.IncorrectCountReadsLineAndPoints` | perceptron.py:123-134 | the error count does not depend on epochs or learning rate |
| `Perceptrons.IncorrectPointCount` | perceptron.py:123-134 | the two counting loops return the red errors plus the blue errors, at most the number of points; it depends only on the line and the two lists |
| `Training.StepCount` | perceptron.py:51 | `range(1, epochs)` has epochs − 1 iterations for epochs ≥ 1 and none otherwise |
| `Training.RunFrom` | perceptron.py:51-65 | the loop of `train` from step index i as a fold over the draws: each draw samples a point and applies Step, with a report after each step whose index is a multiple of 10; an empty choice stops the run with FailedAt(i); RunFromIsRun states its shape |
| `Training.ReportsOf` | perceptron.py:64-65 | the reports of a run with reporting on: one per step whose index is a multiple of 10, holding that index, the error count of the line after the step and the number of points; never more reports than steps |
| `Training.StepReport` | perceptron.py:64-65 | the report a step makes: when reporting is on and its index is a multiple of 10, one report holding that index, the error count of the line after the update and the number of points (as `show_error` computes them, perceptron.py:141-142); otherwise none. StepReportMeaning states its bounds, and RunFromIsRun proves the fold's reports are ReportsOf of its steps |
| `Training.StepReportMeaning` | perceptron.py:64-65 | a step reports at most once, exactly when reporting is on and its index is a multiple of 10; the report carries that index, the number of points as its total, and an error count within that total (perceptron.py:141-142) |
| `Training.RunFromIsRun` | perceptron.py:51-65 | a run of the draws keeps lists, epochs and rate; takes one step per draw until a draw chooses from an empty list; numbers the steps consecutively; each step samples its own draw and starts from the previous step's line; reports exactly as ReportsOf says |
| `Training.Train` | perceptron.py:46-65 | train has the shape above from step index 1 and, when no draw fails, runs exactly max(0, epochs − 1) steps |
| `Training.RunAppliesStep` | perceptron.py:51-62 | every executed step's new line is Step applied to its old line and sampled point |
| `Training.TrainAppliesStep` | perceptron.py:51-62 | every step of train applies the update rule with the perceptron's learning rate |
| `Training.TrainReportCadence` | perceptron.py:51-65 | with reporting on, reports fall exactly at the executed step indices divisible by 10, which is (epochs − 1) div 10 reports for epochs ≥ 1 when no draw fails; with reporting off there are none |
| `Training.ReportsAtMultiples` | perceptron.py:64-65 | for consecutively numbered steps the report indices are the multiples of 10 among them, in order |
| `Training.TensInMembers` | perceptron.py:64 | an index is reported iff it lies in the step range and is divisible by 10 |
| `Training.TensInLength` | perceptron.py:51-64 | the number of multiples of 10 in [lo, hi) is (hi − 1) div 10 − (lo − 1) div 10 |
| `Training.ReportsWithinBounds` | perceptron.py:141-142 | every report's total is the number of points and its error count is at most that |
| `Training.TrainLoop` | perceptron.py:46-65 | the in-place loop computes exactly the run RunFrom defines from step 1, which is what Train returns |
| `Scenario.SeparatedHasNoErrors` | perceptron.py:176-178 | with line (2, 3, −6), red (10, 10) has value 44 and blue (0, 0) has value −6, so the error count is 0 |
| `Scenario.RelabelledHasOneError` | perceptron.py:176-178 | with (10, 10) labelled blue as well, the error count is 1 |
| `Scenario.OneStepOnMisclassifiedPoint` | perceptron.py:176-178 | with epochs = 2 and η = 0.01, sampling the misclassified (10, 10) gives the line (1.9, 2.9, −6.01) |
| `Scenario.StepOnCorrectPointKeepsLine` | perceptron.py:176-178 | sampling the correctly placed blue (0, 0) leaves the line as it was |
| `Scenario.RedDrawWithoutRedPointsFails` | perceptron.py:72-75 | choosing red when the red list is empty fails at step 1 and changes nothing |
| `Scenario.OneEpochRunsNoStep` | perceptron.py:51 | epochs = 1 runs no step and makes no report |
| `Scenario.ElevenEpochsReportOnce` | perceptron.py:51-65 | epochs = 11 with reporting on runs ten steps and reports once, after step 10 |

## Left out

- `plot_line` and `Perceptron.draw` (perceptron.py:30-35, 146-172): matplotlib rendering only. The division by `b` in `plot_line` is a plotting concern.
- `get_points_x` and `get_points_y` (perceptron.py:101-121): coordinate projections that only feed the scatter plot.
- The printing in `show_error` (perceptron.py:136-144): console output and a floating-point percentage. A report is modelled as the event (step, incorrect, total) only.
- The module-level script (perceptron.py:175-191): numpy `randn` point generation and the driver calls. Only its starting line and learning rate are used, in `Scenario`.
- The pseudo-random generator behind `random.choice`: its outcomes are injected as draws.
- IEEE-754 rounding: all arithmetic is over mathematical reals, so the update deltas are exact.
- `Perceptron.__init__` and the `Line`/`Point` constructors are the datatype constructors. The `Line` defaults (1, 1, 0) are `Geometry.DefaultLine`, whose value DefaultLineValue states; no other default is modelled.
- Python's dynamic typing: epochs is an integer and coordinates are reals. The unbound `point` that would follow a colour other than red or blue cannot happen, because `random.choice` only offers those two; `Drawable` requires it.
- Calling `train` again on the same perceptron is a second `Train` on the returned `final` state. The model has no lemma composing two calls.
