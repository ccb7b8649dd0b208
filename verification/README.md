# thin-blackbox-tester, modelled in Dafny

thin-blackbox-tester is a synthetic browser-monitoring service. At start-up
its manager builds every configured test flow. Each step name is resolved
against the step definitions, the step registry makes a step of the
definition's type, and the step's `Init` validates its configuration. The
manager then registers each flow with a cron scheduler under the flow's
frequency. Every time a flow fires, it hands each step's browser actions to
a headless browser, in order, and reports each step's duration and its
outcome (success, timeout or error) to a metrics service. It stops at the
first step that fails.

One step kind, the validate step, screenshots the page and judges it:
- the top-left pixel must show, or not show, the colour of an isolation bar;
- an 8x8 average hash of the image must be within five bits of an expected
  64-bit fingerprint.

This project models that core and proves what it promises:

| file | module | what it holds |
|---|---|---|
| `common.dfy` | `Common` | errors, durations, raw configuration values, browser tasks |
| `config.dfy` | `Config` | the tester configuration: step definitions and flows |
| `fingerprint.dfy` | `Fingerprint` | 64-bit words as bit lists, popcount, Hamming distance |
| `validate_step.dfy` | `ValidateStep` | the pixel test, the average hash, the screenshot verdict, the validate step |
| `wait_step.dfy` | `WaitStep` | the wait step |
| `navigate_step.dfy` | `NavigateStep` | the navigate step |
| `steps_factory.dfy` | `StepsFactory` | the closed set of step kinds, `NewStep`, dispatch over the step classes |
| `flow.dfy` | `Flow` | the flow timeout, `newFlow`, one run of a flow's steps and its metric reports |
| `manager.dfy` | `Manager` | building a flow's steps, the scheduler, the manager's `Init` |

The code that changes state keeps that form in the model:
- Each step kind is a class whose `Init` assigns `name` and `conf` only on
  success.
- A flow is a class whose `timeout` field `NewFlow` overwrites.
- The scheduler is a class whose job list `AddJob` appends to.
- `perceptualHash`, `stepsRun`, `createFlowSteps` and the manager's `Init`
  are methods with loops.

Each of these is proved against a pure specification function:
- `AverageHash` for the hash;
- `Log` and `Executed` for a run;
- `BuildStep` and `BuildSteps` for step building;
- `FlowError` for flow registration.

The lemmas prove what the source promises of those functions.

Go's `(value, error)` returns become `Result`, and a returned `error` becomes
`Option<Error>`.

Calls into libraries whose code is not part of this model become
parameters:
- the configuration decoder (`mapstructure.Decode`), one per step kind;
- `time.ParseDuration`;
- `image.Decode`;
- the bilinear 8x8 scaling;
- the cron parser's verdict on an expression;
- the browser's verdict on each step's action list;
- the metrics service's verdict on each report, given per call by the report's position in the run.

The Go interface `StepInterface` becomes a datatype `Step` over references
to the three step classes.

### Behaviour of the code worth knowing

- The validate step has one mode: an average hash plus the isolation pixel.
- The isolation check is always made. A configuration without `Isolated`
  expects `false`, and that value is compared like any other.
- Cell `i = x*8 + y` of the 8x8 grid sets bit `63 - i` of the hash.
- The wait for images to load is built but never run
  (`service/steps/validate_step.go:77`), so the screenshot is taken at once.
- A failed screenshot is only logged. The empty buffer then fails to
  decode, and that decode error is the step's error.
- So when the deadline fires during the validate step's screenshot, the
  step's error is that decode error, built with `%v`
  (`service/steps/validate_step.go:153`). It does not wrap the deadline,
  so the run reports the step as an error, not a timeout
  (`service/tester/flow.go:94`).
- The metrics reports are made without proxy or customer tags.
- The too-many-bits error names the threshold and the distance, not the
  two hashes.

## Model

| member | source | states |
|---|---|---|
| `Fingerprint.OnesCount64` | service/steps/validate_step.go:170 | the popcount of a 64-bit word is at most 64 |
| `Fingerprint.XorCountIsDistance` | service/steps/validate_step.go:166-170 | the popcount of `hash ^ expected` is the number of positions at which the two hashes' bit lists differ |
| `Fingerprint.DistanceSymmetric` | service/steps/validate_step.go:167 | the Hamming distance does not depend on which hash is the expected one |
| `Fingerprint.DistanceZeroIffEqual` | service/steps/validate_step.go:167-172 | two bit lists are at distance 0 exactly when they are equal |
| `Fingerprint.DistanceComplement` | service/steps/validate_step.go:167-170 | lists that differ everywhere are at distance equal to their length |
| `Fingerprint.PosValue` | service/steps/validate_step.go:139 | cell `i` owns bit position `63 - i` (`len(pixels) - 1 - i`) |
| `Fingerprint.PosInjective` | service/steps/validate_step.go:137-140 | distinct cells own distinct bits |
| `ValidateStep.PixelTest` | service/steps/validate_step.go:92-104 | whether pixel (0,0) has the isolation bar's R, G and B; it can hold only of an image that has that pixel |
| `ValidateStep.PixelTestColor` | service/steps/validate_step.go:96-103 | the pixel test holds exactly when pixel (0,0) is (49·257, 122·257, 53·257) in premultiplied 16-bit RGB; its alpha is whatever `RGBA()` returns, necessarily at least 122·257 |
| `ValidateStep.PixelTestReadsOnlyCorner` | service/steps/validate_step.go:100-103 | two images whose corner pixels agree in R, G and B get the same verdict |
| `ValidateStep.EmptyImageNotIsolated` | service/steps/validate_step.go:101 | in the model, every image without a pixel at (0,0) (no columns, or an empty first column) reads as transparent black there, so it is never isolated; a PNG decode never produces such an image, so this is about the model's `At` only |
| `ValidateStep.Column` | service/steps/validate_step.go:119-129 | the inner loop over y extends the stored lumas and their running total by column x |
| `ValidateStep.Luminances` | service/steps/validate_step.go:115-130 | the nested x/y loop stores the luma of pixel (x, y) at `x*8 + y` and returns the sum of the 64 lumas |
| `ValidateStep.PerceptualHash` | service/steps/validate_step.go:106-144 | the hash the loops compute is the average hash of the 8x8 grid |
| `ValidateStep.AverageHashBits` | service/steps/validate_step.go:118-141 | bit `63 - i` of the hash is set exactly when cell `i` is strictly brighter than the mean of the 64 cells, and no other bit is set |
| `ValidateStep.UniformGridHashesToZero` | service/steps/validate_step.go:131-141 | in the integer-luma model, a grid whose cells all have one luma hashes to 0, because the comparison with the mean is strict |
| `ValidateStep.HashNeverAllOnes` | service/steps/validate_step.go:115-141 | in the integer-luma model, some cell is never brighter than the mean, so the hash is never all ones |
| `ValidateStep.BlackGridHashesToZero` | service/steps/validate_step.go:121-141 | a uniformly opaque-black grid hashes to 0 |
| `ValidateStep.OnesCountAllOnes` | service/steps/validate_step.go:170 | the all-ones word has 64 set bits |
| `ValidateStep.HashVerdictIsDistance` | service/steps/validate_step.go:167-174 | the hash comparison fails exactly when the Hamming distance exceeds 5, and then reports that distance |
| `ValidateStep.VerdictIsHammingThreshold` | service/steps/validate_step.go:163-177 | when the isolation flag is as expected, a screenshot passes exactly when its bright cells differ from the expected bits in at most 5 places |
| `ValidateStep.ThresholdBoundary` | service/steps/validate_step.go:21 | a distance of exactly 5 passes and a distance of 6 fails |
| `ValidateStep.MatchingHashPasses` | service/steps/validate_step.go:163-177 | a screenshot that hashes to the expected fingerprint passes |
| `ValidateStep.IsolationCheckedFirst` | service/steps/validate_step.go:157-161 | an isolation mismatch is the verdict whatever the image would hash to |
| `ValidateStep.BlackAgainstWhiteBaseline` | service/steps/validate_step.go:163-174 | an all-black screenshot against an all-ones fingerprint fails with 64 differing bits |
| `ValidateStep.CompareHashes` | service/steps/validate_step.go:166-174 | XOR, popcount and the threshold give the hash comparison's verdict |
| `ValidateStep.ResolveConf` | service/steps/validate_step.go:47-58 | a configuration is accepted exactly when it decodes and its required hash is not zero; otherwise the decode or the validation error |
| `ValidateStep.ValidateStep.constructor` | service/steps/steps_factory.go:25 | a new validate step has the zero name and configuration |
| `ValidateStep.ValidateStep.Init` | service/steps/validate_step.go:47-64 | on success the name and configuration are stored; on any error the step is unchanged |
| `ValidateStep.Tasks` | service/steps/validate_step.go:69-86 | exactly one action: screenshot and validate against the configuration's hash and isolation flag |
| `ValidateStep.ValidateStep.Run` | service/steps/validate_step.go:66-87 | the step's actions are `Tasks` of its stored configuration |
| `ValidateStep.Verdict` | service/steps/validate_step.go:146-178 | an undecodable screenshot is the decode error; a screenshot passes only when it decoded and its isolation state is the expected one |
| `ValidateStep.HashVerdict` | service/steps/validate_step.go:166-174 | the only error of the hash comparison is too many differing bits, more than the threshold of 5, which it names |
| `ValidateStep.ValidateStep.ValidateScreenshot` | service/steps/validate_step.go:146-178 | a decode error first, then an isolation mismatch, then the hash comparison of the scaled image |
| `ValidateStep.ValidateStep.CaptureAndValidate` | service/steps/validate_step.go:71-84 | a failed screenshot is judged as empty bytes, which `image.Decode` never decodes, so it always surfaces as the decode error |
| `WaitStep.ResolveConf` | service/steps/wait_step.go:34-51 | accepted exactly when the duration decodes, is not empty and parses; the decode, the validation or the parse error otherwise; the parsed duration is kept |
| `WaitStep.WaitStep.constructor` | service/steps/steps_factory.go:23 | a new wait step has the zero name and configuration |
| `WaitStep.WaitStep.Init` | service/steps/wait_step.go:34-57 | on success the name and the configuration with its parsed duration are stored; on any error the step is unchanged |
| `WaitStep.Tasks` | service/steps/wait_step.go:62-64 | exactly one action, a sleep for the given duration |
| `WaitStep.WaitStep.Run` | service/steps/wait_step.go:59-65 | the step's actions are `Tasks` of its stored parsed duration |
| `NavigateStep.ResolveConf` | service/steps/navigate_step.go:30-41 | accepted exactly when it decodes and its required URL is not empty; the decode or the validation error otherwise |
| `NavigateStep.Tasks` | service/steps/navigate_step.go:52-57 | three actions in order: navigate to the URL, wait for `/html/body/p`, wait for `img` by query |
| `NavigateStep.NavigateStep.constructor` | service/steps/steps_factory.go:21 | a new navigate step has the zero name and configuration |
| `NavigateStep.NavigateStep.Init` | service/steps/navigate_step.go:30-47 | on success the name and configuration are stored; on any error the step is unchanged |
| `NavigateStep.NavigateStep.Run` | service/steps/navigate_step.go:49-58 | the three actions for the stored URL |
| `StepsFactory.KindOf` | service/steps/steps_factory.go:19-28 | a kind exists exactly for the three type names, and its type name is the one asked for |
| `StepsFactory.KindOfTypeName` | service/steps/steps_factory.go:19-25 | each kind is found again from its own type name |
| `StepsFactory.StepType` | service/steps/wait_step.go:26-28 | `GetType` of a step is its kind's type name, a constant |
| `StepsFactory.StepName` | service/steps/wait_step.go:30-32 | `GetName` of a step is the name its fields hold |
| `StepsFactory.StepTasks` | service/tester/flow.go:83 | the actions a step's `Run` hands to the browser are determined by its fields |
| `StepsFactory.Configure` | service/tester/manager.go:113-116 | an accepted configuration keeps the step's kind and stores the given name |
| `StepsFactory.ConfiguredIsNotZero` | service/steps/validate_step.go:29-32 | because each kind has a required field, an accepted configuration is never the zero value |
| `StepsFactory.NewStep` | service/steps/steps_factory.go:18-29 | the three type names give a fresh zero step of that kind whose `GetType` is the name asked for; any other name gives the undefined-type error |
| `StepsFactory.InitStep` | service/tester/manager.go:113 | `Init` dispatched: the step's fields become the accepted configuration, or stay as they were with the error |
| `Flow.ResolveTimeout` | service/tester/flow.go:41-52 | no timeout gives 10 minutes; a timeout that parses gives its value; one that does not gives an error |
| `Flow.Executed` | service/tester/flow.go:72-121 | the number of steps a run executes is at most the number of steps |
| `Flow.FirstFailure` | service/tester/flow.go:93-120 | the failure that ends a run is never a completion |
| `Flow.ExecutedStopsAtFirstFailure` | service/tester/flow.go:72-121 | every executed step but the last completed; a run stops short only after a failure; every step completes exactly when all steps run and none fails (a run whose last step fails also runs every step) |
| `Flow.LogShape` | service/tester/flow.go:85-127 | the j-th executed step makes its duration report at 2j and exactly one classification at 2j+1, both naming it |
| `Flow.LogCounts` | service/tester/flow.go:72-129 | durations equal executed steps equal successes + timeouts + errors; at most one timeout or error, a timeout exactly when the first failure is the deadline |
| `Flow.AllCompletedAllSucceed` | service/tester/flow.go:123-128 | when no step fails, every step reports exactly one success and there is no timeout or error |
| `Flow.LogUpToFailure` | service/tester/flow.go:120 | once step i fails, the run's reports are those of the first i + 1 steps |
| `Flow.Refused` | service/tester/flow.go:88-90 | the reports whose metrics call was refused, in order, never more than the reports |
| `Flow.RefusedAppend` | service/tester/flow.go:71-130 | the refused reports of a run extended by more reports are those of the run so far followed by those of the new reports at their positions |
| `Flow.RefusedExactly` | service/tester/flow.go:88-90 | a report is listed as refused (and logged) exactly when it is one of the run's reports and the service refused the call at its position |
| `Flow.Flow.constructor` | service/tester/flow.go:37-44 | a new flow holds its name, configuration and steps with the default timeout |
| `Flow.Flow.RunStep` | service/tester/flow.go:83-127 | one step: its actions, the browser's outcome, a duration report then the outcome's classification appended to the reports so far, and the refused list kept equal to `Refused` of all reports |
| `Flow.Flow.StepsRun` | service/tester/flow.go:71-130 | the action lists handed over are those of the steps up to the first failure, in order; the reports are `Log` of the outcomes; neither depends on which reports the metrics service refuses |
| `Flow.NewFlow` | service/tester/flow.go:30-55 | a fresh flow with the resolved timeout, or the parse error and no flow |
| `Manager.BuildStep` | service/tester/manager.go:101-116 | an undefined name, an unknown type or a rejected configuration gives its wrapped error; otherwise the step's fields carry its name and its type is the definition's |
| `Manager.BuildSteps` | service/tester/manager.go:97-122 | on success one step per name, the i-th built from the i-th name |
| `Manager.BuildStepsOkIff` | service/tester/manager.go:100-121 | the steps build exactly when each step builds |
| `Manager.BuildStepsFirstError` | service/tester/manager.go:107-116 | a failure is the error of the first name, in list order, that does not build |
| `Manager.UndefinedStepFails` | service/tester/manager.go:101-104 | a flow that names an undefined step cannot be built |
| `Manager.FlowError` | service/tester/manager.go:68-91 | a flow registers exactly when its steps build, its timeout parses and the scheduler accepts its frequency; a step error is wrapped with the flow's name |
| `Manager.ProgressStep` | service/tester/manager.go:68-92 | scheduling one more flow that builds keeps one job per finished flow and no other |
| `Manager.Scheduler.constructor` | service/tester/manager.go:42-45 | a new scheduler has no jobs |
| `Manager.Scheduler.AddJob` | service/tester/manager.go:88 | an accepted expression appends the job; a rejected one leaves the jobs and gives an error |
| `Manager.Manager.constructor` | service/tester/manager.go:29-49 | a new manager owns a fresh, empty scheduler |
| `Manager.Manager.ScheduleFlow` | service/tester/manager.go:69-91 | one flow: its error is `FlowError`; on success exactly one job for it is added, otherwise none |
| `Manager.Manager.Init` | service/tester/manager.go:66-95 | no error exactly when every flow registers; an error is some flow's error; on success exactly one job per configured flow, each under the flow's frequency and configuration |
| `Manager.Manager.CreateStep` | service/tester/manager.go:101-118 | one name: a fresh step, distinct from every step made before, whose fields are `BuildStep`'s, or its error; the steps made before keep their fields |
| `Manager.Manager.CreateFlowSteps` | service/tester/manager.go:97-122 | fresh steps, one distinct object per name (a repeated name too) and in order, whose fields are `BuildSteps`'s (none for no names), or the first failing name's error |

## Left out

- Image decoding and bilinear scaling to 8x8 are library code. They are
  parameters: `Decoder` and `Scaler`. The model assumes only two things of
  them: a decoder never decodes empty bytes, and pixels are
  alpha-premultiplied as `RGBA()` returns them (no colour channel exceeds
  the alpha).
- The float64 luma is replaced by integer weights 299/587/114, and the
  comparison with the mean is `64 * luma > total`. Float rounding, which
  could move a cell at the mean to either side, is not modelled.
- ValidateStep.UniformGridHashesToZero: holds for the integer luma only. With
  the code's float64 luma, a uniform grid of (49·257, 122·257, 53·257) has
  cell luma 23722.899, but 64 sequential additions and `/ 64` give a mean of
  23722.898999999983. Every cell is then above the mean, and the code
  returns 0xFFFF_FFFF_FFFF_FFFF, not 0. A uniform grid of (0, 0, 53·257)
  does the same.
- ValidateStep.HashNeverAllOnes: holds for the integer luma only. The same
  uniform grids make the float64 code return 0xFFFF_FFFF_FFFF_FFFF.
- Browser automation is not modelled. This covers `createTabContext`,
  `chromedp.Run`, the screenshot and the never-run `PollFunction`.
  - Tasks are data.
  - The browser's outcome for the i-th step's actions is a parameter.
  - The `NodeVisible` wait of the navigate step is the `WaitVisible` task.
- Contexts, cancellation and the per-run deadline are not modelled. Only
  their effect is: a step's outcome is `DeadlineExceeded` when the browser's
  error wraps the deadline.
- `Flow.Run` and the run's uuid and logger are not modelled.
- The cron scheduler's internals are not modelled. This covers expression
  parsing (a parameter `accepts`), `SkipIfStillRunning`, `Recover`, and the
  manager's `Start` and `Stop`. These are concurrency in library code.
- The metrics backend (opencensus tags, measures, views) is not modelled.
  A report is an `Event` naming its kind, flow and step.
  - The measured milliseconds of a duration report are not modelled, since
    they come from the clock.
- Flow.Flow.StepsRun: reads the steps' fields once before its loop. Nothing
  in the loop changes them, so this is the same as reading each step's
  fields when it is reached.
- Configuration loading (file, YAML, environment expansion), the HTTP
  server and process bootstrap are I/O.
- Flow.NewFlow: returns `TimeoutParseFailed` where the code returns
  `time.ParseDuration`'s own error unwrapped.
- A parsed timeout may be zero or negative. The code does not reject it,
  and neither does the model.
- Manager.Manager.Init: its `ensures` names each new job's flow, frequency,
  configuration and number of steps. The steps' fields and the flow's
  timeout are stated by `CreateFlowSteps` and `NewFlow`, not repeated there.
- Go's map iteration order is not modelled. `Init` takes the flows in an
  arbitrary order (`:|`), so which failing flow's error is returned is not
  stated, only that it is one of them.
- The `Run` signatures with and without a proxy parameter are unified. The
  proxy is unused by every step, so `Run` takes no arguments.
