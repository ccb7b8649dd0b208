/** Values shared by every part of the tester: errors, durations, raw step
    configuration, and the declarative browser tasks that steps produce. */
module Common {

  datatype Option<+T> = None | Some(value: T)

  /** A Go `(value, error)` pair: exactly one of the two is meaningful. */
  datatype Result<+T> = Ok(value: T) | Err(error: Error)

  /** The errors the core returns, each with the data its message carries.
      Wrapping constructors mirror the `errors.Wrapf` chains of the source. */
  datatype Error =
    // step configuration (the three step kinds' Init)
    | ConfigDecodeFailed(stepType: string)
    | ConfigValidationFailed(stepType: string)
    | DurationParseFailed(stepType: string)
    // step registry
    | UndefinedStepType(stepType: string)
    // flow step resolution
    | UndefinedStep(stepName: string)
    | CreatingStepFailed(stepName: string, cause: Error)
    | InitializingStepFailed(stepName: string, cause: Error)
    // flow construction and registration
    | TimeoutParseFailed(timeout: string)
    | CronSpecRejected(spec: string)
    | FlowStepsFailed(flowName: string, cause: Error)
    | FlowCreationFailed(flowName: string, cause: Error)
    | FlowSchedulingFailed(flowName: string, cause: Error)
    // screenshot validation
    | ScreenshotDecodeFailed
    | IsolationMismatch(expectedIsolated: bool, gotIsolated: bool)
    | TooManyDifferentBits(threshold: nat, differentBits: nat)

  /** A Go `time.Duration`: a count of nanoseconds (may be negative). */
  type Duration = int

  const Nanosecond: Duration := 1
  const Millisecond: Duration := 1_000_000 * Nanosecond
  const Second: Duration := 1000 * Millisecond
  const Minute: Duration := 60 * Second

  /** `time.ParseDuration`: the library's parser, abstracted as a partial function. */
  type DurationParser = string -> Option<Duration>

  /** A value of the `map[string]interface{}` a step definition carries. */
  datatype Value =
    | Str(s: string)
    | Int(i: int)
    | Bool(b: bool)
    | List(items: seq<Value>)
    | Dict(entries: map<string, Value>)

  type RawConfig = map<string, Value>

  /** How a DOM selector is matched (chromedp's `BySearch` default, or `ByQuery`). */
  datatype Query = BySearch | ByQuery

  /** The declarative browser actions a step hands to the browser runner. */
  datatype Task =
    | Navigate(url: string)
    | WaitVisible(selector: string, query: Query)
    | Sleep(duration: Duration)
      /** The validate step's action: take a full screenshot, then compare it
          with the expected fingerprint and isolation flag. */
    | ScreenshotAndValidate(expectedHash: bv64, isolated: bool)

  /** Extending a prefix of s by one element. */
  lemma PrefixSnoc<T>(s: seq<T>, i: nat)
    requires i < |s|
    ensures s[..i + 1] == s[..i] + [s[i]]
  {
  }

  /** Appending to a concatenation appends to its second part. */
  lemma SnocAssoc<T>(a: seq<T>, b: seq<T>, x: T)
    ensures (a + b) + [x] == a + (b + [x])
  {
  }
}
