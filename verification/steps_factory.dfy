/** The step registry: the closed set of step kinds, the factory that makes a
    fresh step of a named kind, and dispatch over the three step classes. */
module StepsFactory {
  import opened Common
  import N = NavigateStep
  import W = WaitStep
  import V = ValidateStep

  datatype Kind = NavigateKind | WaitKind | ValidateKind

  /** The type name each kind's `GetType` returns. */
  function TypeName(k: Kind): string
  {
    match k
    case NavigateKind => N.NavigateStepType
    case WaitKind => W.WaitStepType
    case ValidateKind => V.ValidateStepType
  }

  /** The factory's switch: the kind a step type names, if any. */
  function KindOf(stepType: string): (k: Option<Kind>)
    ensures k.Some? <==> stepType in {N.NavigateStepType, W.WaitStepType, V.ValidateStepType}
    ensures k.Some? ==> TypeName(k.value) == stepType
  {
    if stepType == N.NavigateStepType then Some(NavigateKind)
    else if stepType == W.WaitStepType then Some(WaitKind)
    else if stepType == V.ValidateStepType then Some(ValidateKind)
    else None
  }

  /** Every kind is found again from its own type name. */
  lemma KindOfTypeName(k: Kind)
    ensures KindOf(TypeName(k)) == Some(k)
  {
    assert N.NavigateStepType[0] == 'n' && W.WaitStepType[0] == 'w' && V.ValidateStepType[0] == 'v';
  }

  /** A step: a reference to an object of one of the three step classes. */
  datatype Step =
    | Navigating(nav: N.NavigateStep)
    | Waiting(wait: W.WaitStep)
    | Validating(validate: V.ValidateStep)

  function KindOfStep(s: Step): Kind
  {
    match s
    case Navigating(_) => NavigateKind
    case Waiting(_) => WaitKind
    case Validating(_) => ValidateKind
  }

  /** The object a step refers to. */
  function Obj(s: Step): object
  {
    match s
    case Navigating(n) => n
    case Waiting(w) => w
    case Validating(v) => v
  }

  /** `GetType`, dispatched. */
  function StepType(s: Step): (t: string)
    ensures t == TypeName(KindOfStep(s))
  {
    match s
    case Navigating(n) => n.GetType()
    case Waiting(w) => w.GetType()
    case Validating(v) => v.GetType()
  }

  /** A step's fields, as a value. */
  datatype StepValue =
    | NavigateValue(name: string, navConf: N.NavigateConf)
    | WaitValue(name: string, waitConf: W.WaitConf)
    | ValidateValue(name: string, validateConf: V.ValidateConf)

  function ValueKind(v: StepValue): Kind
  {
    match v
    case NavigateValue(_, _) => NavigateKind
    case WaitValue(_, _) => WaitKind
    case ValidateValue(_, _) => ValidateKind
  }

  function State(s: Step): (v: StepValue)
    reads Obj(s)
    ensures ValueKind(v) == KindOfStep(s)
  {
    match s
    case Navigating(n) => NavigateValue(n.name, n.conf)
    case Waiting(w) => WaitValue(w.name, w.conf)
    case Validating(v) => ValidateValue(v.name, v.conf)
  }

  /** `GetName`, dispatched. */
  function StepName(s: Step): (name: string)
    reads Obj(s)
    ensures name == State(s).name
  {
    match s
    case Navigating(n) => n.GetName()
    case Waiting(w) => w.GetName()
    case Validating(v) => v.GetName()
  }

  /** The actions a step with these fields hands to the browser. */
  function ValueTasks(v: StepValue): seq<Task>
  {
    match v
    case NavigateValue(_, c) => N.Tasks(c.url)
    case WaitValue(_, c) => W.Tasks(c.durationParsed)
    case ValidateValue(_, c) => V.Tasks(c)
  }

  /** `Run`, dispatched: the actions are determined by the step's fields. */
  function StepTasks(s: Step): (tasks: seq<Task>)
    reads Obj(s)
    ensures tasks == ValueTasks(State(s))
  {
    match s
    case Navigating(n) => n.Run()
    case Waiting(w) => w.Run()
    case Validating(v) => v.Run()
  }

  /** The objects a list of steps refers to. */
  function Objs(steps: seq<Step>): set<object>
  {
    set s | s in steps :: Obj(s)
  }

  /** The fields of a list of steps, in order. */
  function States(steps: seq<Step>): (vs: seq<StepValue>)
    reads Objs(steps)
    ensures |vs| == |steps|
    ensures forall i :: 0 <= i < |steps| ==> vs[i] == State(steps[i])
  {
    if steps == [] then [] else [State(steps[0])] + States(steps[1..])
  }

  /** The names steps with these fields report, in order. */
  function Names(vs: seq<StepValue>): (names: seq<string>)
    ensures |names| == |vs|
    ensures forall i :: 0 <= i < |vs| ==> names[i] == vs[i].name
  {
    if vs == [] then [] else [vs[0].name] + Names(vs[1..])
  }

  /** The action lists steps with these fields hand to the browser, in order. */
  function TaskBatches(vs: seq<StepValue>): (batches: seq<seq<Task>>)
    ensures |batches| == |vs|
    ensures forall i :: 0 <= i < |vs| ==> batches[i] == ValueTasks(vs[i])
  {
    if vs == [] then [] else [ValueTasks(vs[0])] + TaskBatches(vs[1..])
  }

  /** The fields of a freshly made step of a kind: all zero values. */
  function Zero(k: Kind): StepValue
  {
    match k
    case NavigateKind => NavigateValue("", N.NavigateConf(""))
    case WaitKind => WaitValue("", W.WaitConf("", 0))
    case ValidateKind => ValidateValue("", V.ValidateConf(0, false))
  }

  /** The configuration decoders and the duration parser the steps use. */
  datatype Libraries = Libraries(
    navigate: N.ConfDecoder,
    wait: W.ConfDecoder,
    validate: V.ConfDecoder,
    parseDuration: DurationParser)

  /** What `Init` of a step of kind k makes of a name and a raw configuration:
      the step's new fields, or the error it returns. */
  function Configure(k: Kind, name: string, input: RawConfig, libs: Libraries): (r: Result<StepValue>)
    ensures r.Ok? ==> ValueKind(r.value) == k && r.value.name == name
  {
    match k
    case NavigateKind =>
      (match N.ResolveConf(input, libs.navigate)
       case Err(e) => Err(e)
       case Ok(c) => Ok(NavigateValue(name, c)))
    case WaitKind =>
      (match W.ResolveConf(input, libs.wait, libs.parseDuration)
       case Err(e) => Err(e)
       case Ok(c) => Ok(WaitValue(name, c)))
    case ValidateKind =>
      (match V.ResolveConf(input, libs.validate)
       case Err(e) => Err(e)
       case Ok(c) => Ok(ValidateValue(name, c)))
  }

  /** An accepted configuration is never the zero value of its kind, because
      each kind has a required field. */
  lemma ConfiguredIsNotZero(k: Kind, name: string, input: RawConfig, libs: Libraries)
    requires Configure(k, name, input, libs).Ok?
    ensures Configure(k, name, input, libs).value != Zero(k)
  {
  }

  /** `NewStep`: a fresh, zero-valued step of the kind the type names, or an
      error for any other type. The outcome depends on `stepType` alone. */
  method NewStep(stepType: string) returns (r: Result<Step>)
    ensures KindOf(stepType).None? ==> r == Err(UndefinedStepType(stepType))
    ensures KindOf(stepType).Some? ==>
              r.Ok? && KindOfStep(r.value) == KindOf(stepType).value &&
              StepType(r.value) == stepType &&
              fresh(Obj(r.value)) && State(r.value) == Zero(KindOfStep(r.value))
  {
    if stepType == N.NavigateStepType {
      var n := new N.NavigateStep();
      return Ok(Navigating(n));
    } else if stepType == W.WaitStepType {
      var w := new W.WaitStep();
      return Ok(Waiting(w));
    } else if stepType == V.ValidateStepType {
      var v := new V.ValidateStep();
      return Ok(Validating(v));
    } else {
      return Err(UndefinedStepType(stepType));
    }
  }

  /** `Init`, dispatched: the step's fields become what Configure says, or
      stay as they were on an error. */
  method InitStep(s: Step, name: string, input: RawConfig, libs: Libraries) returns (err: Option<Error>)
    modifies Obj(s)
    ensures Configure(KindOfStep(s), name, input, libs).Err? ==>
              err == Some(Configure(KindOfStep(s), name, input, libs).error) && State(s) == old(State(s))
    ensures Configure(KindOfStep(s), name, input, libs).Ok? ==>
              err == None && State(s) == Configure(KindOfStep(s), name, input, libs).value
  {
    match s
    case Navigating(n) =>
      err := n.Init(name, input, libs.navigate);
    case Waiting(w) =>
      err := w.Init(name, input, libs.wait, libs.parseDuration);
    case Validating(v) =>
      err := v.Init(name, input, libs.validate);
  }
}
