/** The tester manager: builds every configured flow from its named step
    definitions and hands it to the scheduler under the flow's frequency. */
module Manager {
  import opened Common
  import opened Config
  import F = StepsFactory
  import Fl = Flow

  // ---------------------------------------------------------------------
  // What building a flow's steps should give

  /** The fields a flow step named `stepName` ends up with, or the error
      `createFlowSteps` returns for it: the name must be defined, its type
      must be known, and its configuration must be accepted. */
  function BuildStep(defs: map<string, Definition>, stepName: string, libs: F.Libraries): (r: Result<F.StepValue>)
    ensures stepName !in defs ==> r == Err(UndefinedStep(stepName))
    ensures stepName in defs && F.KindOf(defs[stepName].stepType).None? ==>
              r == Err(CreatingStepFailed(stepName, UndefinedStepType(defs[stepName].stepType)))
    ensures stepName in defs && F.KindOf(defs[stepName].stepType).Some? ==>
              var c := F.Configure(F.KindOf(defs[stepName].stepType).value, stepName, defs[stepName].config, libs);
              (c.Err? ==> r == Err(InitializingStepFailed(stepName, c.error))) && (c.Ok? ==> r == c)
    ensures r.Ok? ==> r.value.name == stepName && F.TypeName(F.ValueKind(r.value)) == defs[stepName].stepType
  {
    if stepName !in defs then Err(UndefinedStep(stepName))
    else
      var def := defs[stepName];
      match F.KindOf(def.stepType)
      case None => Err(CreatingStepFailed(stepName, UndefinedStepType(def.stepType)))
      case Some(k) =>
        match F.Configure(k, stepName, def.config, libs)
        case Err(e) => Err(InitializingStepFailed(stepName, e))
        case Ok(v) => Ok(v)
  }

  /** The fields of all of a flow's steps, in order, or the error of the
      first step that does not build. */
  function BuildSteps(defs: map<string, Definition>, names: seq<string>, libs: F.Libraries): (r: Result<seq<F.StepValue>>)
    ensures r.Ok? ==> |r.value| == |names|
    ensures r.Ok? ==> forall i :: 0 <= i < |names| ==> BuildStep(defs, names[i], libs) == Ok(r.value[i])
  {
    if names == [] then Ok([])
    else
      match BuildSteps(defs, names[..|names| - 1], libs)
      case Err(e) => Err(e)
      case Ok(vs) =>
        match BuildStep(defs, names[|names| - 1], libs)
        case Err(e) => Err(e)
        case Ok(v) => Ok(vs + [v])
  }

  /** The steps build exactly when each of them does. */
  lemma {:induction false} BuildStepsOkIff(defs: map<string, Definition>, names: seq<string>, libs: F.Libraries)
    ensures BuildSteps(defs, names, libs).Ok? <==>
              forall i :: 0 <= i < |names| ==> BuildStep(defs, names[i], libs).Ok?
  {
    if names != [] {
      var init := names[..|names| - 1];
      BuildStepsOkIff(defs, init, libs);
      assert forall i :: 0 <= i < |init| ==> init[i] == names[i];
    }
  }

  /** A failure is the failure of the first step that does not build. */
  lemma {:induction false} BuildStepsFirstError(defs: map<string, Definition>, names: seq<string>, libs: F.Libraries)
    requires BuildSteps(defs, names, libs).Err?
    ensures exists k :: 0 <= k < |names| && BuildStep(defs, names[k], libs).Err? &&
              (forall j :: 0 <= j < k ==> BuildStep(defs, names[j], libs).Ok?) &&
              BuildSteps(defs, names, libs).error == BuildStep(defs, names[k], libs).error
  {
    var init := names[..|names| - 1];
    assert forall i :: 0 <= i < |init| ==> init[i] == names[i];
    if BuildSteps(defs, init, libs).Err? {
      BuildStepsFirstError(defs, init, libs);
      var k :| 0 <= k < |init| && BuildStep(defs, init[k], libs).Err? &&
               (forall j :: 0 <= j < k ==> BuildStep(defs, init[j], libs).Ok?) &&
               BuildSteps(defs, init, libs).error == BuildStep(defs, init[k], libs).error;
      assert names[k] == init[k];
    } else {
      var k := |names| - 1;
      assert BuildStep(defs, names[k], libs).Err?;
      assert forall j :: 0 <= j < k ==> BuildStep(defs, names[j], libs) == Ok(BuildSteps(defs, init, libs).value[j]);
    }
  }

  /** A flow naming a step without a definition cannot be built. */
  lemma UndefinedStepFails(defs: map<string, Definition>, names: seq<string>, libs: F.Libraries, i: int)
    requires 0 <= i < |names| && names[i] !in defs
    ensures BuildSteps(defs, names, libs).Err?
  {
    BuildStepsOkIff(defs, names, libs);
  }

  /** Building a prefix that succeeds and then one more step. */
  lemma BuildStepsSnoc(defs: map<string, Definition>, names: seq<string>, libs: F.Libraries, i: nat)
    requires i < |names| && BuildSteps(defs, names[..i], libs).Ok?
    ensures BuildStep(defs, names[i], libs).Ok? ==>
              BuildSteps(defs, names[..i + 1], libs) ==
              Ok(BuildSteps(defs, names[..i], libs).value + [BuildStep(defs, names[i], libs).value])
    ensures BuildStep(defs, names[i], libs).Err? ==>
              BuildSteps(defs, names, libs) == Err(BuildStep(defs, names[i], libs).error)
  {
    assert names[..i + 1][..i] == names[..i];
    if BuildStep(defs, names[i], libs).Err? {
      PrefixFailure(defs, names, libs, i + 1);
    }
  }

  /** Once a prefix fails, the whole list fails with the same error. */
  lemma {:induction false} PrefixFailure(defs: map<string, Definition>, names: seq<string>, libs: F.Libraries, n: nat)
    requires n <= |names| && BuildSteps(defs, names[..n], libs).Err?
    ensures BuildSteps(defs, names, libs) == BuildSteps(defs, names[..n], libs)
    decreases |names| - n
  {
    if n < |names| {
      assert names[..n + 1][..n] == names[..n];
      PrefixFailure(defs, names, libs, n + 1);
    } else {
      assert names[..n] == names;
    }
  }

  /** What `Init` makes of one configured flow: no error when its steps
      build, its timeout parses and the scheduler accepts its frequency, and
      otherwise the first of those to fail, wrapped with the flow's name. */
  function FlowError(conf: TesterConfig, flowName: string, libs: F.Libraries, accepts: string -> bool): (err: Option<Error>)
    requires flowName in conf.flows
    ensures err.None? <==>
              BuildSteps(conf.definitions, conf.flows[flowName].steps, libs).Ok? &&
              Fl.ResolveTimeout(conf.flows[flowName].config, libs.parseDuration).Ok? &&
              accepts(conf.flows[flowName].config.frequency)
    ensures BuildSteps(conf.definitions, conf.flows[flowName].steps, libs).Err? ==>
              err == Some(FlowStepsFailed(flowName, BuildSteps(conf.definitions, conf.flows[flowName].steps, libs).error))
  {
    var flowDefinition := conf.flows[flowName];
    match BuildSteps(conf.definitions, flowDefinition.steps, libs)
    case Err(e) => Some(FlowStepsFailed(flowName, e))
    case Ok(_) =>
      match Fl.ResolveTimeout(flowDefinition.config, libs.parseDuration)
      case Err(e) => Some(FlowCreationFailed(flowName, e))
      case Ok(_) =>
        if accepts(flowDefinition.config.frequency) then None
        else Some(FlowSchedulingFailed(flowName, CronSpecRejected(flowDefinition.config.frequency)))
  }

  // ---------------------------------------------------------------------
  // The scheduler

  /** A scheduled flow and the cron expression it runs under. */
  datatype Job = Job(spec: string, flow: Fl.Flow)

  /** The cron scheduler as `Init` uses it: the jobs added so far, and which
      cron expressions its parser accepts. */
  class Scheduler {
    var jobs: seq<Job>
    const accepts: string -> bool

    constructor (accepts: string -> bool)
      ensures jobs == [] && this.accepts == accepts
    {
      jobs := [];
      this.accepts := accepts;
    }

    /** `AddJob`: a flow is added under an accepted expression and refused
        under any other. */
    method AddJob(spec: string, flow: Fl.Flow) returns (err: Option<Error>)
      modifies this
      ensures accepts(spec) ==> err == None && jobs == old(jobs) + [Job(spec, flow)]
      ensures !accepts(spec) ==> err == Some(CronSpecRejected(spec)) && jobs == old(jobs)
    {
      if !accepts(spec) {
        return Some(CronSpecRejected(spec));
      }
      jobs := jobs + [Job(spec, flow)];
      return None;
    }
  }

  // ---------------------------------------------------------------------
  // The manager

  /** A job `Init` adds for a flow of the configuration that builds. */
  predicate JobOf(conf: TesterConfig, libs: F.Libraries, accepts: string -> bool, job: Job)
  {
    job.flow.name in conf.flows &&
    FlowError(conf, job.flow.name, libs, accepts).None? &&
    job.spec == conf.flows[job.flow.name].config.frequency &&
    job.flow.config == conf.flows[job.flow.name].config &&
    |job.flow.steps| == |conf.flows[job.flow.name].steps|
  }

  /** The names of the flows of a list of jobs, in order. */
  function FlowNames(jobs: seq<Job>): (names: seq<string>)
    ensures |names| == |jobs|
    ensures forall k :: 0 <= k < |jobs| ==> names[k] == jobs[k].flow.name
  {
    if jobs == [] then [] else [jobs[0].flow.name] + FlowNames(jobs[1..])
  }

  lemma FlowNamesSnoc(jobs: seq<Job>, job: Job)
    ensures FlowNames(jobs + [job]) == FlowNames(jobs) + [job.flow.name]
  {
  }

  /** How far `Init` has got: the flows no longer pending all built and each
      got exactly one of the jobs added, and every added job is for such a
      flow. */
  ghost predicate Progress(conf: TesterConfig, libs: F.Libraries, accepts: string -> bool,
                           pending: set<string>, added: seq<Job>)
  {
    pending <= conf.flows.Keys &&
    |added| + |pending| == |conf.flows| &&
    (forall f :: f in conf.flows.Keys - pending ==> FlowError(conf, f, libs, accepts).None?) &&
    (forall job :: job in added ==> JobOf(conf, libs, accepts, job)) &&
    (forall f :: f in conf.flows.Keys - pending <==> f in FlowNames(added))
  }

  /** Scheduling one more pending flow that builds keeps the progress. */
  lemma ProgressStep(conf: TesterConfig, libs: F.Libraries, accepts: string -> bool,
                     pending: set<string>, added: seq<Job>, flowName: string, job: Job)
    requires Progress(conf, libs, accepts, pending, added)
    requires flowName in pending && FlowError(conf, flowName, libs, accepts).None?
    requires job.flow.name == flowName && JobOf(conf, libs, accepts, job)
    ensures Progress(conf, libs, accepts, pending - {flowName}, added + [job])
  {
    var done := conf.flows.Keys - pending;
    var done' := conf.flows.Keys - (pending - {flowName});
    assert done' == done + {flowName};
    assert |pending - {flowName}| == |pending| - 1;
    forall j | j in added + [job]
      ensures JobOf(conf, libs, accepts, j)
    {
      if j != job {
        assert j in added;
      }
    }
    FlowNamesSnoc(added, job);
    forall f
      ensures f in done' <==> f in FlowNames(added + [job])
    {
      assert f in FlowNames(added) + [flowName] <==> f in FlowNames(added) || f == flowName;
    }
  }

  class Manager {
    /** The step factory's configuration decoders and the duration parser. */
    const libs: F.Libraries
    const scheduler: Scheduler

    constructor (libs: F.Libraries, accepts: string -> bool)
      ensures this.libs == libs && fresh(scheduler) && scheduler.jobs == [] && scheduler.accepts == accepts
    {
      this.libs := libs;
      scheduler := new Scheduler(accepts);
    }

    /** One pass of the `Init` loop: build the flow's steps, create the
        flow, schedule it under its frequency; `job` is the job added. */
    method ScheduleFlow(conf: TesterConfig, flowName: string) returns (err: Option<Error>, ghost job: Option<Job>)
      requires flowName in conf.flows
      modifies scheduler
      ensures err == FlowError(conf, flowName, libs, scheduler.accepts)
      ensures err.Some? ==> scheduler.jobs == old(scheduler.jobs)
      ensures err.None? ==>
                job.Some? && scheduler.jobs == old(scheduler.jobs) + [job.value] &&
                job.value.flow.name == flowName && JobOf(conf, libs, scheduler.accepts, job.value)
    {
      var flowDefinition := conf.flows[flowName];
      job := None;

      var flowSteps := CreateFlowSteps(conf.definitions, flowDefinition.steps);
      if flowSteps.Err? {
        return Some(FlowStepsFailed(flowName, flowSteps.error)), job;
      }

      var flow := Fl.NewFlow(flowName, flowDefinition.config, flowSteps.value, libs.parseDuration);
      if flow.Err? {
        return Some(FlowCreationFailed(flowName, flow.error)), job;
      }

      var errAdd := scheduler.AddJob(flowDefinition.config.frequency, flow.value);
      if errAdd.Some? {
        return Some(FlowSchedulingFailed(flowName, errAdd.value)), job;
      }
      return None, Some(Job(flowDefinition.config.frequency, flow.value));
    }

    /** `Init`: every configured flow, taken in no particular order, gets its
        steps built, is created and is scheduled; the first flow that fails
        ends `Init` with its error, leaving the jobs added before it. */
    method Init(conf: TesterConfig) returns (err: Option<Error>)
      modifies scheduler
      ensures err.None? <==>
                forall f :: f in conf.flows ==> FlowError(conf, f, libs, scheduler.accepts).None?
      ensures err.Some? ==>
                exists f :: f in conf.flows && err == FlowError(conf, f, libs, scheduler.accepts)
      ensures old(scheduler.jobs) <= scheduler.jobs
      ensures forall job :: job in scheduler.jobs[|old(scheduler.jobs)|..] ==>
                JobOf(conf, libs, scheduler.accepts, job)
      ensures err.None? ==>
                |scheduler.jobs| == |old(scheduler.jobs)| + |conf.flows| &&
                forall f :: f in conf.flows <==> f in FlowNames(scheduler.jobs[|old(scheduler.jobs)|..])
    {
      var pending := conf.flows.Keys;
      ghost var added: seq<Job> := [];
      ghost var jobs0 := scheduler.jobs;

      while pending != {}
        invariant Progress(conf, libs, scheduler.accepts, pending, added)
        invariant scheduler.jobs == jobs0 + added
        decreases |pending|
      {
        var flowName :| flowName in pending;
        ghost var job;
        err, job := ScheduleFlow(conf, flowName);
        if err.Some? {
          assert scheduler.jobs[|jobs0|..] == added;
          return;
        }
        ProgressStep(conf, libs, scheduler.accepts, pending, added, flowName, job.value);
        SnocAssoc(jobs0, added, job.value);
        added := added + [job.value];
        pending := pending - {flowName};
      }
      assert scheduler.jobs[|jobs0|..] == added;
      assert conf.flows.Keys - pending == conf.flows.Keys;
      return None;
    }

    /** One pass of the `createFlowSteps` loop: look the name up, make a
        step of its type and initialise it with its configuration. The steps
        made before keep their fields. */
    method CreateStep(defs: map<string, Definition>, stepName: string,
                      ghost made: seq<F.Step>, ghost madeStates: seq<F.StepValue>)
      returns (r: Result<F.Step>)
      requires |made| == |madeStates|
      requires forall j :: 0 <= j < |made| ==> F.State(made[j]) == madeStates[j]
      ensures r.Ok? <==> BuildStep(defs, stepName, libs).Ok?
      ensures r.Err? ==> r.error == BuildStep(defs, stepName, libs).error
      ensures r.Ok? ==> fresh(F.Obj(r.value)) && F.State(r.value) == BuildStep(defs, stepName, libs).value
      ensures r.Ok? ==> forall j :: 0 <= j < |made| ==> F.Obj(made[j]) != F.Obj(r.value)
      ensures forall j :: 0 <= j < |made| ==> F.State(made[j]) == madeStates[j]
    {
      if stepName !in defs {
        return Err(UndefinedStep(stepName));
      }
      var stepDefinition := defs[stepName];

      var created := F.NewStep(stepDefinition.stepType);
      if created.Err? {
        return Err(CreatingStepFailed(stepName, created.error));
      }
      var step := created.value;

      var err := F.InitStep(step, stepName, stepDefinition.config, libs);
      if err.Some? {
        return Err(InitializingStepFailed(stepName, err.value));
      }
      return Ok(step);
    }

    /** `createFlowSteps`: a fresh, initialised step for each name, in order;
        the first name that is undefined, of an unknown type or badly
        configured ends the building with its error. */
    method CreateFlowSteps(defs: map<string, Definition>, names: seq<string>)
      returns (r: Result<seq<F.Step>>)
      ensures r.Ok? <==> BuildSteps(defs, names, libs).Ok?
      ensures r.Err? ==> r.error == BuildSteps(defs, names, libs).error
      ensures r.Ok? ==> |r.value| == |names|
      ensures r.Ok? ==> forall j :: 0 <= j < |names| ==> fresh(F.Obj(r.value[j]))
      ensures r.Ok? ==> forall j, k :: 0 <= j < k < |names| ==> F.Obj(r.value[j]) != F.Obj(r.value[k])
      ensures r.Ok? ==> forall j :: 0 <= j < |names| ==>
                F.State(r.value[j]) == BuildSteps(defs, names, libs).value[j]
    {
      var flowSteps: seq<F.Step> := [];
      ghost var built: seq<F.StepValue> := [];

      for i := 0 to |names|
        invariant BuildSteps(defs, names[..i], libs) == Ok(built)
        invariant |flowSteps| == |built| == i
        invariant forall j :: 0 <= j < i ==> fresh(F.Obj(flowSteps[j]))
        invariant forall j, k :: 0 <= j < k < i ==> F.Obj(flowSteps[j]) != F.Obj(flowSteps[k])
        invariant forall j :: 0 <= j < i ==> F.State(flowSteps[j]) == built[j]
      {
        BuildStepsSnoc(defs, names, libs, i);
        var step := CreateStep(defs, names[i], flowSteps, built);
        if step.Err? {
          return Err(step.error);
        }
        flowSteps := flowSteps + [step.value];
        built := built + [F.State(step.value)];
      }
      assert names[..|names|] == names;
      return Ok(flowSteps);
    }
  }
}
