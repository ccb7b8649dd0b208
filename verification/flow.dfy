/** A test flow: its timeout, and one run of its steps in order against a
    browser session, classifying each step's outcome into metric reports. */
module Flow {
  import opened Common
  import opened Config
  import F = StepsFactory

  /** The flow timeout when the configuration gives none. */
  const DefaultTimeout: Duration := Minute * 10

  /** The timeout `newFlow` settles on: the default, or the configured text
      parsed, or an error when that text does not parse. */
  function ResolveTimeout(conf: FlowConfig, parse: DurationParser): (r: Result<Duration>)
    ensures conf.timeout.None? ==> r == Ok(600 * Second)
    ensures conf.timeout.Some? ==>
              (r.Ok? <==> parse(conf.timeout.value).Some?) &&
              (r.Ok? ==> r.value == parse(conf.timeout.value).value) &&
              (r.Err? ==> r.error == TimeoutParseFailed(conf.timeout.value))
  {
    match conf.timeout
    case None => Ok(DefaultTimeout)
    case Some(text) =>
      match parse(text)
      case None => Err(TimeoutParseFailed(text))
      case Some(t) => Ok(t)
  }

  // ---------------------------------------------------------------------
  // Outcomes and metric events

  /** How running a step's actions ended: without error, with an error that
      wraps the context's deadline, or with any other error. */
  datatype Outcome = Completed | DeadlineExceeded | Failed

  datatype EventKind = StepDuration | StepSuccess | StepTimeout | StepError

  /** A report made to the metrics service: its kind, the flow and the step. */
  datatype Event = Event(kind: EventKind, flow: string, step: string)

  /** The report that classifies an outcome. */
  function OutcomeKind(o: Outcome): EventKind
  {
    match o
    case Completed => StepSuccess
    case DeadlineExceeded => StepTimeout
    case Failed => StepError
  }

  /** How many steps run for these outcomes: up to and including the first
      that does not complete. */
  function Executed(outs: seq<Outcome>): (n: nat)
    ensures n <= |outs|
  {
    if outs == [] then 0
    else if outs[0] == Completed then 1 + Executed(outs[1..])
    else 1
  }

  /** The first outcome that is not a completion, if any. */
  function FirstFailure(outs: seq<Outcome>): (f: Option<Outcome>)
    ensures f != Some(Completed)
  {
    if outs == [] then None
    else if outs[0] == Completed then FirstFailure(outs[1..])
    else Some(outs[0])
  }

  /** The reports a run makes for steps with these names and outcomes: per
      executed step a duration report, then the one that classifies it. */
  function Log(flow: string, names: seq<string>, outs: seq<Outcome>): seq<Event>
    requires |names| == |outs|
  {
    if outs == [] then []
    else
      [Event(StepDuration, flow, names[0]), Event(OutcomeKind(outs[0]), flow, names[0])] +
      (if outs[0] == Completed then Log(flow, names[1..], outs[1..]) else [])
  }

  function CountKind(events: seq<Event>, kind: EventKind): (n: nat)
    ensures n <= |events|
  {
    if events == [] then 0
    else (if events[0].kind == kind then 1 else 0) + CountKind(events[1..], kind)
  }

  /** Every executed step but the last completed; fewer than all steps run only
      after one fails; when all complete, all run. */
  lemma {:induction false} ExecutedStopsAtFirstFailure(outs: seq<Outcome>)
    ensures forall j :: 0 <= j < Executed(outs) - 1 ==> outs[j] == Completed
    ensures Executed(outs) < |outs| ==> outs[Executed(outs) - 1] != Completed
    ensures (forall j :: 0 <= j < |outs| ==> outs[j] == Completed) <==> Executed(outs) == |outs| && FirstFailure(outs).None?
    ensures FirstFailure(outs).Some? ==> 0 < Executed(outs) && FirstFailure(outs) == Some(outs[Executed(outs) - 1])
  {
    if outs != [] {
      ExecutedStopsAtFirstFailure(outs[1..]);
      if outs[0] == Completed {
        assert forall j :: 1 <= j < |outs| ==> outs[j] == outs[1..][j - 1];
      }
    }
  }

  /** The reports alternate: for the j-th executed step, a duration report at
      2j and its classification at 2j + 1, both naming that step. */
  lemma {:induction false} LogShape(flow: string, names: seq<string>, outs: seq<Outcome>)
    requires |names| == |outs|
    ensures |Log(flow, names, outs)| == 2 * Executed(outs)
    ensures forall j :: 0 <= j < Executed(outs) ==>
              Log(flow, names, outs)[2 * j] == Event(StepDuration, flow, names[j]) &&
              Log(flow, names, outs)[2 * j + 1] == Event(OutcomeKind(outs[j]), flow, names[j])
  {
    if outs != [] && outs[0] == Completed {
      LogShape(flow, names[1..], outs[1..]);
      var rest := Log(flow, names[1..], outs[1..]);
      var log := Log(flow, names, outs);
      forall j | 1 <= j < Executed(outs)
        ensures log[2 * j] == Event(StepDuration, flow, names[j])
        ensures log[2 * j + 1] == Event(OutcomeKind(outs[j]), flow, names[j])
      {
        assert log[2 * j] == rest[2 * (j - 1)];
        assert log[2 * j + 1] == rest[2 * (j - 1) + 1];
      }
    }
  }

  lemma {:induction false} CountKindAppend(a: seq<Event>, b: seq<Event>, kind: EventKind)
    ensures CountKind(a + b, kind) == CountKind(a, kind) + CountKind(b, kind)
  {
    if a != [] {
      assert (a + b)[1..] == a[1..] + b;
      CountKindAppend(a[1..], b, kind);
    } else {
      assert a + b == b;
    }
  }

  /** The counting invariant: one duration report per executed step, each
      classified exactly once, and at most one timeout or error in a run, which
      is a timeout exactly when the first failure is the deadline. */
  lemma {:induction false} LogCounts(flow: string, names: seq<string>, outs: seq<Outcome>)
    requires |names| == |outs|
    ensures CountKind(Log(flow, names, outs), StepDuration) == Executed(outs)
    ensures CountKind(Log(flow, names, outs), StepSuccess) + CountKind(Log(flow, names, outs), StepTimeout) +
            CountKind(Log(flow, names, outs), StepError) == Executed(outs)
    ensures CountKind(Log(flow, names, outs), StepTimeout) == if FirstFailure(outs) == Some(DeadlineExceeded) then 1 else 0
    ensures CountKind(Log(flow, names, outs), StepError) == if FirstFailure(outs) == Some(Failed) then 1 else 0
  {
    if outs != [] {
      var head := [Event(StepDuration, flow, names[0]), Event(OutcomeKind(outs[0]), flow, names[0])];
      var rest := if outs[0] == Completed then Log(flow, names[1..], outs[1..]) else [];
      assert Log(flow, names, outs) == head + rest;
      forall kind
        ensures CountKind(Log(flow, names, outs), kind) == CountKind(head, kind) + CountKind(rest, kind)
      {
        CountKindAppend(head, rest, kind);
      }
      if outs[0] == Completed {
        LogCounts(flow, names[1..], outs[1..]);
      }
    }
  }

  /** When every step completes, every step reports exactly one success. */
  lemma AllCompletedAllSucceed(flow: string, names: seq<string>, outs: seq<Outcome>)
    requires |names| == |outs|
    requires forall j :: 0 <= j < |outs| ==> outs[j] == Completed
    ensures CountKind(Log(flow, names, outs), StepSuccess) == |outs|
    ensures CountKind(Log(flow, names, outs), StepTimeout) == CountKind(Log(flow, names, outs), StepError) == 0
  {
    ExecutedStopsAtFirstFailure(outs);
    LogCounts(flow, names, outs);
  }

  /** Appending the reports of one more step to a run whose steps so far all
      completed. */
  lemma {:induction false} LogSnoc(flow: string, names: seq<string>, outs: seq<Outcome>, i: nat)
    requires |names| == |outs| && i < |outs|
    requires forall j :: 0 <= j < i ==> outs[j] == Completed
    ensures Log(flow, names[..i + 1], outs[..i + 1]) ==
              Log(flow, names[..i], outs[..i]) +
              [Event(StepDuration, flow, names[i]), Event(OutcomeKind(outs[i]), flow, names[i])]
  {
    if i > 0 {
      assert names[..i + 1][1..] == names[1..][..i] && outs[..i + 1][1..] == outs[1..][..i];
      assert names[..i][1..] == names[1..][..i - 1] && outs[..i][1..] == outs[1..][..i - 1];
      LogSnoc(flow, names[1..], outs[1..], i - 1);
    }
  }

  /** What one more step adds to a run whose steps so far all completed: its
      action list, its two reports, and, when it does not complete, the end
      of the run. */
  lemma Advance(flow: string, vs: seq<F.StepValue>, outs: seq<Outcome>, i: nat)
    requires |vs| == |outs| && i < |outs|
    requires forall j :: 0 <= j < i ==> outs[j] == Completed
    ensures F.TaskBatches(vs)[..i + 1] == F.TaskBatches(vs)[..i] + [F.ValueTasks(vs[i])]
    ensures Log(flow, F.Names(vs)[..i + 1], outs[..i + 1]) ==
              Log(flow, F.Names(vs)[..i], outs[..i]) +
              [Event(StepDuration, flow, vs[i].name), Event(OutcomeKind(outs[i]), flow, vs[i].name)]
    ensures outs[i] != Completed ==>
              Executed(outs) == i + 1 && Log(flow, F.Names(vs), outs) == Log(flow, F.Names(vs)[..i + 1], outs[..i + 1])
    ensures outs[i] == Completed ==> forall j :: 0 <= j < i + 1 ==> outs[j] == Completed
  {
    PrefixSnoc(F.TaskBatches(vs), i);
    LogSnoc(flow, F.Names(vs), outs, i);
    if outs[i] != Completed {
      LogUpToFailure(flow, F.Names(vs), outs, i);
    }
  }

  /** Once step i fails, the run's reports are those of the first i + 1 steps. */
  lemma {:induction false} LogUpToFailure(flow: string, names: seq<string>, outs: seq<Outcome>, i: nat)
    requires |names| == |outs| && i < |outs|
    requires forall j :: 0 <= j < i ==> outs[j] == Completed
    requires outs[i] != Completed
    ensures Executed(outs) == i + 1
    ensures Log(flow, names, outs) == Log(flow, names[..i + 1], outs[..i + 1])
  {
    if i > 0 {
      assert names[..i + 1][1..] == names[1..][..i] && outs[..i + 1][1..] == outs[1..][..i];
      LogUpToFailure(flow, names[1..], outs[1..], i - 1);
    }
  }

  /** The reports among these that the metrics service refuses, in order,
      when these are the run's reports from position `from` on and the
      service refuses the call at position p exactly when `refuses(p)`; a
      run only logs them. */
  function Refused(events: seq<Event>, refuses: nat -> bool, from: nat): (r: seq<Event>)
    ensures |r| <= |events|
  {
    if events == [] then []
    else (if refuses(from) then [events[0]] else []) + Refused(events[1..], refuses, from + 1)
  }

  /** A report is listed as refused exactly when it is one of these whose
      call the service refused. */
  lemma {:induction false} RefusedExactly(events: seq<Event>, refuses: nat -> bool, from: nat)
    ensures forall k :: 0 <= k < |events| && refuses(from + k) ==> events[k] in Refused(events, refuses, from)
    ensures forall e :: e in Refused(events, refuses, from) ==>
              exists k :: 0 <= k < |events| && refuses(from + k) && events[k] == e
  {
    if events != [] {
      RefusedExactly(events[1..], refuses, from + 1);
      var r := Refused(events, refuses, from);
      forall k | 0 <= k < |events| && refuses(from + k)
        ensures events[k] in r
      {
        if k > 0 {
          assert events[k] == events[1..][k - 1] && from + k == (from + 1) + (k - 1);
        }
      }
      forall e | e in r
        ensures exists k :: 0 <= k < |events| && refuses(from + k) && events[k] == e
      {
        if e in Refused(events[1..], refuses, from + 1) {
          var j :| 0 <= j < |events[1..]| && refuses(from + 1 + j) && events[1..][j] == e;
          assert refuses(from + (j + 1)) && events[j + 1] == e;
        } else {
          assert refuses(from + 0) && events[0] == e;
        }
      }
    }
  }

  lemma {:induction false} RefusedAppend(a: seq<Event>, b: seq<Event>, refuses: nat -> bool, from: nat)
    ensures Refused(a + b, refuses, from) == Refused(a, refuses, from) + Refused(b, refuses, from + |a|)
  {
    if a != [] {
      assert (a + b)[1..] == a[1..] + b;
      RefusedAppend(a[1..], b, refuses, from + 1);
    } else {
      assert a + b == b;
    }
  }

  // ---------------------------------------------------------------------
  // The flow

  /** How the browser ends the action lists of the first n steps of a run,
      when it ends the i-th one with `browser(i)`. */
  function Outcomes(browser: nat -> Outcome, n: nat): (outs: seq<Outcome>)
    ensures |outs| == n
    ensures forall i :: 0 <= i < n ==> outs[i] == browser(i)
  {
    seq(n, i requires 0 <= i < n => browser(i))
  }

  class Flow {
    const name: string
    const config: FlowConfig
    const steps: seq<F.Step>
    var timeout: Duration

    constructor (name: string, config: FlowConfig, steps: seq<F.Step>)
      ensures this.name == name && this.config == config && this.steps == steps
      ensures timeout == DefaultTimeout
    {
      this.name := name;
      this.config := config;
      this.steps := steps;
      timeout := DefaultTimeout;
    }

    /** One pass of the `stepsRun` loop for a step with fields `step`: its
        actions go to the browser, the duration is reported, then the
        outcome's classification, each after the `reports` asked so far. A
        report the metrics service refuses is only logged: `refused` lists
        those, and nothing else depends on it. */
    method RunStep(step: F.StepValue, browser: nat -> Outcome, refuses: nat -> bool, index: nat,
                   reports: seq<Event>, refused: seq<Event>)
      returns (o: Outcome, tasks: seq<Task>, reports': seq<Event>, refused': seq<Event>)
      requires refused == Refused(reports, refuses, 0)
      ensures o == browser(index) && tasks == F.ValueTasks(step)
      ensures reports' == reports + [Event(StepDuration, name, step.name), Event(OutcomeKind(o), name, step.name)]
      ensures refused' == Refused(reports', refuses, 0)
    {
      var stepName := step.name;
      tasks := F.ValueTasks(step);
      o := browser(index);

      var report := Event(StepDuration, name, stepName);
      var stepReports, stepRefused := [report], [];
      if refuses(|reports|) {
        stepRefused := stepRefused + [report];
      }

      if o != Completed {
        if o == DeadlineExceeded {
          report := Event(StepTimeout, name, stepName);
        } else {
          report := Event(StepError, name, stepName);
        }
      } else {
        report := Event(StepSuccess, name, stepName);
      }
      stepReports := stepReports + [report];
      if refuses(|reports| + 1) {
        stepRefused := stepRefused + [report];
      }

      RefusedAppend(reports, stepReports, refuses, 0);
      reports', refused' := reports + stepReports, refused + stepRefused;
    }

    /** `stepsRun`: the steps' actions are handed to the browser in declared
        order until the first that does not complete; each step run is
        reported with its duration and then its classification. The result
        is the action lists handed to the browser and the reports asked of
        the metrics service, in order, which do not depend on which reports
        the service refuses; those are only logged. */
    method StepsRun(browser: nat -> Outcome, refuses: nat -> bool)
      returns (batches: seq<seq<Task>>, reports: seq<Event>, refused: seq<Event>)
      ensures batches == F.TaskBatches(old(F.States(steps)))[..Executed(Outcomes(browser, |steps|))]
      ensures reports == Log(name, F.Names(old(F.States(steps))), Outcomes(browser, |steps|))
      ensures refused == Refused(reports, refuses, 0)
    {
      var vs := F.States(steps);
      ghost var outs := Outcomes(browser, |steps|);
      batches, reports, refused := [], [], [];

      for i := 0 to |steps|
        invariant batches == F.TaskBatches(vs)[..i]
        invariant reports == Log(name, F.Names(vs)[..i], outs[..i])
        invariant refused == Refused(reports, refuses, 0)
        invariant forall j :: 0 <= j < i ==> outs[j] == Completed
      {
        var o, tasks;
        o, tasks, reports, refused := RunStep(vs[i], browser, refuses, i, reports, refused);
        Advance(name, vs, outs, i);
        batches := batches + [tasks];
        if o != Completed {
          return;
        }
      }
      ExecutedStopsAtFirstFailure(outs);
      assert F.Names(vs)[..|steps|] == F.Names(vs) && outs[..|steps|] == outs;
      assert F.TaskBatches(vs)[..|steps|] == F.TaskBatches(vs);
    }
  }

  /** `newFlow`: a flow with the default timeout, replaced by the configured
      one when given; a timeout that does not parse yields no flow. */
  method NewFlow(name: string, conf: FlowConfig, steps: seq<F.Step>, parse: DurationParser)
    returns (r: Result<Flow>)
    ensures ResolveTimeout(conf, parse).Err? ==> r == Err(ResolveTimeout(conf, parse).error)
    ensures ResolveTimeout(conf, parse).Ok? ==>
              r.Ok? && fresh(r.value) &&
              r.value.name == name && r.value.config == conf && r.value.steps == steps &&
              r.value.timeout == ResolveTimeout(conf, parse).value
  {
    var flow := new Flow(name, conf, steps);
    if conf.timeout.Some? {
      var timeout := parse(conf.timeout.value);
      if timeout.None? {
        return Err(TimeoutParseFailed(conf.timeout.value));
      }
      flow.timeout := timeout.value;
    }
    return Ok(flow);
  }
}
