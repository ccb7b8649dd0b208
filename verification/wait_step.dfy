/** The wait step: sleeps for a configured duration. */
module WaitStep {
  import opened Common

  const WaitStepType: string := "wait-step"

  /** `waitStepConf`: the duration text as configured, and its parsed value. */
  datatype WaitConf = WaitConf(duration: string, durationParsed: Duration)

  /** Decoding the raw map into `waitStepConf` (mapstructure), abstracted: the
      decoded `Duration` field, or a decoding failure. The unexported parsed
      duration is never decoded, so it starts at its zero value. */
  type ConfDecoder = RawConfig -> Option<string>

  /** The configuration `Init` accepts: the decoded duration text must be
      present (the `required` tag) and must parse. */
  function ResolveConf(input: RawConfig, decode: ConfDecoder, parse: DurationParser): (r: Result<WaitConf>)
    ensures r.Ok? <==>
              decode(input).Some? && decode(input).value != "" && parse(decode(input).value).Some?
    ensures r.Ok? ==> r.value == WaitConf(decode(input).value, parse(decode(input).value).value)
    ensures decode(input).None? ==> r == Err(ConfigDecodeFailed(WaitStepType))
    ensures decode(input) == Some("") ==> r == Err(ConfigValidationFailed(WaitStepType))
    ensures decode(input).Some? && decode(input).value != "" && parse(decode(input).value).None? ==>
              r == Err(DurationParseFailed(WaitStepType))
  {
    match decode(input)
    case None => Err(ConfigDecodeFailed(WaitStepType))
    case Some(duration) =>
      if duration == "" then Err(ConfigValidationFailed(WaitStepType))
      else
        match parse(duration)
        case None => Err(DurationParseFailed(WaitStepType))
        case Some(d) => Ok(WaitConf(duration, d))
  }

  /** The action for a parsed duration: a single one, sleep for it. */
  function Tasks(d: Duration): (tasks: seq<Task>)
    ensures |tasks| == 1 && tasks[0] == Sleep(d)
  {
    [Sleep(d)]
  }

  class WaitStep {
    var name: string
    var conf: WaitConf

    /** `&waitStep{}`: the zero value. */
    constructor ()
      ensures name == "" && conf == WaitConf("", 0)
    {
      name := "";
      conf := WaitConf("", 0);
    }

    function GetType(): string
    {
      WaitStepType
    }

    function GetName(): string
      reads this
    {
      name
    }

    /** Decodes, validates and parses the configuration; only on success are
        the name and configuration stored. */
    method Init(name: string, input: RawConfig, decode: ConfDecoder, parse: DurationParser)
      returns (err: Option<Error>)
      modifies this
      ensures ResolveConf(input, decode, parse).Err? ==>
                err == Some(ResolveConf(input, decode, parse).error) && unchanged(this)
      ensures ResolveConf(input, decode, parse).Ok? ==>
                err == None && this.name == name && conf == ResolveConf(input, decode, parse).value
    {
      var decoded := decode(input);
      if decoded.None? {
        return Some(ConfigDecodeFailed(GetType()));
      }
      var c := WaitConf(decoded.value, 0);
      if c.duration == "" {
        return Some(ConfigValidationFailed(GetType()));
      }
      var parsedDuration := parse(c.duration);
      if parsedDuration.None? {
        return Some(DurationParseFailed(GetType()));
      }
      c := c.(durationParsed := parsedDuration.value);
      this.name := name;
      conf := c;
      err := None;
    }

    /** The action for the stored configuration. */
    function Run(): (tasks: seq<Task>)
      reads this
      ensures tasks == Tasks(conf.durationParsed)
    {
      Tasks(conf.durationParsed)
    }
  }
}
