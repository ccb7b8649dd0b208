/** The navigate step: opens a URL and waits for the page to show. */
module NavigateStep {
  import opened Common

  const NavigateStepType: string := "navigate-step"

  /** The element the page's body paragraph is awaited by (an XPath search). */
  const BodyParagraph: string := "/html/body/p"

  /** The element the page's image is awaited by (a CSS query). */
  const PageImage: string := "img"

  /** `navigateStepConf`. */
  datatype NavigateConf = NavigateConf(url: string)

  /** Decoding the raw map into `navigateStepConf` (mapstructure), abstracted. */
  type ConfDecoder = RawConfig -> Option<NavigateConf>

  /** The configuration `Init` accepts: it decodes and its `required` URL is
      not empty. */
  function ResolveConf(input: RawConfig, decode: ConfDecoder): (r: Result<NavigateConf>)
    ensures r.Ok? <==> decode(input).Some? && decode(input).value.url != ""
    ensures r.Ok? ==> r.value == decode(input).value
    ensures decode(input).None? ==> r == Err(ConfigDecodeFailed(NavigateStepType))
    ensures decode(input).Some? && decode(input).value.url == "" ==>
              r == Err(ConfigValidationFailed(NavigateStepType))
  {
    match decode(input)
    case None => Err(ConfigDecodeFailed(NavigateStepType))
    case Some(conf) =>
      if conf.url == "" then Err(ConfigValidationFailed(NavigateStepType)) else Ok(conf)
  }

  /** The actions for a URL: navigate, then wait for the paragraph and the image. */
  function Tasks(url: string): (tasks: seq<Task>)
    ensures |tasks| == 3
    ensures tasks[0] == Navigate(url)
    ensures tasks[1] == WaitVisible(BodyParagraph, BySearch)
    ensures tasks[2] == WaitVisible(PageImage, ByQuery)
  {
    [Navigate(url), WaitVisible(BodyParagraph, BySearch), WaitVisible(PageImage, ByQuery)]
  }

  class NavigateStep {
    var name: string
    var conf: NavigateConf

    /** `&navigateStep{}`: the zero value. */
    constructor ()
      ensures name == "" && conf == NavigateConf("")
    {
      name := "";
      conf := NavigateConf("");
    }

    function GetType(): string
    {
      NavigateStepType
    }

    function GetName(): string
      reads this
    {
      name
    }

    /** Decodes and validates the configuration; only on success are the name
        and configuration stored. */
    method Init(name: string, input: RawConfig, decode: ConfDecoder) returns (err: Option<Error>)
      modifies this
      ensures ResolveConf(input, decode).Err? ==>
                err == Some(ResolveConf(input, decode).error) && unchanged(this)
      ensures ResolveConf(input, decode).Ok? ==>
                err == None && this.name == name && conf == ResolveConf(input, decode).value
    {
      var decoded := decode(input);
      if decoded.None? {
        return Some(ConfigDecodeFailed(GetType()));
      }
      if decoded.value.url == "" {
        return Some(ConfigValidationFailed(GetType()));
      }
      this.name := name;
      conf := decoded.value;
      err := None;
    }

    /** The three actions for the configured URL; the proxy is not used. */
    function Run(): (tasks: seq<Task>)
      reads this
      ensures tasks == Tasks(conf.url)
    {
      Tasks(conf.url)
    }
  }
}
