/** The tester configuration as loaded from the configuration file. */
module Config {
  import opened Common

  /** A named step definition: its type and its raw configuration. */
  datatype Definition = Definition(stepType: string, config: RawConfig)

  /** A flow's schedule (a cron expression) and its optional timeout text. */
  datatype FlowConfig = FlowConfig(frequency: string, timeout: Option<string>)

  /** A flow: its configuration and the names of its steps, in order. */
  datatype FlowDefinition = FlowDefinition(config: FlowConfig, steps: seq<string>)

  datatype TesterConfig = TesterConfig(definitions: map<string, Definition>, flows: map<string, FlowDefinition>)
}
