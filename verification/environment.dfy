/** The calls the wrapper makes through the frontend's environment callback,
    recorded as values, and the registration `retro_set_environment`
    performs. */
module Environment {
  import opened Common
  import opened LibretroApi
  import opened RefreshOptions
  import opened AvInfo

  /** A core variable as registered with SET_VARIABLES: its key and its
      option string. */
  datatype Variable = Variable(key: string, value: string)

  /** One call of `retro_environment_t`, with the payload the wrapper passes. */
  datatype EnvCall =
    | SetSupportNoGame(noGame: bool)
    | SetVariables(variables: seq<Variable>)
    | GetLogInterface
    | QueryVariableUpdate
    | GetVariable(key: string)
    | PushAvInfo(info: SystemAvInfo)
    | SetPixelFormat(format: bv32)
  {
    /** The RETRO_ENVIRONMENT_* command the call is made with. */
    function Command(): bv32
    {
      match this
      case SetSupportNoGame(_) => ENVIRONMENT_SET_SUPPORT_NO_GAME
      case SetVariables(_) => ENVIRONMENT_SET_VARIABLES
      case GetLogInterface => ENVIRONMENT_GET_LOG_INTERFACE
      case QueryVariableUpdate => ENVIRONMENT_GET_VARIABLE_UPDATE
      case GetVariable(_) => ENVIRONMENT_GET_VARIABLE
      case PushAvInfo(_) => ENVIRONMENT_SET_SYSTEM_AV_INFO
      case SetPixelFormat(_) => ENVIRONMENT_SET_PIXEL_FORMAT
    }
  }

  /** Distinct kinds of call use distinct commands, so the frontend can tell
      every call apart by its command alone. */
  lemma CommandsIdentifyCalls(a: EnvCall, b: EnvCall)
    requires a.Command() == b.Command()
    ensures a.SetSupportNoGame? <==> b.SetSupportNoGame?
    ensures a.SetVariables? <==> b.SetVariables?
    ensures a.GetLogInterface? <==> b.GetLogInterface?
    ensures a.QueryVariableUpdate? <==> b.QueryVariableUpdate?
    ensures a.GetVariable? <==> b.GetVariable?
    ensures a.PushAvInfo? <==> b.PushAvInfo?
    ensures a.SetPixelFormat? <==> b.SetPixelFormat?
  {
  }

  /** Whether a call sequence pushes new AV info to the frontend. */
  predicate PushesAvInfo(calls: seq<EnvCall>)
  {
    exists i :: 0 <= i < |calls| && calls[i].PushAvInfo?
  }

  /** `retro_set_environment`: declare whether the core runs without
      content, register the `refresh_rate` variable with the option string
      of the core's profile (the table's NULL terminator entry is not
      modelled), and ask for the log interface. */
  function SetEnvironment(c: CoreConfig): (calls: seq<EnvCall>)
    ensures |calls| == 3 && calls[1].SetVariables? && |calls[1].variables| == 1
    ensures calls[0] == SetSupportNoGame(c.noContent) && calls[2] == GetLogInterface
    ensures calls[1].variables[0].key == FRAME_RATE_KEY
    ensures ParseOption(calls[1].variables[0].value) == Some(OptionSpec(OPTION_DESCRIPTION, OfferedValues(c.logicRate)))
  {
    AdvertisedOption(c.logicRate);
    [ SetSupportNoGame(c.noContent),
      SetVariables([Variable(FRAME_RATE_KEY, OptionString(c.logicRate))]),
      GetLogInterface ]
  }

  /** The registered variable's default is "60", and a value it offers has
      no entry in the profile's multiplier table exactly when it is the
      empty value, which only the high profile offers. */
  lemma RegisteredValuesResolve(c: CoreConfig)
    ensures var spec := ParseOption(SetEnvironment(c)[1].variables[0].value).value;
      spec.Default() == "60" &&
      (forall v :: v in spec.values ==> (Lookup(c.logicRate, v).None? <==> v == "")) &&
      ("" in spec.values <==> c.logicRate == LogicRate720)
  {
    var offered := OfferedValues(c.logicRate);
    assert forall v :: v in offered ==> v in AdvertisedRates(c.logicRate) || v == "";
    assert c.logicRate == LogicRate720 ==> offered[|offered| - 1] == "";
  }
}
