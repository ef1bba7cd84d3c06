/** Jobs as Rundeck describes them, and as the blocks of a `rundeck_job` resource. A block field
    that is not set reads as its zero value. */
module JobModel {
  import opened Wrappers
  import opened Cron

  // ---------------------------------------------------------------- Rundeck's side

  datatype Plugin = Plugin(kind: string, config: map<string, string>)

  datatype ScriptInterpreter = ScriptInterpreter(invocationString: string, argsQuoted: bool)

  datatype NodeFilter = NodeFilter(query: string, excludeQuery: string, excludePrecedence: bool)

  datatype Dispatch = Dispatch(
    maxThreadCount: int,
    continueNextNodeOnError: bool,
    rankAttribute: string,
    rankOrder: string,
    successOnEmptyNodeFilter: bool)

  datatype JobRef = JobRef(
    name: string,
    groupName: string,
    runForEachNode: bool,
    dispatch: Option<Dispatch>,
    nodeFilter: Option<NodeFilter>,
    arguments: string,
    importOptions: bool)

  datatype Command = Command(
    description: string,
    keepGoingOnSuccess: bool,
    errorHandler: Option<Command>,
    shellCommand: string,
    fileExtension: string,
    script: string,
    scriptFile: string,
    scriptFileArgs: string,
    scriptInterpreter: Option<ScriptInterpreter>,
    job: Option<JobRef>,
    stepPlugin: Option<Plugin>,
    nodeStepPlugin: Option<Plugin>)

  datatype LogFilter = LogFilter(kind: string, config: Option<map<string, string>>)

  datatype CommandSequence = CommandSequence(
    continueOnError: bool,
    orderingStrategy: string,
    globalLogFilters: Option<seq<LogFilter>>,
    commands: seq<Command>)

  datatype JobOption = JobOption(
    name: string,
    optionLabel: string,
    defaultValue: string,
    valueChoices: seq<string>,
    valueChoicesUrl: string,
    requirePredefinedChoice: bool,
    validationRegex: string,
    description: string,
    isRequired: bool,
    allowsMultipleValues: bool,
    multiValueDelimiter: string,
    obscureInput: bool,
    valueIsExposedToScripts: bool,
    storagePath: string,
    isDate: bool,
    dateFormat: string)

  datatype JobOptions = JobOptions(preserveOrder: bool, options: seq<JobOption>)

  datatype Email = Email(attachLog: bool, recipients: seq<string>, subject: string)

  datatype Notification = Notification(
    email: Option<Email>,
    webHookUrls: Option<seq<string>>,
    plugin: Option<Plugin>,
    httpMethod: string,
    format: string)

  datatype JobNotification = JobNotification(
    onFailure: Option<Notification>,
    onStart: Option<Notification>,
    onSuccess: Option<Notification>)

  // The plain fields of a job description, which no branch of the converters looks at.
  datatype JobSettings = JobSettings(
    name: string,
    groupName: string,
    description: string,
    executionEnabled: bool,
    logLevel: string,
    allowConcurrentExecutions: bool,
    retry: string,
    scheduleEnabled: bool,
    timeZone: string)

  datatype JobDetail = JobDetail(
    id: string,
    projectName: string,
    settings: JobSettings,
    timeout: string,
    optionsConfig: Option<JobOptions>,
    dispatch: Option<Dispatch>,
    commandSequence: Option<CommandSequence>,
    notification: Option<JobNotification>,
    nodeFilter: Option<NodeFilter>,
    schedule: Option<Schedule>)

  // ---------------------------------------------------------------- Terraform's side

  datatype PluginBlock = PluginBlock(kind: string, config: map<string, string>)

  datatype InterpreterBlock = InterpreterBlock(invocationString: string, argsQuoted: bool)

  datatype NodeFilterBlock = NodeFilterBlock(excludePrecedence: bool, filter: string, excludeFilter: string)

  datatype JobRefBlock = JobRefBlock(
    name: string,
    groupName: string,
    runForEachNode: bool,
    importOptions: bool,
    args: string,
    nodeFilters: seq<NodeFilterBlock>)

  datatype CommandBlock = CommandBlock(
    description: string,
    shellCommand: string,
    inlineScript: string,
    scriptFile: string,
    scriptFileArgs: string,
    scriptInterpreter: seq<InterpreterBlock>,
    job: seq<JobRefBlock>,
    stepPlugin: seq<PluginBlock>,
    nodeStepPlugin: seq<PluginBlock>,
    keepGoingOnSuccess: bool,
    errorHandler: seq<CommandBlock>)

  // An empty choice is handed over as nil, here None.
  datatype OptionBlock = OptionBlock(
    name: string,
    optionLabel: string,
    defaultValue: string,
    valueChoices: seq<Option<string>>,
    valueChoicesUrl: string,
    requirePredefinedChoice: bool,
    validationRegex: string,
    description: string,
    required: bool,
    allowMultipleValues: bool,
    multiValueDelimiter: string,
    obscureInput: bool,
    exposedToScripts: bool,
    storagePath: string,
    isDate: bool,
    dateFormat: string)

  datatype EmailBlock = EmailBlock(attachLog: bool, recipients: seq<string>, subject: string)

  datatype NotificationBlock = NotificationBlock(
    kind: string,
    email: seq<EmailBlock>,
    webhookUrls: seq<string>,
    webhookHttpMethod: string,
    webhookFormat: string,
    plugin: seq<PluginBlock>)

  datatype SettingsFields = SettingsFields(
    name: string,
    groupName: string,
    description: string,
    executionEnabled: bool,
    scheduleEnabled: bool,
    timeZone: string,
    logLevel: string,
    allowConcurrentExecutions: bool,
    retry: string)

  datatype DispatchFields = DispatchFields(
    maxThreadCount: int,
    continueNextNodeOnError: bool,
    rankAttribute: string,
    rankOrder: string)

  datatype NodeFilterFields = NodeFilterFields(
    nodeFilterQuery: string,
    nodeFilterExcludeQuery: string,
    nodeFilterExcludePrecedence: bool)

  datatype SequenceFields = SequenceFields(
    commandOrderingStrategy: string,
    continueOnError: bool,
    globalLogFilter: seq<PluginBlock>,
    command: seq<CommandBlock>)

  // The attributes of a `rundeck_job` resource; those that are read and written together are grouped.
  datatype JobState = JobState(
    id: string,
    projectName: string,
    settings: SettingsFields,
    timeout: string,
    dispatch: DispatchFields,
    successOnEmptyNodeFilter: bool,
    nodeFilter: NodeFilterFields,
    sequence: SequenceFields,
    preserveOptionsOrder: bool,
    option: seq<OptionBlock>,
    schedule: string,
    notification: seq<NotificationBlock>)
}
