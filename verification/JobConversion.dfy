/** Whole jobs: from a resource's state to Rundeck's description and back into the state. */
module JobConversion {
  import opened Wrappers
  import opened ResourceStore
  import opened Cron
  import opened JobModel
  import opened JobCommands
  import opened JobNotifications

  // ---------------------------------------------------------------- Meaning

  predicate AcceptableOption(b: OptionBlock) {
    && (b.storagePath != "" ==> b.obscureInput)
    && (b.exposedToScripts ==> b.obscureInput)
    && (b.isDate ==> b.dateFormat != "")
    && (forall i :: 0 <= i < |b.valueChoices| ==> b.valueChoices[i].Some?)
  }

  function ChoicesOf(choices: seq<Option<string>>): seq<string>
    requires forall i :: 0 <= i < |choices| ==> choices[i].Some?
  {
    seq(|choices|, i requires 0 <= i < |choices| => choices[i].value)
  }

  function OptionOf(b: OptionBlock): JobOption
    requires AcceptableOption(b)
  {
    JobOption(b.name, b.optionLabel, b.defaultValue, ChoicesOf(b.valueChoices), b.valueChoicesUrl,
              b.requirePredefinedChoice, b.validationRegex, b.description, b.required, b.allowMultipleValues,
              b.multiValueDelimiter, b.obscureInput, b.exposedToScripts, b.storagePath, b.isDate, b.dateFormat)
  }

  /** The block that shows an option. The reader leaves out the two date fields. */
  function OptionBlockOf(o: JobOption): OptionBlock {
    OptionBlock(o.name, o.optionLabel, o.defaultValue,
                seq(|o.valueChoices|, i requires 0 <= i < |o.valueChoices| => Some(o.valueChoices[i])),
                o.valueChoicesUrl, o.requirePredefinedChoice, o.validationRegex, o.description, o.isRequired,
                o.allowsMultipleValues, o.multiValueDelimiter, o.obscureInput, o.valueIsExposedToScripts,
                o.storagePath, false, "")
  }

  predicate AcceptableSchedule(schedule: string) {
    schedule != "" ==> ParseCron(schedule).Success?
  }

  /** The resource states that denote a job. */
  predicate AcceptableJob(st: JobState) {
    && (forall i :: 0 <= i < |st.sequence.command| ==> Singular(st.sequence.command[i]))
    && (forall i :: 0 <= i < |st.option| ==> AcceptableOption(st.option[i]))
    && AcceptableSchedule(st.schedule)
    && Acceptable(st.notification)
  }

  function OptionsOf(bs: seq<OptionBlock>): seq<JobOption>
    requires forall i :: 0 <= i < |bs| ==> AcceptableOption(bs[i])
  {
    seq(|bs|, i requires 0 <= i < |bs| => OptionOf(bs[i]))
  }

  function LogFiltersOf(bs: seq<PluginBlock>): seq<LogFilter> {
    seq(|bs|, i requires 0 <= i < |bs| => LogFilter(bs[i].kind, Some(bs[i].config)))
  }

  function CommandsOf(bs: seq<CommandBlock>): seq<Command> {
    seq(|bs|, i requires 0 <= i < |bs| => CommandOf(bs[i]))
  }

  function SettingsOf(s: SettingsFields): JobSettings {
    JobSettings(s.name, s.groupName, s.description, s.executionEnabled, s.logLevel, s.allowConcurrentExecutions,
                s.retry, s.scheduleEnabled, s.timeZone)
  }

  function DispatchOf(d: DispatchFields, successOnEmptyNodeFilter: bool): Dispatch {
    Dispatch(d.maxThreadCount, d.continueNextNodeOnError, d.rankAttribute, d.rankOrder, successOnEmptyNodeFilter)
  }

  function NodeFilterOf(f: NodeFilterFields): NodeFilter {
    NodeFilter(f.nodeFilterQuery, f.nodeFilterExcludeQuery, f.nodeFilterExcludePrecedence)
  }

  function SequenceOf(s: SequenceFields): CommandSequence {
    CommandSequence(s.continueOnError, s.commandOrderingStrategy,
                    if s.globalLogFilter == [] then None else Some(LogFiltersOf(s.globalLogFilter)),
                    CommandsOf(s.command))
  }

  function OptionsConfigOf(preserveOptionsOrder: bool, bs: seq<OptionBlock>): Option<JobOptions>
    requires forall i :: 0 <= i < |bs| ==> AcceptableOption(bs[i])
  {
    if bs == [] then None else Some(JobOptions(preserveOptionsOrder, OptionsOf(bs)))
  }

  function ScheduleOf(schedule: string): Option<Schedule>
    requires AcceptableSchedule(schedule)
  {
    if schedule == "" then None else Some(ParseCron(schedule).value)
  }

  /** The job that a state denotes. */
  function JobOf(st: JobState): JobDetail
    requires AcceptableJob(st)
  {
    JobDetail(st.id, st.projectName, SettingsOf(st.settings), st.timeout,
              OptionsConfigOf(st.preserveOptionsOrder, st.option),
              Some(DispatchOf(st.dispatch, st.successOnEmptyNodeFilter)),
              Some(SequenceOf(st.sequence)),
              JobNotificationOf(st.notification),
              Some(NodeFilterOf(st.nodeFilter)),
              ScheduleOf(st.schedule))
  }

  /** A command sequence whose log filters all have a configuration; refreshing from another one
      would dereference a nil pointer. */
  predicate Configured(sequence: CommandSequence) {
    sequence.globalLogFilters.Some? ==>
      forall i :: 0 <= i < |sequence.globalLogFilters.value| ==> sequence.globalLogFilters.value[i].config.Some?
  }

  predicate Refreshable(job: JobDetail) {
    job.commandSequence.Some? ==> Configured(job.commandSequence.value)
  }

  function SettingsShown(j: JobSettings): SettingsFields {
    SettingsFields(j.name, j.groupName, j.description, j.executionEnabled, j.scheduleEnabled, j.timeZone, j.logLevel,
                   j.allowConcurrentExecutions, j.retry)
  }

  function DispatchShown(d: Option<Dispatch>): DispatchFields {
    match d
    case Some(d) => DispatchFields(d.maxThreadCount, d.continueNextNodeOnError, d.rankAttribute, d.rankOrder)
    case None => DispatchFields(1, false, "", "ascending")
  }

  function NodeFilterShown(f: Option<NodeFilter>): NodeFilterFields {
    match f
    case Some(f) => NodeFilterFields(f.query, f.excludeQuery, f.excludePrecedence)
    case None => NodeFilterFields("", "", false)
  }

  function OptionBlocksOf(os: seq<JobOption>): seq<OptionBlock> {
    seq(|os|, i requires 0 <= i < |os| => OptionBlockOf(os[i]))
  }

  function LogFilterBlocksOf(fs: seq<LogFilter>): seq<PluginBlock>
    requires forall i :: 0 <= i < |fs| ==> fs[i].config.Some?
  {
    seq(|fs|, i requires 0 <= i < |fs| => PluginBlock(fs[i].kind, fs[i].config.value))
  }

  function CommandBlocksOf(cs: seq<Command>): seq<CommandBlock> {
    seq(|cs|, i requires 0 <= i < |cs| => BlockOf(cs[i]))
  }

  /** The sequence fields after a refresh; a job without log filters leaves the old ones in place. */
  function SequenceShown(before: SequenceFields, s: CommandSequence): SequenceFields
    requires Configured(s)
  {
    SequenceFields(s.orderingStrategy, s.continueOnError,
                   if s.globalLogFilters.Some? && s.globalLogFilters.value != []
                   then LogFilterBlocksOf(s.globalLogFilters.value) else before.globalLogFilter,
                   CommandBlocksOf(s.commands))
  }

  /** The state after a refresh from `job`. What the refresh does not write keeps its value. */
  function RefreshFrom(st: JobState, job: JobDetail): JobState
    requires Refreshable(job)
  {
    JobState(job.id,
             if job.projectName != "" then job.projectName else st.projectName,
             SettingsShown(job.settings),
             st.timeout,
             DispatchShown(job.dispatch),
             st.successOnEmptyNodeFilter,
             NodeFilterShown(job.nodeFilter),
             if job.commandSequence.Some? then SequenceShown(st.sequence, job.commandSequence.value) else st.sequence,
             if job.optionsConfig.Some? then job.optionsConfig.value.preserveOrder else st.preserveOptionsOrder,
             if job.optionsConfig.Some? then OptionBlocksOf(job.optionsConfig.value.options) else [],
             if job.schedule.Some? then PrintCron(job.schedule.value) else st.schedule,
             NotificationBlocks(job.notification))
  }

  // ---------------------------------------------------------------- jobFromResourceData

  method OptionFromResourceData(b: OptionBlock) returns (r: Result<JobOption>)
    ensures r.Success? <==> AcceptableOption(b)
    ensures r.Success? <==> (b.storagePath != "" || b.exposedToScripts ==> b.obscureInput) &&
                            (b.isDate ==> b.dateFormat != "") && None !in b.valueChoices
    ensures r.Success? ==> r.value == OptionOf(b)
  {
    if b.storagePath != "" && b.obscureInput == false {
      return Failure;
    }
    if b.exposedToScripts && b.obscureInput == false {
      return Failure;
    }
    if b.isDate && b.dateFormat == "" {
      return Failure;
    }
    var choices: seq<string> := [];
    for i := 0 to |b.valueChoices|
      invariant forall j :: 0 <= j < i ==> b.valueChoices[j].Some?
      invariant |choices| == i && forall j :: 0 <= j < i ==> choices[j] == b.valueChoices[j].value
    {
      if b.valueChoices[i].None? {
        return Failure;
      }
      choices := choices + [b.valueChoices[i].value];
    }
    return Success(JobOption(
      b.name, b.optionLabel, b.defaultValue, choices, b.valueChoicesUrl, b.requirePredefinedChoice, b.validationRegex,
      b.description, b.required, b.allowMultipleValues, b.multiValueDelimiter, b.obscureInput, b.exposedToScripts,
      b.storagePath, b.isDate, b.dateFormat));
  }

  method OptionsFromResourceData(bs: seq<OptionBlock>) returns (r: Result<seq<JobOption>>)
    ensures r.Success? <==> forall i :: 0 <= i < |bs| ==> AcceptableOption(bs[i])
    ensures r.Success? ==> r.value == OptionsOf(bs)
  {
    var options: seq<JobOption> := [];
    for i := 0 to |bs|
      invariant forall j :: 0 <= j < i ==> AcceptableOption(bs[j])
      invariant |options| == i && forall j :: 0 <= j < i ==> options[j] == OptionOf(bs[j])
    {
      var option :- OptionFromResourceData(bs[i]);
      options := options + [option];
    }
    return Success(options);
  }

  method LogFiltersFromResourceData(bs: seq<PluginBlock>) returns (filters: seq<LogFilter>)
    ensures filters == LogFiltersOf(bs)
  {
    filters := [];
    for i := 0 to |bs|
      invariant |filters| == i && forall j :: 0 <= j < i ==> filters[j] == LogFilter(bs[j].kind, Some(bs[j].config))
    {
      var config := CopyConfig(bs[i].config);
      filters := filters + [LogFilter(bs[i].kind, Some(config))];
    }
  }

  method CommandsFromResourceData(bs: seq<CommandBlock>) returns (r: Result<seq<Command>>)
    ensures r.Success? <==> forall i :: 0 <= i < |bs| ==> Singular(bs[i])
    ensures r.Success? ==> r.value == CommandsOf(bs)
  {
    var commands: seq<Command> := [];
    for i := 0 to |bs|
      invariant forall j :: 0 <= j < i ==> Singular(bs[j])
      invariant |commands| == i && forall j :: 0 <= j < i ==> commands[j] == CommandOf(bs[j])
    {
      var command :- CommandFromResourceData(bs[i]);
      commands := commands + [command];
    }
    return Success(commands);
  }

  /** `JobScheduleFromResourceData`. */
  method ScheduleFromResourceData(cronSpec: string) returns (r: Result<Option<Schedule>>)
    ensures r.Success? <==> AcceptableSchedule(cronSpec)
    ensures r.Success? ==> r.value == if cronSpec == "" then None else Some(ParseCron(cronSpec).value)
  {
    if cronSpec == "" {
      return Success(None);
    }
    var schedule :- ParseCron(cronSpec);
    return Success(Some(schedule));
  }

  method SequenceFromResourceData(s: SequenceFields) returns (r: Result<CommandSequence>)
    ensures r.Success? <==> forall i :: 0 <= i < |s.command| ==> Singular(s.command[i])
    ensures r.Success? ==> r.value == SequenceOf(s)
  {
    var sequence := CommandSequence(s.continueOnError, s.commandOrderingStrategy, None, []);
    if |s.globalLogFilter| > 0 {
      var globalLogFilters := LogFiltersFromResourceData(s.globalLogFilter);
      sequence := sequence.(globalLogFilters := Some(globalLogFilters));
    }
    var commands :- CommandsFromResourceData(s.command);
    return Success(sequence.(commands := commands));
  }

  method NodeFilterFromResourceData(f: NodeFilterFields) returns (nodeFilter: NodeFilter)
    ensures nodeFilter == NodeFilterOf(f)
  {
    nodeFilter := NodeFilter("", "", f.nodeFilterExcludePrecedence);
    if f.nodeFilterQuery != "" {
      nodeFilter := nodeFilter.(query := f.nodeFilterQuery);
    }
    if f.nodeFilterExcludeQuery != "" {
      nodeFilter := nodeFilter.(excludeQuery := f.nodeFilterExcludeQuery);
    }
  }

  /** `jobFromResourceData`: it succeeds exactly on acceptable states. */
  method JobFromResourceData(d: ResourceData<JobState>) returns (r: Result<JobDetail>)
    ensures r.Success? <==> AcceptableJob(d.state)
    ensures r.Success? ==> r.value == JobOf(d.state)
  {
    var st := d.state;
    var s := st.settings;
    var settings := JobSettings(s.name, s.groupName, s.description, s.executionEnabled, s.logLevel,
                                s.allowConcurrentExecutions, s.retry, s.scheduleEnabled, s.timeZone);
    var dispatch := Dispatch(st.dispatch.maxThreadCount, st.dispatch.continueNextNodeOnError,
                             st.dispatch.rankAttribute, st.dispatch.rankOrder, false);
    dispatch := dispatch.(successOnEmptyNodeFilter := st.successOnEmptyNodeFilter);
    var sequence :- SequenceFromResourceData(st.sequence);
    var optionsConfig: Option<JobOptions> := None;
    if |st.option| > 0 {
      var options :- OptionsFromResourceData(st.option);
      optionsConfig := Some(JobOptions(st.preserveOptionsOrder, options));
    }
    var nodeFilter := NodeFilterFromResourceData(st.nodeFilter);
    var schedule :- ScheduleFromResourceData(st.schedule);
    var notification :- NotificationsFromResourceData(st.notification);
    return Success(JobDetail(st.id, st.projectName, settings, st.timeout, optionsConfig, Some(dispatch), Some(sequence),
                             notification, Some(nodeFilter), schedule));
  }

  // ---------------------------------------------------------------- jobToResourceData

  method OptionsToResourceData(os: seq<JobOption>) returns (bs: seq<OptionBlock>)
    ensures bs == OptionBlocksOf(os)
  {
    bs := [];
    for i := 0 to |os|
      invariant |bs| == i && forall j :: 0 <= j < i ==> bs[j] == OptionBlockOf(os[j])
    {
      bs := bs + [OptionBlockOf(os[i])];
    }
  }

  method LogFiltersToResourceData(filters: seq<LogFilter>) returns (blocks: seq<PluginBlock>)
    requires forall i :: 0 <= i < |filters| ==> filters[i].config.Some?
    ensures blocks == LogFilterBlocksOf(filters)
  {
    blocks := [];
    for i := 0 to |filters|
      invariant |blocks| == i
      invariant forall j :: 0 <= j < i ==> blocks[j] == PluginBlock(filters[j].kind, filters[j].config.value)
    {
      blocks := blocks + [PluginBlock(filters[i].kind, filters[i].config.value)];
    }
  }

  method CommandsToResourceData(commands: seq<Command>) returns (blocks: seq<CommandBlock>)
    ensures blocks == CommandBlocksOf(commands)
  {
    blocks := [];
    for i := 0 to |commands|
      invariant |blocks| == i && forall j :: 0 <= j < i ==> blocks[j] == BlockOf(commands[j])
    {
      var command := CommandToResourceData(commands[i]);
      blocks := blocks + [command];
    }
  }

  method SequenceToResourceData(d: ResourceData<JobState>, sequence: CommandSequence)
    requires Configured(sequence)
    modifies d
    ensures d.state == old(d.state).(sequence := SequenceShown(old(d.state).sequence, sequence))
  {
    var fields := d.state.sequence.(commandOrderingStrategy := sequence.orderingStrategy);
    fields := fields.(continueOnError := sequence.continueOnError);
    if sequence.globalLogFilters.Some? && |sequence.globalLogFilters.value| > 0 {
      var filters := LogFiltersToResourceData(sequence.globalLogFilters.value);
      fields := fields.(globalLogFilter := filters);
    }
    var commands := CommandsToResourceData(sequence.commands);
    fields := fields.(command := commands);
    d.state := d.state.(sequence := fields);
  }

  /** The fields up to the options. */
  method FieldsToResourceData(job: JobDetail, d: ResourceData<JobState>)
    modifies d
    ensures d.state == old(d.state).(
                         id := job.id,
                         projectName := if job.projectName != "" then job.projectName else old(d.state).projectName,
                         settings := SettingsShown(job.settings),
                         dispatch := DispatchShown(job.dispatch),
                         nodeFilter := NodeFilterShown(job.nodeFilter))
  {
    var s := job.settings;
    d.state := d.state.(id := job.id);
    if job.projectName != "" {
      d.state := d.state.(projectName := job.projectName);
    }
    d.state := d.state.(settings := SettingsFields(s.name, s.groupName, s.description, s.executionEnabled,
                                                   s.scheduleEnabled, s.timeZone, s.logLevel,
                                                   s.allowConcurrentExecutions, s.retry));
    if job.dispatch.Some? {
      var v := job.dispatch.value;
      d.state := d.state.(dispatch := DispatchFields(v.maxThreadCount, v.continueNextNodeOnError,
                                                      v.rankAttribute, v.rankOrder));
    } else {
      d.state := d.state.(dispatch := DispatchFields(1, false, "", "ascending"));
    }
    if job.nodeFilter.Some? {
      var f := job.nodeFilter.value;
      d.state := d.state.(nodeFilter := NodeFilterFields(f.query, f.excludeQuery, f.excludePrecedence));
    } else {
      d.state := d.state.(nodeFilter := NodeFilterFields("", "", false));
    }
  }

  method OptionsConfigToResourceData(optionsConfig: Option<JobOptions>, d: ResourceData<JobState>)
    modifies d
    ensures d.state == old(d.state).(
                         preserveOptionsOrder := if optionsConfig.Some? then optionsConfig.value.preserveOrder
                                                 else old(d.state).preserveOptionsOrder,
                         option := if optionsConfig.Some? then OptionBlocksOf(optionsConfig.value.options) else [])
  {
    var option: seq<OptionBlock> := [];
    if optionsConfig.Some? {
      d.state := d.state.(preserveOptionsOrder := optionsConfig.value.preserveOrder);
      option := OptionsToResourceData(optionsConfig.value.options);
    }
    d.state := d.state.(option := option);
  }

  method ScheduleToResourceData(schedule: Option<Schedule>, d: ResourceData<JobState>)
      returns (filled: Option<Schedule>)
    modifies d
    ensures d.state == old(d.state).(schedule := if schedule.Some? then PrintCron(schedule.value)
                                             else old(d.state).schedule)
    ensures filled == if schedule.Some? then Some(Filled(schedule.value)) else None
  {
    if schedule.None? {
      return None;
    }
    var s := new JobSchedule(schedule.value);
    var cronSpec := s.ToCronSpec();
    d.state := d.state.(schedule := cronSpec);
    return Some(s.Value());
  }

  /** `jobToResourceData`. Besides the state it changes the job it is given, whose schedule gets its
      blank day fields filled; `filled` is that job. */
  method JobToResourceData(job: JobDetail, d: ResourceData<JobState>) returns (filled: JobDetail)
    requires Refreshable(job)
    modifies d
    ensures d.state == RefreshFrom(old(d.state), job)
    ensures filled == job.(schedule := if job.schedule.Some? then Some(Filled(job.schedule.value)) else None)
  {
    FieldsToResourceData(job, d);
    OptionsConfigToResourceData(job.optionsConfig, d);
    if job.commandSequence.Some? {
      SequenceToResourceData(d, job.commandSequence.value);
    }
    var schedule := ScheduleToResourceData(job.schedule, d);
    var notification := NotificationsToResourceData(job.notification);
    d.state := d.state.(notification := notification);
    return job.(schedule := schedule);
  }

  // ---------------------------------------------------------------- Apply, then refresh

  /** No option uses the two fields that a refresh leaves out. */
  ghost predicate DateFree(bs: seq<OptionBlock>) {
    forall i :: 0 <= i < |bs| ==> !bs[i].isDate && bs[i].dateFormat == ""
  }

  /** The schedule, if there is one, has both day fields. */
  ghost predicate DaysGiven(schedule: string)
    requires AcceptableSchedule(schedule)
  {
    schedule != "" ==> ParseCron(schedule).value.dayOfMonth != "" && ParseCron(schedule).value.dayOfWeek != ""
  }

  lemma JobIsRefreshable(st: JobState)
    requires AcceptableJob(st)
    ensures Refreshable(JobOf(st))
  {
  }

  /** The state after applying it and refreshing from the job it denotes. */
  ghost function Refreshed(st: JobState): JobState
    requires AcceptableJob(st)
  {
    JobIsRefreshable(st);
    RefreshFrom(st, JobOf(st))
  }

  lemma OptionShown(b: OptionBlock)
    requires AcceptableOption(b)
    ensures AcceptableOption(OptionBlockOf(OptionOf(b)))
    ensures OptionBlockOf(OptionOf(b)) == b.(isDate := false, dateFormat := "")
    ensures OptionOf(OptionBlockOf(OptionOf(b))) == OptionOf(b).(isDate := false, dateFormat := "")
  {
    var choices := OptionBlockOf(OptionOf(b)).valueChoices;
    assert choices == b.valueChoices;
  }

  lemma SequenceUnchanged(s: SequenceFields)
    requires forall i :: 0 <= i < |s.command| ==> Singular(s.command[i])
    ensures SequenceShown(s, SequenceOf(s)) == s
  {
    var shown := SequenceShown(s, SequenceOf(s));
    forall i | 0 <= i < |s.command| ensures shown.command[i] == s.command[i] {
      BlockSurvives(s.command[i]);
    }
    assert shown.command == s.command;
    assert shown.globalLogFilter == s.globalLogFilter;
  }

  /** A refresh rewrites the options, the schedule and the notifications, and nothing else. */
  lemma RefreshedParts(st: JobState)
    requires AcceptableJob(st)
    ensures Refreshed(st) == st.(option := OptionBlocksOf(OptionsOf(st.option)),
                                 schedule := if st.schedule == "" then "" else PrintCron(ParseCron(st.schedule).value),
                                 notification := NotificationBlocks(JobNotificationOf(st.notification)))
  {
    SequenceUnchanged(st.sequence);
  }

  lemma ScheduleShownExactly(schedule: string)
    requires schedule != "" && ParseCron(schedule).Success?
    ensures var s := ParseCron(schedule).value;
            && (s.dayOfMonth != "" && s.dayOfWeek != "" ==> PrintCron(s) == schedule)
            && (s.dayOfMonth == "" || s.dayOfWeek == "" ==> ParseCron(PrintCron(s)).Failure?)
  {
    PrintParsedExactly(schedule);
    BlankDayIsNotPrinted(schedule);
  }

  lemma PrintedIsNotEmpty(s: Schedule)
    ensures PrintCron(s) != ""
  {
  }

  lemma OptionsUnchangedExactly(bs: seq<OptionBlock>)
    requires forall i :: 0 <= i < |bs| ==> AcceptableOption(bs[i])
    ensures var after := OptionBlocksOf(OptionsOf(bs));
            && (forall i :: 0 <= i < |after| ==> AcceptableOption(after[i]))
            && (OptionsOf(after) == OptionsOf(bs) <==> DateFree(bs))
            && (after == bs <==> DateFree(bs))
  {
    var after := OptionBlocksOf(OptionsOf(bs));
    forall i | 0 <= i < |bs|
      ensures AcceptableOption(after[i])
      ensures after[i] == bs[i].(isDate := false, dateFormat := "")
      ensures OptionOf(after[i]) == OptionOf(bs[i]).(isDate := false, dateFormat := "")
    {
      OptionShown(bs[i]);
    }
    if OptionsOf(after) == OptionsOf(bs) {
      forall i | 0 <= i < |bs| ensures !bs[i].isDate && bs[i].dateFormat == "" {
        assert OptionsOf(after)[i] == OptionsOf(bs)[i];
      }
    }
    if DateFree(bs) {
      assert forall i :: 0 <= i < |bs| ==> after[i] == bs[i];
      assert after == bs;
    }
  }

  /** Fixed point: after applying an acceptable state and refreshing, the state denotes the same job
      again, exactly when no option has a date field and the schedule has both its day fields. */
  lemma FixedPointExactly(st: JobState)
    requires AcceptableJob(st)
    ensures AcceptableJob(Refreshed(st)) && JobOf(Refreshed(st)) == JobOf(st)
            <==> DateFree(st.option) && DaysGiven(st.schedule)
  {
    var after := Refreshed(st);
    RefreshedParts(st);
    OptionsUnchangedExactly(st.option);
    ShownInOrder(st.notification);
    SecondPassChangesNothing(st.notification);
    if st.schedule != "" {
      ScheduleShownExactly(st.schedule);
      PrintedIsNotEmpty(ParseCron(st.schedule).value);
    }
  }

  /** No difference after an apply: the refreshed state is the applied one, exactly when, besides,
      the notification blocks are clean and stand in the fixed order. */
  lemma NoDifferenceExactly(st: JobState)
    requires AcceptableJob(st)
    ensures Refreshed(st) == st <==>
            DateFree(st.option) && DaysGiven(st.schedule) && Ordered(st.notification) &&
            forall b :: b in st.notification ==> Clean(b)
  {
    RefreshedParts(st);
    OptionsUnchangedExactly(st.option);
    BlocksUnchangedExactly(st.notification);
    if st.schedule != "" {
      PrintParsedExactly(st.schedule);
    }
  }

  /** A second refresh from the same job changes nothing, whatever the job. */
  lemma RefreshIsIdempotent(st: JobState, job: JobDetail)
    requires Refreshable(job)
    ensures RefreshFrom(RefreshFrom(st, job), job) == RefreshFrom(st, job)
  {
  }

  /** What is read for a schedule is acceptable exactly when it had both its day fields, and is then
      unchanged. */
  lemma ShownScheduleExactly(schedule: string)
    requires AcceptableSchedule(schedule)
    ensures var shown := if schedule == "" then "" else PrintCron(ParseCron(schedule).value);
            && (AcceptableSchedule(shown) <==> DaysGiven(schedule))
            && (DaysGiven(schedule) ==> shown == schedule)
  {
    if schedule != "" {
      ScheduleShownExactly(schedule);
      PrintedIsNotEmpty(ParseCron(schedule).value);
    }
  }

  lemma ShownOptionsSettle(bs: seq<OptionBlock>)
    requires forall i :: 0 <= i < |bs| ==> AcceptableOption(bs[i])
    ensures var after := OptionBlocksOf(OptionsOf(bs));
            (forall i :: 0 <= i < |after| ==> AcceptableOption(after[i])) && DateFree(after)
  {
    OptionsUnchangedExactly(bs);
  }

  lemma ShownNotificationsSettle(bs: seq<NotificationBlock>)
    requires Acceptable(bs)
    ensures var after := NotificationBlocks(JobNotificationOf(bs));
            Acceptable(after) && Ordered(after) && forall b :: b in after ==> Clean(b)
  {
    ShownInOrder(bs);
    SecondPassChangesNothing(bs);
    BlocksUnchangedExactly(NotificationBlocks(JobNotificationOf(bs)));
  }

  /** One round settles a state: what is read after an apply can be applied again exactly when the
      schedule had both its day fields, and doing so changes nothing any more. */
  lemma RefreshSettlesExactly(st: JobState)
    requires AcceptableJob(st)
    ensures AcceptableJob(Refreshed(st)) <==> DaysGiven(st.schedule)
    ensures AcceptableJob(Refreshed(st)) ==> Refreshed(Refreshed(st)) == Refreshed(st)
  {
    RefreshedParts(st);
    ShownOptionsSettle(st.option);
    ShownNotificationsSettle(st.notification);
    ShownScheduleExactly(st.schedule);
    if AcceptableJob(Refreshed(st)) {
      NoDifferenceExactly(Refreshed(st));
    }
  }
}
