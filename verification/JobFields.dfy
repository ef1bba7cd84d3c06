/** Which attribute of a job resource every field of a job description comes from, and what is sent when
    a job that was read is applied again. */
module JobFields {
  import opened Wrappers
  import opened Cron
  import opened JobModel
  import opened JobCommands
  import opened JobNotifications
  import opened JobConversion

  // ---------------------------------------------------------------- From attributes to fields

  /** The fields of the job that an acceptable state denotes: each carries the attribute of its name,
      those that no refresh writes included. */
  lemma JobCarriesFields(st: JobState)
    requires AcceptableJob(st)
    ensures var j, s := JobOf(st), st.settings;
            && j.id == st.id && j.projectName == st.projectName && j.timeout == st.timeout
            && j.settings.name == s.name && j.settings.groupName == s.groupName
            && j.settings.description == s.description && j.settings.executionEnabled == s.executionEnabled
            && j.settings.scheduleEnabled == s.scheduleEnabled && j.settings.timeZone == s.timeZone
            && j.settings.logLevel == s.logLevel && j.settings.retry == s.retry
            && j.settings.allowConcurrentExecutions == s.allowConcurrentExecutions
    ensures var d := JobOf(st).dispatch;
            && d.Some? && d.value.maxThreadCount == st.dispatch.maxThreadCount
            && d.value.continueNextNodeOnError == st.dispatch.continueNextNodeOnError
            && d.value.rankAttribute == st.dispatch.rankAttribute && d.value.rankOrder == st.dispatch.rankOrder
            && d.value.successOnEmptyNodeFilter == st.successOnEmptyNodeFilter
    ensures var f := JobOf(st).nodeFilter;
            && f.Some? && f.value.query == st.nodeFilter.nodeFilterQuery
            && f.value.excludeQuery == st.nodeFilter.nodeFilterExcludeQuery
            && f.value.excludePrecedence == st.nodeFilter.nodeFilterExcludePrecedence
    ensures JobOf(st).schedule == if st.schedule == "" then None else Some(ParseCron(st.schedule).value)
  {
  }

  /** Its command sequence: every command and every log filter, in order, and no log filters at all
      rather than an empty list of them. */
  lemma JobCarriesSequence(st: JobState)
    requires AcceptableJob(st)
    ensures var s := JobOf(st).commandSequence;
            && s.Some? && s.value.continueOnError == st.sequence.continueOnError
            && s.value.orderingStrategy == st.sequence.commandOrderingStrategy
            && |s.value.commands| == |st.sequence.command|
            && (forall i :: 0 <= i < |s.value.commands| ==> s.value.commands[i] == CommandOf(st.sequence.command[i]))
            && (s.value.globalLogFilters.None? <==> st.sequence.globalLogFilter == [])
            && (s.value.globalLogFilters.Some? ==>
                  var filters := s.value.globalLogFilters.value;
                  |filters| == |st.sequence.globalLogFilter| &&
                  forall i :: 0 <= i < |filters| ==> filters[i].kind == st.sequence.globalLogFilter[i].kind &&
                                                     filters[i].config == Some(st.sequence.globalLogFilter[i].config))
  {
  }

  /** Its options: one for each block, with the date fields too. */
  lemma JobCarriesOptions(st: JobState, i: nat)
    requires AcceptableJob(st) && i < |st.option|
    ensures var c, b := JobOf(st).optionsConfig, st.option[i];
            && c.Some? && c.value.preserveOrder == st.preserveOptionsOrder && |c.value.options| == |st.option|
            && var o := c.value.options[i];
               && o.name == b.name && o.optionLabel == b.optionLabel && o.defaultValue == b.defaultValue
               && o.valueChoicesUrl == b.valueChoicesUrl && o.requirePredefinedChoice == b.requirePredefinedChoice
               && o.validationRegex == b.validationRegex && o.description == b.description
               && o.isRequired == b.required && o.allowsMultipleValues == b.allowMultipleValues
               && o.multiValueDelimiter == b.multiValueDelimiter && o.obscureInput == b.obscureInput
               && o.valueIsExposedToScripts == b.exposedToScripts && o.storagePath == b.storagePath
               && o.isDate == b.isDate && o.dateFormat == b.dateFormat
               && |o.valueChoices| == |b.valueChoices|
               && forall j :: 0 <= j < |o.valueChoices| ==> b.valueChoices[j] == Some(o.valueChoices[j])
  {
  }

  /** The fields of a command, and of the parts that are present. */
  lemma CommandCarriesFields(b: CommandBlock)
    ensures var c := CommandOf(b);
            && c.description == b.description && c.keepGoingOnSuccess == b.keepGoingOnSuccess
            && c.shellCommand == b.shellCommand && c.script == b.inlineScript && c.scriptFile == b.scriptFile
            && c.scriptFileArgs == b.scriptFileArgs && c.fileExtension == ""
    ensures var c := CommandOf(b);
            && c.errorHandler == (if b.errorHandler == [] then None else Some(CommandOf(b.errorHandler[0])))
            && c.scriptInterpreter == (if b.scriptInterpreter == [] then None
                                       else Some(ScriptInterpreter(b.scriptInterpreter[0].invocationString,
                                                                   b.scriptInterpreter[0].argsQuoted)))
            && c.stepPlugin == (if b.stepPlugin == [] then None
                                else Some(Plugin(b.stepPlugin[0].kind, b.stepPlugin[0].config)))
            && c.nodeStepPlugin == (if b.nodeStepPlugin == [] then None
                                    else Some(Plugin(b.nodeStepPlugin[0].kind, b.nodeStepPlugin[0].config)))
    ensures var c := CommandOf(b);
            if b.job == [] then c.job.None?
            else
              && c.job.Some? && c.job.value.name == b.job[0].name && c.job.value.groupName == b.job[0].groupName
              && c.job.value.runForEachNode == b.job[0].runForEachNode && c.job.value.arguments == b.job[0].args
              && c.job.value.importOptions == b.job[0].importOptions && c.job.value.dispatch.None?
              && c.job.value.nodeFilter == if b.job[0].nodeFilters == [] then None
                                           else Some(NodeFilter(b.job[0].nodeFilters[0].filter,
                                                                b.job[0].nodeFilters[0].excludeFilter,
                                                                b.job[0].nodeFilters[0].excludePrecedence))
  {
  }

  /** The fields of a notification: of several emails the first counts, and method and format count only
      beside URLs. */
  lemma NotificationCarriesFields(b: NotificationBlock)
    ensures var n := NotificationOf(b);
            && (if b.email == [] then n.email.None?
                else n.email.Some? && n.email.value.attachLog == b.email[0].attachLog &&
                     n.email.value.recipients == b.email[0].recipients && n.email.value.subject == b.email[0].subject)
            && (if b.webhookUrls == [] then n.webHookUrls.None? && n.httpMethod == "" && n.format == ""
                else n.webHookUrls == Some(b.webhookUrls) && n.httpMethod == b.webhookHttpMethod &&
                     n.format == b.webhookFormat)
            && n.plugin == if b.plugin == [] then None else Some(Plugin(b.plugin[0].kind, b.plugin[0].config))
  {
  }

  /** Blocks are filed under the event that their type names, and no other type is accepted. */
  lemma NotificationIsFiled(bs: seq<NotificationBlock>, b: NotificationBlock)
    requires Acceptable(bs) && b in bs
    ensures var jn := JobNotificationOf(bs);
            && jn.Some?
            && (b.kind == "on_success" ==> jn.value.onSuccess == Some(NotificationOf(b)))
            && (b.kind == "on_failure" ==> jn.value.onFailure == Some(NotificationOf(b)))
            && (b.kind == "on_start" ==> jn.value.onStart == Some(NotificationOf(b)))
  {
    var e := EventOf(b.kind).value;
    SlotIsBlock(bs, e, b);
  }

  lemma SlotIsEmpty(bs: seq<NotificationBlock>, e: Event)
    requires forall b :: b in bs ==> b.kind != EventName(e)
    ensures SlotFor(bs, e).None?
  {
    SlotTaken(bs, e);
  }

  /** An event that no block names has no notification. */
  lemma NothingElseIsFiled(bs: seq<NotificationBlock>)
    requires bs != []
    ensures var jn := JobNotificationOf(bs);
            && jn.Some?
            && ((forall b :: b in bs ==> b.kind != "on_success") ==> jn.value.onSuccess.None?)
            && ((forall b :: b in bs ==> b.kind != "on_failure") ==> jn.value.onFailure.None?)
            && ((forall b :: b in bs ==> b.kind != "on_start") ==> jn.value.onStart.None?)
  {
    if forall b :: b in bs ==> b.kind != "on_success" { SlotIsEmpty(bs, OnSuccess); }
    if forall b :: b in bs ==> b.kind != "on_failure" { SlotIsEmpty(bs, OnFailure); }
    if forall b :: b in bs ==> b.kind != "on_start" { SlotIsEmpty(bs, OnStart); }
  }

  // ---------------------------------------------------------------- What is accepted

  /** `c` is the block itself or one of the error handlers below it, at any depth. */
  ghost predicate Reaches(b: CommandBlock, c: CommandBlock) {
    c == b || exists i :: 0 <= i < |b.errorHandler| && Reaches(b.errorHandler[i], c)
  }

  ghost predicate SingleParts(c: CommandBlock) {
    && |c.errorHandler| <= 1 && |c.scriptInterpreter| <= 1 && |c.job| <= 1 && |c.stepPlugin| <= 1
    && |c.nodeStepPlugin| <= 1 && forall i :: 0 <= i < |c.job| ==> |c.job[i].nodeFilters| <= 1
  }

  /** A tree is accepted exactly when nothing that it reaches has a list of several parts. */
  lemma {:induction false} SingularExactly(b: CommandBlock)
    ensures Singular(b) <==> forall c :: Reaches(b, c) ==> SingleParts(c)
  {
    assert Reaches(b, b);
    forall i | 0 <= i < |b.errorHandler|
      ensures Singular(b.errorHandler[i]) <==> forall c :: Reaches(b.errorHandler[i], c) ==> SingleParts(c)
    {
      SingularExactly(b.errorHandler[i]);
    }
    if forall c :: Reaches(b, c) ==> SingleParts(c) {
      assert SingleParts(b);
      if |b.errorHandler| == 1 {
        forall c | Reaches(b.errorHandler[0], c) ensures SingleParts(c) {
          assert Reaches(b, c);
        }
      }
    }
  }

  predicate KnownType(kind: string) {
    kind == "on_success" || kind == "on_failure" || kind == "on_start"
  }

  /** Blocks are accepted exactly when their types are three known ones, no two alike, and none has
      several plugins; that there are at most three follows. */
  lemma NotificationsAcceptedExactly(bs: seq<NotificationBlock>)
    ensures Acceptable(bs) <==>
            && (forall i :: 0 <= i < |bs| ==> KnownType(bs[i].kind) && |bs[i].plugin| <= 1)
            && (forall i, j :: 0 <= i < j < |bs| ==> bs[i].kind != bs[j].kind)
  {
    EventNames(OnSuccess);
    EventNames(OnFailure);
    EventNames(OnStart);
    if |bs| > 3 {
      var a, b, c, d := bs[0].kind, bs[1].kind, bs[2].kind, bs[3].kind;
      if KnownType(a) && KnownType(b) && KnownType(c) && KnownType(d) {
        assert a == b || a == c || a == d || b == c || b == d || c == d;
      }
    }
  }

  // ---------------------------------------------------------------- From fields to attributes

  /** What a refresh shows of any job: each attribute the field of its name, a fixed value where the job
      leaves out dispatch or node filter, and the old value where it says nothing. */
  lemma RefreshShowsFields(st: JobState, job: JobDetail)
    requires Refreshable(job)
    ensures var a, j := RefreshFrom(st, job), job.settings;
            && a.id == job.id && a.projectName == (if job.projectName == "" then st.projectName else job.projectName)
            && a.settings.name == j.name && a.settings.groupName == j.groupName
            && a.settings.description == j.description && a.settings.executionEnabled == j.executionEnabled
            && a.settings.scheduleEnabled == j.scheduleEnabled && a.settings.timeZone == j.timeZone
            && a.settings.logLevel == j.logLevel && a.settings.retry == j.retry
            && a.settings.allowConcurrentExecutions == j.allowConcurrentExecutions
            && a.timeout == st.timeout && a.successOnEmptyNodeFilter == st.successOnEmptyNodeFilter
    ensures var a := RefreshFrom(st, job).dispatch;
            if job.dispatch.None?
            then a.maxThreadCount == 1 && !a.continueNextNodeOnError && a.rankAttribute == "" &&
                 a.rankOrder == "ascending"
            else a.maxThreadCount == job.dispatch.value.maxThreadCount &&
                 a.continueNextNodeOnError == job.dispatch.value.continueNextNodeOnError &&
                 a.rankAttribute == job.dispatch.value.rankAttribute && a.rankOrder == job.dispatch.value.rankOrder
    ensures var a := RefreshFrom(st, job).nodeFilter;
            if job.nodeFilter.None?
            then a.nodeFilterQuery == "" && a.nodeFilterExcludeQuery == "" && !a.nodeFilterExcludePrecedence
            else a.nodeFilterQuery == job.nodeFilter.value.query &&
                 a.nodeFilterExcludeQuery == job.nodeFilter.value.excludeQuery &&
                 a.nodeFilterExcludePrecedence == job.nodeFilter.value.excludePrecedence
  {
  }

  lemma RefreshShowsLists(st: JobState, job: JobDetail)
    requires Refreshable(job)
    ensures var a := RefreshFrom(st, job);
            && (job.optionsConfig.None? ==> a.option == [] && a.preserveOptionsOrder == st.preserveOptionsOrder)
            && (job.optionsConfig.Some? ==> |a.option| == |job.optionsConfig.value.options| &&
                                            a.preserveOptionsOrder == job.optionsConfig.value.preserveOrder)
            && (job.commandSequence.None? ==> a.sequence == st.sequence)
            && (job.commandSequence.Some? ==>
                  var s := job.commandSequence.value;
                  && a.sequence.continueOnError == s.continueOnError
                  && a.sequence.commandOrderingStrategy == s.orderingStrategy
                  && |a.sequence.command| == |s.commands|
                  && (forall i :: 0 <= i < |s.commands| ==> a.sequence.command[i] == BlockOf(s.commands[i]))
                  && (s.globalLogFilters.Some? && s.globalLogFilters.value != [] ==>
                        var filters, shown := s.globalLogFilters.value, a.sequence.globalLogFilter;
                        |shown| == |filters| &&
                        forall i :: 0 <= i < |shown| ==> shown[i].kind == filters[i].kind &&
                                                         shown[i].config == filters[i].config.value)
                  && (s.globalLogFilters.None? || s.globalLogFilters.value == [] ==>
                        a.sequence.globalLogFilter == st.sequence.globalLogFilter))
            && a.schedule == (if job.schedule.None? then st.schedule else PrintCron(job.schedule.value))
            && (job.notification.None? ==> a.notification == [])
  {
  }

  /** The block that shows an option: everything but the two date fields. */
  lemma RefreshShowsOption(st: JobState, job: JobDetail, i: nat)
    requires Refreshable(job) && job.optionsConfig.Some? && i < |job.optionsConfig.value.options|
    ensures i < |RefreshFrom(st, job).option|
    ensures var b, o := RefreshFrom(st, job).option[i], job.optionsConfig.value.options[i];
            && b.name == o.name && b.optionLabel == o.optionLabel && b.defaultValue == o.defaultValue
            && b.valueChoicesUrl == o.valueChoicesUrl && b.requirePredefinedChoice == o.requirePredefinedChoice
            && b.validationRegex == o.validationRegex && b.description == o.description
            && b.required == o.isRequired && b.allowMultipleValues == o.allowsMultipleValues
            && b.multiValueDelimiter == o.multiValueDelimiter && b.obscureInput == o.obscureInput
            && b.exposedToScripts == o.valueIsExposedToScripts && b.storagePath == o.storagePath
            && !b.isDate && b.dateFormat == "" && |b.valueChoices| == |o.valueChoices|
            && forall j :: 0 <= j < |o.valueChoices| ==> b.valueChoices[j] == Some(o.valueChoices[j])
  {
  }

  /** The types of the blocks shown, success first, then failure, then start. */
  lemma ShownKinds(jn: JobNotification)
    ensures var shown := NotificationBlocks(Some(jn));
            var kinds := seq(|shown|, i requires 0 <= i < |shown| => shown[i].kind);
            kinds == (if jn.onSuccess.Some? then ["on_success"] else []) +
                     (if jn.onFailure.Some? then ["on_failure"] else []) +
                     (if jn.onStart.Some? then ["on_start"] else [])
  {
  }

  /** A command as blocks can express it, at any depth. */
  function Stripped(c: Command): Command {
    c.(fileExtension := "",
       job := if c.job.None? then None else Some(c.job.value.(dispatch := None)),
       errorHandler := if c.errorHandler.None? then None else Some(Stripped(c.errorHandler.value)))
  }

  /** Showing a command loses exactly what blocks cannot express. */
  lemma {:induction false} ShownCommand(c: Command)
    ensures CommandOf(BlockOf(c)) == Stripped(c)
  {
    if c.errorHandler.Some? {
      ShownCommand(c.errorHandler.value);
    }
  }

  /** Showing a notification loses method and format beside no URLs, and an empty list of URLs. */
  lemma ShownNotification(n: Notification, e: Event)
    ensures var back := NotificationOf(ReadNotification(n, EventName(e)));
            && back.email == n.email && back.plugin == n.plugin
            && back.webHookUrls == (if n.webHookUrls == Some([]) then None else n.webHookUrls)
            && back.httpMethod == (if back.webHookUrls.None? then "" else n.httpMethod)
            && back.format == (if back.webHookUrls.None? then "" else n.format)
  {
  }

  // ---------------------------------------------------------------- Applying a job that was read

  /** An option that blocks can express in an acceptable way. */
  predicate ExpressibleOption(o: JobOption) {
    !o.isDate && o.dateFormat == "" && (o.storagePath != "" || o.valueIsExposedToScripts ==> o.obscureInput)
  }

  predicate NormalSlot(n: Option<Notification>) {
    n.Some? ==> Normal(n.value)
  }

  predicate ExpressibleNotification(jn: JobNotification) {
    && (jn.onSuccess.Some? || jn.onFailure.Some? || jn.onStart.Some?)
    && NormalSlot(jn.onSuccess) && NormalSlot(jn.onFailure) && NormalSlot(jn.onStart)
  }

  predicate ExpressibleSchedule(s: Schedule) {
    s.dayOfMonth != "" && s.dayOfWeek != "" && ParseCron(PrintCron(s)).Success?
  }

  /** The sequence is there, its commands have neither file extension nor job-reference dispatch, and its
      log filters are either left out, as in the state, or not an empty list. */
  predicate ExpressibleSequence(before: SequenceFields, sequence: Option<CommandSequence>) {
    && sequence.Some?
    && (forall i :: 0 <= i < |sequence.value.commands| ==> Plain(sequence.value.commands[i]))
    && if sequence.value.globalLogFilters.None? then before.globalLogFilter == []
       else sequence.value.globalLogFilters.value != []
  }

  /** The jobs that, read into a state, are sent back as they are when that state is applied. What a refresh
      does not write, such as the timeout, has to be in the state already. */
  predicate Expressible(st: JobState, job: JobDetail) {
    && (job.projectName != "" || st.projectName == "")
    && job.timeout == st.timeout
    && job.dispatch.Some? && job.dispatch.value.successOnEmptyNodeFilter == st.successOnEmptyNodeFilter
    && job.nodeFilter.Some?
    && ExpressibleSequence(st.sequence, job.commandSequence)
    && ExpressibleOptions(job.optionsConfig)
    && (if job.schedule.None? then st.schedule == "" else ExpressibleSchedule(job.schedule.value))
    && (job.notification.Some? ==> ExpressibleNotification(job.notification.value))
  }

  lemma OptionReappliesExactly(o: JobOption)
    ensures AcceptableOption(OptionBlockOf(o)) && OptionOf(OptionBlockOf(o)) == o <==> ExpressibleOption(o)
  {
    if AcceptableOption(OptionBlockOf(o)) {
      assert ChoicesOf(OptionBlockOf(o).valueChoices) == o.valueChoices;
    }
  }

  predicate AllAcceptable(bs: seq<OptionBlock>) {
    forall i :: 0 <= i < |bs| ==> AcceptableOption(bs[i])
  }

  predicate AllExpressible(options: seq<JobOption>) {
    forall i :: 0 <= i < |options| ==> ExpressibleOption(options[i])
  }

  lemma OptionListReappliesExactly(options: seq<JobOption>)
    ensures AllAcceptable(OptionBlocksOf(options)) && OptionsOf(OptionBlocksOf(options)) == options <==>
            AllExpressible(options)
  {
    var shown := OptionBlocksOf(options);
    forall i | 0 <= i < |options|
      ensures AcceptableOption(shown[i]) && OptionOf(shown[i]) == options[i] <==> ExpressibleOption(options[i])
    {
      OptionReappliesExactly(options[i]);
    }
    if AllAcceptable(shown) && OptionsOf(shown) == options {
      assert forall i :: 0 <= i < |options| ==> OptionsOf(shown)[i] == options[i];
    }
    if AllExpressible(options) {
      assert AllAcceptable(shown);
      assert OptionsOf(shown) == options;
    }
  }

  predicate ExpressibleOptions(config: Option<JobOptions>) {
    config.Some? ==> config.value.options != [] && AllExpressible(config.value.options)
  }

  /** These blocks denote these options. */
  ghost predicate OptionsReapply(kept: bool, shown: seq<OptionBlock>, config: Option<JobOptions>) {
    AllAcceptable(shown) && OptionsConfigOf(kept, shown) == config
  }

  lemma OptionsReapplyExactly(st: JobState, job: JobDetail)
    requires Refreshable(job)
    ensures var after := RefreshFrom(st, job);
            OptionsReapply(after.preserveOptionsOrder, after.option, job.optionsConfig) <==>
            ExpressibleOptions(job.optionsConfig)
  {
    match job.optionsConfig
    case None =>
    case Some(config) =>
      OptionListReappliesExactly(config.options);
  }

  lemma SequenceReappliesExactly(before: SequenceFields, sequence: CommandSequence)
    requires Configured(sequence)
    ensures var shown := SequenceShown(before, sequence);
            && (forall i :: 0 <= i < |shown.command| ==> Singular(shown.command[i]))
            && (SequenceOf(shown) == sequence <==> ExpressibleSequence(before, Some(sequence)))
  {
    var shown := SequenceShown(before, sequence);
    var back := SequenceOf(shown);
    forall i | 0 <= i < |sequence.commands|
      ensures Singular(shown.command[i]) && (back.commands[i] == sequence.commands[i] <==> Plain(sequence.commands[i]))
    {
      CommandSurvivesExactly(sequence.commands[i]);
    }
    assert back.commands == sequence.commands <==>
           forall i :: 0 <= i < |sequence.commands| ==> back.commands[i] == sequence.commands[i];
    if sequence.globalLogFilters.Some? && sequence.globalLogFilters.value != [] {
      assert back.globalLogFilters.value == sequence.globalLogFilters.value;
    }
  }

  lemma ScheduleReappliesExactly(s: Schedule)
    ensures AcceptableSchedule(PrintCron(s)) && ScheduleOf(PrintCron(s)) == Some(s) <==> ExpressibleSchedule(s)
  {
    ParsePrintedExactly(s);
    FillIsIdempotent(s);
    PrintedIsNotEmpty(s);
  }

  lemma SlotReappliesExactly(jn: JobNotification, e: Event)
    ensures SlotFor(NotificationBlocks(Some(jn)), e) == Slot(jn, e) <==> NormalSlot(Slot(jn, e))
  {
    var shown := NotificationBlocks(Some(jn));
    if NormalSlot(Slot(jn, e)) {
      SlotOfShown(jn, e);
    } else {
      var n := Slot(jn, e).value;
      var b := ReadNotification(n, EventName(e));
      ShownIsAcceptable(jn);
      assert b in ShowSlot(Slot(jn, e), e);
      assert b in shown;
      SlotIsBlock(shown, e, b);
      ShownNotification(n, e);
    }
  }

  lemma NotificationsReapplyExactly(jn: JobNotification)
    ensures JobNotificationOf(NotificationBlocks(Some(jn))) == Some(jn) <==> ExpressibleNotification(jn)
    ensures Acceptable(NotificationBlocks(Some(jn)))
  {
    var shown := NotificationBlocks(Some(jn));
    ShownIsAcceptable(jn);
    SlotReappliesExactly(jn, OnSuccess);
    SlotReappliesExactly(jn, OnFailure);
    SlotReappliesExactly(jn, OnStart);
    assert shown == [] <==> jn.onSuccess.None? && jn.onFailure.None? && jn.onStart.None?;
  }

  /** A job reapplies if each of its parts does. */
  lemma ReappliesByParts(st: JobState, job: JobDetail)
    requires Refreshable(job)
    ensures AcceptableJob(RefreshFrom(st, job)) && JobOf(RefreshFrom(st, job)) == job <==>
            && (job.projectName != "" || st.projectName == "")
            && job.timeout == st.timeout
            && job.dispatch.Some? && job.dispatch.value.successOnEmptyNodeFilter == st.successOnEmptyNodeFilter
            && job.nodeFilter.Some?
            && OptionsReapply(RefreshFrom(st, job).preserveOptionsOrder, RefreshFrom(st, job).option, job.optionsConfig)
            && job.commandSequence.Some? && SequenceReapplies(st.sequence, job.commandSequence.value)
            && ScheduleReapplies(st.schedule, job.schedule)
            && NotificationsReapply(job.notification)
  {
    var after := RefreshFrom(st, job);
    FieldsReapplyExactly(st, job);
    assert AcceptableSchedule(after.schedule) && ScheduleOf(after.schedule) == job.schedule <==>
           ScheduleReapplies(st.schedule, job.schedule);
  }

  lemma FieldsReapplyExactly(st: JobState, job: JobDetail)
    requires Refreshable(job)
    ensures var after := RefreshFrom(st, job);
            && (after.projectName == job.projectName <==> job.projectName != "" || st.projectName == "")
            && SettingsOf(after.settings) == job.settings
            && (Some(DispatchOf(after.dispatch, after.successOnEmptyNodeFilter)) == job.dispatch <==>
                job.dispatch.Some? && job.dispatch.value.successOnEmptyNodeFilter == st.successOnEmptyNodeFilter)
            && (Some(NodeFilterOf(after.nodeFilter)) == job.nodeFilter <==> job.nodeFilter.Some?)
  {
  }

  ghost predicate SequenceReapplies(before: SequenceFields, sequence: CommandSequence)
    requires Configured(sequence)
  {
    var shown := SequenceShown(before, sequence);
    (forall i :: 0 <= i < |shown.command| ==> Singular(shown.command[i])) && SequenceOf(shown) == sequence
  }

  ghost predicate ScheduleReapplies(before: string, schedule: Option<Schedule>) {
    var shown := if schedule.Some? then PrintCron(schedule.value) else before;
    AcceptableSchedule(shown) && ScheduleOf(shown) == schedule
  }

  ghost predicate NotificationsReapply(jn: Option<JobNotification>) {
    Acceptable(NotificationBlocks(jn)) && JobNotificationOf(NotificationBlocks(jn)) == jn
  }

  /** Whatever the job and the state: after a refresh, an apply sends the very job that was read exactly
      when that job is expressible. */
  lemma ReapplyExactly(st: JobState, job: JobDetail)
    requires Refreshable(job)
    ensures AcceptableJob(RefreshFrom(st, job)) && JobOf(RefreshFrom(st, job)) == job <==> Expressible(st, job)
  {
    ReappliesByParts(st, job);
    OptionsReapplyExactly(st, job);
    if job.commandSequence.Some? {
      SequenceReappliesExactly(st.sequence, job.commandSequence.value);
    }
    if job.schedule.Some? {
      ScheduleReappliesExactly(job.schedule.value);
    }
    if job.notification.Some? {
      NotificationsReapplyExactly(job.notification.value);
    }
  }
}
