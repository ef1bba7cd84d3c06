/** A job sent to the server and fetched again, as far as the job codecs of the repository decide it:
    comma lists, plugin configurations and log filter configurations. Everything else of the XML
    layer is taken to be faithful. */
module JobWire {
  import opened Wrappers
  import opened MapRange
  import opened CommaLists
  import opened XmlMaps
  import opened LogFilters
  import opened Cron
  import opened JobModel
  import opened JobCommands
  import opened JobNotifications
  import opened JobConversion

  // ---------------------------------------------------------------- Fetched values

  ghost function FetchList(values: seq<string>): seq<string> {
    DecodeField(MarshalAttr(values))
  }

  /** What the decoder makes of a stream that it has the start element of. */
  ghost function DecodeMap(stream: seq<Token>, names: Names): Result<map<string, string>> {
    if end: nat :| StopsAt(stream, 0, end, names) then Success(Entries(stream[..end], names)) else Failure
  }

  /** A plugin configuration: an empty one is not written, so that the field keeps its zero value. */
  ghost function FetchConfig(config: map<string, string>): Result<map<string, string>> {
    var names := PluginNames("configuration");
    if config == map[] then Success(map[])
    else DecodeMap(Body(config, names) + [EndElement(names.start)], names)
  }

  ghost function FetchPlugin(p: Option<Plugin>): Result<Option<Plugin>> {
    if p.None? then Success(None)
    else
      var config :- FetchConfig(p.value.config);
      Success(Some(p.value.(config := config)))
  }

  ghost function FetchCommand(c: Command): Result<Command> {
    var handler :- if c.errorHandler.None? then Success(None)
                   else (var h :- FetchCommand(c.errorHandler.value); Success(Some(h)));
    var stepPlugin :- FetchPlugin(c.stepPlugin);
    var nodeStepPlugin :- FetchPlugin(c.nodeStepPlugin);
    Success(c.(errorHandler := handler, stepPlugin := stepPlugin, nodeStepPlugin := nodeStepPlugin))
  }

  ghost function FetchCommands(cs: seq<Command>): Result<seq<Command>> {
    if cs == [] then Success([])
    else
      var first :- FetchCommand(cs[0]);
      var rest :- FetchCommands(cs[1..]);
      Success([first] + rest)
  }

  /** What the decoder makes of a log filter configuration that it has the start element of. */
  ghost function DecodeLogFilter(stream: seq<Token>, start: string): Result<map<string, string>> {
    if end: nat :| ClosesAt(stream, 0, end, start) then
      ScanNests(stream[0..end]);
      Success(ScanTokens(stream[0..end]).value.entries)
    else Failure
  }

  lemma DecodesWritten(order: seq<string>, config: map<string, string>, start: string)
    requires forall k :: k in order ==> k in config
    ensures DecodeLogFilter(ChildTokens(order, config) + [EndElement(start)], start) == Success(Written(order, config))
  {
    var body := ChildTokens(order, config);
    var stream := body + [EndElement(start)];
    WrittenCloses(order, config, [], start);
    assert stream == body + ([EndElement(start)] + []);
    forall end: nat | ClosesAt(stream, 0, end, start) ensures end == |body| {
      CloseIsUnique(stream, 0, end, |body|, start);
    }
  }

  /** A log filter, for one order in which its configuration is written. An empty configuration is
      not written, so that the pointer stays nil. */
  ghost function FetchLogFilter(f: LogFilter, order: seq<string>): LogFilter
    requires f.config.Some? ==> IsOrder(order, f.config.value.Keys) && forall k :: k in order ==> k in f.config.value
  {
    if f.config.None? || f.config.value == map[] then f.(config := None)
    else
      DecodesWritten(order, f.config.value, "config");
      f.(config := Some(DecodeLogFilter(ChildTokens(order, f.config.value) + [EndElement("config")], "config").value))
  }

  ghost function FetchOption(o: JobOption): JobOption {
    o.(valueChoices := FetchList(o.valueChoices))
  }

  ghost function FetchNotification(n: Notification): Result<Notification> {
    var plugin :- FetchPlugin(n.plugin);
    Success(n.(email := if n.email.None? then None
                        else Some(n.email.value.(recipients := FetchList(n.email.value.recipients))),
               webHookUrls := if n.webHookUrls.None? then None else Some(FetchList(n.webHookUrls.value)),
               plugin := plugin))
  }

  // ---------------------------------------------------------------- What survives

  ghost predicate SafePlugin(p: Option<Plugin>) {
    p.Some? ==> "" !in p.value.config
  }

  ghost predicate SafeCommand(c: Command) {
    (c.errorHandler.Some? ==> SafeCommand(c.errorHandler.value)) &&
    SafePlugin(c.stepPlugin) && SafePlugin(c.nodeStepPlugin)
  }

  ghost predicate SafeNotification(n: Notification) {
    && (n.email.Some? ==> CommaFree(n.email.value.recipients))
    && (n.webHookUrls.Some? ==> CommaFree(n.webHookUrls.value))
    && SafePlugin(n.plugin)
  }

  lemma NothingEndsEarly(config: map<string, string>, tail: seq<Token>, names: Names, end: nat)
    requires Distinguishable(names) && StopsAt(Body(config, names) + tail, 0, end, names)
    ensures end >= |Body(config, names)|
  {
    forall q | 0 <= q < |Body(config, names)| ensures (Body(config, names) + tail)[q] != EndElement(names.start) {
      BodyDoesNotEnd(SortedKeys(config), config, names, q);
    }
  }

  /** An empty key stops the decoder before the end. */
  lemma EmptyKeyStops(config: map<string, string>, suffix: seq<Token>, names: Names)
    requires Distinguishable(names) && "" in config
    ensures forall end: nat :: !StopsAt(Body(config, names) + ([EndElement(names.start)] + suffix), 0, end, names)
  {
    var tail := [EndElement(names.start)] + suffix;
    forall end: nat | StopsAt(Body(config, names) + tail, 0, end, names) ensures false {
      NothingEndsEarly(config, tail, names, end);
      KeyPassed(config, tail, names, "");
    }
  }

  /** A plugin configuration survives if no key is empty; otherwise the job cannot be decoded. */
  lemma FetchConfigExactly(config: map<string, string>)
    ensures FetchConfig(config) == if "" in config then Failure else Success(config)
  {
    var names := PluginNames("configuration");
    if config != map[] {
      var body := Body(config, names);
      var stream := body + [EndElement(names.start)];
      assert stream == body + ([EndElement(names.start)] + []);
      assert |"configuration"| != |"entry"| && |"key"| != |"value"|;
      if "" in config {
        EmptyKeyStops(config, [], names);
      } else {
        MapRoundTripExactly(config, [], names);
        forall end: nat | StopsAt(stream, 0, end, names) ensures end == |body| {
          StopIsUnique(stream, 0, end, |body|, names);
        }
      }
    }
  }

  lemma FetchPluginExactly(p: Option<Plugin>)
    ensures FetchPlugin(p) == if SafePlugin(p) then Success(p) else Failure
  {
    if p.Some? {
      FetchConfigExactly(p.value.config);
    }
  }

  /** A command survives if no plugin in it has an empty key; otherwise the job cannot be decoded. */
  lemma {:induction false} FetchCommandExactly(c: Command)
    ensures FetchCommand(c) == if SafeCommand(c) then Success(c) else Failure
  {
    FetchPluginExactly(c.stepPlugin);
    FetchPluginExactly(c.nodeStepPlugin);
    if c.errorHandler.Some? {
      FetchCommandExactly(c.errorHandler.value);
    }
  }

  lemma {:induction false} FetchCommandsExactly(cs: seq<Command>)
    ensures FetchCommands(cs) == if forall i :: 0 <= i < |cs| ==> SafeCommand(cs[i]) then Success(cs) else Failure
  {
    if cs != [] {
      FetchCommandExactly(cs[0]);
      FetchCommandsExactly(cs[1..]);
      assert cs == [cs[0]] + cs[1..];
      assert (forall i :: 0 <= i < |cs| ==> SafeCommand(cs[i])) <==>
             SafeCommand(cs[0]) && forall i :: 0 <= i < |cs[1..]| ==> SafeCommand(cs[1..][i]) by {
        assert forall i :: 0 < i < |cs| ==> cs[i] == cs[1..][i - 1];
      }
    }
  }

  lemma FetchLogFilterExactly(f: LogFilter, order: seq<string>)
    requires f.config.Some? ==> IsOrder(order, f.config.value.Keys) && forall k :: k in order ==> k in f.config.value
    ensures FetchLogFilter(f, order) == f <==> f.config.Some? ==> f.config.value != map[] && "" !in f.config.value
  {
    if f.config.Some? && f.config.value != map[] {
      DecodesWritten(order, f.config.value, "config");
      WrittenExactly(order, f.config.value);
    }
  }

  lemma FetchNotificationExactly(n: Notification)
    ensures FetchNotification(n).Success? <==> SafePlugin(n.plugin)
    ensures FetchNotification(n) == Success(n) <==> SafeNotification(n)
  {
    FetchPluginExactly(n.plugin);
    if n.email.Some? {
      ListRoundTripExactly(n.email.value.recipients);
    }
    if n.webHookUrls.Some? {
      ListRoundTripExactly(n.webHookUrls.value);
    }
  }

  lemma FetchOptionExactly(o: JobOption)
    ensures FetchOption(o) == o <==> CommaFree(o.valueChoices)
  {
    ListRoundTripExactly(o.valueChoices);
  }

  // ---------------------------------------------------------------- Whole jobs

  /** One writing order for the configuration of every log filter of a job. */
  ghost predicate WriteOrders(filters: Option<seq<LogFilter>>, orders: seq<seq<string>>) {
    filters.Some? ==>
      |orders| == |filters.value| &&
      forall i :: 0 <= i < |orders| && filters.value[i].config.Some? ==>
                    IsOrder(orders[i], filters.value[i].config.value.Keys) &&
                    forall k :: k in orders[i] ==> k in filters.value[i].config.value
  }

  ghost function FetchLogFilters(filters: Option<seq<LogFilter>>, orders: seq<seq<string>>): Option<seq<LogFilter>>
    requires WriteOrders(filters, orders)
  {
    if filters.None? then None
    else Some(seq(|filters.value|, i requires 0 <= i < |filters.value| => FetchLogFilter(filters.value[i], orders[i])))
  }

  ghost function FetchSlot(n: Option<Notification>): Result<Option<Notification>> {
    if n.None? then Success(None)
    else
      var fetched :- FetchNotification(n.value);
      Success(Some(fetched))
  }

  ghost function FetchJobNotification(jn: Option<JobNotification>): Result<Option<JobNotification>> {
    if jn.None? then Success(None)
    else
      var onFailure :- FetchSlot(jn.value.onFailure);
      var onStart :- FetchSlot(jn.value.onStart);
      var onSuccess :- FetchSlot(jn.value.onSuccess);
      Success(Some(JobNotification(onFailure, onStart, onSuccess)))
  }

  ghost function FetchOptions(os: Option<JobOptions>): Option<JobOptions> {
    if os.None? then None
    else Some(os.value.(options := seq(|os.value.options|,
                                       i requires 0 <= i < |os.value.options| => FetchOption(os.value.options[i]))))
  }

  ghost predicate HasOrders(job: JobDetail, orders: seq<seq<string>>) {
    job.commandSequence.Some? ==> WriteOrders(job.commandSequence.value.globalLogFilters, orders)
  }

  ghost function FetchSequence(s: Option<CommandSequence>, orders: seq<seq<string>>): Result<Option<CommandSequence>>
    requires s.Some? ==> WriteOrders(s.value.globalLogFilters, orders)
  {
    if s.None? then Success(None)
    else
      var commands :- FetchCommands(s.value.commands);
      Success(Some(s.value.(commands := commands,
                            globalLogFilters := FetchLogFilters(s.value.globalLogFilters, orders))))
  }

  /** The job that the server hands back, when log filter configurations were written in `orders`. */
  ghost function FetchJob(job: JobDetail, orders: seq<seq<string>>): Result<JobDetail>
    requires HasOrders(job, orders)
  {
    var sequence :- FetchSequence(job.commandSequence, orders);
    var notification :- FetchJobNotification(job.notification);
    Success(job.(commandSequence := sequence, notification := notification,
                 optionsConfig := FetchOptions(job.optionsConfig)))
  }

  ghost predicate SafeSequence(s: CommandSequence) {
    && (forall i :: 0 <= i < |s.commands| ==> SafeCommand(s.commands[i]))
    && (s.globalLogFilters.Some? ==>
          forall i :: 0 <= i < |s.globalLogFilters.value| && s.globalLogFilters.value[i].config.Some? ==>
                        s.globalLogFilters.value[i].config.value != map[] &&
                        "" !in s.globalLogFilters.value[i].config.value)
  }

  ghost predicate SafeSlot(n: Option<Notification>) {
    n.Some? ==> SafeNotification(n.value)
  }

  ghost predicate SafeJobNotification(jn: JobNotification) {
    SafeSlot(jn.onFailure) && SafeSlot(jn.onStart) && SafeSlot(jn.onSuccess)
  }

  ghost predicate SafeOptions(os: JobOptions) {
    forall i :: 0 <= i < |os.options| ==> CommaFree(os.options[i].valueChoices)
  }

  /** No list item with a comma, no configuration entry with an empty key, no log filter with an
      empty configuration. */
  ghost predicate SafeJob(job: JobDetail) {
    && (job.commandSequence.Some? ==> SafeSequence(job.commandSequence.value))
    && (job.notification.Some? ==> SafeJobNotification(job.notification.value))
    && (job.optionsConfig.Some? ==> SafeOptions(job.optionsConfig.value))
  }

  lemma FetchSequenceExactly(s: CommandSequence, orders: seq<seq<string>>)
    requires WriteOrders(s.globalLogFilters, orders)
    ensures FetchSequence(Some(s), orders) == Success(Some(s)) <==> SafeSequence(s)
  {
    FetchCommandsExactly(s.commands);
    if s.globalLogFilters.Some? {
      var filters := s.globalLogFilters.value;
      forall i | 0 <= i < |filters|
        ensures FetchLogFilters(s.globalLogFilters, orders).value[i] == filters[i] <==>
                filters[i].config.Some? ==> filters[i].config.value != map[] && "" !in filters[i].config.value
      {
        FetchLogFilterExactly(filters[i], orders[i]);
      }
      assert FetchLogFilters(s.globalLogFilters, orders).value == filters <==>
             forall i :: 0 <= i < |filters| ==> FetchLogFilters(s.globalLogFilters, orders).value[i] == filters[i];
    }
  }

  lemma FetchSlotExactly(n: Option<Notification>)
    ensures FetchSlot(n).Success? <==> (n.Some? ==> SafePlugin(n.value.plugin))
    ensures FetchSlot(n) == Success(n) <==> SafeSlot(n)
  {
    if n.Some? {
      FetchNotificationExactly(n.value);
    }
  }

  lemma FetchJobNotificationExactly(jn: JobNotification)
    ensures FetchJobNotification(Some(jn)) == Success(Some(jn)) <==> SafeJobNotification(jn)
  {
    FetchSlotExactly(jn.onFailure);
    FetchSlotExactly(jn.onStart);
    FetchSlotExactly(jn.onSuccess);
  }

  lemma FetchOptionsExactly(os: JobOptions)
    ensures FetchOptions(Some(os)) == Some(os) <==> SafeOptions(os)
  {
    var fetched := FetchOptions(Some(os)).value.options;
    forall i | 0 <= i < |os.options| ensures fetched[i] == os.options[i] <==> CommaFree(os.options[i].valueChoices) {
      FetchOptionExactly(os.options[i]);
    }
    assert fetched == os.options <==> forall i :: 0 <= i < |fetched| ==> fetched[i] == os.options[i];
  }

  /** A job comes back from the server as it was sent, for every writing order of its log filters,
      exactly when it is safe. */
  lemma FetchJobExactly(job: JobDetail, orders: seq<seq<string>>)
    requires HasOrders(job, orders)
    ensures FetchJob(job, orders) == Success(job) <==> SafeJob(job)
  {
    if job.commandSequence.Some? {
      FetchSequenceExactly(job.commandSequence.value, orders);
    }
    if job.notification.Some? {
      FetchJobNotificationExactly(job.notification.value);
    }
    if job.optionsConfig.Some? {
      FetchOptionsExactly(job.optionsConfig.value);
    }
  }

  // ---------------------------------------------------------------- When a fetch and a refresh go through

  ghost predicate KeyedSlot(n: Option<Notification>) {
    n.Some? ==> SafePlugin(n.value.plugin)
  }

  ghost predicate KeyedNotification(jn: JobNotification) {
    KeyedSlot(jn.onFailure) && KeyedSlot(jn.onStart) && KeyedSlot(jn.onSuccess)
  }

  /** No plugin of the job has a configuration entry with an empty key. */
  ghost predicate KeyedJob(job: JobDetail) {
    && (job.commandSequence.Some? ==>
          forall i :: 0 <= i < |job.commandSequence.value.commands| ==>
                        SafeCommand(job.commandSequence.value.commands[i]))
    && (job.notification.Some? ==> KeyedNotification(job.notification.value))
  }

  lemma FetchJobNotificationSucceedsExactly(jn: JobNotification)
    ensures FetchJobNotification(Some(jn)).Success? <==> KeyedNotification(jn)
  {
    FetchSlotExactly(jn.onFailure);
    FetchSlotExactly(jn.onStart);
    FetchSlotExactly(jn.onSuccess);
  }

  /** A job that was sent can be decoded again exactly when its plugins are keyed. */
  lemma FetchSucceedsExactly(job: JobDetail, orders: seq<seq<string>>)
    requires HasOrders(job, orders)
    ensures FetchJob(job, orders).Success? <==> KeyedJob(job)
  {
    if job.commandSequence.Some? {
      FetchCommandsExactly(job.commandSequence.value.commands);
    }
    if job.notification.Some? {
      FetchJobNotificationSucceedsExactly(job.notification.value);
    }
  }

  /** No log filter of the state has an empty configuration. */
  ghost predicate FiltersConfigured(st: JobState) {
    forall i :: 0 <= i < |st.sequence.globalLogFilter| ==> st.sequence.globalLogFilter[i].config != map[]
  }

  lemma ConfiguredExactly(s: SequenceFields, orders: seq<seq<string>>)
    requires WriteOrders(SequenceOf(s).globalLogFilters, orders)
    requires FetchSequence(Some(SequenceOf(s)), orders).Success?
    ensures Configured(FetchSequence(Some(SequenceOf(s)), orders).value.value) <==>
            forall i :: 0 <= i < |s.globalLogFilter| ==> s.globalLogFilter[i].config != map[]
  {
    if s.globalLogFilter != [] {
      var filters := SequenceOf(s).globalLogFilters;
      var back := FetchLogFilters(filters, orders).value;
      assert forall i :: 0 <= i < |back| ==> back[i] == FetchLogFilter(filters.value[i], orders[i]);
      assert forall i :: 0 <= i < |back| ==> (back[i].config.Some? <==> s.globalLogFilter[i].config != map[]);
    }
  }

  /** After applying an acceptable state, the job can be fetched and refreshed from exactly when its
      plugins are keyed and no log filter of the state has an empty configuration. */
  lemma RefreshGoesThroughExactly(st: JobState, orders: seq<seq<string>>)
    requires AcceptableJob(st) && HasOrders(JobOf(st), orders)
    ensures var fetched := FetchJob(JobOf(st), orders);
            && (fetched.Success? ==> (Refreshable(fetched.value) <==> FiltersConfigured(st)))
            && (fetched.Success? && Refreshable(fetched.value) <==> KeyedJob(JobOf(st)) && FiltersConfigured(st))
  {
    var fetched := FetchJob(JobOf(st), orders);
    FetchSucceedsExactly(JobOf(st), orders);
    if fetched.Success? {
      ConfiguredExactly(st.sequence, orders);
      assert fetched.value.commandSequence == FetchSequence(Some(SequenceOf(st.sequence)), orders).value;
    }
  }

  /** A job of one shell command, with a log filter whose configuration is empty. */
  function BareLogFilterJob(): JobState {
    var command := CommandBlock("", "echo", "", "", "", [], [], [], [], false, []);
    JobState("id", "project", SettingsFields("name", "", "A job", true, true, "", "INFO", false, ""), "",
             DispatchFields(1, false, "", "ascending"), false, NodeFilterFields("", "", false),
             SequenceFields("node-first", false, [PluginBlock("mask-passwords", map[])], [command]),
             false, [], "", [])
  }

  /** Such a job is accepted and fetched, yet cannot be refreshed from. */
  lemma EmptyLogFilterConfigBreaks()
    ensures AcceptableJob(BareLogFilterJob()) && HasOrders(JobOf(BareLogFilterJob()), [[]])
    ensures var fetched := FetchJob(JobOf(BareLogFilterJob()), [[]]);
            fetched.Success? && !Refreshable(fetched.value)
  {
    var st := BareLogFilterJob();
    assert st.sequence.globalLogFilter[0].config == map[];
    RefreshGoesThroughExactly(st, [[]]);
    FetchSucceedsExactly(JobOf(st), [[]]);
  }

  // ---------------------------------------------------------------- Apply, fetch, refresh

  lemma FiltersUnchanged(bs: seq<PluginBlock>, orders: seq<seq<string>>)
    requires WriteOrders(Some(LogFiltersOf(bs)), orders)
    requires var back := FetchLogFilters(Some(LogFiltersOf(bs)), orders).value;
             (forall i :: 0 <= i < |back| ==> back[i].config.Some?) && LogFilterBlocksOf(back) == bs
    ensures forall i :: 0 <= i < |bs| ==> bs[i].config != map[] && "" !in bs[i].config
  {
    var filters := LogFiltersOf(bs);
    var back := FetchLogFilters(Some(filters), orders).value;
    forall i | 0 <= i < |bs| ensures bs[i].config != map[] && "" !in bs[i].config {
      assert LogFilterBlocksOf(back)[i] == bs[i];
      assert back[i] == FetchLogFilter(filters[i], orders[i]);
      FetchLogFilterExactly(filters[i], orders[i]);
    }
  }

  lemma SequenceUnchangedIsSafe(s: SequenceFields, orders: seq<seq<string>>)
    requires WriteOrders(SequenceOf(s).globalLogFilters, orders)
    requires var back := FetchSequence(Some(SequenceOf(s)), orders);
             back.Success? && Configured(back.value.value) && SequenceShown(s, back.value.value) == s
    ensures SafeSequence(SequenceOf(s))
  {
    FetchCommandsExactly(SequenceOf(s).commands);
    if s.globalLogFilter != [] {
      FiltersUnchanged(s.globalLogFilter, orders);
    }
  }

  lemma ChoicesUnchanged(b: OptionBlock)
    requires AcceptableOption(b) && OptionBlockOf(FetchOption(OptionOf(b))).valueChoices == b.valueChoices
    ensures CommaFree(OptionOf(b).valueChoices)
  {
    var choices := OptionOf(b).valueChoices;
    var back := FetchList(choices);
    var shown := OptionBlockOf(FetchOption(OptionOf(b))).valueChoices;
    assert |back| == |shown| == |choices|;
    forall i | 0 <= i < |choices| ensures back[i] == choices[i] {
      assert shown[i] == Some(back[i]) && b.valueChoices[i] == Some(choices[i]);
    }
    assert back == choices;
    ListRoundTripExactly(choices);
  }

  lemma OptionsUnchangedAreSafe(preserve: bool, bs: seq<OptionBlock>)
    requires bs != [] && forall i :: 0 <= i < |bs| ==> AcceptableOption(bs[i])
    requires OptionBlocksOf(FetchOptions(OptionsConfigOf(preserve, bs)).value.options) == bs
    ensures SafeOptions(OptionsConfigOf(preserve, bs).value)
  {
    var options := FetchOptions(OptionsConfigOf(preserve, bs)).value.options;
    forall i | 0 <= i < |bs| ensures CommaFree(OptionOf(bs[i]).valueChoices) {
      assert OptionBlocksOf(options)[i] == bs[i];
      assert options[i] == FetchOption(OptionOf(bs[i]));
      ChoicesUnchanged(bs[i]);
    }
  }

  lemma FetchedIsNormal(n: Notification)
    requires Normal(n) && FetchNotification(n).Success?
    ensures Normal(FetchNotification(n).value)
  {
  }

  lemma {:induction false} SlotIsNormal(bs: seq<NotificationBlock>, e: Event)
    ensures SlotFor(bs, e).Some? ==> Normal(SlotFor(bs, e).value)
  {
    if bs != [] {
      SlotIsNormal(bs[..|bs| - 1], e);
    }
  }

  lemma SlotUnchanged(bs: seq<NotificationBlock>, back: JobNotification, e: Event)
    requires bs != [] && NotificationBlocks(Some(back)) == bs
    requires FetchSlot(SlotFor(bs, e)) == Success(Slot(back, e))
    ensures Slot(back, e) == SlotFor(bs, e)
  {
    SlotIsNormal(bs, e);
    if SlotFor(bs, e).Some? {
      FetchedIsNormal(SlotFor(bs, e).value);
    }
    SlotOfShown(back, e);
  }

  lemma NotificationsUnchangedAreSafe(bs: seq<NotificationBlock>)
    requires bs != [] && FetchJobNotification(JobNotificationOf(bs)).Success?
    requires NotificationBlocks(FetchJobNotification(JobNotificationOf(bs)).value) == bs
    ensures SafeJobNotification(JobNotificationOf(bs).value)
  {
    var back := FetchJobNotification(JobNotificationOf(bs)).value.value;
    SlotUnchanged(bs, back, OnSuccess);
    SlotUnchanged(bs, back, OnFailure);
    SlotUnchanged(bs, back, OnStart);
    FetchJobNotificationExactly(JobNotificationOf(bs).value);
  }

  /** Apply, fetch and refresh go through and leave the resource state as it is. */
  ghost predicate LeavesAlone(st: JobState, orders: seq<seq<string>>)
    requires AcceptableJob(st) && HasOrders(JobOf(st), orders)
  {
    var fetched := FetchJob(JobOf(st), orders);
    fetched.Success? && Refreshable(fetched.value) && RefreshFrom(st, fetched.value) == st
  }

  lemma UnchangedIsSafe(st: JobState, orders: seq<seq<string>>)
    requires AcceptableJob(st) && HasOrders(JobOf(st), orders) && LeavesAlone(st, orders)
    ensures SafeJob(JobOf(st))
  {
    SequenceUnchangedIsSafe(st.sequence, orders);
    if st.option != [] {
      OptionsUnchangedAreSafe(st.preserveOptionsOrder, st.option);
    }
    if st.notification != [] {
      NotificationsUnchangedAreSafe(st.notification);
    }
  }

  /** Apply, fetch, refresh: for every writing order of the log filters, the resource state is left
      alone exactly when the job it denotes is safe and the state itself is in the form that a
      refresh writes. */
  lemma ApplyFetchRefreshExactly(st: JobState, orders: seq<seq<string>>)
    requires AcceptableJob(st) && HasOrders(JobOf(st), orders)
    ensures LeavesAlone(st, orders) <==>
            SafeJob(JobOf(st)) && DateFree(st.option) && DaysGiven(st.schedule) &&
            Ordered(st.notification) && forall b :: b in st.notification ==> Clean(b)
  {
    JobIsRefreshable(st);
    FetchJobExactly(JobOf(st), orders);
    NoDifferenceExactly(st);
    if LeavesAlone(st, orders) {
      UnchangedIsSafe(st, orders);
    }
  }

  // ---------------------------------------------------------------- One round settles a job

  lemma FetchedListIsCommaFree(values: seq<string>)
    ensures CommaFree(FetchList(values))
  {
  }

  lemma FetchedOptionSettles(b: OptionBlock)
    requires AcceptableOption(b)
    ensures var shown := OptionBlockOf(FetchOption(OptionOf(b)));
            AcceptableOption(shown) && !shown.isDate && shown.dateFormat == "" &&
            CommaFree(OptionOf(shown).valueChoices)
  {
    var values := FetchList(OptionOf(b).valueChoices);
    var shown := OptionBlockOf(FetchOption(OptionOf(b)));
    FetchedListIsCommaFree(OptionOf(b).valueChoices);
    assert OptionOf(shown).valueChoices == values;
  }

  lemma FetchedOptionsSettle(preserve: bool, bs: seq<OptionBlock>)
    requires bs != [] && forall i :: 0 <= i < |bs| ==> AcceptableOption(bs[i])
    ensures var shown := OptionBlocksOf(FetchOptions(OptionsConfigOf(preserve, bs)).value.options);
            && (forall i :: 0 <= i < |shown| ==> AcceptableOption(shown[i]))
            && DateFree(shown) && shown != [] && SafeOptions(OptionsConfigOf(preserve, shown).value)
  {
    var options := FetchOptions(OptionsConfigOf(preserve, bs)).value.options;
    var shown := OptionBlocksOf(options);
    forall i | 0 <= i < |bs|
      ensures AcceptableOption(shown[i]) && !shown[i].isDate && shown[i].dateFormat == ""
      ensures CommaFree(OptionOf(shown[i]).valueChoices)
    {
      assert options[i] == FetchOption(OptionOf(bs[i]));
      FetchedOptionSettles(bs[i]);
    }
  }

  lemma FetchedFilterSettles(f: LogFilter, order: seq<string>)
    requires f.config.Some? ==> IsOrder(order, f.config.value.Keys) && forall k :: k in order ==> k in f.config.value
    requires FetchLogFilter(f, order).config.Some?
    ensures FetchLogFilter(f, order).config.value != map[] && "" !in FetchLogFilter(f, order).config.value
  {
    DecodesWritten(order, f.config.value, "config");
    WrittenNames(order, f.config.value);
    assert order != [] by {
      var k :| k in f.config.value;
      assert k in Elements(order);
    }
    assert ElementName(order[|order| - 1]) in Written(order, f.config.value);
  }

  lemma FetchedSequenceSettles(s: SequenceFields, orders: seq<seq<string>>)
    requires WriteOrders(SequenceOf(s).globalLogFilters, orders)
    requires forall i :: 0 <= i < |s.command| ==> Singular(s.command[i])
    requires var back := FetchSequence(Some(SequenceOf(s)), orders); back.Success? && Configured(back.value.value)
    ensures var shown := SequenceShown(s, FetchSequence(Some(SequenceOf(s)), orders).value.value);
            shown.command == s.command && SafeSequence(SequenceOf(shown))
  {
    FetchCommandsExactly(SequenceOf(s).commands);
    SequenceUnchanged(s);
    var back := FetchSequence(Some(SequenceOf(s)), orders).value.value;
    assert back.commands == SequenceOf(s).commands;
    if s.globalLogFilter != [] {
      var filters := back.globalLogFilters.value;
      forall i | 0 <= i < |filters| ensures filters[i].config.value != map[] && "" !in filters[i].config.value {
        assert filters[i] == FetchLogFilter(LogFiltersOf(s.globalLogFilter)[i], orders[i]);
        FetchedFilterSettles(LogFiltersOf(s.globalLogFilter)[i], orders[i]);
      }
    }
  }

  lemma FetchedSlotSettles(bs: seq<NotificationBlock>, e: Event)
    requires FetchSlot(SlotFor(bs, e)).Success?
    ensures var back := FetchSlot(SlotFor(bs, e)).value;
            SafeSlot(back) && (back.Some? ==> Normal(back.value))
  {
    SlotIsNormal(bs, e);
    FetchSlotExactly(SlotFor(bs, e));
    if SlotFor(bs, e).Some? {
      var n := SlotFor(bs, e).value;
      FetchedIsNormal(n);
      FetchPluginExactly(n.plugin);
      if n.email.Some? {
        FetchedListIsCommaFree(n.email.value.recipients);
      }
      if n.webHookUrls.Some? {
        FetchedListIsCommaFree(n.webHookUrls.value);
      }
    }
  }

  /** Normal notifications are shown by clean blocks that denote them. */
  lemma NormalSlotsSettle(jn: JobNotification)
    requires forall e :: Slot(jn, e).Some? ==> Normal(Slot(jn, e).value)
    requires SafeJobNotification(jn)
    ensures var shown := NotificationBlocks(Some(jn));
            && Acceptable(shown) && Ordered(shown) && (forall b :: b in shown ==> Clean(b))
            && (JobNotificationOf(shown).Some? ==> SafeJobNotification(JobNotificationOf(shown).value))
  {
    var shown := NotificationBlocks(Some(jn));
    ShownIsAcceptable(jn);
    forall b | b in shown ensures Clean(b) {
      var e := ShownKind(jn, b);
      assert Normal(Slot(jn, e).value);
    }
    SlotOfShown(jn, OnSuccess);
    SlotOfShown(jn, OnFailure);
    SlotOfShown(jn, OnStart);
    assert Slot(jn, OnSuccess) == jn.onSuccess && Slot(jn, OnFailure) == jn.onFailure &&
           Slot(jn, OnStart) == jn.onStart;
  }

  lemma FetchedNotificationsSettle(bs: seq<NotificationBlock>)
    requires FetchJobNotification(JobNotificationOf(bs)).Success?
    ensures var shown := NotificationBlocks(FetchJobNotification(JobNotificationOf(bs)).value);
            && Acceptable(shown) && Ordered(shown) && (forall b :: b in shown ==> Clean(b))
            && (JobNotificationOf(shown).Some? ==> SafeJobNotification(JobNotificationOf(shown).value))
  {
    if bs != [] {
      var back := FetchJobNotification(JobNotificationOf(bs)).value.value;
      FetchedSlotSettles(bs, OnSuccess);
      FetchedSlotSettles(bs, OnFailure);
      FetchedSlotSettles(bs, OnStart);
      assert back == JobNotification(FetchSlot(SlotFor(bs, OnFailure)).value, FetchSlot(SlotFor(bs, OnStart)).value,
                                     FetchSlot(SlotFor(bs, OnSuccess)).value);
      forall e ensures Slot(back, e).Some? ==> Normal(Slot(back, e).value) {
        match e
        case OnSuccess =>
        case OnFailure =>
        case OnStart =>
      }
      NormalSlotsSettle(back);
    }
  }

  /** The parts of the state after one round that bear on acceptance and safety. */
  lemma FetchedParts(st: JobState, orders: seq<seq<string>>)
    requires AcceptableJob(st) && HasOrders(JobOf(st), orders)
    requires var fetched := FetchJob(JobOf(st), orders); fetched.Success? && Refreshable(fetched.value)
    ensures var sequence := FetchSequence(Some(SequenceOf(st.sequence)), orders);
            var notification := FetchJobNotification(JobNotificationOf(st.notification));
            var after := RefreshFrom(st, FetchJob(JobOf(st), orders).value);
            && sequence.Success? && notification.Success? && Configured(sequence.value.value)
            && after.sequence == SequenceShown(st.sequence, sequence.value.value)
            && after.notification == NotificationBlocks(notification.value)
            && after.option == (if st.option == [] then []
                                else OptionBlocksOf(FetchOptions(
                                      OptionsConfigOf(st.preserveOptionsOrder, st.option)).value.options))
            && after.schedule == (if st.schedule == "" then "" else PrintCron(ParseCron(st.schedule).value))
  {
  }

  lemma SafeParts(st: JobState)
    requires AcceptableJob(st)
    requires SafeSequence(SequenceOf(st.sequence))
    requires st.option != [] ==> SafeOptions(OptionsConfigOf(st.preserveOptionsOrder, st.option).value)
    requires var jn := JobNotificationOf(st.notification); jn.Some? ==> SafeJobNotification(jn.value)
    ensures SafeJob(JobOf(st))
  {
  }

  /** The state after one round is acceptable if the schedule was printable, and then safe and clean. */
  lemma FetchedStateSettles(st: JobState, after: JobState, orders: seq<seq<string>>)
    requires AcceptableJob(st) && HasOrders(JobOf(st), orders)
    requires var fetched := FetchJob(JobOf(st), orders);
             fetched.Success? && Refreshable(fetched.value) && after == RefreshFrom(st, fetched.value)
    ensures AcceptableJob(after) <==> DaysGiven(st.schedule)
    ensures AcceptableJob(after) ==>
              SafeJob(JobOf(after)) && DateFree(after.option) && DaysGiven(after.schedule) &&
              Ordered(after.notification) && forall b :: b in after.notification ==> Clean(b)
  {
    FetchedParts(st, orders);
    FetchedSequenceSettles(st.sequence, orders);
    FetchedNotificationsSettle(st.notification);
    ShownScheduleExactly(st.schedule);
    if st.option != [] {
      FetchedOptionsSettle(after.preserveOptionsOrder, st.option);
      assert FetchOptions(OptionsConfigOf(after.preserveOptionsOrder, st.option)).value.options ==
             FetchOptions(OptionsConfigOf(st.preserveOptionsOrder, st.option)).value.options;
    }
    if AcceptableJob(after) {
      SafeParts(after);
    }
  }

  /** One round settles a job: whatever was applied, if the job can be fetched and refreshed from, the
      state that is then read can be applied exactly when the schedule had both its day fields; and from
      then on apply, fetch and refresh leave it alone, for every writing order. */
  lemma OneRoundSettlesExactly(st: JobState, orders: seq<seq<string>>)
    requires AcceptableJob(st) && HasOrders(JobOf(st), orders)
    requires var fetched := FetchJob(JobOf(st), orders); fetched.Success? && Refreshable(fetched.value)
    ensures var after := RefreshFrom(st, FetchJob(JobOf(st), orders).value);
            && (AcceptableJob(after) <==> DaysGiven(st.schedule))
            && (AcceptableJob(after) ==> forall again :: HasOrders(JobOf(after), again) ==> LeavesAlone(after, again))
  {
    var after := RefreshFrom(st, FetchJob(JobOf(st), orders).value);
    FetchedStateSettles(st, after, orders);
    if AcceptableJob(after) {
      forall again | HasOrders(JobOf(after), again) ensures LeavesAlone(after, again) {
        ApplyFetchRefreshExactly(after, again);
      }
    }
  }
}
