/** Command trees: between nested single-element blocks and optional parts. */
module JobCommands {
  import opened Wrappers
  import opened JobModel

  // ---------------------------------------------------------------- Meaning

  /** No list that stands for an optional part has more than one element, anywhere in the tree. */
  predicate Singular(b: CommandBlock) {
    && |b.errorHandler| <= 1 && (|b.errorHandler| == 1 ==> Singular(b.errorHandler[0]))
    && |b.scriptInterpreter| <= 1
    && |b.job| <= 1 && (|b.job| == 1 ==> |b.job[0].nodeFilters| <= 1)
    && |b.stepPlugin| <= 1
    && |b.nodeStepPlugin| <= 1
  }

  function PluginOf(blocks: seq<PluginBlock>): Option<Plugin> {
    if blocks == [] then None else Some(Plugin(blocks[0].kind, blocks[0].config))
  }

  function JobRefOf(blocks: seq<JobRefBlock>): Option<JobRef> {
    if blocks == [] then None
    else
      var b := blocks[0];
      var filter := if b.nodeFilters == [] then None
                    else Some(NodeFilter(b.nodeFilters[0].filter, b.nodeFilters[0].excludeFilter,
                                    b.nodeFilters[0].excludePrecedence));
      Some(JobRef(b.name, b.groupName, b.runForEachNode, None, filter, b.args, b.importOptions))
  }

  /** The command that a tree of blocks denotes. */
  function CommandOf(b: CommandBlock): Command {
    Command(b.description, b.keepGoingOnSuccess,
            if b.errorHandler == [] then None else Some(CommandOf(b.errorHandler[0])),
            b.shellCommand, "", b.inlineScript, b.scriptFile, b.scriptFileArgs,
            if b.scriptInterpreter == [] then None
            else Some(ScriptInterpreter(b.scriptInterpreter[0].invocationString, b.scriptInterpreter[0].argsQuoted)),
            JobRefOf(b.job), PluginOf(b.stepPlugin), PluginOf(b.nodeStepPlugin))
  }

  function PluginBlocks(p: Option<Plugin>): seq<PluginBlock> {
    if p.None? then [] else [PluginBlock(p.value.kind, p.value.config)]
  }

  function JobRefBlocks(j: Option<JobRef>): seq<JobRefBlock> {
    if j.None? then []
    else
      var r := j.value;
      var filters := if r.nodeFilter.None? then []
                     else [NodeFilterBlock(r.nodeFilter.value.excludePrecedence, r.nodeFilter.value.query,
                                           r.nodeFilter.value.excludeQuery)];
      [JobRefBlock(r.name, r.groupName, r.runForEachNode, r.importOptions, r.arguments, filters)]
  }

  /** The tree of blocks that shows a command. */
  function BlockOf(c: Command): CommandBlock {
    CommandBlock(c.description, c.shellCommand, c.script, c.scriptFile, c.scriptFileArgs,
                 if c.scriptInterpreter.None? then []
                 else [InterpreterBlock(c.scriptInterpreter.value.invocationString,
                                        c.scriptInterpreter.value.argsQuoted)],
                 JobRefBlocks(c.job), PluginBlocks(c.stepPlugin), PluginBlocks(c.nodeStepPlugin),
                 c.keepGoingOnSuccess,
                 if c.errorHandler.None? then [] else [BlockOf(c.errorHandler.value)])
  }

  /** Commands without the parts that blocks cannot express, anywhere in the tree. */
  predicate Plain(c: Command) {
    && c.fileExtension == ""
    && (c.job.Some? ==> c.job.value.dispatch.None?)
    && (c.errorHandler.Some? ==> Plain(c.errorHandler.value))
  }

  lemma PartsSurvive(p: Option<Plugin>, j: Option<JobRef>)
    ensures |PluginBlocks(p)| <= 1 && PluginOf(PluginBlocks(p)) == p
    ensures |JobRefBlocks(j)| <= 1 && (|JobRefBlocks(j)| == 1 ==> |JobRefBlocks(j)[0].nodeFilters| <= 1)
    ensures JobRefOf(JobRefBlocks(j)) == j <==> (j.Some? ==> j.value.dispatch.None?)
  {
  }

  lemma PartBlocksSurvive(p: seq<PluginBlock>, j: seq<JobRefBlock>)
    requires |p| <= 1 && |j| <= 1 && (|j| == 1 ==> |j[0].nodeFilters| <= 1)
    ensures PluginBlocks(PluginOf(p)) == p
    ensures JobRefBlocks(JobRefOf(j)) == j
    ensures JobRefOf(j).Some? ==> JobRefOf(j).value.dispatch.None?
  {
    if j != [] {
      assert j[0].nodeFilters == if j[0].nodeFilters == [] then [] else [j[0].nodeFilters[0]];
      assert JobRefBlocks(JobRefOf(j))[0] == j[0];
    }
  }

  /** From blocks and back: nothing changes, at any depth. */
  lemma {:induction false} BlockSurvives(b: CommandBlock)
    requires Singular(b)
    ensures BlockOf(CommandOf(b)) == b && Plain(CommandOf(b))
  {
    PartBlocksSurvive(b.stepPlugin, b.job);
    PartBlocksSurvive(b.nodeStepPlugin, b.job);
    var back := BlockOf(CommandOf(b));
    if b.errorHandler != [] {
      BlockSurvives(b.errorHandler[0]);
    }
    assert back.errorHandler == b.errorHandler;
    assert back.scriptInterpreter == b.scriptInterpreter;
  }

  /** To blocks and back: the blocks are always accepted, and the command comes back exactly when it
      is plain. */
  lemma {:induction false} CommandSurvivesExactly(c: Command)
    ensures Singular(BlockOf(c))
    ensures CommandOf(BlockOf(c)) == c <==> Plain(c)
  {
    PartsSurvive(c.stepPlugin, c.job);
    PartsSurvive(c.nodeStepPlugin, c.job);
    var back := CommandOf(BlockOf(c));
    if c.errorHandler.Some? {
      CommandSurvivesExactly(c.errorHandler.value);
      assert back.errorHandler == Some(CommandOf(BlockOf(c.errorHandler.value)));
    }
    assert back == c.(fileExtension := "", job := JobRefOf(JobRefBlocks(c.job)), errorHandler := back.errorHandler);
  }

  // ---------------------------------------------------------------- The converters

  /** A configuration block copied entry by entry. */
  method CopyConfig(configI: map<string, string>) returns (config: map<string, string>)
    ensures config == configI
  {
    config := map[];
    var todo := configI.Keys;
    while todo != {}
      invariant todo <= configI.Keys
      invariant config == configI - todo
    {
      var key :| key in todo;
      todo := todo - {key};
      config := config[key := configI[key]];
    }
  }

  /** `singlePluginFromResourceData`. */
  method SinglePluginFromResourceData(stepPlugins: seq<PluginBlock>) returns (r: Result<Option<Plugin>>)
    ensures r == if |stepPlugins| > 1 then Failure else Success(PluginOf(stepPlugins))
  {
    if |stepPlugins| > 1 {
      return Failure;
    }
    if |stepPlugins| == 0 {
      return Success(None);
    }
    var config := CopyConfig(stepPlugins[0].config);
    return Success(Some(Plugin(stepPlugins[0].kind, config)));
  }

  /** `jobCommandJobRefFromResourceData`. */
  method JobRefFromResourceData(jobRefs: seq<JobRefBlock>) returns (r: Result<Option<JobRef>>)
    ensures r == if |jobRefs| > 1 || (|jobRefs| == 1 && |jobRefs[0].nodeFilters| > 1) then Failure
                 else Success(JobRefOf(jobRefs))
  {
    if |jobRefs| > 1 {
      return Failure;
    }
    if |jobRefs| == 0 {
      return Success(None);
    }
    var b := jobRefs[0];
    var jobRef := JobRef(b.name, b.groupName, b.runForEachNode, None, None, b.args, b.importOptions);
    if |b.nodeFilters| > 1 {
      return Failure;
    }
    if |b.nodeFilters| > 0 {
      var f := b.nodeFilters[0];
      jobRef := jobRef.(nodeFilter := Some(NodeFilter(f.filter, f.excludeFilter, f.excludePrecedence)));
    }
    return Success(Some(jobRef));
  }

  /** `commandFromResourceData`: it succeeds exactly on singular trees. */
  method CommandFromResourceData(b: CommandBlock) returns (r: Result<Command>)
    ensures r.Success? <==> Singular(b)
    ensures r.Success? ==> r.value == CommandOf(b)
    decreases b
  {
    var command := Command(b.description, b.keepGoingOnSuccess, None, b.shellCommand, "", b.inlineScript,
                           b.scriptFile, b.scriptFileArgs, None, None, None, None);
    if |b.errorHandler| > 1 {
      return Failure;
    }
    if |b.errorHandler| > 0 {
      var errorHandler :- CommandFromResourceData(b.errorHandler[0]);
      command := command.(errorHandler := Some(errorHandler));
    }
    if |b.scriptInterpreter| > 1 {
      return Failure;
    }
    if |b.scriptInterpreter| > 0 {
      var i := b.scriptInterpreter[0];
      command := command.(scriptInterpreter := Some(ScriptInterpreter(i.invocationString, i.argsQuoted)));
    }
    var job :- JobRefFromResourceData(b.job);
    var stepPlugin :- SinglePluginFromResourceData(b.stepPlugin);
    var nodeStepPlugin :- SinglePluginFromResourceData(b.nodeStepPlugin);
    command := command.(job := job, stepPlugin := stepPlugin, nodeStepPlugin := nodeStepPlugin);
    return Success(command);
  }

  /** `commandToResourceData`. */
  method CommandToResourceData(c: Command) returns (b: CommandBlock)
    ensures b == BlockOf(c)
    decreases c
  {
    b := CommandBlock(c.description, c.shellCommand, c.script, c.scriptFile, c.scriptFileArgs, [], [], [], [],
                      c.keepGoingOnSuccess, []);
    if c.errorHandler.Some? {
      var errorHandler := CommandToResourceData(c.errorHandler.value);
      b := b.(errorHandler := [errorHandler]);
    }
    if c.scriptInterpreter.Some? {
      var i := c.scriptInterpreter.value;
      b := b.(scriptInterpreter := [InterpreterBlock(i.invocationString, i.argsQuoted)]);
    }
    if c.job.Some? {
      var j := c.job.value;
      var jobRef := JobRefBlock(j.name, j.groupName, j.runForEachNode, j.importOptions, j.arguments, []);
      if j.nodeFilter.Some? {
        var f := j.nodeFilter.value;
        jobRef := jobRef.(nodeFilters := [NodeFilterBlock(f.excludePrecedence, f.query, f.excludeQuery)]);
      }
      b := b.(job := [jobRef]);
    }
    if c.stepPlugin.Some? {
      b := b.(stepPlugin := [PluginBlock(c.stepPlugin.value.kind, c.stepPlugin.value.config)]);
    }
    if c.nodeStepPlugin.Some? {
      b := b.(nodeStepPlugin := [PluginBlock(c.nodeStepPlugin.value.kind, c.nodeStepPlugin.value.config)]);
    }
  }
}
